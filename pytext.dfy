/**
 * The pieces of Python's string semantics that the pipeline relies on:
 * whitespace and word characters, `lower()`/`upper()`, `strip()`,
 * the `in` substring test, prefix slicing `s[:n]`, and `split`/`join`
 * on a separator.
 */
module PyText {

  /** Python's whitespace characters (`str.isspace`, and `\s` in a `str` pattern). */
  predicate IsSpace(c: char) {
    var n := c as int;
    n == 0x20 || 0x09 <= n <= 0x0D || 0x1C <= n <= 0x1F || n == 0x85 || n == 0xA0 || n == 0x1680
    || 0x2000 <= n <= 0x200A || n == 0x2028 || n == 0x2029 || n == 0x202F || n == 0x205F || n == 0x3000
  }

  /** `\w`, restricted to ASCII: letters, digits and the underscore. */
  predicate IsWordChar(c: char) {
    'a' <= c <= 'z' || 'A' <= c <= 'Z' || '0' <= c <= '9' || c == '_'
  }

  function LowerChar(c: char): char {
    if 'A' <= c <= 'Z' then (c as int + 32) as char else c
  }

  function UpperChar(c: char): char {
    if 'a' <= c <= 'z' then (c as int - 32) as char else c
  }

  /** `s.lower()` */
  function Lower(s: string): (r: string)
    ensures |r| == |s|
    ensures forall i :: 0 <= i < |s| ==> r[i] == LowerChar(s[i])
  {
    seq(|s|, i requires 0 <= i < |s| => LowerChar(s[i]))
  }

  /** `s.upper()` */
  function Upper(s: string): (r: string)
    ensures |r| == |s|
    ensures forall i :: 0 <= i < |s| ==> r[i] == UpperChar(s[i])
  {
    seq(|s|, i requires 0 <= i < |s| => UpperChar(s[i]))
  }

  /** Lower-casing a lower-cased text changes nothing. */
  lemma LowerIdempotent(s: string)
    ensures Lower(Lower(s)) == Lower(s)
  {
    assert forall i :: 0 <= i < |s| ==> LowerChar(LowerChar(s[i])) == LowerChar(s[i]);
  }

  /** Drops leading whitespace. */
  function TrimLeft(s: string): (r: string)
    ensures |r| <= |s| && r == s[|s| - |r|..]
    ensures r == [] || !IsSpace(r[0])
    ensures forall i :: 0 <= i < |s| - |r| ==> IsSpace(s[i])
    decreases |s|
  {
    if s != [] && IsSpace(s[0]) then TrimLeft(s[1..]) else s
  }

  /** Drops trailing whitespace. */
  function TrimRight(s: string): (r: string)
    ensures |r| <= |s| && r == s[..|r|]
    ensures r == [] || !IsSpace(r[|r| - 1])
    ensures forall i :: |r| <= i < |s| ==> IsSpace(s[i])
    decreases |s|
  {
    if s != [] && IsSpace(s[|s| - 1]) then TrimRight(s[..|s| - 1]) else s
  }

  /** Every character of a slice occurs in the whole text. */
  lemma SliceMembers(s: string, a: nat, b: nat)
    requires a <= b <= |s|
    ensures forall c :: c in s[a..b] ==> c in s
  {
    forall c | c in s[a..b] ensures c in s {
      var j :| 0 <= j < b - a && s[a..b][j] == c;
      assert s[a + j] == c;
    }
  }

  /** `s.strip()`: the text between the leading and the trailing whitespace. */
  function Strip(s: string): (r: string)
    ensures StrippedOf(r, s, |s| - |TrimLeft(s)|)
  {
    StripTrims(s, TrimLeft(s), TrimRight(TrimLeft(s)));
    TrimRight(TrimLeft(s))
  }

  /**
   * What `s.strip()` promises, with `lead` the length of the leading
   * whitespace: `r` is the slice of `s` after it, only whitespace
   * surrounds that slice, the slice has no outer whitespace, no character
   * is added, and a text without outer whitespace is kept whole.
   */
  ghost predicate StrippedOf(r: string, s: string, lead: int) {
    && 0 <= lead && lead + |r| <= |s| && r == s[lead..lead + |r|]
    && (forall i :: 0 <= i < lead ==> IsSpace(s[i]))
    && (forall i :: lead + |r| <= i < |s| ==> IsSpace(s[i]))
    && (r == [] || (!IsSpace(r[0]) && !IsSpace(r[|r| - 1])))
    && (forall c :: c in r ==> c in s)
    && ((s == [] || (!IsSpace(s[0]) && !IsSpace(s[|s| - 1]))) ==> r == s)
  }

  /**
   * A left trim followed by a right trim strips: `left` is a suffix of `s`
   * after whitespace, and `r` a prefix of `left` before whitespace.
   */
  lemma StripTrims(s: string, left: string, r: string)
    requires |left| <= |s| && left == s[|s| - |left|..]
    requires left == [] || !IsSpace(left[0])
    requires forall i :: 0 <= i < |s| - |left| ==> IsSpace(s[i])
    requires |r| <= |left| && r == left[..|r|]
    requires r == [] || !IsSpace(r[|r| - 1])
    requires forall i :: |r| <= i < |left| ==> IsSpace(left[i])
    ensures StrippedOf(r, s, |s| - |left|)
  {
    var a := |s| - |left|;
    assert r == s[a..a + |r|];
    forall i | a + |r| <= i < |s|
      ensures IsSpace(s[i])
    {
      assert left[i - a] == s[i];
    }
    SliceMembers(s, a, a + |r|);
    if r != [] {
      assert r[0] == left[0];
    }
  }

  predicate StartsWith(t: string, w: string) {
    |w| <= |t| && t[..|w|] == w
  }

  /** Python's `w in t`: `w` occurs in `t` as a contiguous substring. */
  predicate Contains(t: string, w: string)
    decreases |t|
  {
    StartsWith(t, w) || (t != [] && Contains(t[1..], w))
  }

  /** A text shorter than `w` cannot contain it. */
  lemma {:induction false} ShortNeverContains(t: string, w: string)
    requires |t| < |w|
    ensures !Contains(t, w)
  {
    if t != [] {
      ShortNeverContains(t[1..], w);
    }
  }

  /** Python's prefix slice `s[:n]`, negative `n` counting from the end. */
  function PyPrefix(s: string, n: int): (r: string)
    ensures |r| <= |s| && r == s[..|r|]
    ensures 0 <= n <= |s| ==> |r| == n
    ensures n < 0 && -n <= |s| ==> |r| == |s| + n
    ensures n >= |s| ==> r == s
    ensures n < -|s| ==> r == []
  {
    if n >= 0 then (if n <= |s| then s[..n] else s)
    else if |s| + n >= 0 then s[..|s| + n]
    else []
  }

  /** `s.split(sep)`: the pieces between the leftmost non-overlapping occurrences of `sep`. */
  function Split(s: string, sep: string): (r: seq<string>)
    requires sep != []
    ensures r != []
    ensures |r[0]| <= |s| && r[0] == s[..|r[0]|]
    ensures forall k :: 0 <= k < |r| ==> !Contains(r[k], sep)
    decreases |s|
  {
    if |s| < |sep| then
      ShortNeverContains(s, sep);
      [s]
    else if s[..|sep|] == sep then [[]] + Split(s[|sep|..], sep)
    else
      var rest := Split(s[1..], sep);
      ExtendedPiece(s, sep, rest[0]);
      [[s[0]] + rest[0]] + rest[1..]
  }

  /**
   * A piece that starts a text where no separator starts, extended by that
   * text's first character, is still a leading slice without the separator.
   */
  lemma ExtendedPiece(s: string, sep: string, p: string)
    requires 0 < |sep| <= |s| && s[..|sep|] != sep
    requires |p| <= |s| - 1 && p == s[1..][..|p|] && !Contains(p, sep)
    ensures [s[0]] + p == s[..|p| + 1] && !Contains([s[0]] + p, sep)
  {
    var q := [s[0]] + p;
    assert q[1..] == p;
    assert q == s[..|p| + 1];
    if |sep| <= |q| {
      assert q[..|sep|] == s[..|sep|];
    }
  }

  /** `sep.join(pieces)` */
  function Join(pieces: seq<string>, sep: string): (r: string)
    decreases |pieces|
  {
    if pieces == [] then []
    else if |pieces| == 1 then pieces[0]
    else pieces[0] + sep + Join(pieces[1..], sep)
  }

  /** Joining the pieces of a split gives back the text. */
  lemma {:induction false} JoinSplit(s: string, sep: string)
    requires sep != []
    ensures Join(Split(s, sep), sep) == s
    decreases |s|
  {
    if |s| < |sep| {
    } else if s[..|sep|] == sep {
      JoinSplit(s[|sep|..], sep);
      JoinEmptyHead(Split(s[|sep|..], sep), sep);
      assert s == sep + s[|sep|..];
    } else {
      JoinSplit(s[1..], sep);
      JoinExtendedHead(s[0], Split(s[1..], sep), sep);
      assert s == [s[0]] + s[1..];
    }
  }

  /** An empty first piece contributes only its separator. */
  lemma JoinEmptyHead(rest: seq<string>, sep: string)
    requires rest != []
    ensures Join([[]] + rest, sep) == sep + Join(rest, sep)
  {
    assert ([[]] + rest)[1..] == rest;
  }

  /** A character put in front of the first piece comes first in the joined text. */
  lemma JoinExtendedHead(c: char, rest: seq<string>, sep: string)
    requires rest != []
    ensures Join([[c] + rest[0]] + rest[1..], sep) == [c] + Join(rest, sep)
  {
    var r := [[c] + rest[0]] + rest[1..];
    if |rest| > 1 {
      assert r[1..] == rest[1..];
    }
  }

  /** A split yields more than one piece exactly when the separator occurs. */
  lemma {:induction false} SplitsIffContains(s: string, sep: string)
    requires sep != []
    ensures |Split(s, sep)| > 1 <==> Contains(s, sep)
    decreases |s|
  {
    if |s| < |sep| {
      ShortNeverContains(s, sep);
    } else if s[..|sep|] == sep {
      assert StartsWith(s, sep);
    } else {
      SplitsIffContains(s[1..], sep);
      assert !StartsWith(s, sep);
    }
  }

  /** Joining a prefix and a suffix of the pieces, with the separator between them. */
  lemma {:induction false} JoinAppend(pieces: seq<string>, k: nat, sep: string)
    requires 0 < k < |pieces|
    ensures Join(pieces, sep) == Join(pieces[..k], sep) + sep + Join(pieces[k..], sep)
    decreases k
  {
    if k == 1 {
      assert pieces[..1] == [pieces[0]];
      assert pieces[1..] == pieces[k..];
    } else {
      JoinAppend(pieces[1..], k - 1, sep);
      assert pieces[1..][..k - 1] == pieces[..k][1..];
      assert pieces[1..][k - 1..] == pieces[k..];
    }
  }
}
