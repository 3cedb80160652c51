/**
 * The text rules both model-backed processors share: the three-pass cleaning
 * filter applied before any model call, the cap on how much cleaned text is
 * sent, and the "first n characters plus an ellipsis" truncation.
 */
module TextRules {
  import opened PyText
  import opened Sequences

  /** The characters the third pass keeps: `[\w\s.,!?;:-]`. */
  predicate Allowed(c: char) {
    IsWordChar(c) || IsSpace(c) || c in ".,!?;:-"
  }

  /** Position of the first `>` at or after `i`, or the length when there is none. */
  function CloseIndex(s: string, i: nat): (j: nat)
    requires i <= |s|
    ensures i <= j <= |s|
    ensures j < |s| ==> s[j] == '>'
    ensures forall k :: i <= k < j ==> s[k] != '>'
    decreases |s| - i
  {
    if i == |s| || s[i] == '>' then i else CloseIndex(s, i + 1)
  }

  /**
   * First pass, `re.sub(r'<[^>]+>', '', s)`: scanning left to right, a `<`
   * followed by at least one character other than `>` and then a `>` is removed
   * together with everything up to that `>`.
   */
  function StripTags(s: string): (r: string)
    ensures |r| <= |s|
    ensures '<' !in s ==> r == s
    decreases |s|
  {
    if s == [] then []
    else if s[0] == '<' && 1 < CloseIndex(s, 1) < |s| then StripTags(s[CloseIndex(s, 1) + 1..])
    else [s[0]] + StripTags(s[1..])
  }

  /** Text before the first `<` is kept as it is. */
  lemma {:induction false} StripTagsKeepsPlainText(a: string, b: string)
    requires '<' !in a
    ensures StripTags(a + b) == a + StripTags(b)
    decreases |a|
  {
    if a == [] {
      assert a + b == b;
    } else {
      calc {
        StripTags(a + b);
        { assert (a + b)[0] == a[0] && (a + b)[1..] == a[1..] + b; }
        [a[0]] + StripTags(a[1..] + b);
        { StripTagsKeepsPlainText(a[1..], b); }
        [a[0]] + (a[1..] + StripTags(b));
        { assert [a[0]] + a[1..] == a; }
        a + StripTags(b);
      }
    }
  }

  /** A tag, `<` with at least one character other than `>` and then `>`, is removed whole. */
  lemma StripTagsDropsTag(t: string, b: string)
    requires t != [] && '>' !in t
    ensures StripTags("<" + t + ">" + b) == StripTags(b)
  {
    var s := "<" + t + ">" + b;
    var j := CloseIndex(s, 1);
    assert s[|t| + 1] == '>';
    assert s[j + 1..] == b;
  }

  /** A `<` that no `>` follows is not the start of a tag: it is kept. */
  lemma StripTagsKeepsUnclosed(b: string)
    requires '>' !in b
    ensures StripTags("<" + b) == "<" + StripTags(b)
  {
    var s := "<" + b;
    assert s[1..] == b;
  }

  /** `[^>]+` needs at least one character, so the empty tag `<>` is kept. */
  lemma StripTagsKeepsEmptyTag(b: string)
    ensures StripTags("<>" + b) == "<>" + StripTags(b)
  {
    calc {
      StripTags("<>" + b);
      { EmptyTagOpening(b); }
      "<" + StripTags(">" + b);
      { StripTagsKeepsPlainText(">", b); }
      "<" + (">" + StripTags(b));
    }
  }

  /** The `<` of `<>` opens no tag. */
  lemma EmptyTagOpening(b: string)
    ensures StripTags("<>" + b) == "<" + StripTags(">" + b)
  {
    var s := "<>" + b;
    assert s[1] == '>' && s[1..] == ">" + b;
    StripTagsKeepsFirst(s);
  }

  /** A first character that does not open a tag is kept. */
  lemma StripTagsKeepsFirst(s: string)
    requires s != [] && (s[0] != '<' || |s| < 2 || s[1] == '>' || CloseIndex(s, 1) == |s|)
    ensures StripTags(s) == [s[0]] + StripTags(s[1..])
  {
  }

  /** The characters of `s` that are not whitespace, in their order. */
  function Visible(s: string): (r: string)
    ensures forall c :: c in r ==> c in s && !IsSpace(c)
    decreases |s|
  {
    if s == [] then []
    else (if IsSpace(s[0]) then [] else [s[0]]) + Visible(s[1..])
  }

  /** Dropping leading whitespace drops nothing visible. */
  lemma {:induction false} VisibleTrimLeft(s: string)
    ensures Visible(TrimLeft(s)) == Visible(s)
    decreases |s|
  {
    if s != [] && IsSpace(s[0]) {
      VisibleTrimLeft(s[1..]);
    }
  }

  /** Second pass, `re.sub(r'\s+', ' ', s)`: every run of whitespace becomes one space. */
  function CollapseSpaces(s: string): (r: string)
    ensures |r| <= |s|
    ensures forall i :: 0 <= i < |r| && IsSpace(r[i]) ==> r[i] == ' '
    ensures forall i :: 0 <= i < |r| - 1 ==> !(IsSpace(r[i]) && IsSpace(r[i + 1]))
    ensures r == [] <==> s == []
    ensures r != [] ==> (IsSpace(r[0]) <==> IsSpace(s[0]))
    ensures Visible(r) == Visible(s)
    decreases |s|
  {
    if s == [] then []
    else if IsSpace(s[0]) then
      var rest := CollapseSpaces(TrimLeft(s));
      VisibleTrimLeft(s);
      assert ([' '] + rest)[1..] == rest;
      [' '] + rest
    else
      var rest := CollapseSpaces(s[1..]);
      assert ([s[0]] + rest)[1..] == rest;
      [s[0]] + rest
  }

  /** Leading whitespace stops at the first visible character, wherever text follows it. */
  lemma {:induction false} TrimLeftAppend(a: string, b: string)
    requires a != [] && !IsSpace(a[|a| - 1])
    ensures TrimLeft(a + b) == TrimLeft(a) + b
    decreases |a|
  {
    assert (a + b)[0] == a[0];
    if IsSpace(a[0]) {
      assert (a + b)[1..] == a[1..] + b;
      TrimLeftAppend(a[1..], b);
    }
  }

  /** A run of whitespace in front of a visible character is trimmed away entirely. */
  lemma {:induction false} TrimLeftSpaces(w: string, b: string)
    requires forall i :: 0 <= i < |w| ==> IsSpace(w[i])
    requires b != [] && !IsSpace(b[0])
    ensures TrimLeft(w + b) == b
    decreases |w|
  {
    if w == [] {
      assert w + b == b;
    } else {
      assert (w + b)[0] == w[0];
      assert (w + b)[1..] == w[1..] + b;
      TrimLeftSpaces(w[1..], b);
    }
  }

  /** Text ending in a visible character collapses independently of what follows it. */
  lemma {:induction false} CollapseAppend(a: string, b: string)
    requires a != [] && !IsSpace(a[|a| - 1])
    ensures CollapseSpaces(a + b) == CollapseSpaces(a) + CollapseSpaces(b)
    decreases |a|
  {
    var ab := a + b;
    assert ab[0] == a[0];
    if IsSpace(a[0]) {
      TrimLeftAppend(a, b);
      var t := TrimLeft(a);
      assert t != [] && t[|t| - 1] == a[|a| - 1];
      CollapseAppend(t, b);
      Regroup(CollapseSpaces(ab), [' '], CollapseSpaces(t + b), CollapseSpaces(t), CollapseSpaces(b), CollapseSpaces(a));
    } else {
      var rest := a[1..];
      assert ab[1..] == rest + b;
      if rest != [] {
        CollapseAppend(rest, b);
      } else {
        assert rest + b == b;
      }
      Regroup(CollapseSpaces(ab), [a[0]], CollapseSpaces(rest + b), CollapseSpaces(rest), CollapseSpaces(b), CollapseSpaces(a));
    }
  }

  /** Moving a common head across an append. */
  lemma Regroup(whole: string, head: string, tail: string, u: string, v: string, left: string)
    requires whole == head + tail && tail == u + v && left == head + u
    ensures whole == left + v
  {
  }

  /** A whitespace run in front of a visible character becomes a single space. */
  lemma CollapseSpaceRun(w: string, b: string)
    requires w != [] && forall i :: 0 <= i < |w| ==> IsSpace(w[i])
    requires b != [] && !IsSpace(b[0])
    ensures CollapseSpaces(w + b) == " " + CollapseSpaces(b)
  {
    assert (w + b)[0] == w[0];
    TrimLeftSpaces(w, b);
  }

  /** Collapsing whitespace twice is collapsing it once. */
  lemma CollapseIdempotent(s: string)
    ensures CollapseSpaces(CollapseSpaces(s)) == CollapseSpaces(s)
  {
    CollapseKeepsSingleSpaces(CollapseSpaces(s));
  }

  /** Third pass, `re.sub(r'[^\w\s.,!?;:-]', '', s)`: every other character is dropped. */
  function KeepAllowed(s: string): (r: string)
    ensures |r| <= |s|
    ensures forall c :: c in r ==> c in s && Allowed(c)
    ensures (forall c :: c in s ==> Allowed(c)) ==> r == s
    ensures forall c :: c in s && Allowed(c) ==> c in r
  {
    if s == [] then []
    else (if Allowed(s[0]) then [s[0]] else []) + KeepAllowed(s[1..])
  }

  /** The third pass works piece by piece: filtering a concatenation concatenates the filtered pieces. */
  lemma {:induction false} KeepAllowedAppend(a: string, b: string)
    ensures KeepAllowed(a + b) == KeepAllowed(a) + KeepAllowed(b)
    decreases |a|
  {
    if a == [] {
      assert a + b == b;
    } else {
      assert (a + b)[0] == a[0];
      assert (a + b)[1..] == a[1..] + b;
      KeepAllowedAppend(a[1..], b);
    }
  }

  /** Which characters the third pass keeps. */
  function AllowedFlags(s: string): (r: seq<bool>)
    ensures |r| == |s|
    ensures forall k :: 0 <= k < |s| ==> (r[k] <==> Allowed(s[k]))
  {
    seq(|s|, k requires 0 <= k < |s| => Allowed(s[k]))
  }

  /**
   * The third pass keeps exactly the allowed characters, in their order:
   * it selects them from the text as an order-preserving filter does.
   */
  lemma {:induction false} KeepAllowedSelects(s: string)
    ensures KeepAllowed(s) == Select(s, AllowedFlags(s))
    decreases |s|
  {
    if s != [] {
      var n := |s| - 1;
      var flags := AllowedFlags(s);
      calc {
        KeepAllowed(s);
        { KeepAllowedSnoc(s); }
        KeepAllowed(s[..n]) + (if Allowed(s[n]) then [s[n]] else []);
        { KeepAllowedSelects(s[..n]); }
        Select(s[..n], AllowedFlags(s[..n])) + (if flags[n] then [s[n]] else []);
        { assert flags[..n] == AllowedFlags(s[..n]); }
        Select(s[..n], flags[..n]) + (if flags[n] then [s[n]] else []);
        { SelectSnoc(s, flags, n); assert s[..n + 1] == s && flags[..n + 1] == flags; }
        Select(s, flags);
      }
    }
  }

  /** Filtering a text is filtering all but its last character, then that character. */
  lemma KeepAllowedSnoc(s: string)
    requires s != []
    ensures KeepAllowed(s) == KeepAllowed(s[..|s| - 1]) + (if Allowed(s[|s| - 1]) then [s[|s| - 1]] else [])
  {
    var n := |s| - 1;
    calc {
      KeepAllowed(s);
      { SplitLast(s); }
      KeepAllowed(s[..n] + [s[n]]);
      { KeepAllowedAppend(s[..n], [s[n]]); }
      KeepAllowed(s[..n]) + KeepAllowed([s[n]]);
      { KeepAllowedOne(s[n]); }
      KeepAllowed(s[..n]) + (if Allowed(s[n]) then [s[n]] else []);
    }
  }

  /** A single character is kept exactly when it is allowed. */
  lemma KeepAllowedOne(c: char)
    ensures KeepAllowed([c]) == if Allowed(c) then [c] else []
  {
    assert [c][1..] == [];
  }

  /**
   * What cleaning guarantees: only allowed characters, no whitespace but the
   * plain space, and none at either end. (Two spaces may still stand side by
   * side, where the third pass removed what separated them.)
   */
  predicate IsClean(t: string) {
    && (forall c :: c in t ==> Allowed(c))
    && (forall c :: c in t && IsSpace(c) ==> c == ' ')
    && (t == [] || (!IsSpace(t[0]) && !IsSpace(t[|t| - 1])))
  }

  /** `_clean_text`: tags, then whitespace runs, then disallowed characters, then `strip()`. */
  function Clean(text: string): (r: string)
    ensures IsClean(r)
    ensures |r| <= |text|
    ensures text == [] ==> r == []
  {
    if text == [] then []
    else Strip(KeepAllowed(CollapseSpaces(StripTags(text))))
  }

  /** A text without whitespace runs and with only plain spaces is its own collapse. */
  lemma {:induction false} CollapseKeepsSingleSpaces(t: string)
    requires forall i :: 0 <= i < |t| && IsSpace(t[i]) ==> t[i] == ' '
    requires forall i :: 0 <= i < |t| - 1 ==> !(IsSpace(t[i]) && IsSpace(t[i + 1]))
    ensures CollapseSpaces(t) == t
    decreases |t|
  {
    if t != [] {
      var rest := t[1..];
      assert forall i :: 0 <= i < |rest| ==> rest[i] == t[i + 1];
      if IsSpace(t[0]) {
        assert TrimLeft(t) == rest by {
          assert TrimLeft(t) == TrimLeft(rest);
          assert rest == [] || !IsSpace(rest[0]);
        }
        calc {
          CollapseSpaces(t);
          [' '] + CollapseSpaces(rest);
          { CollapseKeepsSingleSpaces(rest); }
          [' '] + rest;
          { assert t[0] == ' '; SplitFirst(t); }
          t;
        }
      } else {
        calc {
          CollapseSpaces(t);
          [t[0]] + CollapseSpaces(rest);
          { CollapseKeepsSingleSpaces(rest); }
          [t[0]] + rest;
          { SplitFirst(t); }
          t;
        }
      }
    }
  }

  /** Cleaning leaves a clean text without double spaces as it is. */
  lemma CleanFixesCleanText(t: string)
    requires IsClean(t)
    requires forall i :: 0 <= i < |t| - 1 ==> !(t[i] == ' ' && t[i + 1] == ' ')
    ensures Clean(t) == t
  {
    if t != [] {
      NoTagsInCleanText(t);
      SpacesOfCleanText(t);
      CollapseKeepsSingleSpaces(t);
      assert KeepAllowed(t) == t;
    }
  }

  lemma NoTagsInCleanText(t: string)
    requires IsClean(t)
    ensures StripTags(t) == t
  {
    assert !Allowed('<');
  }

  lemma SpacesOfCleanText(t: string)
    requires IsClean(t)
    requires forall i :: 0 <= i < |t| - 1 ==> !(t[i] == ' ' && t[i + 1] == ' ')
    ensures forall i :: 0 <= i < |t| && IsSpace(t[i]) ==> t[i] == ' '
    ensures forall i :: 0 <= i < |t| - 1 ==> !(IsSpace(t[i]) && IsSpace(t[i + 1]))
  {
    forall i | 0 <= i < |t| && IsSpace(t[i]) ensures t[i] == ' ' {
      assert t[i] in t;
    }
  }

  /** `cleaned_text[:limit]` when the cleaned text is longer than `limit`: what is sent to a model. */
  function CleanedPrefix(text: string, limit: nat): (r: string)
    ensures |r| <= limit && |r| <= |Clean(text)|
    ensures r == Clean(text)[..|r|]
    ensures |Clean(text)| <= limit ==> r == Clean(text)
    ensures |Clean(text)| > limit ==> |r| == limit
  {
    var cleaned := Clean(text);
    if |cleaned| > limit then cleaned[..limit] else cleaned
  }

  /** `text[:n] + "..." if len(text) > n else text` */
  function Ellipsize(text: string, n: int): (r: string)
    ensures |text| <= n ==> r == text
    ensures 0 <= n < |text| ==> |r| == n + 3 && r[..n] == text[..n] && r[n..] == "..."
  {
    if |text| > n then PyPrefix(text, n) + "..." else text
  }

  /** A closing tag after plain text is removed and the text kept. */
  lemma StripTagsDropsClosing(m: string, t: string, q: string)
    requires '<' !in m
    requires '>' !in t
    ensures StripTags(m + ("<" + ("/" + t) + ">" + q)) == m + StripTags(q)
  {
    calc {
      StripTags(m + ("<" + ("/" + t) + ">" + q));
      { StripTagsKeepsPlainText(m, "<" + ("/" + t) + ">" + q); }
      m + StripTags("<" + ("/" + t) + ">" + q);
      { assert '>' !in "/" + t; StripTagsDropsTag("/" + t, q); }
      m + StripTags(q);
    }
  }

  /** The literal pieces of a tag pair regrouped around its inner text. */
  lemma PairShape(p: string, t: string, m: string, q: string)
    ensures p + "<" + t + ">" + m + "</" + t + ">" + q
         == p + ("<" + t + ">" + (m + ("<" + ("/" + t) + ">" + q)))
  {
  }

  /** A tag pair around plain text is removed and the text between the tags kept. */
  lemma StripTagsDropsPair(p: string, t: string, m: string, q: string)
    requires '<' !in p && '<' !in m
    requires t != [] && '>' !in t
    ensures StripTags(p + "<" + t + ">" + m + "</" + t + ">" + q) == p + m + StripTags(q)
  {
    var close := "<" + ("/" + t) + ">" + q;
    var open := "<" + t + ">" + (m + close);
    calc {
      StripTags(p + "<" + t + ">" + m + "</" + t + ">" + q);
      { PairShape(p, t, m, q); }
      StripTags(p + open);
      { StripTagsKeepsPlainText(p, open); }
      p + StripTags(open);
      { StripTagsDropsTag(t, m + close); }
      p + StripTags(m + close);
      { StripTagsDropsClosing(m, t, q); }
      p + (m + StripTags(q));
      p + m + StripTags(q);
    }
  }

  /** Two visible pieces with a whitespace run between them collapse around one space. */
  lemma CollapseBetween(a: string, w: string, b: string)
    requires a != [] && !IsSpace(a[|a| - 1])
    requires w != [] && forall i :: 0 <= i < |w| ==> IsSpace(w[i])
    requires b != [] && !IsSpace(b[0])
    ensures CollapseSpaces(a + w + b) == CollapseSpaces(a) + " " + CollapseSpaces(b)
  {
    calc {
      CollapseSpaces(a + w + b);
      { assert a + w + b == a + (w + b); }
      CollapseSpaces(a + (w + b));
      { CollapseAppend(a, w + b); }
      CollapseSpaces(a) + CollapseSpaces(w + b);
      { CollapseSpaceRun(w, b); }
      CollapseSpaces(a) + (" " + CollapseSpaces(b));
      CollapseSpaces(a) + " " + CollapseSpaces(b);
    }
  }

  /** Text made only of allowed characters passes the third pass unchanged. */
  lemma KeepsAllowedText(v: string)
    requires forall c :: c in v ==> Allowed(c)
    ensures KeepAllowed(v) == v
  {
  }

  /** Text with a visible character at both ends passes `strip()` unchanged. */
  lemma StripKeepsTrimmed(v: string)
    requires v != [] && !IsSpace(v[0]) && !IsSpace(v[|v| - 1])
    ensures Strip(v) == v
  {
  }
}
