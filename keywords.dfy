/** The keyword heuristic: count list words occurring in the lower-cased text; the majority wins. */
module Keywords {
  import opened PyText
  import opened Articles

  /** `sum(1 for word in words if word in text)`: how many list entries occur in `text`. */
  function Hits(text: string, words: seq<string>): (n: nat)
    ensures n <= |words|
    ensures n == 0 <==> forall k :: 0 <= k < |words| ==> !Contains(text, words[k])
    ensures n == |words| <==> forall k :: 0 <= k < |words| ==> Contains(text, words[k])
  {
    if words == [] then 0
    else (if Contains(text, words[0]) then 1 else 0) + Hits(text, words[1..])
  }

  /**
   * The majority rule on the lower-cased text: more positive than negative
   * hits gives POSITIVE, more negative than positive NEGATIVE, a tie NEUTRAL.
   */
  function Verdict(text: string, positive: seq<string>, negative: seq<string>): (r: Sentiment)
    ensures r == Positive <==> Hits(Lower(text), positive) > Hits(Lower(text), negative)
    ensures r == Negative <==> Hits(Lower(text), negative) > Hits(Lower(text), positive)
    ensures r == Neutral <==> Hits(Lower(text), positive) == Hits(Lower(text), negative)
  {
    var lowered := Lower(text);
    var pos := Hits(lowered, positive);
    var neg := Hits(lowered, negative);
    if pos > neg then Positive
    else if neg > pos then Negative
    else Neutral
  }

  /** The verdict ignores case: texts equal up to case get the same verdict. */
  lemma VerdictIgnoresCase(s: string, t: string, positive: seq<string>, negative: seq<string>)
    requires |s| == |t|
    requires forall i :: 0 <= i < |s| ==> LowerChar(s[i]) == LowerChar(t[i])
    ensures Verdict(s, positive, negative) == Verdict(t, positive, negative)
  {
    assert Lower(s) == Lower(t);
  }

  /** In particular, lower-casing the text first changes nothing. */
  lemma VerdictOfLowered(s: string, positive: seq<string>, negative: seq<string>)
    ensures Verdict(Lower(s), positive, negative) == Verdict(s, positive, negative)
  {
    LowerIdempotent(s);
  }
}
