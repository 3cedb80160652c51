/**
 * The local-model agent's processing loop (`NewsAgent.get_news_insights` in
 * news_agent.py): skip the records with neither title nor description, enrich
 * the others in place, and drop a record whose processing raised.
 * Fetching is not modelled: the fetched records are a parameter, and so is
 * what the pipelines answer for each record (`None`: processing raised).
 */
module NewsAgent {
  import opened Wrappers
  import opened Articles
  import opened Sequences
  import TextProcessor

  /** Which fetched records end up in the result: those with content whose processing did not raise. */
  function KeepFlags(snapshot: seq<Fields>, attempts: seq<Option<TextProcessor.Replies>>): (r: seq<bool>)
    requires |attempts| == |snapshot|
    ensures |r| == |snapshot|
    ensures forall k :: 0 <= k < |snapshot| ==> (r[k] <==> !Lacking(snapshot[k]) && attempts[k].Some?)
  {
    seq(|snapshot|, k requires 0 <= k < |snapshot| => !Lacking(snapshot[k]) && attempts[k].Some?)
  }

  /** A record's dictionary once the loop has visited it: enriched when kept, untouched otherwise. */
  function Outcome(fields: Fields, attempt: Option<TextProcessor.Replies>): (r: Fields)
    ensures Lacking(fields) || attempt.None? ==> r == fields
    ensures !Lacking(fields) && attempt.Some? ==> LabelOf(r).Some? && r.Keys >= fields.Keys
  {
    if !Lacking(fields) && attempt.Some? then
      Enriched(fields, TextProcessor.ArticleInsight(FullText(fields), attempt.value))
    else fields
  }

  /**
   * `get_news_insights`: the result lists the kept records in fetch order,
   * each record (kept or not) now holds its outcome, a record is in the result
   * exactly when it was kept, and every record in the result carries a label.
   */
  method GetNewsInsights(fetched: seq<Article>, attempts: seq<Option<TextProcessor.Replies>>)
      returns (processed: seq<Article>)
    requires |attempts| == |fetched|
    requires Distinct(fetched)
    modifies fetched
    ensures processed == Select(fetched, KeepFlags(old(Snapshot(fetched)), attempts))
    ensures forall k :: 0 <= k < |fetched| ==> fetched[k].fields == Outcome(old(fetched[k].fields), attempts[k])
    ensures forall k :: 0 <= k < |fetched| ==> (fetched[k] in processed <==> !Lacking(old(fetched[k].fields)) && attempts[k].Some?)
    ensures forall a :: a in processed ==> LabelOf(a.fields).Some?
  {
    ghost var before := Snapshot(fetched);
    ghost var keep := KeepFlags(before, attempts);
    if |fetched| == 0 {
      return [];
    }
    processed := [];
    for i := 0 to |fetched|
      invariant Progress(fetched, before, attempts, keep, processed, i)
    {
      processed := VisitRecord(fetched, i, processed, attempts, before, keep);
    }
    assert fetched[..|fetched|] == fetched;
    assert keep[..|fetched|] == keep;
    KeptAreLabelled(fetched, before, attempts);
  }

  /** The loop's state after `i` records: the processed prefix and the settled records. */
  ghost predicate Progress(fetched: seq<Article>, before: seq<Fields>, attempts: seq<Option<TextProcessor.Replies>>,
                           keep: seq<bool>, processed: seq<Article>, i: nat)
    reads fetched
  {
    && i <= |fetched| && |keep| == |fetched|
    && processed == Select(fetched[..i], keep[..i])
    && Settled(fetched, before, attempts, i)
  }

  /** The records before `stop` hold their outcomes; the others still hold their fetched fields. */
  ghost predicate Settled(fetched: seq<Article>, before: seq<Fields>, attempts: seq<Option<TextProcessor.Replies>>,
                          stop: nat)
    reads fetched
  {
    |attempts| == |before| && SettledAs(fetched, Outcomes(before, attempts, Outcome), before, stop)
  }

  /**
   * One turn of the loop: a record with content is processed in place and
   * appended, unless its processing raised; any other record is skipped.
   */
  method VisitRecord(fetched: seq<Article>, i: nat, processed: seq<Article>,
                     attempts: seq<Option<TextProcessor.Replies>>, ghost before: seq<Fields>, ghost keep: seq<bool>)
      returns (extended: seq<Article>)
    requires i < |fetched| && |attempts| == |fetched| && |before| == |fetched| && Distinct(fetched)
    requires keep == KeepFlags(before, attempts)
    requires Progress(fetched, before, attempts, keep, processed, i)
    modifies fetched[i]
    ensures Progress(fetched, before, attempts, keep, extended, i + 1)
  {
    SelectSnoc(fetched, keep, i);
    var article := fetched[i];
    var kept := ProcessRecord(article, attempts[i], before[i]);
    SettleRecord(fetched, Outcomes(before, attempts, Outcome), before, i);
    extended := if kept then processed + [article] else processed;
  }

  /**
   * The loop body for one record: skip it without content, otherwise process
   * it, and drop it when that raised (the `except` clause only reports).
   */
  method ProcessRecord(article: Article, attempt: Option<TextProcessor.Replies>, ghost fields: Fields)
      returns (kept: bool)
    requires article.fields == fields
    modifies article
    ensures kept <==> !Lacking(fields) && attempt.Some?
    ensures article.fields == Outcome(fields, attempt)
  {
    if Lacking(article.fields) {
      return false;
    }
    match attempt
    case None =>
      return false;
    case Some(replies) =>
      TextProcessor.ProcessArticle(article, replies);
      return true;
  }

  /**
   * Once every record is settled, a record is in the result exactly when it
   * was kept, and every record in the result carries a label.
   */
  lemma KeptAreLabelled(fetched: seq<Article>, before: seq<Fields>, attempts: seq<Option<TextProcessor.Replies>>)
    requires Distinct(fetched) && Settled(fetched, before, attempts, |fetched|)
    ensures var keep := KeepFlags(before, attempts);
      forall k :: 0 <= k < |fetched| ==> (fetched[k] in Select(fetched, keep) <==> keep[k])
    ensures forall a :: a in Select(fetched, KeepFlags(before, attempts)) ==> LabelOf(a.fields).Some?
  {
    var keep := KeepFlags(before, attempts);
    forall k | 0 <= k < |fetched|
      ensures fetched[k] in Select(fetched, keep) <==> keep[k]
    {
      SelectMember(fetched, keep, k);
    }
    forall a | a in Select(fetched, keep)
      ensures LabelOf(a.fields).Some?
    {
      var k :| 0 <= k < |fetched| && keep[k] && fetched[k] == a;
      assert fetched[k].fields == Outcomes(before, attempts, Outcome)[k] == Outcome(before[k], attempts[k]);
    }
  }

  /** Which records have a title or a description. */
  function ContentFlags(snapshot: seq<Fields>): (r: seq<bool>)
    ensures |r| == |snapshot|
    ensures forall k :: 0 <= k < |snapshot| ==> (r[k] <==> !Lacking(snapshot[k]))
  {
    seq(|snapshot|, k requires 0 <= k < |snapshot| => !Lacking(snapshot[k]))
  }

  /**
   * When no processing raises, the result holds exactly the records with a
   * title or a description: it is their selection in fetch order, as many as
   * there are such records, and a record is in it exactly when it has content.
   */
  lemma NoFailureKeepsAllWithContent(fetched: seq<Article>, snapshot: seq<Fields>,
                                     attempts: seq<Option<TextProcessor.Replies>>)
    requires |snapshot| == |fetched| && |attempts| == |fetched| && Distinct(fetched)
    requires forall k :: 0 <= k < |attempts| ==> attempts[k].Some?
    ensures Select(fetched, KeepFlags(snapshot, attempts)) == Select(fetched, ContentFlags(snapshot))
    ensures |Select(fetched, KeepFlags(snapshot, attempts))| == CountTrue(ContentFlags(snapshot))
    ensures forall k :: 0 <= k < |fetched| ==>
      (fetched[k] in Select(fetched, KeepFlags(snapshot, attempts)) <==> !Lacking(snapshot[k]))
  {
    var content := ContentFlags(snapshot);
    assert KeepFlags(snapshot, attempts) == content;
    forall k | 0 <= k < |fetched|
      ensures fetched[k] in Select(fetched, content) <==> !Lacking(snapshot[k])
    {
      SelectMember(fetched, content, k);
    }
  }
}
