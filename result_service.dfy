/** ResultServiceImpl: the tally of the end statuses of a thread's top-level comments. */
module ResultService {
  import opened Wrappers
  import opened Domain
  import opened Strings
  import StatusUtils
  import CommentTree
  import Seqs

  /** One CommentThreadResultDTO; `percentage` is count * 100 / total before formatting. */
  datatype ThreadResult = ThreadResult(status: string, count: nat, percentage: real)

  /** The guard of the tally: a non-null, non-empty end status other than NOSTATUS in any case. */
  predicate Countable(c: Comment) {
    c.endStatus.Some? && c.endStatus.value != "" && !EqualsIgnoreCase("NOSTATUS", c.endStatus.value)
  }

  /** How many counted comments have end status exactly s. */
  function StatusCount(cs: seq<Comment>, s: string): (n: nat)
    ensures n <= |cs|
  {
    if cs == [] then 0
    else StatusCount(cs[..|cs| - 1], s) + (if Countable(cs[|cs| - 1]) && cs[|cs| - 1].endStatus == Some(s) then 1 else 0)
  }

  /** How many comments are counted at all. */
  function CountableCount(cs: seq<Comment>): (n: nat)
    ensures n <= |cs|
  {
    if cs == [] then 0
    else CountableCount(cs[..|cs| - 1]) + (if Countable(cs[|cs| - 1]) then 1 else 0)
  }

  /** A status has a positive count exactly when some counted comment carries it. */
  lemma {:induction false} StatusCountPositive(cs: seq<Comment>, s: string)
    ensures StatusCount(cs, s) > 0 <==> exists c :: c in cs && Countable(c) && c.endStatus == Some(s)
  {
    if cs != [] {
      var pre := cs[..|cs| - 1];
      assert cs == pre + [cs[|cs| - 1]];
      StatusCountPositive(pre, s);
      if StatusCount(pre, s) > 0 {
        var c :| c in pre && Countable(c) && c.endStatus == Some(s);
        assert c in cs;
      }
    }
  }

  /** The counted comments are split by status: the counts of the statuses present add up. */
  lemma {:induction false} StatusCountBounded(cs: seq<Comment>, s: string)
    ensures StatusCount(cs, s) <= CountableCount(cs)
  {
    if cs != [] {
      StatusCountBounded(cs[..|cs| - 1], s);
    }
  }

  // ----- sum of the values of a map (totalCount)

  ghost function Pick(m: map<string, nat>): (k: string)
    requires m != map[]
    ensures k in m
  {
    var k :| k in m; k
  }

  /** The sum of the values of m. */
  ghost function MapSum(m: map<string, nat>): nat
    decreases |m|
  {
    if m == map[] then 0
    else
      var k := Pick(m);
      assert |m - {k}| < |m| by { assert (m - {k}).Keys == m.Keys - {k}; }
      m[k] + MapSum(m - {k})
  }

  /** The sum does not depend on which entry is taken out first. */
  lemma {:induction false} MapSumRemove(m: map<string, nat>, k: string)
    requires k in m
    ensures MapSum(m) == m[k] + MapSum(m - {k})
    decreases |m|
  {
    var j := Pick(m);
    assert (m - {j}).Keys == m.Keys - {j};
    if j != k {
      assert (m - {k}).Keys == m.Keys - {k};
      MapSumRemove(m - {j}, k);
      MapSumRemove(m - {k}, j);
      assert m - {j} - {k} == m - {k} - {j};
    }
  }

  lemma MapSumBound(m: map<string, nat>, k: string)
    requires k in m
    ensures m[k] <= MapSum(m)
  {
    MapSumRemove(m, k);
  }

  // ----- the pass over the comments

  /** counts holds, for every status of the counted comments among cs, how many carry it. */
  ghost predicate Tallied(counts: map<string, nat>, cs: seq<Comment>) {
    && (forall s :: s in counts <==> StatusCount(cs, s) > 0)
    && (forall s :: s in counts ==> counts[s] == StatusCount(cs, s))
    && MapSum(counts) == CountableCount(cs)
  }

  /** The map after one comment of the forEach. */
  ghost function TallyOne(counts: map<string, nat>, c: Comment): map<string, nat> {
    if !Countable(c) then counts
    else
      var s := c.endStatus.value;
      if s in counts then counts[s := counts[s] + 1] else counts[s := 1]
  }

  lemma TallyStep(counts: map<string, nat>, cs: seq<Comment>, c: Comment)
    requires Tallied(counts, cs)
    ensures Tallied(TallyOne(counts, c), cs + [c])
  {
    var all := cs + [c];
    assert all[..|all| - 1] == cs;
    if Countable(c) {
      var s := c.endStatus.value;
      var next := TallyOne(counts, c);
      if s in counts {
        MapSumRemove(counts, s);
        MapSumRemove(next, s);
        assert next - {s} == counts - {s};
      } else {
        MapSumRemove(next, s);
        assert next - {s} == counts;
      }
    }
  }

  /** The forEach of getResultsForCommentThread: the first sighting of a status inserts 1,
      every later one adds 1. */
  method CountEndStatuses(comments: seq<Comment>) returns (counts: map<string, nat>)
    ensures forall s :: s in counts <==> StatusCount(comments, s) > 0
    ensures forall s :: s in counts ==> counts[s] == StatusCount(comments, s)
    ensures MapSum(counts) == CountableCount(comments)
  {
    counts := map[];
    ghost var done: seq<Comment> := [];
    var i := 0;
    while i < |comments|
      invariant 0 <= i <= |comments|
      invariant done == comments[..i]
      invariant Tallied(counts, done)
    {
      var comment := comments[i];
      ghost var before := counts;
      var endStatus := comment.endStatus;
      if endStatus.Some? && endStatus.value != "" && !EqualsIgnoreCase("NOSTATUS", endStatus.value) {
        var s := endStatus.value;
        if s in counts {
          counts := counts[s := counts[s] + 1];
        } else {
          counts := counts[s := 1];
        }
      }
      assert counts == TallyOne(before, comment);
      TallyStep(before, done, comment);
      Seqs.TakeSnoc(comments, i);
      done := done + [comment];
      i := i + 1;
    }
    assert comments[..|comments|] == comments;
  }

  /** totalCount: the values summed in the map's iteration order. */
  method SumCounts(counts: map<string, nat>) returns (total: nat)
    ensures total == MapSum(counts)
  {
    total := 0;
    var rest := counts;
    while rest != map[]
      invariant total + MapSum(rest) == MapSum(counts)
      decreases |rest|
    {
      var k :| k in rest;
      MapSumRemove(rest, k);
      total := total + rest[k];
      assert (rest - {k}).Keys == rest.Keys - {k};
      rest := rest - {k};
    }
  }

  /** count * 100 / totalCount, as an exact rational. */
  function Percentage(count: nat, total: nat): (p: real)
    requires total > 0
  {
    (count * 100) as real / total as real
  }

  lemma PercentageRange(count: nat, total: nat)
    requires 0 < count <= total
    ensures 0.0 < Percentage(count, total) <= 100.0
  {
    assert (count * 100) as real <= (total * 100) as real;
    assert (total * 100) as real / total as real == 100.0;
  }

  /** The second forEach: one result per entry of the map; the division is only reached
      for an entry, whose count is at least 1, so totalCount is never 0 there. */
  method BuildResults(counts: map<string, nat>, total: nat) returns (results: set<ThreadResult>)
    requires total == MapSum(counts)
    requires forall s :: s in counts ==> counts[s] >= 1
    ensures total > 0 || counts == map[]
    ensures forall r :: r in results <==>
      r.status in counts && total > 0 && r == ThreadResult(r.status, counts[r.status], Percentage(counts[r.status], total))
  {
    results := {};
    var rest := counts;
    if counts != map[] {
      var k := Pick(counts);
      MapSumBound(counts, k);
    }
    while rest != map[]
      invariant rest.Keys <= counts.Keys
      invariant forall s :: s in rest ==> rest[s] == counts[s]
      invariant counts != map[] ==> total > 0
      invariant forall r :: r in results <==>
        r.status in counts && r.status !in rest && total > 0
        && r == ThreadResult(r.status, counts[r.status], Percentage(counts[r.status], total))
      decreases |rest|
    {
      var status :| status in rest;
      var count := rest[status];
      results := results + {ThreadResult(status, count, Percentage(count, total))};
      assert (rest - {status}).Keys == rest.Keys - {status};
      rest := rest - {status};
    }
  }

  // ----- the specification of the result set

  /** The top-level comments of the thread, or None when findById finds no thread. */
  function TopLevelComments(store: CommentStore, threadId: Uuid): Option<seq<Comment>> {
    if threadId in store.threadComments then Some(CommentTree.TopLevel(store.threadComments[threadId])) else None
  }

  /** The results, one per counted comment's status, each carrying that status's count and
      its share of all counted comments. */
  function ResultsOf(top: seq<Comment>): set<ThreadResult>
  {
    set c | c in top && Countable(c) ::
      ThreadResult(c.endStatus.value, StatusCount(top, c.endStatus.value),
        CountedShare(top, c))
  }

  function CountedShare(top: seq<Comment>, c: Comment): real
    requires c in top && Countable(c)
  {
    CountableAtLeast(top, c);
    Percentage(StatusCount(top, c.endStatus.value), CountableCount(top))
  }

  lemma CountableAtLeast(top: seq<Comment>, c: Comment)
    requires c in top && Countable(c)
    ensures 0 < StatusCount(top, c.endStatus.value) <= CountableCount(top)
  {
    StatusCountPositive(top, c.endStatus.value);
    StatusCountBounded(top, c.endStatus.value);
  }

  function ThreadResults(store: CommentStore, threadId: Uuid): set<ThreadResult> {
    match TopLevelComments(store, threadId)
    case None => {}
    case Some(top) => ResultsOf(top)
  }

  /** getResultsForCommentThread. */
  method GetResultsForCommentThread(store: CommentStore, commentThreadId: Uuid) returns (results: set<ThreadResult>)
    ensures results == ThreadResults(store, commentThreadId)
  {
    var counts: map<string, nat> := map[];
    var top: seq<Comment> := [];
    if commentThreadId in store.threadComments {
      top := CommentTree.TopLevel(store.threadComments[commentThreadId]);
      counts := CountEndStatuses(top);
    }
    assert forall s :: s in counts ==> counts[s] >= 1;
    var totalCount := SumCounts(counts);
    results := BuildResults(counts, totalCount);
    forall r | r in results ensures r in ResultsOf(top) {
      StatusCountPositive(top, r.status);
      var c :| c in top && Countable(c) && c.endStatus == Some(r.status);
    }
    forall r | r in ResultsOf(top) ensures r in results {
      var c :| c in top && Countable(c) && r == ThreadResult(c.endStatus.value, StatusCount(top, c.endStatus.value),
        CountedShare(top, c));
      StatusCountPositive(top, c.endStatus.value);
    }
  }

  // ----- properties of the result set

  /** An unknown thread and a thread with nothing to count give no results. */
  lemma ResultsEmpty(store: CommentStore, threadId: Uuid)
    ensures ThreadResults(store, threadId) == {} <==>
      threadId !in store.threadComments
      || (forall c :: c in CommentTree.TopLevel(store.threadComments[threadId]) ==> !Countable(c))
  {
    if threadId in store.threadComments {
      var top := CommentTree.TopLevel(store.threadComments[threadId]);
      if c :| c in top && Countable(c) {
        CountableAtLeast(top, c);
        assert ThreadResult(c.endStatus.value, StatusCount(top, c.endStatus.value), CountedShare(top, c))
          in ResultsOf(top);
      }
    }
  }

  /** One result per distinct counted status. */
  lemma ResultsOnePerStatus(top: seq<Comment>, r1: ThreadResult, r2: ThreadResult)
    requires r1 in ResultsOf(top) && r2 in ResultsOf(top) && r1.status == r2.status
    ensures r1 == r2
  {
    var c1 :| c1 in top && Countable(c1) && r1 == ThreadResult(c1.endStatus.value, StatusCount(top, c1.endStatus.value), CountedShare(top, c1));
    var c2 :| c2 in top && Countable(c2) && r2 == ThreadResult(c2.endStatus.value, StatusCount(top, c2.endStatus.value), CountedShare(top, c2));
  }

  /** Every result counts at least one and at most all counted comments, and its
      percentage lies in (0, 100]. */
  lemma ResultsBounds(top: seq<Comment>, r: ThreadResult)
    requires r in ResultsOf(top)
    ensures 1 <= r.count <= CountableCount(top)
    ensures 0.0 < r.percentage <= 100.0
    ensures r.count == StatusCount(top, r.status)
  {
    var c :| c in top && Countable(c) && r == ThreadResult(c.endStatus.value, StatusCount(top, c.endStatus.value), CountedShare(top, c));
    CountableAtLeast(top, c);
    PercentageRange(r.count, CountableCount(top));
  }

  /** Every counted status has its result. */
  lemma ResultsCoverStatuses(top: seq<Comment>, c: Comment)
    requires c in top && Countable(c)
    ensures exists r :: r in ResultsOf(top) && r.status == c.endStatus.value
  {
    assert ThreadResult(c.endStatus.value, StatusCount(top, c.endStatus.value), CountedShare(top, c)) in ResultsOf(top);
  }

  // ----- getResultsForCommentThreadAsTextInDefaultLanguage

  /** One line: the localized status, the count and the formatted percentage. */
  function ResultLine(r: ThreadResult, messages: MessageSource, language: string, formatPercentage: real -> string): (line: string)
    ensures |line| > 0 && line[|line| - 1] == '\n'
  {
    StatusUtils.LocalizeResourceStatusToDefaultLanguage(Some(r.status), messages, language).value
      + ": " + NatToString(r.count) + " (" + formatPercentage(r.percentage) + " %)\n"
  }

  /** The lines of `order`, one after the other. */
  function ResultsText(order: seq<ThreadResult>, messages: MessageSource, language: string, formatPercentage: real -> string)
    : (text: string)
    ensures text == "" <==> order == []
  {
    if order == [] then ""
    else ResultLine(order[0], messages, language, formatPercentage) + ResultsText(order[1..], messages, language, formatPercentage)
  }

  /** The text lists the results in the order `order` in which the loop met them: every result
      exactly once, and nothing else. */
  method GetResultsForCommentThreadAsTextInDefaultLanguage(
    store: CommentStore, commentThreadId: Uuid, messages: MessageSource, defaultLanguage: string,
    formatPercentage: real -> string)
    returns (text: string, ghost order: seq<ThreadResult>)
    ensures forall r :: r in order <==> r in ThreadResults(store, commentThreadId)
    ensures forall i, j :: 0 <= i < j < |order| ==> order[i] != order[j]
    ensures text == ResultsText(order, messages, defaultLanguage, formatPercentage)
    ensures text == "" <==> ThreadResults(store, commentThreadId) == {}
  {
    var commentThreadResults := GetResultsForCommentThread(store, commentThreadId);
    text := "";
    order := [];
    var rest := commentThreadResults;
    while rest != {}
      invariant rest <= commentThreadResults
      invariant forall r :: r in order <==> r in commentThreadResults && r !in rest
      invariant forall i, j :: 0 <= i < j < |order| ==> order[i] != order[j]
      invariant ResultsText(order, messages, defaultLanguage, formatPercentage) == text
      decreases |rest|
    {
      var result :| result in rest;
      ResultsTextSnoc(order, result, messages, defaultLanguage, formatPercentage);
      ghost var before := text;
      var status := StatusUtils.LocalizeResourceStatusToDefaultLanguage(Some(result.status), messages, defaultLanguage).value;
      var count := NatToString(result.count);
      var percentage := formatPercentage(result.percentage);
      text := text + status;
      text := text + ": ";
      text := text + count;
      text := text + " (";
      text := text + percentage;
      text := text + " %)\n";
      AppendSix(before, status, ": ", count, " (", percentage, " %)\n");
      assert text == before + ResultLine(result, messages, defaultLanguage, formatPercentage);
      order := order + [result];
      rest := rest - {result};
    }
    if commentThreadResults != {} {
      var r :| r in commentThreadResults;
      assert r in order;
    }
    assert order != [] ==> order[0] in commentThreadResults;
  }

  lemma {:induction false} ResultsTextSnoc(order: seq<ThreadResult>, r: ThreadResult, messages: MessageSource,
    language: string, formatPercentage: real -> string)
    ensures ResultsText(order + [r], messages, language, formatPercentage)
         == ResultsText(order, messages, language, formatPercentage) + ResultLine(r, messages, language, formatPercentage)
  {
    if order == [] {
      assert [r][1..] == [];
    } else {
      assert (order + [r])[1..] == order[1..] + [r];
      ResultsTextSnoc(order[1..], r, messages, language, formatPercentage);
    }
  }

  /** Appending six pieces one by one appends their concatenation. */
  lemma AppendSix(b: string, p1: string, p2: string, p3: string, p4: string, p5: string, p6: string)
    ensures b + p1 + p2 + p3 + p4 + p5 + p6 == b + (p1 + p2 + p3 + p4 + p5 + p6)
  {
  }
}
