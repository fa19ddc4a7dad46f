/** The comment tree of one thread (mapMainLevelComments) and the deepest nesting level
    (getChildCommentMaxLevel, getCommentsMaxLevels). */
module CommentTree {
  import opened Wrappers
  import opened Domain
  import Sorting
  import Seqs

  // ----- the comments of a thread

  /** A thread's comments come from a Set of entities with distinct primary keys. */
  predicate DistinctIds(cs: seq<Comment>) {
    forall c, d :: c in cs && d in cs && c.id == d.id ==> c == d
  }

  predicate NoDuplicates(cs: seq<Comment>) {
    forall c | c in cs :: multiset(cs)[c] == 1
  }

  predicate ThreadComments(cs: seq<Comment>) {
    DistinctIds(cs) && NoDuplicates(cs)
  }

  function CreatedKey(c: Comment): int {
    c.created
  }

  /** The comments ordered by creation time. */
  function SortByCreated(cs: seq<Comment>): (r: seq<Comment>)
    ensures multiset(r) == multiset(cs)
    ensures Sorting.SortedBy(r, CreatedKey)
  {
    Sorting.SortBySorted(cs, CreatedKey);
    Sorting.SortBy(cs, CreatedKey)
  }

  /** The comments without a parent, in order. */
  function TopLevel(s: seq<Comment>): (r: seq<Comment>)
    ensures forall c :: c in r ==> c in s && c.parentId.None?
  {
    if s == [] then []
    else TopLevel(s[..|s| - 1]) + (if s[|s| - 1].parentId.None? then [s[|s| - 1]] else [])
  }

  /** The comments whose parent has id p, in order. */
  function ChildrenOf(s: seq<Comment>, p: Uuid): (r: seq<Comment>)
    ensures forall c :: c in r ==> c in s && c.parentId == Some(p)
  {
    if s == [] then []
    else ChildrenOf(s[..|s| - 1], p) + (if s[|s| - 1].parentId == Some(p) then [s[|s| - 1]] else [])
  }

  function ParentIds(s: seq<Comment>): set<Uuid> {
    set c | c in s && c.parentId.Some? :: c.parentId.value
  }

  /** Parent id -> ordered children (the LinkedHashSets of childCommentMap). */
  type ChildMap = map<Uuid, seq<Comment>>

  function ChildMapOf(s: seq<Comment>): ChildMap {
    map p | p in ParentIds(s) :: ChildrenOf(s, p)
  }

  lemma ChildrenOfNone(s: seq<Comment>, p: Uuid)
    requires p !in ParentIds(s)
    ensures ChildrenOf(s, p) == []
  {
  }

  lemma ChildrenOfSnoc(s: seq<Comment>, c: Comment, q: Uuid)
    ensures ChildrenOf(s + [c], q) == ChildrenOf(s, q) + (if c.parentId == Some(q) then [c] else [])
  {
    assert (s + [c])[..|s + [c]| - 1] == s;
  }

  lemma TopLevelSnoc(s: seq<Comment>, c: Comment)
    ensures TopLevel(s + [c]) == TopLevel(s) + (if c.parentId.None? then [c] else [])
  {
    assert (s + [c])[..|s + [c]| - 1] == s;
  }

  lemma ParentIdsSnoc(s: seq<Comment>, c: Comment)
    ensures ParentIds(s + [c]) == ParentIds(s) + (if c.parentId.Some? then {c.parentId.value} else {})
  {
    var t := s + [c];
    forall q | q in ParentIds(t) ensures q in ParentIds(s) || (c.parentId.Some? && q == c.parentId.value) {
      var d :| d in t && d.parentId.Some? && d.parentId.value == q;
      if d != c { assert d in s; }
    }
  }

  lemma ChildMapSnocTop(s: seq<Comment>, c: Comment)
    requires c.parentId.None?
    ensures ChildMapOf(s + [c]) == ChildMapOf(s)
  {
    var t := s + [c];
    ParentIdsSnoc(s, c);
    forall q | q in ParentIds(t) ensures ChildMapOf(s)[q] == ChildMapOf(t)[q] {
      ChildrenOfSnoc(s, c, q);
    }
  }

  lemma ChildMapSnocChild(s: seq<Comment>, c: Comment)
    requires c.parentId.Some?
    ensures var p := c.parentId.value;
      ChildMapOf(s + [c]) == ChildMapOf(s)[p := (if p in ChildMapOf(s) then ChildMapOf(s)[p] else []) + [c]]
  {
    var t := s + [c];
    var p := c.parentId.value;
    ParentIdsSnoc(s, c);
    if p !in ParentIds(s) { ChildrenOfNone(s, p); }
    var m := ChildMapOf(s)[p := (if p in ChildMapOf(s) then ChildMapOf(s)[p] else []) + [c]];
    assert m.Keys == ChildMapOf(t).Keys;
    forall q | q in m ensures m[q] == ChildMapOf(t)[q] {
      ChildrenOfSnoc(s, c, q);
    }
  }

  /** One comment placed: a comment without a parent joins the top-level list, any other
      joins the end of its parent's child list. */
  lemma MapMainLevelStep(done: seq<Comment>, c: Comment, top: seq<Comment>, childMap: ChildMap,
    top': seq<Comment>, childMap': ChildMap)
    requires top == TopLevel(done) && childMap == ChildMapOf(done)
    requires c.parentId.None? ==> top' == top + [c] && childMap' == childMap
    requires c.parentId.Some? ==>
      top' == top && childMap' == childMap[c.parentId.value := (if c.parentId.value in childMap then childMap[c.parentId.value] else []) + [c]]
    ensures top' == TopLevel(done + [c]) && childMap' == ChildMapOf(done + [c])
  {
    TopLevelSnoc(done, c);
    if c.parentId.None? {
      ChildMapSnocTop(done, c);
    } else {
      ChildMapSnocChild(done, c);
    }
  }

  /** mapMainLevelComments: sort by creation time, then put every comment either in the
      top-level list or in the child list of its parent's id. */
  method MapMainLevelComments(comments: seq<Comment>) returns (top: seq<Comment>, childMap: ChildMap)
    ensures top == TopLevel(SortByCreated(comments))
    ensures childMap == ChildMapOf(SortByCreated(comments))
  {
    var sorted := SortByCreated(comments);
    top, childMap := PartitionByParent(sorted);
  }

  /** The loop of mapMainLevelComments over the sorted comments. */
  method PartitionByParent(sorted: seq<Comment>) returns (top: seq<Comment>, childMap: ChildMap)
    ensures top == TopLevel(sorted)
    ensures childMap == ChildMapOf(sorted)
  {
    top := [];
    childMap := map[];
    ghost var done: seq<Comment> := [];
    var i := 0;
    while i < |sorted|
      invariant 0 <= i <= |sorted|
      invariant done == sorted[..i]
      invariant top == TopLevel(done)
      invariant childMap == ChildMapOf(done)
    {
      var c := sorted[i];
      ghost var top0, childMap0 := top, childMap;
      if c.parentId.None? {
        top := top + [c];
      } else {
        var p := c.parentId.value;
        var childComments := if p in childMap then childMap[p] else [];
        childComments := childComments + [c];
        childMap := childMap[p := childComments];
      }
      MapMainLevelStep(done, c, top0, childMap0, top, childMap);
      Seqs.TakeSnoc(sorted, i);
      done := done + [c];
      i := i + 1;
    }
    assert sorted[..|sorted|] == sorted;
  }

  // ----- partition properties

  lemma {:induction false} PartitionCounts(s: seq<Comment>, c: Comment, p: Uuid)
    ensures multiset(TopLevel(s))[c] == (if c.parentId.None? then multiset(s)[c] else 0)
    ensures multiset(ChildrenOf(s, p))[c] == (if c.parentId == Some(p) then multiset(s)[c] else 0)
  {
    if s != [] {
      var s' := s[..|s| - 1];
      assert s == s' + [s[|s| - 1]];
      PartitionCounts(s', c, p);
    }
  }

  /** Every comment of the thread lands exactly once: in the top-level list when it has no
      parent, otherwise in the child list of its parent, and nowhere else. */
  lemma MainLevelExactlyOnce(comments: seq<Comment>, c: Comment)
    requires ThreadComments(comments) && c in comments
    ensures var s := SortByCreated(comments);
      && (c.parentId.None? ==> multiset(TopLevel(s))[c] == 1)
      && (c.parentId.Some? ==>
            (multiset(TopLevel(s))[c] == 0
             && c.parentId.value in ChildMapOf(s)
             && multiset(ChildMapOf(s)[c.parentId.value])[c] == 1))
      && (forall p :: p in ChildMapOf(s) && Some(p) != c.parentId ==> multiset(ChildMapOf(s)[p])[c] == 0)
  {
    var s := SortByCreated(comments);
    assert multiset(s)[c] == 1;
    PartitionCounts(s, c, if c.parentId.Some? then c.parentId.value else 0);
    if c.parentId.Some? {
      assert c in s;
      assert c.parentId.value in ParentIds(s);
    }
    forall p | p in ChildMapOf(s) && Some(p) != c.parentId
      ensures multiset(ChildMapOf(s)[p])[c] == 0
    {
      PartitionCounts(s, c, p);
    }
  }

  /** Nothing is invented: whatever the lists hold comes from the thread. */
  lemma MainLevelFromThread(comments: seq<Comment>)
    ensures forall c :: c in TopLevel(SortByCreated(comments)) ==> c in comments
    ensures forall p, c :: p in ChildMapOf(SortByCreated(comments)) && c in ChildMapOf(SortByCreated(comments))[p]
              ==> c in comments && c.parentId == Some(p)
  {
    var s := SortByCreated(comments);
    forall c | c in TopLevel(s) ensures c in comments {
      assert c in multiset(s);
    }
    forall p, c | p in ChildMapOf(s) && c in ChildMapOf(s)[p] ensures c in comments && c.parentId == Some(p) {
      assert c in multiset(s);
    }
  }

  lemma {:induction false} TopLevelSorted(s: seq<Comment>)
    requires Sorting.SortedBy(s, CreatedKey)
    ensures Sorting.SortedBy(TopLevel(s), CreatedKey)
  {
    if s != [] {
      var s' := s[..|s| - 1];
      assert Sorting.SortedBy(s', CreatedKey);
      TopLevelSorted(s');
      var t := TopLevel(s');
      forall i | 0 <= i < |t| ensures t[i].created <= s[|s| - 1].created {
        assert t[i] in s';
      }
    }
  }

  lemma {:induction false} ChildrenOfSorted(s: seq<Comment>, p: Uuid)
    requires Sorting.SortedBy(s, CreatedKey)
    ensures Sorting.SortedBy(ChildrenOf(s, p), CreatedKey)
  {
    if s != [] {
      var s' := s[..|s| - 1];
      assert Sorting.SortedBy(s', CreatedKey);
      ChildrenOfSorted(s', p);
      var t := ChildrenOf(s', p);
      forall i | 0 <= i < |t| ensures t[i].created <= s[|s| - 1].created {
        assert t[i] in s';
      }
    }
  }

  /** The top-level list and every child list are in creation order. */
  lemma MainLevelOrdered(comments: seq<Comment>)
    ensures Sorting.SortedBy(TopLevel(SortByCreated(comments)), CreatedKey)
    ensures forall p :: p in ChildMapOf(SortByCreated(comments)) ==>
              Sorting.SortedBy(ChildMapOf(SortByCreated(comments))[p], CreatedKey)
  {
    var s := SortByCreated(comments);
    TopLevelSorted(s);
    forall p | p in ChildMapOf(s) ensures Sorting.SortedBy(ChildMapOf(s)[p], CreatedKey) {
      ChildrenOfSorted(s, p);
    }
  }

  // ----- walking the tree: chains of ids from a top-level comment

  /** Ids of the direct children of p. */
  function ChildIds(m: ChildMap, p: Uuid): set<Uuid> {
    if p in m then set c | c in m[p] :: c.id else {}
  }

  /** Ids of every comment that is somebody's child. */
  function AllChildIds(m: ChildMap): set<Uuid> {
    set p, c | p in m && c in m[p] :: c.id
  }

  /** No id is the child of two different parents. */
  ghost predicate UniqueParents(m: ChildMap) {
    forall p: Uuid, q: Uuid, x: Uuid :: x in ChildIds(m, p) && x in ChildIds(m, q) ==> p == q
  }

  /** path[0] is a top-level id and every later id is a child of the one before. */
  ghost predicate Chain(m: ChildMap, path: seq<Uuid>) {
    && (|path| > 0 ==> path[0] !in AllChildIds(m))
    && (forall i :: 0 < i < |path| ==> path[i] in ChildIds(m, path[i - 1]))
  }

  /** x may follow path in a chain. */
  ghost predicate CanExtend(m: ChildMap, path: seq<Uuid>, x: Uuid) {
    if path == [] then x !in AllChildIds(m) else x in ChildIds(m, path[|path| - 1])
  }

  function PathSet(path: seq<Uuid>): set<Uuid> {
    set x | x in path
  }

  lemma ChildIdsInAll(m: ChildMap, p: Uuid, x: Uuid)
    requires x in ChildIds(m, p)
    ensures x in AllChildIds(m)
  {
    var c :| c in m[p] && c.id == x;
  }

  /** A chain never visits an id twice. */
  lemma {:induction false} ChainDistinct(m: ChildMap, path: seq<Uuid>)
    requires UniqueParents(m) && Chain(m, path)
    ensures forall i, j :: 0 <= i < j < |path| ==> path[i] != path[j]
    decreases |path|, 0
  {
    if |path| > 1 {
      var n := |path|;
      var pre := path[..n - 1];
      assert Chain(m, pre);
      ChainDistinct(m, pre);
      ChainExtend(m, pre, path[n - 1]);
      assert path == pre + [path[n - 1]];
    }
  }

  /** A chain extended by a child of its last id is again a chain, and the child is new. */
  lemma {:induction false} ChainExtend(m: ChildMap, path: seq<Uuid>, x: Uuid)
    requires UniqueParents(m) && Chain(m, path) && CanExtend(m, path, x)
    ensures Chain(m, path + [x]) && x !in path
    decreases |path|, 1
  {
    var q := path + [x];
    forall i | 0 < i < |q| ensures q[i] in ChildIds(m, q[i - 1]) {
      if i < |path| { assert q[i] == path[i] && q[i - 1] == path[i - 1]; }
    }
    if path != [] {
      var n := |path|;
      ChildIdsInAll(m, path[n - 1], x);
      ChainDistinct(m, path);
      forall i | 0 <= i < n ensures path[i] != x {
        if i == 0 {
          assert path[0] !in AllChildIds(m);
        } else {
          assert path[i - 1] != path[n - 1];
          assert path[i] in ChildIds(m, path[i - 1]);
        }
      }
    }
  }

  /** What the recursion still may visit: it shrinks on every step below a top-level comment. */
  function Unvisited(m: ChildMap, path: seq<Uuid>): set<Uuid> {
    AllChildIds(m) - PathSet(path)
  }

  lemma UnvisitedShrinks(m: ChildMap, path: seq<Uuid>, x: Uuid)
    requires UniqueParents(m) && Chain(m, path) && CanExtend(m, path, x)
    ensures path != [] ==> Unvisited(m, path + [x]) < Unvisited(m, path)
    ensures path == [] ==> Unvisited(m, path + [x]) == Unvisited(m, path)
  {
    ChainExtend(m, path, x);
    assert PathSet(path + [x]) == PathSet(path) + {x};
    if path != [] {
      ChildIdsInAll(m, path[|path| - 1], x);
      assert x in Unvisited(m, path);
    }
  }

  // ----- deepest level (getChildCommentMaxLevel / getCommentsMaxLevels)

  /** The value getChildCommentMaxLevel returns for the comment `id` placed at `level`;
      `path` is the ghost chain from a top-level comment down to `id`. */
  ghost function SubtreeMaxLevel(m: ChildMap, id: Uuid, level: nat, path: seq<Uuid>): (r: nat)
    requires UniqueParents(m) && Chain(m, path) && path != [] && path[|path| - 1] == id
    ensures r >= level
    decreases Unvisited(m, path), 1, 0
  {
    if id in m && |m[id]| > 0 then MaxOver(m, m[id], level + 1, path, level) else level
  }

  /** The running maximum of the loop over `kids` (each placed at `level`), starting at acc. */
  ghost function MaxOver(m: ChildMap, kids: seq<Comment>, level: nat, path: seq<Uuid>, acc: nat): (r: nat)
    requires UniqueParents(m) && Chain(m, path)
    requires forall c :: c in kids ==> CanExtend(m, path, c.id)
    ensures r >= acc
    ensures kids == [] ==> r == acc
    decreases Unvisited(m, path), if path == [] then 2 else 0, |kids|
  {
    if kids == [] then acc
    else
      var c := kids[0];
      UnvisitedShrinks(m, path, c.id);
      var sub := SubtreeMaxLevel(m, c.id, level, path + [c.id]);
      MaxOver(m, kids[1..], level, path, if sub > acc then sub else acc)
  }

  /** One step of the loop MaxOver describes: the comment at index i is folded in. */
  lemma MaxOverStep(m: ChildMap, kids: seq<Comment>, i: nat, level: nat, path: seq<Uuid>, acc: nat)
    requires UniqueParents(m) && Chain(m, path) && i < |kids|
    requires forall c :: c in kids ==> CanExtend(m, path, c.id)
    ensures Chain(m, path + [kids[i].id])
    ensures var sub := SubtreeMaxLevel(m, kids[i].id, level, path + [kids[i].id]);
      MaxOver(m, kids[i..], level, path, acc)
      == MaxOver(m, kids[i + 1..], level, path, if sub > acc then sub else acc)
  {
    assert kids[i..][0] == kids[i];
    assert kids[i..][1..] == kids[i + 1..];
    ChainExtend(m, path, kids[i].id);
  }

  /** getChildCommentMaxLevel: the deepest level below the comment `id` placed at `level`. */
  method GetChildCommentMaxLevel(childCommentMap: ChildMap, commentId: Uuid, level: nat, ghost path: seq<Uuid>)
    returns (maxLevel: nat)
    requires UniqueParents(childCommentMap) && Chain(childCommentMap, path)
    requires path != [] && path[|path| - 1] == commentId
    ensures maxLevel == SubtreeMaxLevel(childCommentMap, commentId, level, path)
    decreases Unvisited(childCommentMap, path)
  {
    maxLevel := level;
    if commentId in childCommentMap && |childCommentMap[commentId]| > 0 {
      var childComments := childCommentMap[commentId];
      var nextLevel := level + 1;
      var i := 0;
      while i < |childComments|
        invariant 0 <= i <= |childComments|
        invariant MaxOver(childCommentMap, childComments, nextLevel, path, level)
               == MaxOver(childCommentMap, childComments[i..], nextLevel, path, maxLevel)
      {
        var comment := childComments[i];
        MaxOverStep(childCommentMap, childComments, i, nextLevel, path, maxLevel);
        UnvisitedShrinks(childCommentMap, path, comment.id);
        var commentLevel := GetChildCommentMaxLevel(childCommentMap, comment.id, nextLevel, path + [comment.id]);
        if commentLevel > maxLevel {
          maxLevel := commentLevel;
        }
        i := i + 1;
      }
    }
  }

  /** What mapMainLevelComments hands to the tree walk is a forest the walk can descend. */
  lemma ChildMapWellFormed(s: seq<Comment>)
    requires DistinctIds(s)
    ensures UniqueParents(ChildMapOf(s))
    ensures forall c :: c in TopLevel(s) ==> CanExtend(ChildMapOf(s), [], c.id)
  {
    var m := ChildMapOf(s);
    forall p: Uuid, q: Uuid, x: Uuid | x in ChildIds(m, p) && x in ChildIds(m, q) ensures p == q {
      var c: Comment :| c in m[p] && c.id == x;
      var d: Comment :| d in m[q] && d.id == x;
    }
    forall r | r in TopLevel(s) ensures r.id !in AllChildIds(m) {
      forall p: Uuid, c: Comment | p in m && c in m[p] ensures c.id != r.id {
        assert c in s && c.parentId.Some?;
      }
    }
  }

  predicate ValidThreads(threads: seq<CommentThread>) {
    forall t :: t in threads ==> ThreadComments(t.comments)
  }

  /** The top-level list and the child map of a thread, as mapMainLevelComments builds them. */
  function ThreadTop(t: CommentThread): seq<Comment> {
    TopLevel(SortByCreated(t.comments))
  }

  function ThreadChildMap(t: CommentThread): ChildMap {
    ChildMapOf(SortByCreated(t.comments))
  }

  lemma ThreadWellFormed(t: CommentThread)
    requires ThreadComments(t.comments)
    ensures UniqueParents(ThreadChildMap(t))
    ensures forall c :: c in ThreadTop(t) ==> CanExtend(ThreadChildMap(t), [], c.id)
  {
    assert DistinctIds(SortByCreated(t.comments)) by {
      var s := SortByCreated(t.comments);
      forall c, d | c in s && d in s && c.id == d.id ensures c == d {
        assert c in multiset(s) && d in multiset(s);
      }
    }
    ChildMapWellFormed(SortByCreated(t.comments));
  }

  /** The value of getCommentsMaxLevels: the running maximum over every thread's
      top-level comments, starting at acc. */
  ghost function ThreadsMaxLevel(threads: seq<CommentThread>, acc: nat): (r: nat)
    requires ValidThreads(threads)
    ensures r >= acc
  {
    if threads == [] then acc
    else
      var t := threads[0];
      ThreadWellFormed(t);
      ThreadsMaxLevel(threads[1..], MaxOver(ThreadChildMap(t), ThreadTop(t), 1, [], acc))
  }

  lemma ThreadsMaxLevelStep(threads: seq<CommentThread>, acc: nat)
    requires ValidThreads(threads) && threads != []
    requires UniqueParents(ThreadChildMap(threads[0]))
    requires forall c :: c in ThreadTop(threads[0]) ==> CanExtend(ThreadChildMap(threads[0]), [], c.id)
    ensures ThreadsMaxLevel(threads, acc)
      == ThreadsMaxLevel(threads[1..], MaxOver(ThreadChildMap(threads[0]), ThreadTop(threads[0]), 1, [], acc))
  {
  }

  /** The inner loop of getCommentsMaxLevels: the deepest level under the top-level
      comments of one thread, folded into the running maximum `acc`. */
  method MainLevelMaxLevel(childCommentMap: ChildMap, mainLevelComments: seq<Comment>, acc: nat)
    returns (maxLevel: nat)
    requires UniqueParents(childCommentMap)
    requires forall c :: c in mainLevelComments ==> CanExtend(childCommentMap, [], c.id)
    ensures maxLevel == MaxOver(childCommentMap, mainLevelComments, 1, [], acc)
  {
    maxLevel := acc;
    var i := 0;
    while i < |mainLevelComments|
      invariant 0 <= i <= |mainLevelComments|
      invariant MaxOver(childCommentMap, mainLevelComments, 1, [], acc)
             == MaxOver(childCommentMap, mainLevelComments[i..], 1, [], maxLevel)
    {
      var mainLevelComment := mainLevelComments[i];
      MaxOverStep(childCommentMap, mainLevelComments, i, 1, [], maxLevel);
      assert [] + [mainLevelComment.id] == [mainLevelComment.id];
      var level := GetChildCommentMaxLevel(childCommentMap, mainLevelComment.id, 1, [mainLevelComment.id]);
      if level > maxLevel {
        maxLevel := level;
      }
      i := i + 1;
    }
  }

  /** getCommentsMaxLevels. */
  method GetCommentsMaxLevels(commentThreads: seq<CommentThread>) returns (maxLevel: nat)
    requires ValidThreads(commentThreads)
    ensures maxLevel == ThreadsMaxLevel(commentThreads, 0)
  {
    maxLevel := 0;
    var k := 0;
    while k < |commentThreads|
      invariant 0 <= k <= |commentThreads|
      invariant ThreadsMaxLevel(commentThreads, 0) == ThreadsMaxLevel(commentThreads[k..], maxLevel)
    {
      var commentThread := commentThreads[k];
      var mainLevelComments, childCommentMap := MapMainLevelComments(commentThread.comments);
      ThreadWellFormed(commentThread);
      ThreadsMaxLevelStep(commentThreads[k..], maxLevel);
      assert commentThreads[k..][1..] == commentThreads[k + 1..];
      maxLevel := MainLevelMaxLevel(childCommentMap, mainLevelComments, maxLevel);
      k := k + 1;
    }
  }
}

/** What the deepest level means: it is at least the level reported for every top-level
    comment of every thread, and it is 0 or equal to the level reported for one of them. */
module CommentTreeLevels {
  import opened Wrappers
  import opened Domain
  import opened CommentTree

  function Max(a: nat, b: nat): nat {
    if a > b then a else b
  }

  /** A larger starting maximum never gives a smaller result. */
  lemma {:induction false} MaxOverMono(m: ChildMap, kids: seq<Comment>, level: nat, path: seq<Uuid>, a: nat, b: nat)
    requires UniqueParents(m) && Chain(m, path)
    requires forall c :: c in kids ==> CanExtend(m, path, c.id)
    requires a <= b
    ensures MaxOver(m, kids, level, path, a) <= MaxOver(m, kids, level, path, b)
    decreases |kids|
  {
    if kids != [] {
      MaxOverStep(m, kids, 0, level, path, a);
      MaxOverStep(m, kids, 0, level, path, b);
      assert kids[0..] == kids;
      var sub := SubtreeMaxLevel(m, kids[0].id, level, path + [kids[0].id]);
      MaxOverMono(m, kids[1..], level, path, Max(sub, a), Max(sub, b));
    }
  }

  /** The loop's result is at least the subtree level of every comment it visits. */
  lemma {:induction false} MaxOverBound(m: ChildMap, kids: seq<Comment>, level: nat, path: seq<Uuid>, acc: nat, j: nat)
    requires UniqueParents(m) && Chain(m, path)
    requires forall c :: c in kids ==> CanExtend(m, path, c.id)
    requires j < |kids|
    ensures Chain(m, path + [kids[j].id])
    ensures MaxOver(m, kids, level, path, acc) >= SubtreeMaxLevel(m, kids[j].id, level, path + [kids[j].id])
    decreases |kids|
  {
    MaxOverStep(m, kids, 0, level, path, acc);
    assert kids[0..] == kids;
    if j > 0 {
      var sub := SubtreeMaxLevel(m, kids[0].id, level, path + [kids[0].id]);
      MaxOverBound(m, kids[1..], level, path, Max(sub, acc), j - 1);
      assert kids[1..][j - 1] == kids[j];
    } else {
      ChainExtend(m, path, kids[0].id);
    }
  }

  /** The loop's result is its starting value or the subtree level of one visited comment. */
  lemma {:induction false} MaxOverAttained(m: ChildMap, kids: seq<Comment>, level: nat, path: seq<Uuid>, acc: nat)
    requires UniqueParents(m) && Chain(m, path)
    requires forall c :: c in kids ==> CanExtend(m, path, c.id)
    ensures var r := MaxOver(m, kids, level, path, acc);
      r == acc || exists j :: 0 <= j < |kids| && Chain(m, path + [kids[j].id])
                             && r == SubtreeMaxLevel(m, kids[j].id, level, path + [kids[j].id])
    decreases |kids|
  {
    if kids != [] {
      MaxOverStep(m, kids, 0, level, path, acc);
      assert kids[0..] == kids;
      var sub := SubtreeMaxLevel(m, kids[0].id, level, path + [kids[0].id]);
      var r := MaxOver(m, kids, level, path, acc);
      MaxOverAttained(m, kids[1..], level, path, Max(sub, acc));
      if r != Max(sub, acc) {
        var j :| 0 <= j < |kids[1..]| && Chain(m, path + [kids[1..][j].id])
                 && r == SubtreeMaxLevel(m, kids[1..][j].id, level, path + [kids[1..][j].id]);
        assert kids[1..][j] == kids[j + 1];
      } else if sub <= acc {
        assert r == acc;
      } else {
        assert Chain(m, path + [kids[0].id]) && r == SubtreeMaxLevel(m, kids[0].id, level, path + [kids[0].id]);
      }
    }
  }

  /** A reply sits one level deeper than the comment it answers, so the level reported for a
      comment is at least the level reported for each of its replies. */
  lemma SubtreeCoversChild(m: ChildMap, id: Uuid, level: nat, path: seq<Uuid>, c: Comment)
    requires UniqueParents(m) && Chain(m, path) && path != [] && path[|path| - 1] == id
    requires id in m && c in m[id]
    ensures Chain(m, path + [c.id])
    ensures SubtreeMaxLevel(m, id, level, path) >= SubtreeMaxLevel(m, c.id, level + 1, path + [c.id])
  {
    var j :| 0 <= j < |m[id]| && m[id][j] == c;
    MaxOverBound(m, m[id], level + 1, path, level, j);
  }

  /** A comment without replies reports its own level; otherwise the deepest of its replies'. */
  lemma SubtreeAttained(m: ChildMap, id: Uuid, level: nat, path: seq<Uuid>)
    requires UniqueParents(m) && Chain(m, path) && path != [] && path[|path| - 1] == id
    ensures (id !in m || m[id] == []) ==> SubtreeMaxLevel(m, id, level, path) == level
    ensures id in m && m[id] != [] ==>
      exists c :: c in m[id] && Chain(m, path + [c.id])
                  && SubtreeMaxLevel(m, id, level, path) == SubtreeMaxLevel(m, c.id, level + 1, path + [c.id])
  {
    if id in m && m[id] != [] {
      var kids := m[id];
      // the first reply already reaches level + 1, so the maximum is not the starting value
      MaxOverBound(m, kids, level + 1, path, level, 0);
      MaxOverAttained(m, kids, level + 1, path, level);
      var r := SubtreeMaxLevel(m, id, level, path);
      var j :| 0 <= j < |kids| && Chain(m, path + [kids[j].id])
               && r == SubtreeMaxLevel(m, kids[j].id, level + 1, path + [kids[j].id]);
      assert kids[j] in kids;
    }
  }

  /** getCommentsMaxLevels covers every thread: it is at least the level of each thread's
      deepest reply chain. */
  lemma {:induction false} ThreadsMaxLevelCovers(threads: seq<CommentThread>, acc: nat, t: CommentThread)
    requires ValidThreads(threads) && t in threads
    ensures UniqueParents(ThreadChildMap(t))
    ensures forall c :: c in ThreadTop(t) ==> CanExtend(ThreadChildMap(t), [], c.id)
    ensures ThreadsMaxLevel(threads, acc) >= MaxOver(ThreadChildMap(t), ThreadTop(t), 1, [], 0)
  {
    var t0 := threads[0];
    ThreadWellFormed(t0);
    ThreadWellFormed(t);
    var next := MaxOver(ThreadChildMap(t0), ThreadTop(t0), 1, [], acc);
    assert ValidThreads(threads[1..]);
    if t == t0 {
      MaxOverMono(ThreadChildMap(t0), ThreadTop(t0), 1, [], 0, acc);
    } else {
      ThreadsMaxLevelCovers(threads[1..], next, t);
    }
  }

  /** Every top-level comment of every thread is covered. */
  lemma ThreadsMaxLevelCoversRoot(threads: seq<CommentThread>, t: CommentThread, r: Comment)
    requires ValidThreads(threads) && t in threads && r in ThreadTop(t)
    ensures UniqueParents(ThreadChildMap(t)) && Chain(ThreadChildMap(t), [r.id])
    ensures ThreadsMaxLevel(threads, 0) >= SubtreeMaxLevel(ThreadChildMap(t), r.id, 1, [r.id])
  {
    ThreadsMaxLevelCovers(threads, 0, t);
    var j :| 0 <= j < |ThreadTop(t)| && ThreadTop(t)[j] == r;
    MaxOverBound(ThreadChildMap(t), ThreadTop(t), 1, [], 0, j);
    assert [] + [r.id] == [r.id];
  }

  /** The deepest level is 0 exactly when no thread has a top-level comment. */
  lemma {:induction false} ThreadsMaxLevelZero(threads: seq<CommentThread>)
    requires ValidThreads(threads)
    ensures ThreadsMaxLevel(threads, 0) == 0 <==> forall t :: t in threads ==> ThreadTop(t) == []
  {
    if forall t :: t in threads ==> ThreadTop(t) == [] {
      AllEmptyKeeps(threads, 0);
    } else {
      var t :| t in threads && ThreadTop(t) != [];
      ThreadsMaxLevelCoversRoot(threads, t, ThreadTop(t)[0]);
    }
  }

  lemma {:induction false} AllEmptyKeeps(threads: seq<CommentThread>, acc: nat)
    requires ValidThreads(threads)
    requires forall t :: t in threads ==> ThreadTop(t) == []
    ensures ThreadsMaxLevel(threads, acc) == acc
  {
    if threads != [] {
      assert threads[0] in threads;
      assert ValidThreads(threads[1..]);
      AllEmptyKeeps(threads[1..], acc);
    }
  }
  /** v is the level reported for one top-level comment of one of the threads. */
  ghost predicate RootLevel(threads: seq<CommentThread>, v: nat) {
    exists t, r :: t in threads && r in ThreadTop(t)
      && UniqueParents(ThreadChildMap(t)) && Chain(ThreadChildMap(t), [r.id])
      && v == SubtreeMaxLevel(ThreadChildMap(t), r.id, 1, [r.id])
  }

  /** getCommentsMaxLevels returns its starting value or the level reported for one
      top-level comment: it never exceeds every real depth. */
  lemma {:induction false} ThreadsMaxLevelAttained(threads: seq<CommentThread>, acc: nat)
    requires ValidThreads(threads)
    ensures var r := ThreadsMaxLevel(threads, acc); r == acc || RootLevel(threads, r)
  {
    if threads != [] {
      var t := threads[0];
      ThreadWellFormed(t);
      ThreadsMaxLevelStep(threads, acc);
      var m, top := ThreadChildMap(t), ThreadTop(t);
      var next := MaxOver(m, top, 1, [], acc);
      assert ValidThreads(threads[1..]);
      ThreadsMaxLevelAttained(threads[1..], next);
      RootLevelTail(threads, ThreadsMaxLevel(threads, acc));
      MaxOverAttained(m, top, 1, [], acc);
      if next != acc {
        var j :| 0 <= j < |top| && Chain(m, [] + [top[j].id])
                 && next == SubtreeMaxLevel(m, top[j].id, 1, [] + [top[j].id]);
        assert [] + [top[j].id] == [top[j].id];
        assert top[j] in top && t in threads;
      }
    }
  }

  lemma RootLevelTail(threads: seq<CommentThread>, v: nat)
    requires threads != []
    ensures RootLevel(threads[1..], v) ==> RootLevel(threads, v)
  {
    if RootLevel(threads[1..], v) {
      var t, r :| t in threads[1..] && r in ThreadTop(t)
        && UniqueParents(ThreadChildMap(t)) && Chain(ThreadChildMap(t), [r.id])
        && v == SubtreeMaxLevel(ThreadChildMap(t), r.id, 1, [r.id]);
      assert t in threads;
    }
  }

  /** The top-level comment r has at least one reply in its thread. */
  predicate HasReplies(t: CommentThread, r: Comment) {
    r.id in ThreadChildMap(t) && ThreadChildMap(t)[r.id] != []
  }

  /** A reply of r is a comment of the thread whose parent is r. */
  lemma ReplyHasParent(t: CommentThread, r: Comment)
    ensures HasReplies(t, r) ==> exists c :: c in t.comments && c.parentId == Some(r.id)
  {
    MainLevelFromThread(t.comments);
    if HasReplies(t, r) {
      var c := ThreadChildMap(t)[r.id][0];
      assert c in ThreadChildMap(t)[r.id];
    }
  }

  /** A top-level comment with a reply reports a level of at least 2. */
  lemma RootWithReplyIsDeep(m: ChildMap, r: Comment)
    requires UniqueParents(m) && Chain(m, [r.id])
    ensures (r.id in m && m[r.id] != []) ==> SubtreeMaxLevel(m, r.id, 1, [r.id]) >= 2
  {
    if r.id in m && m[r.id] != [] {
      SubtreeCoversChild(m, r.id, 1, [r.id], m[r.id][0]);
    }
  }

  /** The deepest level is 1 exactly when some thread has a top-level comment and no
      top-level comment has a reply. */
  lemma ThreadsMaxLevelOne(threads: seq<CommentThread>)
    requires ValidThreads(threads)
    ensures ThreadsMaxLevel(threads, 0) == 1 <==>
      && (exists t :: t in threads && ThreadTop(t) != [])
      && (forall t, r :: t in threads && r in ThreadTop(t) ==> !HasReplies(t, r))
  {
    var v := ThreadsMaxLevel(threads, 0);
    ThreadsMaxLevelZero(threads);
    ThreadsMaxLevelAttained(threads, 0);
    forall t, r | t in threads && r in ThreadTop(t) ensures HasReplies(t, r) ==> v >= 2 {
      ThreadsMaxLevelCoversRoot(threads, t, r);
      RootWithReplyIsDeep(ThreadChildMap(t), r);
    }
    if v != 0 {
      RootLevelOne(threads, v);
    }
  }

  /** A level reported for a top-level comment is 1 unless that comment has a reply. */
  lemma RootLevelOne(threads: seq<CommentThread>, v: nat)
    requires RootLevel(threads, v)
    ensures v == 1 || exists t, r :: t in threads && r in ThreadTop(t) && HasReplies(t, r)
  {
    var t, r :| t in threads && r in ThreadTop(t)
      && UniqueParents(ThreadChildMap(t)) && Chain(ThreadChildMap(t), [r.id])
      && v == SubtreeMaxLevel(ThreadChildMap(t), r.id, 1, [r.id]);
    SubtreeAttained(ThreadChildMap(t), r.id, 1, [r.id]);
  }

  /** When no comment of any thread is a reply, the deepest level is 1 if there is any
      comment at all and 0 otherwise. */
  lemma ThreadsMaxLevelNoReplies(threads: seq<CommentThread>)
    requires ValidThreads(threads)
    requires forall t, c :: t in threads && c in t.comments ==> c.parentId.None?
    ensures ThreadsMaxLevel(threads, 0) == if exists t :: t in threads && t.comments != [] then 1 else 0
  {
    ThreadsMaxLevelOne(threads);
    ThreadsMaxLevelZero(threads);
    forall t, r | t in threads && r in ThreadTop(t) ensures !HasReplies(t, r) {
      ReplyHasParent(t, r);
    }
    forall t | t in threads ensures (t.comments != []) == (ThreadTop(t) != []) {
      MainLevelFromThread(t.comments);
      assert ThreadTop(t) != [] ==> ThreadTop(t)[0] in ThreadTop(t);
      if t.comments != [] {
        MainLevelExactlyOnce(t.comments, t.comments[0]);
      }
    }
  }
}

