/** Which comments the comments sheet lists: every comment whose chain of parents leads up to
    a top-level comment of its thread, each exactly once, at the depth of that chain. */
module CommentCoverage {
  import opened Wrappers
  import opened Domain
  import opened CommentTree
  import opened CommentRows

  // ----- chains of ids

  /** A chain that has more than one id ends at somebody's child. */
  lemma ChainLast(m: ChildMap, p: seq<Uuid>)
    requires Chain(m, p) && |p| > 0
    ensures |p| > 1 ==> p[|p| - 1] in AllChildIds(m)
  {
    if |p| > 1 {
      ChildIdsInAll(m, p[|p| - 2], p[|p| - 1]);
    }
  }

  /** In a forest every id is reached by one chain only: two chains that end at the same id
      are the same chain. */
  lemma {:induction false} ChainsMeet(m: ChildMap, p1: seq<Uuid>, p2: seq<Uuid>)
    requires UniqueParents(m) && Chain(m, p1) && Chain(m, p2) && |p1| > 0 && |p2| > 0
    ensures p1[|p1| - 1] == p2[|p2| - 1] ==> p1 == p2
    decreases |p1|
  {
    var n1, n2 := |p1|, |p2|;
    ChainLast(m, p1);
    ChainLast(m, p2);
    if n1 > 1 && n2 > 1 {
      var a, b := p1[..n1 - 1], p2[..n2 - 1];
      assert Chain(m, a) && Chain(m, b);
      ChainsMeet(m, a, b);
      assert p1 == a + [p1[n1 - 1]] && p2 == b + [p2[n2 - 1]];
      assert p1[n1 - 1] in ChildIds(m, a[n1 - 2]) && p2[n2 - 1] in ChildIds(m, b[n2 - 2]);
    }
  }

  // ----- walks down a child map

  /** q walks down the forest m: it starts at one of `kids` and every further comment is a
      reply to the one before it. */
  ghost predicate Descends(m: ChildMap, kids: seq<Comment>, q: seq<Comment>) {
    && |q| > 0 && q[0] in kids
    && (forall i :: 0 < i < |q| ==> RepliesTo(m, q[i - 1], q[i]))
  }

  /** b is in the child list of a. */
  predicate RepliesTo(m: ChildMap, a: Comment, b: Comment) {
    a.id in m && b in m[a.id]
  }

  /** The replies to c continue any chain that ends at c. */
  lemma RepliesExtend(m: ChildMap, path: seq<Uuid>, c: Comment)
    requires c.id in m
    ensures forall x :: x in m[c.id] ==> CanExtend(m, path + [c.id], x.id)
  {
    forall x | x in m[c.id] ensures CanExtend(m, path + [c.id], x.id) {
      assert (path + [c.id])[|path + [c.id]| - 1] == c.id;
      assert x.id in ChildIds(m, c.id);
    }
  }

  function Ids(q: seq<Comment>): seq<Uuid> {
    seq(|q|, i requires 0 <= i < |q| => q[i].id)
  }

  /** A walk below `path` continues the chain `path`. */
  lemma DescendsChain(m: ChildMap, kids: seq<Comment>, path: seq<Uuid>, q: seq<Comment>)
    requires Chain(m, path)
    requires forall c :: c in kids ==> CanExtend(m, path, c.id)
    requires Descends(m, kids, q)
    ensures Chain(m, path + Ids(q))
  {
    var p := path + Ids(q);
    var n := |path|;
    assert CanExtend(m, path, q[0].id);
    forall i | 0 < i < |p| ensures p[i] in ChildIds(m, p[i - 1]) {
      if i < n {
        assert p[i] == path[i] && p[i - 1] == path[i - 1];
      } else if i == n {
        assert p[i] == q[0].id && p[i - 1] == path[n - 1];
      } else {
        assert p[i] == q[i - n].id && p[i - 1] == q[i - n - 1].id;
        assert RepliesTo(m, q[i - n - 1], q[i - n]);
      }
    }
    if n == 0 {
      assert p[0] == q[0].id;
    } else {
      assert p[0] == path[0];
    }
  }

  /** The top of a walk with one more comment, one level up. */
  lemma DescendsCons(m: ChildMap, kids: seq<Comment>, c: Comment, q: seq<Comment>)
    requires c in kids && c.id in m && Descends(m, m[c.id], q)
    ensures Descends(m, kids, [c] + q)
  {
    var q' := [c] + q;
    forall i | 0 < i < |q'| ensures RepliesTo(m, q'[i - 1], q'[i]) {
      if i == 1 {
        assert q'[1] == q[0] && q'[0] == c;
      } else {
        assert q'[i] == q[i - 1] && q'[i - 1] == q[i - 2];
      }
    }
  }

  // ----- where each written row comes from

  /** Row i below `kids` is written for the end of a walk from one of `kids`, at `level`
      plus the length of the walk less one; the walk continues the chain `path`. */
  lemma {:induction false} RowWalk(m: ChildMap, kids: seq<Comment>, level: nat, path: seq<Uuid>, i: nat)
    returns (q: seq<Comment>)
    requires UniqueParents(m) && Chain(m, path)
    requires forall c :: c in kids ==> CanExtend(m, path, c.id)
    requires i < |Rows(m, kids, level, path)|
    ensures Descends(m, kids, q)
    ensures q[|q| - 1] == Rows(m, kids, level, path)[i].comment
    ensures Rows(m, kids, level, path)[i].level == level + |q| - 1
    ensures Chain(m, path + Ids(q))
    decreases Unvisited(m, path), if path == [] then 1 else 0, |kids|
  {
    var R := Rows(m, kids, level, path);
    var c := kids[0];
    RowsStep(m, kids, 0, level, path);
    assert kids[0..] == kids;
    var replies := Replies(m, c, level, path);
    var rest := Rows(m, kids[1..], level, path);
    assert R == [RowEntry(c, level)] + replies + rest;
    if i == 0 {
      q := [c];
    } else if i <= |replies| {
      UnvisitedShrinks(m, path, c.id);
      ChainExtend(m, path, c.id);
      RepliesExtend(m, path, c);
      var q' := RowWalk(m, m[c.id], level + 1, path + [c.id], i - 1);
      assert R[i] == replies[i - 1];
      DescendsCons(m, kids, c, q');
      q := [c] + q';
    } else {
      assert kids == [c] + kids[1..];
      var q' := RowWalk(m, kids[1..], level, path, i - 1 - |replies|);
      assert R[i] == rest[i - 1 - |replies|];
      assert q'[0] in kids;
      q := q';
    }
    DescendsChain(m, kids, path, q);
  }

  // ----- no comment is written twice

  /** The comments of a list have distinct ids. */
  predicate IdsDistinct(cs: seq<Comment>) {
    forall i, j :: 0 <= i < j < |cs| ==> cs[i].id != cs[j].id
  }

  /** Every child list of m has distinct ids. */
  predicate ChildListsDistinct(m: ChildMap) {
    forall p :: p in m ==> IdsDistinct(m[p])
  }

  /** The rows written below `kids` are for comments with distinct ids. */
  lemma {:induction false} RowsDistinct(m: ChildMap, kids: seq<Comment>, level: nat, path: seq<Uuid>)
    requires UniqueParents(m) && Chain(m, path)
    requires forall c :: c in kids ==> CanExtend(m, path, c.id)
    requires IdsDistinct(kids) && ChildListsDistinct(m)
    ensures var R := Rows(m, kids, level, path);
      forall i, j :: 0 <= i < j < |R| ==> R[i].comment.id != R[j].comment.id
    decreases Unvisited(m, path), if path == [] then 1 else 0, |kids|
  {
    if kids != [] {
      var R := Rows(m, kids, level, path);
      var c := kids[0];
      RowsStep(m, kids, 0, level, path);
      assert kids[0..] == kids;
      assert IdsDistinct(kids[1..]);
      RowsDistinct(m, kids[1..], level, path);
      RepliesDistinct(m, c, level, path);
      ReplyNotFirst(m, c, level, path);
      RestApart(m, kids, level, path);
      BlockDistinct(c, level, Replies(m, c, level, path), Rows(m, kids[1..], level, path));
    }
  }

  /** The rows below one comment are for comments with distinct ids. */
  lemma {:induction false} RepliesDistinct(m: ChildMap, c: Comment, level: nat, path: seq<Uuid>)
    requires UniqueParents(m) && Chain(m, path) && CanExtend(m, path, c.id)
    requires ChildListsDistinct(m)
    ensures var replies := Replies(m, c, level, path);
      forall a, b :: 0 <= a < b < |replies| ==> replies[a].comment.id != replies[b].comment.id
    decreases Unvisited(m, path), if path == [] then 1 else 0, 0
  {
    if c.id in m && |m[c.id]| > 0 {
      ChainExtend(m, path, c.id);
      UnvisitedShrinks(m, path, c.id);
      RepliesExtend(m, path, c);
      RowsDistinct(m, m[c.id], level + 1, path + [c.id]);
      assert Replies(m, c, level, path) == Rows(m, m[c.id], level + 1, path + [c.id]);
    } else {
      assert Replies(m, c, level, path) == [];
    }
  }

  /** The chain of ids that leads to row i below `kids`: it continues `path` with the id of
      one of `kids` and ends at the row's comment. */
  lemma RowChain(m: ChildMap, kids: seq<Comment>, level: nat, path: seq<Uuid>, i: nat)
    returns (p: seq<Uuid>, top: Comment)
    requires UniqueParents(m) && Chain(m, path)
    requires forall c :: c in kids ==> CanExtend(m, path, c.id)
    requires i < |Rows(m, kids, level, path)|
    ensures Chain(m, p) && |p| > |path| && p[..|path|] == path
    ensures top in kids && p[|path|] == top.id
    ensures p[|p| - 1] == Rows(m, kids, level, path)[i].comment.id
  {
    var q := RowWalk(m, kids, level, path, i);
    p := path + Ids(q);
    top := q[0];
    assert p[..|path|] == path;
    assert p[|path|] == q[0].id;
    assert p[|p| - 1] == q[|q| - 1].id;
  }

  /** Two chains that differ at some position end at different ids. */
  lemma ChainsDiffer(m: ChildMap, p1: seq<Uuid>, p2: seq<Uuid>, n: nat)
    requires UniqueParents(m) && Chain(m, p1) && Chain(m, p2)
    requires n < |p1| && n < |p2| && p1[n] != p2[n]
    ensures p1[|p1| - 1] != p2[|p2| - 1]
  {
    ChainsMeet(m, p1, p2);
  }

  /** The chain to reply i below c passes through c. */
  lemma ReplyChain(m: ChildMap, c: Comment, level: nat, path: seq<Uuid>, i: nat) returns (p: seq<Uuid>)
    requires UniqueParents(m) && Chain(m, path) && CanExtend(m, path, c.id)
    requires i < |Replies(m, c, level, path)|
    ensures Chain(m, p) && |p| > |path| + 1 && p[|path|] == c.id
    ensures p[|p| - 1] == Replies(m, c, level, path)[i].comment.id
  {
    var here := path + [c.id];
    ChainExtend(m, path, c.id);
    assert c.id in m && |m[c.id]| > 0;
    RepliesExtend(m, path, c);
    var top;
    p, top := RowChain(m, m[c.id], level + 1, here, i);
    assert p[|path|] == p[..|here|][|path|];
  }

  /** A row after the block of the first of `kids` has a chain that leaves `path` through
      another of `kids`. */
  lemma RestChain(m: ChildMap, kids: seq<Comment>, level: nat, path: seq<Uuid>, k: nat) returns (p: seq<Uuid>)
    requires UniqueParents(m) && Chain(m, path)
    requires forall c :: c in kids ==> CanExtend(m, path, c.id)
    requires IdsDistinct(kids) && kids != []
    requires k < |Rows(m, kids[1..], level, path)|
    ensures Chain(m, p) && |p| > |path| && p[|path|] != kids[0].id
    ensures p[|p| - 1] == Rows(m, kids[1..], level, path)[k].comment.id
  {
    var top;
    p, top := RowChain(m, kids[1..], level, path, k);
    var x :| 0 <= x < |kids[1..]| && kids[1..][x] == top;
    assert kids[x + 1] == top;
  }

  /** Rows for distinct ids: no reply below c is for c itself. */
  lemma ReplyNotFirst(m: ChildMap, c: Comment, level: nat, path: seq<Uuid>)
    requires UniqueParents(m) && Chain(m, path) && CanExtend(m, path, c.id)
    ensures var replies := Replies(m, c, level, path);
      forall a :: 0 <= a < |replies| ==> replies[a].comment.id != c.id
  {
    var replies := Replies(m, c, level, path);
    forall a | 0 <= a < |replies| ensures replies[a].comment.id != c.id {
      var p := ReplyChain(m, c, level, path, a);
      ChainDistinct(m, p);
    }
  }

  /** No row after the first comment's block is for the first comment or one of its replies. */
  lemma RestApart(m: ChildMap, kids: seq<Comment>, level: nat, path: seq<Uuid>)
    requires UniqueParents(m) && Chain(m, path)
    requires forall c :: c in kids ==> CanExtend(m, path, c.id)
    requires IdsDistinct(kids) && kids != []
    ensures var c, rest := kids[0], Rows(m, kids[1..], level, path);
      forall b :: 0 <= b < |rest| ==> rest[b].comment.id != c.id
    ensures var replies, rest := Replies(m, kids[0], level, path), Rows(m, kids[1..], level, path);
      forall a, b :: 0 <= a < |replies| && 0 <= b < |rest| ==> replies[a].comment.id != rest[b].comment.id
  {
    var c, n := kids[0], |path|;
    assert c in kids;
    var replies, rest := Replies(m, c, level, path), Rows(m, kids[1..], level, path);
    ChainExtend(m, path, c.id);
    forall b | 0 <= b < |rest| ensures rest[b].comment.id != c.id {
      var p := RestChain(m, kids, level, path, b);
      var here := path + [c.id];
      assert here[n] == c.id;
      ChainsDiffer(m, here, p, n);
    }
    forall a, b | 0 <= a < |replies| && 0 <= b < |rest| ensures replies[a].comment.id != rest[b].comment.id {
      var p := RestChain(m, kids, level, path, b);
      var p' := ReplyChain(m, c, level, path, a);
      ChainsDiffer(m, p', p, n);
    }
  }

  /** A comment's row, its replies' rows and the later rows are for distinct ids when each
      part is and no two parts share an id. */
  lemma BlockDistinct(first: Comment, level: nat, replies: seq<RowEntry>, rest: seq<RowEntry>)
    requires forall a, b :: 0 <= a < b < |replies| ==> replies[a].comment.id != replies[b].comment.id
    requires forall a, b :: 0 <= a < b < |rest| ==> rest[a].comment.id != rest[b].comment.id
    requires forall a :: 0 <= a < |replies| ==> replies[a].comment.id != first.id
    requires forall b :: 0 <= b < |rest| ==> rest[b].comment.id != first.id
    requires forall a, b :: 0 <= a < |replies| && 0 <= b < |rest| ==> replies[a].comment.id != rest[b].comment.id
    ensures var r := [RowEntry(first, level)] + replies + rest;
      forall i, j :: 0 <= i < j < |r| ==> r[i].comment.id != r[j].comment.id
  {
    var r := [RowEntry(first, level)] + replies + rest;
    forall i, j | 0 <= i < j < |r| ensures r[i].comment.id != r[j].comment.id {
      BlockAt(r, RowEntry(first, level), replies, rest, i);
      BlockAt(r, RowEntry(first, level), replies, rest, j);
    }
  }

  /** Entry i of a comment's row, its replies' rows and the later rows. */
  lemma BlockAt(r: seq<RowEntry>, first: RowEntry, replies: seq<RowEntry>, rest: seq<RowEntry>, i: nat)
    requires r == [first] + replies + rest && i < |r|
    ensures i == 0 ==> r[i] == first
    ensures 0 < i <= |replies| ==> r[i] == replies[i - 1]
    ensures |replies| < i ==> r[i] == rest[i - 1 - |replies|]
  {
  }

  // ----- every comment below a written one is written

  /** The comments rows are written for. */
  ghost function Written(es: seq<RowEntry>): set<Comment> {
    set e | e in es :: e.comment
  }

  lemma WrittenAppend(a: seq<RowEntry>, b: seq<RowEntry>)
    ensures Written(a + b) == Written(a) + Written(b)
  {
    forall x | x in Written(a + b) ensures x in Written(a) + Written(b) {
      var e :| e in a + b && e.comment == x;
    }
    forall x | x in Written(a) + Written(b) ensures x in Written(a + b) {
      if x in Written(a) {
        var e :| e in a && e.comment == x;
        assert e in a + b;
      } else {
        var e :| e in b && e.comment == x;
        assert e in a + b;
      }
    }
  }

  /** Each of `kids` is written, and so is each reply to a written comment. */
  lemma {:induction false} RowsComplete(m: ChildMap, kids: seq<Comment>, level: nat, path: seq<Uuid>)
    requires UniqueParents(m) && Chain(m, path)
    requires forall c :: c in kids ==> CanExtend(m, path, c.id)
    ensures forall c :: c in kids ==> c in Written(Rows(m, kids, level, path))
    ensures forall d, c :: d in Written(Rows(m, kids, level, path)) && d.id in m && c in m[d.id]
              ==> c in Written(Rows(m, kids, level, path))
    decreases Unvisited(m, path), if path == [] then 1 else 0, |kids|
  {
    if kids != [] {
      var R := Rows(m, kids, level, path);
      var c := kids[0];
      RowsStep(m, kids, 0, level, path);
      assert kids[0..] == kids;
      var replies := Replies(m, c, level, path);
      var rest := Rows(m, kids[1..], level, path);
      assert R == [RowEntry(c, level)] + replies + rest;
      UnvisitedShrinks(m, path, c.id);
      ChainExtend(m, path, c.id);
      RowsComplete(m, kids[1..], level, path);
      if c.id in m && |m[c.id]| > 0 {
        RowsComplete(m, m[c.id], level + 1, path + [c.id]);
      }
      WrittenAppend([RowEntry(c, level)] + replies, rest);
      WrittenAppend([RowEntry(c, level)], replies);
      assert Written([RowEntry(c, level)]) == {c};
      assert kids == [c] + kids[1..];
    }
  }

  // ----- one thread

  /** chain runs from a top-level comment of `comments` down to its last element, each
      comment a reply to the one before. */
  ghost predicate Ancestry(comments: seq<Comment>, chain: seq<Comment>) {
    && |chain| > 0 && chain[0].parentId.None?
    && (forall i :: 0 <= i < |chain| ==> chain[i] in comments)
    && (forall i :: 0 < i < |chain| ==> chain[i].parentId == Some(chain[i - 1].id))
  }

  /** The row e sits at the depth of a chain of parents that ends at its comment. */
  ghost predicate Placed(comments: seq<Comment>, e: RowEntry) {
    exists chain :: Ancestry(comments, chain) && chain[|chain| - 1] == e.comment && |chain| == e.level
  }

  /** c answers, through a chain of parents, a top-level comment of `comments`. */
  ghost predicate Reachable(comments: seq<Comment>, c: Comment) {
    exists chain :: Ancestry(comments, chain) && chain[|chain| - 1] == c
  }

  /** The comments of a thread with their top-level list and child map. */
  lemma ThreadLists(t: CommentThread)
    requires ThreadComments(t.comments)
    ensures forall c :: c in ThreadTop(t) ==> c in t.comments && c.parentId.None?
    ensures forall p, c :: p in ThreadChildMap(t) && c in ThreadChildMap(t)[p] ==> c in t.comments && c.parentId == Some(p)
    ensures forall c :: c in t.comments && c.parentId.None? ==> c in ThreadTop(t)
    ensures forall c :: c in t.comments && c.parentId.Some? ==>
              c.parentId.value in ThreadChildMap(t) && c in ThreadChildMap(t)[c.parentId.value]
  {
    MainLevelFromThread(t.comments);
    forall c | c in t.comments ensures c.parentId.None? ==> c in ThreadTop(t)
      ensures c.parentId.Some? ==> c.parentId.value in ThreadChildMap(t) && c in ThreadChildMap(t)[c.parentId.value]
    {
      MainLevelExactlyOnce(t.comments, c);
    }
  }

  /** The sorted comments of a thread have distinct ids, and so have the lists built from them. */
  lemma ThreadListsDistinct(t: CommentThread)
    requires ThreadComments(t.comments)
    ensures IdsDistinct(ThreadTop(t)) && ChildListsDistinct(ThreadChildMap(t))
  {
    var s := SortByCreated(t.comments);
    forall i, j | 0 <= i < j < |s| ensures s[i].id != s[j].id {
      assert s[i] in multiset(t.comments) && s[j] in multiset(t.comments);
      assert s == s[..j] + s[j..];
      assert s[..j][i] == s[i] && s[j..][0] == s[j];
      assert multiset(s)[s[j]] == multiset(s[..j])[s[j]] + multiset(s[j..])[s[j]];
    }
    TopLevelDistinct(s);
    forall p | p in ChildMapOf(s) ensures IdsDistinct(ChildMapOf(s)[p]) {
      ChildrenOfDistinct(s, p);
    }
  }

  lemma {:induction false} TopLevelDistinct(s: seq<Comment>)
    requires IdsDistinct(s)
    ensures IdsDistinct(TopLevel(s))
  {
    if s != [] {
      var s' := s[..|s| - 1];
      assert IdsDistinct(s');
      TopLevelDistinct(s');
      forall c | c in TopLevel(s') ensures c.id != s[|s| - 1].id {
        var k :| 0 <= k < |s'| && s'[k] == c;
      }
    }
  }

  lemma {:induction false} ChildrenOfDistinct(s: seq<Comment>, p: Uuid)
    requires IdsDistinct(s)
    ensures IdsDistinct(ChildrenOf(s, p))
  {
    if s != [] {
      var s' := s[..|s| - 1];
      assert IdsDistinct(s');
      ChildrenOfDistinct(s', p);
      forall c | c in ChildrenOf(s', p) ensures c.id != s[|s| - 1].id {
        var k :| 0 <= k < |s'| && s'[k] == c;
      }
    }
  }

  /** What the row lemmas need to know of a thread's top-level list and child map, with
      both as parameters. */
  ghost predicate ListsOf(comments: seq<Comment>, m: ChildMap, top: seq<Comment>) {
    && UniqueParents(m)
    && (forall c :: c in top ==> CanExtend(m, [], c.id))
    && (forall c :: c in top ==> c in comments && c.parentId.None?)
    && (forall p, c :: p in m && c in m[p] ==> c in comments && c.parentId == Some(p))
    && (forall c :: c in comments && c.parentId.None? ==> c in top)
    && (forall c :: c in comments && c.parentId.Some? ==> c.parentId.value in m && c in m[c.parentId.value])
  }

  lemma ThreadListsOf(t: CommentThread)
    requires ThreadComments(t.comments)
    ensures ListsOf(t.comments, ThreadChildMap(t), ThreadTop(t))
  {
    ThreadWellFormed(t);
    ThreadLists(t);
  }

  /** Row i is written for the end of a chain of parents as long as its level. */
  lemma RowsAncestry(comments: seq<Comment>, m: ChildMap, top: seq<Comment>, i: nat) returns (chain: seq<Comment>)
    requires ListsOf(comments, m, top)
    requires i < |Rows(m, top, 1, [])|
    ensures Ancestry(comments, chain)
    ensures chain[|chain| - 1] == Rows(m, top, 1, [])[i].comment
    ensures |chain| == Rows(m, top, 1, [])[i].level
  {
    chain := RowWalk(m, top, 1, [], i);
    forall k | 0 < k < |chain| ensures chain[k] in comments && chain[k].parentId == Some(chain[k - 1].id) {
      assert RepliesTo(m, chain[k - 1], chain[k]);
    }
  }

  /** A set that holds every top-level comment and every reply to a member holds every
      comment of a chain of parents. */
  lemma {:induction false} AncestryWritten(comments: seq<Comment>, w: set<Comment>, chain: seq<Comment>, k: nat)
    requires Ancestry(comments, chain) && k < |chain|
    requires forall c :: c in comments && c.parentId.None? ==> c in w
    requires forall d, c :: d in w && c in comments && c.parentId == Some(d.id) ==> c in w
    ensures chain[k] in w
    decreases k
  {
    if k > 0 {
      AncestryWritten(comments, w, chain, k - 1);
      assert chain[k] in comments && chain[k].parentId == Some(chain[k - 1].id);
    } else {
      assert chain[0] in comments;
    }
  }

  /** Every comment with a chain of parents from a top-level comment is written. */
  lemma RowsCoverReachable(comments: seq<Comment>, m: ChildMap, top: seq<Comment>)
    requires ListsOf(comments, m, top)
    ensures forall c :: Reachable(comments, c) ==> c in Written(Rows(m, top, 1, []))
  {
    var w := Written(Rows(m, top, 1, []));
    RowsComplete(m, top, 1, []);
    forall d, c | d in w && c in comments && c.parentId == Some(d.id) ensures c in w {
      assert d.id in m && c in m[d.id];
    }
    forall c | Reachable(comments, c) ensures c in w {
      var chain :| Ancestry(comments, chain) && chain[|chain| - 1] == c;
      AncestryWritten(comments, w, chain, |chain| - 1);
    }
  }

  /** The rows of a thread's comments: no comment is written twice; every written comment is
      the end of a chain of parents from a top-level comment of the thread and sits at the
      chain's depth; and every comment with such a chain is written. */
  lemma ThreadRowsExactlyOnce(t: CommentThread)
    requires ThreadComments(t.comments)
    ensures var R := ThreadRows(t);
      forall i, j :: 0 <= i < j < |R| ==> R[i].comment.id != R[j].comment.id
    ensures forall e :: e in ThreadRows(t) ==> Placed(t.comments, e)
    ensures forall c :: Reachable(t.comments, c) ==> c in Written(ThreadRows(t))
  {
    ThreadListsOf(t);
    ThreadListsDistinct(t);
    var m, top := ThreadChildMap(t), ThreadTop(t);
    var R := ThreadRows(t);
    assert R == Rows(m, top, 1, []);
    RowsDistinct(m, top, 1, []);
    forall e | e in R ensures Placed(t.comments, e) {
      var i :| 0 <= i < |R| && R[i] == e;
      var chain := RowsAncestry(t.comments, m, top, i);
    }
    RowsCoverReachable(t.comments, m, top);
  }

  // ----- how many rows

  lemma {:induction false} WrittenCount(es: seq<RowEntry>)
    requires forall i, j :: 0 <= i < j < |es| ==> es[i].comment.id != es[j].comment.id
    ensures |Written(es)| == |es|
  {
    if es != [] {
      WrittenAppend([es[0]], es[1..]);
      assert es == [es[0]] + es[1..];
      assert Written([es[0]]) == {es[0].comment};
      WrittenCount(es[1..]);
      forall e | e in es[1..] ensures e.comment != es[0].comment {
        var k :| 0 <= k < |es[1..]| && es[1..][k] == e;
        assert es[k + 1] == e;
      }
    }
  }

  lemma {:induction false} ElementCount(cs: seq<Comment>)
    requires NoDuplicates(cs)
    ensures |set c | c in cs| == |cs|
  {
    if cs != [] {
      var rest := cs[1..];
      assert cs == [cs[0]] + rest;
      assert multiset(cs) == multiset{cs[0]} + multiset(rest);
      assert NoDuplicates(rest) by {
        forall c | c in rest ensures multiset(rest)[c] == 1 {
          assert c in cs;
        }
      }
      assert cs[0] !in rest by {
        assert multiset(cs)[cs[0]] == 1;
      }
      ElementCount(rest);
      assert (set c | c in cs) == {cs[0]} + (set c | c in rest);
    }
  }

  /** The comments written for a thread are exactly those with a chain of parents from one of
      its top-level comments. */
  lemma WrittenReachable(t: CommentThread)
    requires ThreadComments(t.comments)
    ensures Written(ThreadRows(t)) == set c | c in t.comments && Reachable(t.comments, c)
  {
    var R := ThreadRows(t);
    ThreadRowsExactlyOnce(t);
    forall c | c in Written(R) ensures c in t.comments && Reachable(t.comments, c) {
      var e :| e in R && e.comment == c;
      assert Placed(t.comments, e);
      var chain :| Ancestry(t.comments, chain) && chain[|chain| - 1] == e.comment && |chain| == e.level;
      assert chain[|chain| - 1] in t.comments;
    }
  }

  /** One row per comment that answers a top-level comment through its chain of parents; one
      row per comment of the thread when every comment does. */
  lemma ThreadRowsCount(t: CommentThread)
    requires ThreadComments(t.comments)
    ensures |ThreadRows(t)| == |set c | c in t.comments && Reachable(t.comments, c)|
    ensures (forall c :: c in t.comments ==> Reachable(t.comments, c)) ==> |ThreadRows(t)| == |t.comments|
  {
    ThreadRowsExactlyOnce(t);
    WrittenCount(ThreadRows(t));
    WrittenReachable(t);
    ElementCount(t.comments);
    AllReachable(t.comments);
  }

  lemma AllReachable(comments: seq<Comment>)
    ensures (forall c :: c in comments ==> Reachable(comments, c)) ==>
      (set c | c in comments && Reachable(comments, c)) == set c | c in comments
  {
  }
}
