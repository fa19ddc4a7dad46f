/** The layout of the comments sheet: the header (addCommentsSheet) and the rows of the
    comments, depth first (addCommentRows). */
module CommentRows {
  import opened Wrappers
  import opened Domain
  import opened Strings
  import opened Sheets
  import opened CommentTree
  import opened CommentTreeLevels
  import opened ExportHelpers
  import StatusUtils
  import Seqs

  /** A comment row: the comment and the level it is written at. */
  datatype RowEntry = RowEntry(comment: Comment, level: nat)

  /** The rows addCommentRows writes for `kids` at `level`, in order: each comment, then the
      rows of its replies one level deeper, then the next comment. */
  ghost function Rows(m: ChildMap, kids: seq<Comment>, level: nat, path: seq<Uuid>): (r: seq<RowEntry>)
    requires UniqueParents(m) && Chain(m, path)
    requires forall c :: c in kids ==> CanExtend(m, path, c.id)
    ensures forall e :: e in r ==> e.level >= level
    ensures |r| >= |kids|
    decreases Unvisited(m, path), if path == [] then 1 else 0, |kids|
  {
    if kids == [] then []
    else
      var c := kids[0];
      UnvisitedShrinks(m, path, c.id);
      ChainExtend(m, path, c.id);
      var replies := if c.id in m && |m[c.id]| > 0 then Rows(m, m[c.id], level + 1, path + [c.id]) else [];
      [RowEntry(c, level)] + replies + Rows(m, kids[1..], level, path)
  }

  /** The rows below the comment `c` placed at `level`. */
  ghost function Replies(m: ChildMap, c: Comment, level: nat, path: seq<Uuid>): seq<RowEntry>
    requires UniqueParents(m) && Chain(m, path) && CanExtend(m, path, c.id)
    decreases Unvisited(m, path), if path == [] then 1 else 0, 0
  {
    ChainExtend(m, path, c.id);
    UnvisitedShrinks(m, path, c.id);
    if c.id in m && |m[c.id]| > 0 then Rows(m, m[c.id], level + 1, path + [c.id]) else []
  }

  /** One step of the loop over `kids`: the comment at index i with its replies, then the rest. */
  lemma RowsStep(m: ChildMap, kids: seq<Comment>, i: nat, level: nat, path: seq<Uuid>)
    requires UniqueParents(m) && Chain(m, path) && i < |kids|
    requires forall c :: c in kids ==> CanExtend(m, path, c.id)
    ensures Chain(m, path + [kids[i].id])
    ensures Rows(m, kids[i..], level, path)
         == [RowEntry(kids[i], level)] + Replies(m, kids[i], level, path) + Rows(m, kids[i + 1..], level, path)
  {
    assert kids[i..][0] == kids[i];
    assert kids[i..][1..] == kids[i + 1..];
    ChainExtend(m, path, kids[i].id);
  }

  // ----- one comment row

  /** The cells addCommentRows writes for one comment: the author at 1, the content at
      1 + level, then from 2 + maxLevel the proposed status (top level only), created,
      modified, the comment's uri and the thread's resource uri. */
  function CommentRowCells(e: RowEntry, maxLevel: nat, env: Collaborators, language: string): Row {
    var c := e.comment;
    var row: Row := map[1 := GetUserName(env.users, env.messages, language, c.userId)];
    var row := row[1 + e.level := CheckEmptyValue(c.content)];
    var row := if e.level == 1 then
        row[2 + maxLevel := CheckEmptyValue(StatusUtils.LocalizeResourceStatusToDefaultLanguage(c.proposedStatus, env.messages, language))]
      else row;
    row[3 + maxLevel := DateCell(env.formatDateTime, Some(c.created))]
       [4 + maxLevel := DateCell(env.formatDateTime, c.modified)]
       [5 + maxLevel := CheckEmptyValue(c.uri)]
       [6 + maxLevel := CheckEmptyValue(c.threadResourceUri)]
  }

  /** For a level between 1 and maxLevel no cell overwrites another: the row holds exactly the
      author, the content in its level's column, the status only on the top level, and the
      four trailing cells. */
  lemma CommentRowLayout(e: RowEntry, maxLevel: nat, env: Collaborators, language: string)
    requires 1 <= e.level <= maxLevel
    ensures var row := CommentRowCells(e, maxLevel, env, language);
      && (forall col :: col in row <==>
            col == 1 || col == 1 + e.level || (col == 2 + maxLevel && e.level == 1)
            || (3 + maxLevel <= col <= 6 + maxLevel))
      && row[1] == GetUserName(env.users, env.messages, language, e.comment.userId)
      && row[1 + e.level] == CheckEmptyValue(e.comment.content)
      && (e.level == 1 ==>
            row[2 + maxLevel]
            == CheckEmptyValue(StatusUtils.LocalizeResourceStatusToDefaultLanguage(e.comment.proposedStatus, env.messages, language)))
      && row[3 + maxLevel] == DateCell(env.formatDateTime, Some(e.comment.created))
      && row[4 + maxLevel] == DateCell(env.formatDateTime, e.comment.modified)
      && row[5 + maxLevel] == CheckEmptyValue(e.comment.uri)
      && row[6 + maxLevel] == CheckEmptyValue(e.comment.threadResourceUri)
  {
  }

  // ----- writing rows one after another

  /** The cells of the rows `es`, one row each. */
  function EntryCells(es: seq<RowEntry>, maxLevel: nat, env: Collaborators, language: string): (rows: seq<Row>)
    ensures |rows| == |es|
    ensures forall i :: 0 <= i < |es| ==> rows[i] == CommentRowCells(es[i], maxLevel, env, language)
  {
    seq(|es|, i requires 0 <= i < |es| => CommentRowCells(es[i], maxLevel, env, language))
  }

  /** The sheet after writing the rows `es` from row r on. */
  function WriteEntries(sheet: Sheet, r: nat, es: seq<RowEntry>, maxLevel: nat, env: Collaborators, language: string): Sheet {
    WriteRows(sheet, r, EntryCells(es, maxLevel, env, language))
  }

  lemma WriteEntriesAppend(sheet: Sheet, r: nat, a: seq<RowEntry>, b: seq<RowEntry>,
    maxLevel: nat, env: Collaborators, language: string)
    ensures WriteEntries(sheet, r, a + b, maxLevel, env, language)
         == WriteEntries(WriteEntries(sheet, r, a, maxLevel, env, language), r + |a|, b, maxLevel, env, language)
  {
    assert EntryCells(a + b, maxLevel, env, language)
        == EntryCells(a, maxLevel, env, language) + EntryCells(b, maxLevel, env, language);
    WriteRowsAppend(sheet, r, EntryCells(a, maxLevel, env, language), EntryCells(b, maxLevel, env, language));
  }

  /** One step of writing a list of rows: once the first row and its replies are written,
      what is left to write is the rest. */
  lemma WriteEntriesAdvance(goal: Sheet, s0: Sheet, r0: nat, e: RowEntry, replies: seq<RowEntry>, rest: seq<RowEntry>,
    s1: Sheet, r1: nat, maxLevel: nat, env: Collaborators, language: string)
    requires goal == WriteEntries(s0, r0, [e] + replies + rest, maxLevel, env, language)
    requires s1 == WriteEntries(WriteRow(s0, r0, CommentRowCells(e, maxLevel, env, language)), r0 + 1, replies, maxLevel, env, language)
    requires r1 == r0 + 1 + |replies|
    ensures goal == WriteEntries(s1, r1, rest, maxLevel, env, language)
  {
    WriteEntriesStep(s0, r0, e, replies, rest, maxLevel, env, language);
  }

  lemma WriteEntriesNil(sheet: Sheet, r: nat, maxLevel: nat, env: Collaborators, language: string)
    ensures WriteEntries(sheet, r, [], maxLevel, env, language) == sheet
  {
    assert EntryCells([], maxLevel, env, language) == [];
  }

  /** Writing a comment, then its replies, then the rows after them. */
  lemma WriteEntriesStep(sheet: Sheet, r: nat, e: RowEntry, replies: seq<RowEntry>, rest: seq<RowEntry>,
    maxLevel: nat, env: Collaborators, language: string)
    ensures WriteEntries(sheet, r, [e] + replies + rest, maxLevel, env, language)
         == WriteEntries(WriteEntries(WriteRow(sheet, r, CommentRowCells(e, maxLevel, env, language)), r + 1, replies, maxLevel, env, language),
                         r + 1 + |replies|, rest, maxLevel, env, language)
  {
    WriteEntriesAppend(sheet, r, [e] + replies, rest, maxLevel, env, language);
    WriteEntriesAppend(sheet, r, [e], replies, maxLevel, env, language);
    var one := EntryCells([e], maxLevel, env, language);
    assert one[0] == CommentRowCells(e, maxLevel, env, language);
    assert one[1..] == [];
    assert WriteRows(WriteRow(sheet, r, one[0]), r + 1, one[1..]) == WriteRow(sheet, r, one[0]);
  }

  /** Written rows land at r, r + 1, ...: row r + i holds the i-th entry, and every row outside
      the range keeps its cells. */
  lemma WriteEntriesRows(sheet: Sheet, r: nat, es: seq<RowEntry>, maxLevel: nat, env: Collaborators, language: string)
    ensures forall i :: 0 <= i < |es| ==>
      CellsOfRow(WriteEntries(sheet, r, es, maxLevel, env, language), r + i) == CommentRowCells(es[i], maxLevel, env, language)
    ensures forall q: nat :: (q < r || q >= r + |es|) ==>
      CellsOfRow(WriteEntries(sheet, r, es, maxLevel, env, language), q) == CellsOfRow(sheet, q)
  {
    WriteRowsCells(sheet, r, EntryCells(es, maxLevel, env, language));
  }

  // ----- levels stay within the header

  /** Every row below `kids` is at most as deep as the running maximum over `kids`. */
  lemma {:induction false} RowsLevelBound(m: ChildMap, kids: seq<Comment>, level: nat, path: seq<Uuid>, acc: nat)
    requires UniqueParents(m) && Chain(m, path)
    requires forall c :: c in kids ==> CanExtend(m, path, c.id)
    ensures forall e :: e in Rows(m, kids, level, path) ==> e.level <= MaxOver(m, kids, level, path, acc)
    decreases Unvisited(m, path), if path == [] then 1 else 0, |kids|
  {
    if kids != [] {
      var c := kids[0];
      MaxOverStep(m, kids, 0, level, path, acc);
      RowsStep(m, kids, 0, level, path);
      assert kids[0..] == kids;
      var sub := SubtreeMaxLevel(m, c.id, level, path + [c.id]);
      var replies := Replies(m, c, level, path);
      var rest := Rows(m, kids[1..], level, path);
      RowsLevelBound(m, kids[1..], level, path, Max(sub, acc));
      RepliesLevelBound(m, c, level, path);
      forall e | e in Rows(m, kids, level, path) ensures e.level <= MaxOver(m, kids, level, path, acc) {
        assert e == RowEntry(c, level) || e in replies || e in rest;
      }
    }
  }

  /** The replies of a comment are at most as deep as its subtree level. */
  lemma {:induction false} RepliesLevelBound(m: ChildMap, c: Comment, level: nat, path: seq<Uuid>)
    requires UniqueParents(m) && Chain(m, path) && CanExtend(m, path, c.id)
    ensures Chain(m, path + [c.id])
    ensures forall e :: e in Replies(m, c, level, path) ==> e.level <= SubtreeMaxLevel(m, c.id, level, path + [c.id])
    decreases Unvisited(m, path), if path == [] then 1 else 0, 0
  {
    ChainExtend(m, path, c.id);
    UnvisitedShrinks(m, path, c.id);
    if c.id in m && |m[c.id]| > 0 {
      RowsLevelBound(m, m[c.id], level + 1, path + [c.id], level);
    }
  }

  /** Every comment row of a thread fits in the level columns of the sheet's header. */
  lemma ThreadRowsWithinMaxLevel(threads: seq<CommentThread>, t: CommentThread)
    requires ValidThreads(threads) && t in threads
    ensures UniqueParents(ThreadChildMap(t))
    ensures forall c :: c in ThreadTop(t) ==> CanExtend(ThreadChildMap(t), [], c.id)
    ensures forall e :: e in Rows(ThreadChildMap(t), ThreadTop(t), 1, []) ==>
              1 <= e.level <= ThreadsMaxLevel(threads, 0)
  {
    ThreadsMaxLevelCovers(threads, 0, t);
    RowsLevelBound(ThreadChildMap(t), ThreadTop(t), 1, [], 0);
  }

  // ----- the header of the comments sheet

  /** The column of the first fixed header after the level columns. */
  function TrailingStart(maxLevel: nat): nat {
    if maxLevel >= 1 then maxLevel + 2 else 3
  }

  /** resourceUriHeaderIndex: the last header column. */
  function ResourceUriHeaderIndex(maxLevel: nat): nat {
    TrailingStart(maxLevel) + 4
  }

  /** The header over the content column of a comment at `level`. */
  function LevelHeader(level: nat, messages: MessageSource, language: string): string
    requires level >= 1
  {
    if level == 1 then messages("l46", language) else messages("l47", language) + " " + NatToString(level)
  }

  /** The header text of column k. */
  function HeaderCell(k: nat, maxLevel: nat, messages: MessageSource, language: string): string {
    var t := TrailingStart(maxLevel);
    if k == 0 then messages("l44", language)
    else if k == 1 then messages("l45", language)
    else if k < t then LevelHeader(k - 1, messages, language)
    else if k == t then messages("l48", language)
    else if k == t + 1 then messages("l33", language)
    else if k == t + 2 then messages("l34", language)
    else if k == t + 3 then messages("l49", language)
    else messages("l38", language)
  }

  /** The header text of every column. */
  function HeaderCells(maxLevel: nat, messages: MessageSource, language: string): nat -> string {
    (k: nat) => HeaderCell(k, maxLevel, messages, language)
  }

  /** The first n header columns, as the header row holds them after n cells. */
  function HeaderPrefix(n: nat, maxLevel: nat, messages: MessageSource, language: string): Row {
    PrefixRow(n, HeaderCells(maxLevel, messages, language))
  }

  /** Columns 0 .. resourceUriHeaderIndex, each with its header. */
  function CommentsHeaderRow(maxLevel: nat, messages: MessageSource, language: string): Row {
    HeaderPrefix(ResourceUriHeaderIndex(maxLevel) + 1, maxLevel, messages, language)
  }

  /** The first n columns hold their headers, and nothing else is written. */
  lemma HeaderPrefixCells(n: nat, maxLevel: nat, messages: MessageSource, language: string)
    ensures forall k: nat :: k in HeaderPrefix(n, maxLevel, messages, language) <==> k < n
    ensures forall k: nat :: k < n ==> HeaderPrefix(n, maxLevel, messages, language)[k] == HeaderCell(k, maxLevel, messages, language)
  {
    PrefixRowCells(n, HeaderCells(maxLevel, messages, language));
  }

  /** Writing the header of column n after the first n columns. */
  lemma HeaderPrefixStep(n: nat, maxLevel: nat, messages: MessageSource, language: string, row: Row, text: string)
    requires row == HeaderPrefix(n, maxLevel, messages, language)
    requires text == HeaderCell(n, maxLevel, messages, language)
    ensures row[n := text] == HeaderPrefix(n + 1, maxLevel, messages, language)
  {
  }

  /** With at least one level the last header column is 6 + maxLevel, the content of level k
      sits under its level header at 1 + k, and the five fixed headers run from 2 + maxLevel. */
  lemma CommentsHeaderLayout(maxLevel: nat, messages: MessageSource, language: string)
    requires maxLevel >= 1
    ensures ResourceUriHeaderIndex(maxLevel) == 6 + maxLevel
    ensures var h := CommentsHeaderRow(maxLevel, messages, language);
      && (forall k: nat :: k in h <==> k <= 6 + maxLevel)
      && h[0] == messages("l44", language) && h[1] == messages("l45", language)
      && (forall k :: 1 <= k <= maxLevel ==> h[1 + k] == LevelHeader(k, messages, language))
      && (forall k :: 2 <= k <= maxLevel ==> h[k + 1] == messages("l47", language) + " " + NatToString(k))
      && h[2 + maxLevel] == messages("l48", language)
      && h[3 + maxLevel] == messages("l33", language)
      && h[4 + maxLevel] == messages("l34", language)
      && h[5 + maxLevel] == messages("l49", language)
      && h[6 + maxLevel] == messages("l38", language)
  {
    HeaderPrefixCells(ResourceUriHeaderIndex(maxLevel) + 1, maxLevel, messages, language);
  }

  /** Every cell of a comment row has a header above it, and the content cell's header is
      the one of its level. */
  lemma ColumnsAlign(e: RowEntry, maxLevel: nat, env: Collaborators, language: string)
    requires 1 <= e.level <= maxLevel
    ensures forall col :: col in CommentRowCells(e, maxLevel, env, language) ==>
              col in CommentsHeaderRow(maxLevel, env.messages, language)
    ensures CommentsHeaderRow(maxLevel, env.messages, language)[1 + e.level] == LevelHeader(e.level, env.messages, language)
    ensures 6 + maxLevel == ResourceUriHeaderIndex(maxLevel)
  {
    CommentRowLayout(e, maxLevel, env, language);
    CommentsHeaderLayout(maxLevel, env.messages, language);
  }

  // ----- the thread blocks of the comments sheet

  /** The header row of a thread: its label with its local name in column 0 and its
      resource uri in the last header column. The code passes the uri as it is; a null
      value leaves a cell with no text, which is the "" that CheckEmptyValue gives. */
  function ThreadHeaderCells(t: CommentThread, resourceUriHeaderIndex: nat): Row {
    map[0 := ResourceLabelText(t.labelText, t.localName)][resourceUriHeaderIndex := CheckEmptyValue(t.resourceUri)]
  }

  /** The comment rows of a thread (none for a thread whose comments are not a tree). */
  ghost function ThreadRows(t: CommentThread): seq<RowEntry> {
    if ThreadComments(t.comments) then
      ThreadWellFormed(t);
      Rows(ThreadChildMap(t), ThreadTop(t), 1, [])
    else []
  }

  /** The comment rows of every thread, in order. */
  ghost function ThreadRowsOf(threads: seq<CommentThread>): (rowsOf: seq<seq<RowEntry>>)
    ensures |rowsOf| == |threads|
  {
    Seqs.Map(threads, ThreadRows)
  }

  /** The block of a thread with comment rows `rows` in the comments sheet: its header row,
      then one row per entry of `rows`. */
  function ThreadBlock(t: CommentThread, rows: seq<RowEntry>, maxLevel: nat, env: Collaborators, language: string): Block {
    (ThreadHeaderCells(t, ResourceUriHeaderIndex(maxLevel)), EntryCells(rows, maxLevel, env, language))
  }

  /** The blocks of the threads, in order, thread k with the rows rowsOf[k]. */
  function ThreadBlocks(threads: seq<CommentThread>, rowsOf: seq<seq<RowEntry>>, maxLevel: nat,
    env: Collaborators, language: string): (blocks: seq<Block>)
    requires |rowsOf| == |threads|
    ensures |blocks| == |threads|
  {
    if threads == [] then []
    else [ThreadBlock(threads[0], rowsOf[0], maxLevel, env, language)] + ThreadBlocks(threads[1..], rowsOf[1..], maxLevel, env, language)
  }

  lemma ThreadRowsOfIndex(threads: seq<CommentThread>, k: nat)
    requires k < |threads|
    ensures ThreadRowsOf(threads)[k] == ThreadRows(threads[k])
  {
    Seqs.MapAt(threads, ThreadRows, k);
  }

  lemma {:induction false} ThreadBlocksIndex(threads: seq<CommentThread>, rowsOf: seq<seq<RowEntry>>, maxLevel: nat,
    env: Collaborators, language: string, k: nat)
    requires |rowsOf| == |threads| && k < |threads|
    ensures ThreadBlocks(threads, rowsOf, maxLevel, env, language)[k] == ThreadBlock(threads[k], rowsOf[k], maxLevel, env, language)
    decreases k
  {
    if k > 0 {
      ThreadBlocksIndex(threads[1..], rowsOf[1..], maxLevel, env, language, k - 1);
    }
  }

  /** The blocks from thread k on: thread k's block, then those from thread k + 1 on. */
  lemma ThreadBlocksStep(threads: seq<CommentThread>, k: nat, maxLevel: nat, env: Collaborators, language: string)
    requires ValidThreads(threads) && k < |threads|
    ensures ValidThreads(threads[k..]) && ValidThreads(threads[k + 1..])
    ensures ThreadBlocks(threads[k..], ThreadRowsOf(threads[k..]), maxLevel, env, language)
         == [ThreadBlock(threads[k], ThreadRows(threads[k]), maxLevel, env, language)]
            + ThreadBlocks(threads[k + 1..], ThreadRowsOf(threads[k + 1..]), maxLevel, env, language)
  {
    var rest := threads[k..];
    assert rest[0] == threads[k];
    assert rest[1..] == threads[k + 1..];
    assert ValidThreads(rest);
    var rowsOf := ThreadRowsOf(rest);
    assert rowsOf[0] == ThreadRows(threads[k]);
    assert rowsOf[1..] == ThreadRowsOf(threads[k + 1..]);
  }

  /** Thread k's block starts below the blocks of the threads before it: its header row, one
      row per comment, and a blank row after them. */
  lemma ThreadBlockLayout(sheet: Sheet, r: nat, threads: seq<CommentThread>, rowsOf: seq<seq<RowEntry>>,
    maxLevel: nat, env: Collaborators, language: string, k: nat)
    requires |rowsOf| == |threads| && k < |threads|
    ensures var blocks := ThreadBlocks(threads, rowsOf, maxLevel, env, language);
      var s := WriteBlocks(sheet, r, blocks);
      var at := r + Height(blocks[..k]);
      && CellsOfRow(s, at) == ThreadHeaderCells(threads[k], ResourceUriHeaderIndex(maxLevel))
      && (forall i :: 0 <= i < |rowsOf[k]| ==> CellsOfRow(s, at + 1 + i) == CommentRowCells(rowsOf[k][i], maxLevel, env, language))
      && CellsOfRow(s, at + 1 + |rowsOf[k]|) == CellsOfRow(sheet, at + 1 + |rowsOf[k]|)
  {
    var blocks := ThreadBlocks(threads, rowsOf, maxLevel, env, language);
    WriteBlocksAt(sheet, r, blocks, k);
    ThreadBlocksIndex(threads, rowsOf, maxLevel, env, language, k);
    var cells := EntryCells(rowsOf[k], maxLevel, env, language);
    assert blocks[k] == (ThreadHeaderCells(threads[k], ResourceUriHeaderIndex(maxLevel)), cells);
  }
}
