/** ExportServiceImpl: the Excel export of a comment round, one sheet for the round, one for
    its threads and one for their comments. The workbook is modelled as its sheets' names and
    cell texts; styles, fonts and column widths are not part of the model. */
module ExportService {
  import opened Wrappers
  import opened Domain
  import opened Strings
  import opened Sheets
  import Sorting
  import opened CommentTree
  import opened CommentRows
  import opened ExportHelpers
  import StatusUtils
  import ResultService
  import Seqs

  /** A sheet of the workbook: its name and its cells. */
  datatype NamedSheet = NamedSheet(name: string, cells: Sheet)

  function ThreadCreatedKey(t: CommentThread): int {
    t.created
  }

  /** The round's threads ordered by creation time, the order every sheet lists them in. */
  function SortedThreads(threads: seq<CommentThread>): (r: seq<CommentThread>)
    ensures multiset(r) == multiset(threads)
    ensures Sorting.SortedBy(r, ThreadCreatedKey)
  {
    Sorting.SortBySorted(threads, ThreadCreatedKey);
    Sorting.SortBy(threads, ThreadCreatedKey)
  }

  lemma SortedThreadsValid(threads: seq<CommentThread>)
    requires ValidThreads(threads)
    ensures ValidThreads(SortedThreads(threads))
  {
    var sorted := SortedThreads(threads);
    forall t | t in sorted ensures ThreadComments(t.comments) {
      assert t in multiset(sorted);
    }
  }

  // ----- the comment round sheet

  function RoundHeaderRow(messages: MessageSource, language: string): Row {
    map[0 := messages("l22", language),
        1 := messages("l23", language),
        2 := messages("l24", language),
        3 := messages("l25", language),
        4 := messages("l26", language),
        5 := messages("l27", language),
        6 := messages("l28", language),
        7 := messages("l29", language),
        8 := messages("l30", language),
        9 := messages("l31", language),
        10 := messages("l32", language),
        11 := messages("l33", language),
        12 := messages("l34", language)]
  }

  /** The round's label, description, status, uri, author, organizations, source label,
      source type, source uri, start and end date, created and modified. */
  function RoundDataRow(round: CommentRound, env: Collaborators, language: string): Row {
    map[0 := CheckEmptyValue(round.labelText),
        1 := CheckEmptyValue(round.description),
        2 := CheckEmptyValue(Some(LocalizeRoundStatus(round.status, env.messages, language))),
        3 := CheckEmptyValue(round.uri),
        4 := GetUserName(env.users, env.messages, language, round.userId),
        5 := CheckEmptyValue(Some(OrganizationsText(round.organizations, env.orgPrefLabel, language))),
        6 := CheckEmptyValue(SourceLabelText(round.sourceLabel, language)),
        7 := CheckEmptyValue(Some(LocalizeSourceType(round.source.containerType, env.messages, language))),
        8 := CheckEmptyValue(round.source.containerUri),
        9 := DateCell(env.formatDate, round.startDate),
        10 := DateCell(env.formatDate, round.endDate),
        11 := DateCell(env.formatDateTime, round.created),
        12 := DateCell(env.formatDateTime, round.modified)]
  }

  lemma RoundHeaderColumns(messages: MessageSource, language: string)
    ensures forall c: nat :: c in RoundHeaderRow(messages, language) <==> c < 13
  {
  }

  lemma RoundDataColumns(round: CommentRound, env: Collaborators, language: string)
    ensures forall c: nat :: c in RoundDataRow(round, env, language) <==> c < 13
  {
  }

  /** Two rows, the header and the round's data, and every data cell has a header above it. */
  function CommentRoundSheet(round: CommentRound, env: Collaborators, language: string): (s: NamedSheet)
    ensures s.cells.Keys == {0, 1}
    ensures forall c: nat :: c in s.cells[0] <==> c < 13
    ensures forall c: nat :: c in s.cells[1] <==> c in s.cells[0]
  {
    RoundHeaderColumns(env.messages, language);
    RoundDataColumns(round, env, language);
    NamedSheet(env.messages("l19", language), map[0 := RoundHeaderRow(env.messages, language), 1 := RoundDataRow(round, env, language)])
  }

  // ----- the comment threads sheet

  function ThreadsHeaderRow(messages: MessageSource, language: string): Row {
    map[0 := messages("l36", language),
        1 := messages("l35", language),
        2 := messages("l37", language),
        3 := messages("l38", language),
        4 := messages("l39", language),
        5 := messages("l40", language),
        6 := messages("l41", language),
        7 := messages("l42", language),
        8 := messages("l43", language),
        9 := messages("l33", language),
        10 := messages("l45", language)]
  }

  /** The row of a thread: label, local name, description, resource uri, number of top-level
      comments, the result text, current and proposed status, proposed text, created, author. */
  function ThreadSummaryCells(t: CommentThread, resultsText: string, env: Collaborators, language: string): Row {
    map[0 := ResourceLabelText(t.labelText, None),
        1 := CheckEmptyValue(t.localName),
        2 := ResourceLabelText(t.description, None),
        3 := CheckEmptyValue(t.resourceUri),
        4 := IntToString(env.mainCommentCount(t.id)),
        5 := resultsText,
        6 := CheckEmptyValue(StatusUtils.LocalizeResourceStatusToDefaultLanguage(t.currentStatus, env.messages, language)),
        7 := CheckEmptyValue(StatusUtils.LocalizeResourceStatusToDefaultLanguage(t.proposedStatus, env.messages, language)),
        8 := CheckEmptyValue(t.proposedText),
        9 := DateCell(env.formatDateTime, Some(t.created)),
        10 := GetUserName(env.users, env.messages, language, t.userId)]
  }

  /** `order` lists the results of a set once each, in some order (a HashSet's iteration order). */
  ghost predicate ResultOrder(order: seq<ResultService.ThreadResult>, results: set<ResultService.ThreadResult>) {
    && (forall r :: r in order <==> r in results)
    && (forall i, j :: 0 <= i < j < |order| ==> order[i] != order[j])
  }

  /** orders[k] lists the results of thread k, for every k. */
  ghost predicate OrdersFor(store: CommentStore, threads: seq<CommentThread>,
    orders: seq<seq<ResultService.ThreadResult>>)
    decreases |threads|
  {
    && |orders| == |threads|
    && (threads != [] ==>
         && OrdersFor(store, threads[..|threads| - 1], orders[..|orders| - 1])
         && ResultOrder(orders[|orders| - 1], ResultService.ThreadResults(store, threads[|threads| - 1].id)))
  }

  lemma OrdersForSnoc(store: CommentStore, threads: seq<CommentThread>,
    orders: seq<seq<ResultService.ThreadResult>>, order: seq<ResultService.ThreadResult>, k: nat)
    requires k < |threads| && OrdersFor(store, threads[..k], orders)
    requires forall r :: r in order <==> r in ResultService.ThreadResults(store, threads[k].id)
    requires forall i, j :: 0 <= i < j < |order| ==> order[i] != order[j]
    ensures OrdersFor(store, threads[..k + 1], orders + [order])
  {
    assert threads[..k + 1][..k] == threads[..k];
    assert (orders + [order])[..k] == orders;
  }

  lemma {:induction false} OrdersForAt(store: CommentStore, threads: seq<CommentThread>,
    orders: seq<seq<ResultService.ThreadResult>>, k: nat)
    requires OrdersFor(store, threads, orders) && k < |threads|
    ensures ResultOrder(orders[k], ResultService.ThreadResults(store, threads[k].id))
    decreases |threads|
  {
    var n := |threads|;
    if k < n - 1 {
      OrdersForAt(store, threads[..n - 1], orders[..n - 1], k);
    }
  }

  lemma OrdersForAll(store: CommentStore, threads: seq<CommentThread>, orders: seq<seq<ResultService.ThreadResult>>)
    requires OrdersFor(store, threads, orders)
    ensures |orders| == |threads|
    ensures forall k :: 0 <= k < |threads| ==> ResultOrder(orders[k], ResultService.ThreadResults(store, threads[k].id))
  {
    forall k | 0 <= k < |threads|
      ensures ResultOrder(orders[k], ResultService.ThreadResults(store, threads[k].id))
    {
      OrdersForAt(store, threads, orders, k);
    }
  }

  /** The row of thread t with its results listed in the order `order`. */
  function ThreadSummaryRow(t: CommentThread, order: seq<ResultService.ThreadResult>, env: Collaborators, language: string): Row {
    ThreadSummaryCells(t, ResultService.ResultsText(order, env.messages, env.defaultLanguage, env.formatPercentage), env, language)
  }

  function ThreadRowOf(env: Collaborators, language: string): (CommentThread, seq<ResultService.ThreadResult>) -> Row {
    (t, order) => ThreadSummaryRow(t, order, env, language)
  }

  /** The rows of the threads, thread k with its results listed in the order orders[k]. */
  function ThreadSummaryRows(threads: seq<CommentThread>, orders: seq<seq<ResultService.ThreadResult>>,
    env: Collaborators, language: string): (rows: seq<Row>)
    requires |orders| == |threads|
    ensures |rows| == |threads|
  {
    Seqs.ZipWith(threads, orders, ThreadRowOf(env, language))
  }

  lemma ThreadSummaryRowsAt(threads: seq<CommentThread>, orders: seq<seq<ResultService.ThreadResult>>,
    env: Collaborators, language: string, k: nat)
    requires |orders| == |threads| && k < |threads|
    ensures ThreadSummaryRows(threads, orders, env, language)[k] == ThreadSummaryRow(threads[k], orders[k], env, language)
  {
    Seqs.ZipWithAt(threads, orders, ThreadRowOf(env, language), k);
  }

  lemma ThreadSummaryRowsSnoc(threads: seq<CommentThread>, orders: seq<seq<ResultService.ThreadResult>>,
    order: seq<ResultService.ThreadResult>, k: nat, env: Collaborators, language: string)
    requires k < |threads| && |orders| == k
    ensures ThreadSummaryRows(threads[..k + 1], orders + [order], env, language)
         == ThreadSummaryRows(threads[..k], orders, env, language) + [ThreadSummaryRow(threads[k], order, env, language)]
  {
    Seqs.ZipWithSnoc(threads, orders, order, k, ThreadRowOf(env, language));
  }

  /** One turn of the loop of addCommentThreadsSheet: the row of thread k, with its results
      listed in `order`, goes below the rows of the threads before it. */
  lemma ThreadsSheetStep(store: CommentStore, threads: seq<CommentThread>, orders: seq<seq<ResultService.ThreadResult>>,
    order: seq<ResultService.ThreadResult>, k: nat, start: Sheet, done: seq<Row>, cells: Sheet,
    resultsText: string, row: Row, env: Collaborators, language: string)
    requires k < |threads| && |orders| == k
    requires OrdersFor(store, threads[..k], orders)
    requires done == ThreadSummaryRows(threads[..k], orders, env, language)
    requires cells == WriteRows(start, 1, done)
    requires forall r :: r in order <==> r in ResultService.ThreadResults(store, threads[k].id)
    requires forall i, j :: 0 <= i < j < |order| ==> order[i] != order[j]
    requires resultsText == ResultService.ResultsText(order, env.messages, env.defaultLanguage, env.formatPercentage)
    requires row == ThreadSummaryCells(threads[k], resultsText, env, language)
    ensures OrdersFor(store, threads[..k + 1], orders + [order])
    ensures done + [row] == ThreadSummaryRows(threads[..k + 1], orders + [order], env, language)
    ensures WriteRow(cells, 1 + k, row) == WriteRows(start, 1, done + [row])
  {
    OrdersForSnoc(store, threads, orders, order, k);
    ThreadSummaryRowsSnoc(threads, orders, order, k, env, language);
    assert row == ThreadSummaryRow(threads[k], order, env, language);
    RowsBelow(threads[..k], orders, k, start, done, cells, row, env, language);
  }

  lemma RowsBelow(threads: seq<CommentThread>, orders: seq<seq<ResultService.ThreadResult>>, k: nat,
    start: Sheet, done: seq<Row>, cells: Sheet, row: Row, env: Collaborators, language: string)
    requires |threads| == k && |orders| == k
    requires done == ThreadSummaryRows(threads, orders, env, language)
    requires cells == WriteRows(start, 1, done)
    ensures WriteRow(cells, 1 + k, row) == WriteRows(start, 1, done + [row])
  {
    WriteRowsSnoc(start, 1, done, row);
  }

  /** The header row, then thread k's row at row 1 + k, and nothing below the last thread. */
  function CommentThreadsSheet(threads: seq<CommentThread>, orders: seq<seq<ResultService.ThreadResult>>,
    env: Collaborators, language: string): (s: NamedSheet)
    requires |orders| == |threads|
    ensures CellsOfRow(s.cells, 0) == ThreadsHeaderRow(env.messages, language)
    ensures forall k :: 0 <= k < |threads| ==> CellsOfRow(s.cells, 1 + k) == ThreadSummaryRow(threads[k], orders[k], env, language)
    ensures forall q: nat :: q > |threads| ==> CellsOfRow(s.cells, q) == map[]
  {
    ThreadsSheetCells(threads, orders, env, language);
    NamedSheet(env.messages("l20", language),
      WriteRows(map[0 := ThreadsHeaderRow(env.messages, language)], 1, ThreadSummaryRows(threads, orders, env, language)))
  }

  /** Where writing the threads' rows below the header leaves each row. */
  lemma ThreadsSheetCells(threads: seq<CommentThread>, orders: seq<seq<ResultService.ThreadResult>>,
    env: Collaborators, language: string)
    requires |orders| == |threads|
    ensures var cells := WriteRows(map[0 := ThreadsHeaderRow(env.messages, language)], 1, ThreadSummaryRows(threads, orders, env, language));
      && CellsOfRow(cells, 0) == ThreadsHeaderRow(env.messages, language)
      && (forall k :: 0 <= k < |threads| ==> CellsOfRow(cells, 1 + k) == ThreadSummaryRow(threads[k], orders[k], env, language))
      && (forall q: nat :: q > |threads| ==> CellsOfRow(cells, q) == map[])
  {
    var rows := ThreadSummaryRows(threads, orders, env, language);
    RowsBelowHeader(ThreadsHeaderRow(env.messages, language), rows);
    forall k | 0 <= k < |threads| ensures rows[k] == ThreadSummaryRow(threads[k], orders[k], env, language) {
      ThreadSummaryRowsAt(threads, orders, env, language, k);
    }
  }

  // ----- the comments sheet

  /** The header row, then the block of every thread from row 1 on. */
  ghost function CommentsSheet(threads: seq<CommentThread>, env: Collaborators, language: string): (s: NamedSheet)
    requires ValidThreads(threads)
    ensures CellsOfRow(s.cells, 0) == CommentsHeaderRow(ThreadsMaxLevel(threads, 0), env.messages, language)
    ensures var height := Height(ThreadBlocks(threads, ThreadRowsOf(threads), ThreadsMaxLevel(threads, 0), env, language));
      forall q: nat :: q >= 1 + height ==> CellsOfRow(s.cells, q) == map[]
  {
    var maxLevel := ThreadsMaxLevel(threads, 0);
    WriteBlocksFrame(map[0 := CommentsHeaderRow(maxLevel, env.messages, language)], 1,
                     ThreadBlocks(threads, ThreadRowsOf(threads), maxLevel, env, language));
    NamedSheet(env.messages("l21", language),
      WriteBlocks(map[0 := CommentsHeaderRow(maxLevel, env.messages, language)], 1,
                  ThreadBlocks(threads, ThreadRowsOf(threads), maxLevel, env, language)))
  }

  // ----- the workbook

  /** The three sheets of the export of `round` in `language`; orders[k] is the order in which
      the results of the k-th thread (by creation time) are listed. */
  ghost function Workbook(round: CommentRound, orders: seq<seq<ResultService.ThreadResult>>, env: Collaborators, language: string)
    : (w: seq<NamedSheet>)
    requires ValidThreads(round.commentThreads) && |orders| == |round.commentThreads|
    ensures |w| == 3
    ensures w[0].name == env.messages("l19", language) && w[1].name == env.messages("l20", language)
         && w[2].name == env.messages("l21", language)
    ensures forall q: nat :: q > |round.commentThreads| ==> CellsOfRow(w[1].cells, q) == map[]
  {
    assert |SortedThreads(round.commentThreads)| == |multiset(round.commentThreads)|;
    var threads := SortedThreads(round.commentThreads);
    SortedThreadsValid(round.commentThreads);
    [CommentRoundSheet(round, env, language), CommentThreadsSheet(threads, orders, env, language), CommentsSheet(threads, env, language)]
  }

  class ExportServiceImpl {
    /** The language of the export in progress; every message and label is read in it. */
    var exportLanguage: string
    const env: Collaborators

    constructor(env: Collaborators, initialLanguage: string)
      ensures this.env == env && exportLanguage == initialLanguage
    {
      this.env := env;
      exportLanguage := initialLanguage;
    }

    /** exportCommentRoundToExcel: remember the language, then the round sheet, the threads
        sheet and the comments sheet, the threads sorted by creation time. */
    method ExportCommentRoundToExcel(commentRound: CommentRound, lang: string)
      returns (workbook: seq<NamedSheet>, ghost orders: seq<seq<ResultService.ThreadResult>>)
      requires ValidThreads(commentRound.commentThreads)
      modifies this
      ensures exportLanguage == lang
      ensures |orders| == |commentRound.commentThreads|
      ensures forall k :: 0 <= k < |orders| ==>
        ResultOrder(orders[k], ResultService.ThreadResults(env.store, SortedThreads(commentRound.commentThreads)[k].id))
      ensures workbook == Workbook(commentRound, orders, env, lang)
    {
      exportLanguage := lang;
      var roundSheet := AddCommentRoundSheet(commentRound);
      var commentThreads := SortedThreads(commentRound.commentThreads);
      SortedThreadsValid(commentRound.commentThreads);
      var threadsSheet;
      threadsSheet, orders := AddCommentThreadsSheet(commentThreads);
      OrdersForAll(env.store, commentThreads, orders);
      var commentsSheet := AddCommentsSheet(commentThreads);
      workbook := [roundSheet, threadsSheet, commentsSheet];
    }

    /** addCommentRoundSheet: a header row and one row with the round's values. */
    method AddCommentRoundSheet(commentRound: CommentRound) returns (sheet: NamedSheet)
      ensures sheet == CommentRoundSheet(commentRound, env, exportLanguage)
    {
      var language := exportLanguage;
      var messages := env.messages;
      var rowhead := RoundHeader();

      var organizations := GetOrganizationsOfCommentRound(commentRound.organizations, env.orgPrefLabel, language);
      var sourceLabel := LocalizeSourceLabel(commentRound.sourceLabel, language);
      var row: Row := map[];
      var cellIndex := 0;
      row := row[cellIndex := CheckEmptyValue(commentRound.labelText)];
      cellIndex := cellIndex + 1;
      row := row[cellIndex := CheckEmptyValue(commentRound.description)];
      cellIndex := cellIndex + 1;
      row := row[cellIndex := CheckEmptyValue(Some(LocalizeRoundStatus(commentRound.status, messages, language)))];
      cellIndex := cellIndex + 1;
      row := row[cellIndex := CheckEmptyValue(commentRound.uri)];
      cellIndex := cellIndex + 1;
      row := row[cellIndex := GetUserName(env.users, messages, language, commentRound.userId)];
      cellIndex := cellIndex + 1;
      row := row[cellIndex := CheckEmptyValue(Some(organizations))];
      cellIndex := cellIndex + 1;
      row := row[cellIndex := CheckEmptyValue(sourceLabel)];
      cellIndex := cellIndex + 1;
      row := row[cellIndex := CheckEmptyValue(Some(LocalizeSourceType(commentRound.source.containerType, messages, language)))];
      cellIndex := cellIndex + 1;
      row := row[cellIndex := CheckEmptyValue(commentRound.source.containerUri)];
      cellIndex := cellIndex + 1;
      row := row[cellIndex := DateCell(env.formatDate, commentRound.startDate)];
      cellIndex := cellIndex + 1;
      row := row[cellIndex := DateCell(env.formatDate, commentRound.endDate)];
      cellIndex := cellIndex + 1;
      row := row[cellIndex := DateCell(env.formatDateTime, commentRound.created)];
      cellIndex := cellIndex + 1;
      row := row[cellIndex := DateCell(env.formatDateTime, commentRound.modified)];
      assert row == RoundDataRow(commentRound, env, language);

      var cells: Sheet := map[];
      cells := WriteRow(cells, 0, rowhead);
      cells := WriteRow(cells, 1, row);
      sheet := NamedSheet(messages("l19", language), cells);
    }

    /** The header row of the comment round sheet, written cell by cell. */
    method RoundHeader() returns (rowhead: Row)
      ensures rowhead == RoundHeaderRow(env.messages, exportLanguage)
    {
      var language := exportLanguage;
      var messages := env.messages;
      rowhead := map[];
      var headerCellIndex := 0;
      rowhead := rowhead[headerCellIndex := messages("l22", language)];
      headerCellIndex := headerCellIndex + 1;
      rowhead := rowhead[headerCellIndex := messages("l23", language)];
      headerCellIndex := headerCellIndex + 1;
      rowhead := rowhead[headerCellIndex := messages("l24", language)];
      headerCellIndex := headerCellIndex + 1;
      rowhead := rowhead[headerCellIndex := messages("l25", language)];
      headerCellIndex := headerCellIndex + 1;
      rowhead := rowhead[headerCellIndex := messages("l26", language)];
      headerCellIndex := headerCellIndex + 1;
      rowhead := rowhead[headerCellIndex := messages("l27", language)];
      headerCellIndex := headerCellIndex + 1;
      rowhead := rowhead[headerCellIndex := messages("l28", language)];
      headerCellIndex := headerCellIndex + 1;
      rowhead := rowhead[headerCellIndex := messages("l29", language)];
      headerCellIndex := headerCellIndex + 1;
      rowhead := rowhead[headerCellIndex := messages("l30", language)];
      headerCellIndex := headerCellIndex + 1;
      rowhead := rowhead[headerCellIndex := messages("l31", language)];
      headerCellIndex := headerCellIndex + 1;
      rowhead := rowhead[headerCellIndex := messages("l32", language)];
      headerCellIndex := headerCellIndex + 1;
      rowhead := rowhead[headerCellIndex := messages("l33", language)];
      headerCellIndex := headerCellIndex + 1;
      rowhead := rowhead[headerCellIndex := messages("l34", language)];
      assert rowhead == RoundHeaderRow(messages, language);
    }

    /** addCommentThreadsSheet: a header row, then one row per thread from row 1 on. The
        result text of each thread lists its results in the order orders[k]. */
    method AddCommentThreadsSheet(commentThreads: seq<CommentThread>)
      returns (sheet: NamedSheet, ghost orders: seq<seq<ResultService.ThreadResult>>)
      ensures OrdersFor(env.store, commentThreads, orders)
      ensures sheet == CommentThreadsSheet(commentThreads, orders, env, exportLanguage)
    {
      var language := exportLanguage;
      var messages := env.messages;
      var rowhead := ThreadsHeader();
      var cells: Sheet := WriteRow(map[], 0, rowhead);
      ghost var start := cells;
      assert start == map[0 := ThreadsHeaderRow(messages, language)];
      var rowIndex := 1;
      orders := [];
      ghost var done: seq<Row> := [];
      var k := 0;
      while k < |commentThreads|
        invariant 0 <= k <= |commentThreads| && rowIndex == 1 + k && |orders| == k
        invariant OrdersFor(env.store, commentThreads[..k], orders)
        invariant done == ThreadSummaryRows(commentThreads[..k], orders, env, language)
        invariant cells == WriteRows(start, 1, done)
      {
        var commentThread := commentThreads[k];
        ghost var order;
        var resultsText;
        resultsText, order := ResultService.GetResultsForCommentThreadAsTextInDefaultLanguage(
          env.store, commentThread.id, messages, env.defaultLanguage, env.formatPercentage);
        var row := ThreadRow(commentThread, resultsText);
        ThreadsSheetStep(env.store, commentThreads, orders, order, k, start, done, cells, resultsText, row, env, language);
        cells := WriteRow(cells, rowIndex, row);
        rowIndex := rowIndex + 1;
        orders := orders + [order];
        done := done + [row];
        k := k + 1;
      }
      assert commentThreads[..k] == commentThreads;
      sheet := NamedSheet(messages("l20", language), cells);
    }

    /** The header row of the threads sheet, written cell by cell. */
    method ThreadsHeader() returns (rowhead: Row)
      ensures rowhead == ThreadsHeaderRow(env.messages, exportLanguage)
    {
      var language := exportLanguage;
      var messages := env.messages;
      rowhead := map[];
      var headerCellIndex := 0;
      rowhead := rowhead[headerCellIndex := messages("l36", language)];
      headerCellIndex := headerCellIndex + 1;
      rowhead := rowhead[headerCellIndex := messages("l35", language)];
      headerCellIndex := headerCellIndex + 1;
      rowhead := rowhead[headerCellIndex := messages("l37", language)];
      headerCellIndex := headerCellIndex + 1;
      rowhead := rowhead[headerCellIndex := messages("l38", language)];
      headerCellIndex := headerCellIndex + 1;
      rowhead := rowhead[headerCellIndex := messages("l39", language)];
      headerCellIndex := headerCellIndex + 1;
      rowhead := rowhead[headerCellIndex := messages("l40", language)];
      headerCellIndex := headerCellIndex + 1;
      rowhead := rowhead[headerCellIndex := messages("l41", language)];
      headerCellIndex := headerCellIndex + 1;
      rowhead := rowhead[headerCellIndex := messages("l42", language)];
      headerCellIndex := headerCellIndex + 1;
      rowhead := rowhead[headerCellIndex := messages("l43", language)];
      headerCellIndex := headerCellIndex + 1;
      rowhead := rowhead[headerCellIndex := messages("l33", language)];
      headerCellIndex := headerCellIndex + 1;
      rowhead := rowhead[headerCellIndex := messages("l45", language)];
      assert rowhead == ThreadsHeaderRow(messages, language);
    }

    /** The cells of a thread's row written one after another; `resultsText` is the thread's
        result text. */
    method ThreadRow(commentThread: CommentThread, resultsText: string) returns (row: Row)
      ensures row == ThreadSummaryCells(commentThread, resultsText, env, exportLanguage)
    {
      var language := exportLanguage;
      var messages := env.messages;
      row := map[];
      var cellIndex := 0;
      var resourceLabel := FormatResourceLabel(commentThread.labelText, None);
      row := row[cellIndex := resourceLabel];
      cellIndex := cellIndex + 1;
      row := row[cellIndex := CheckEmptyValue(commentThread.localName)];
      cellIndex := cellIndex + 1;
      var description := FormatResourceLabel(commentThread.description, None);
      row := row[cellIndex := description];
      cellIndex := cellIndex + 1;
      row := row[cellIndex := CheckEmptyValue(commentThread.resourceUri)];
      cellIndex := cellIndex + 1;
      row := row[cellIndex := IntToString(env.mainCommentCount(commentThread.id))];
      cellIndex := cellIndex + 1;
      row := row[cellIndex := resultsText];
      cellIndex := cellIndex + 1;
      row := row[cellIndex := CheckEmptyValue(StatusUtils.LocalizeResourceStatusToDefaultLanguage(commentThread.currentStatus, messages, language))];
      cellIndex := cellIndex + 1;
      row := row[cellIndex := CheckEmptyValue(StatusUtils.LocalizeResourceStatusToDefaultLanguage(commentThread.proposedStatus, messages, language))];
      cellIndex := cellIndex + 1;
      row := row[cellIndex := CheckEmptyValue(commentThread.proposedText)];
      cellIndex := cellIndex + 1;
      row := row[cellIndex := DateCell(env.formatDateTime, Some(commentThread.created))];
      cellIndex := cellIndex + 1;
      row := row[cellIndex := GetUserName(env.users, messages, language, commentThread.userId)];
      assert row == ThreadSummaryCells(commentThread, resultsText, env, language);
    }

    /** addCommentRows: for each comment in order, its row at rowIndex and then, one level
        deeper, the rows of its replies; returns the index of the next free row. */
    method AddCommentRows(sheet: Sheet, rowIndex: nat, level: nat, maxLevel: nat, comments: seq<Comment>,
      childCommentMap: ChildMap, ghost path: seq<Uuid>) returns (sheet': Sheet, rowIndex': nat)
      requires UniqueParents(childCommentMap) && Chain(childCommentMap, path)
      requires forall c :: c in comments ==> CanExtend(childCommentMap, path, c.id)
      ensures rowIndex' == rowIndex + |Rows(childCommentMap, comments, level, path)|
      ensures sheet' == WriteEntries(sheet, rowIndex, Rows(childCommentMap, comments, level, path), maxLevel, env, exportLanguage)
      decreases Unvisited(childCommentMap, path), if path == [] then 1 else 0, 1
    {
      ghost var m := childCommentMap;
      ghost var language := exportLanguage;
      ghost var all := Rows(m, comments, level, path);
      ghost var goal := WriteEntries(sheet, rowIndex, all, maxLevel, env, language);
      ghost var todo := all;
      sheet' := sheet;
      rowIndex' := rowIndex;
      var i := 0;
      while i < |comments|
        invariant 0 <= i <= |comments|
        invariant todo == Rows(m, comments[i..], level, path)
        invariant rowIndex + |all| == rowIndex' + |todo|
        invariant goal == WriteEntries(sheet', rowIndex', todo, maxLevel, env, language)
      {
        var comment := comments[i];
        RowsStep(m, comments, i, level, path);
        ghost var replies := Replies(m, comment, level, path);
        ghost var later := Rows(m, comments[i + 1..], level, path);
        ghost var s0, r0 := sheet', rowIndex';
        sheet', rowIndex' := AddCommentEntry(sheet', rowIndex', level, maxLevel, comment, childCommentMap, path);
        WriteEntriesAdvance(goal, s0, r0, RowEntry(comment, level), replies, later, sheet', rowIndex', maxLevel, env, language);
        todo := later;
        i := i + 1;
      }
      assert comments[i..] == [];
      WriteEntriesNil(sheet', rowIndex', maxLevel, env, language);
    }

    /** One turn of addCommentRows' loop: the comment's own row, then the rows of its replies
        one level deeper. */
    method AddCommentEntry(sheet: Sheet, rowIndex: nat, level: nat, maxLevel: nat, comment: Comment,
      childCommentMap: ChildMap, ghost path: seq<Uuid>) returns (sheet': Sheet, rowIndex': nat)
      requires UniqueParents(childCommentMap) && Chain(childCommentMap, path)
      requires CanExtend(childCommentMap, path, comment.id)
      ensures rowIndex' == rowIndex + 1 + |Replies(childCommentMap, comment, level, path)|
      ensures sheet' == WriteEntries(WriteRow(sheet, rowIndex, CommentRowCells(RowEntry(comment, level), maxLevel, env, exportLanguage)),
        rowIndex + 1, Replies(childCommentMap, comment, level, path), maxLevel, env, exportLanguage)
      decreases Unvisited(childCommentMap, path), if path == [] then 1 else 0, 0
    {
      var row := CommentRow(comment, level, maxLevel);
      sheet' := WriteRow(sheet, rowIndex, row);
      rowIndex' := rowIndex + 1;
      UnvisitedShrinks(childCommentMap, path, comment.id);
      ChainExtend(childCommentMap, path, comment.id);
      if comment.id in childCommentMap && |childCommentMap[comment.id]| > 0 {
        sheet', rowIndex' := AddCommentRows(sheet', rowIndex', level + 1, maxLevel, childCommentMap[comment.id],
          childCommentMap, path + [comment.id]);
      } else {
        WriteEntriesNil(sheet', rowIndex', maxLevel, env, exportLanguage);
      }
    }

    /** The cells of one comment's row, written as addCommentRows writes them. */
    method CommentRow(comment: Comment, level: nat, maxLevel: nat) returns (row: Row)
      ensures row == CommentRowCells(RowEntry(comment, level), maxLevel, env, exportLanguage)
    {
      var language := exportLanguage;
      row := map[];
      var cellIndex := 1;
      row := row[cellIndex := GetUserName(env.users, env.messages, language, comment.userId)];
      cellIndex := cellIndex + level;
      row := row[cellIndex := CheckEmptyValue(comment.content)];
      cellIndex := 2 + maxLevel;
      if level == 1 {
        row := row[cellIndex := CheckEmptyValue(StatusUtils.LocalizeResourceStatusToDefaultLanguage(comment.proposedStatus, env.messages, language))];
        cellIndex := cellIndex + 1;
      } else {
        cellIndex := cellIndex + 1;
      }
      row := row[cellIndex := DateCell(env.formatDateTime, Some(comment.created))];
      cellIndex := cellIndex + 1;
      row := row[cellIndex := DateCell(env.formatDateTime, comment.modified)];
      cellIndex := cellIndex + 1;
      row := row[cellIndex := CheckEmptyValue(comment.uri)];
      cellIndex := cellIndex + 1;
      row := row[cellIndex := CheckEmptyValue(comment.threadResourceUri)];
    }

    /** One turn of the loop of addCommentsSheet: the thread's header row at rowIndex, the
        rows of its comments below it and one blank row; returns the row after the blank one. */
    method AddThreadBlock(cells: Sheet, rowIndex: nat, commentThread: CommentThread, maxLevel: nat,
      resourceUriHeaderIndex: nat) returns (cells': Sheet, rowIndex': nat)
      requires ThreadComments(commentThread.comments)
      requires resourceUriHeaderIndex == ResourceUriHeaderIndex(maxLevel)
      ensures var block := ThreadBlock(commentThread, ThreadRows(commentThread), maxLevel, env, exportLanguage);
        && cells' == WriteRows(WriteRow(cells, rowIndex, block.0), rowIndex + 1, block.1)
        && rowIndex' == rowIndex + 2 + |block.1|
    {
      ghost var language := exportLanguage;
      ghost var block := ThreadBlock(commentThread, ThreadRows(commentThread), maxLevel, env, language);
      var resourceLabel := FormatResourceLabel(commentThread.labelText, commentThread.localName);
      var row: Row := map[0 := resourceLabel];
      // the uri goes in unchecked; a null one leaves the cell without text, as "" does here
      row := row[resourceUriHeaderIndex := CheckEmptyValue(commentThread.resourceUri)];
      assert block.0 == row;
      cells' := WriteRow(cells, rowIndex, row);
      rowIndex' := rowIndex + 1;
      var topLevelComments, childCommentMap := MapMainLevelComments(commentThread.comments);
      ThreadWellFormed(commentThread);
      ghost var rows := Rows(childCommentMap, topLevelComments, 1, []);
      assert rows == ThreadRows(commentThread);
      if |topLevelComments| > 0 {
        cells', rowIndex' := AddCommentRows(cells', rowIndex', 1, maxLevel, topLevelComments, childCommentMap, []);
      } else {
        assert rows == [];
        WriteEntriesNil(cells', rowIndex', maxLevel, env, language);
      }
      rowIndex' := rowIndex' + 1;
    }

    /** The header of the comments sheet: author and content columns, one column per reply
        level up to maxLevel, then created, modified, uri and resource uri; returns the row and
        the index of its last column (resourceUriHeaderIndex). */
    method CommentsHeader(maxLevel: nat) returns (rowhead: Row, headerCellIndex: nat)
      ensures rowhead == CommentsHeaderRow(maxLevel, env.messages, exportLanguage)
      ensures headerCellIndex == ResourceUriHeaderIndex(maxLevel)
    {
      var language := exportLanguage;
      var messages := env.messages;
      rowhead := map[];
      headerCellIndex := 0;
      assert rowhead == HeaderPrefix(0, maxLevel, messages, language);
      HeaderPrefixStep(headerCellIndex, maxLevel, messages, language, rowhead, messages("l44", language));
      rowhead := rowhead[headerCellIndex := messages("l44", language)];
      headerCellIndex := headerCellIndex + 1;
      HeaderPrefixStep(headerCellIndex, maxLevel, messages, language, rowhead, messages("l45", language));
      rowhead := rowhead[headerCellIndex := messages("l45", language)];
      headerCellIndex := headerCellIndex + 1;
      HeaderPrefixStep(headerCellIndex, maxLevel, messages, language, rowhead, messages("l46", language));
      rowhead := rowhead[headerCellIndex := messages("l46", language)];
      headerCellIndex := headerCellIndex + 1;
      var level := 2;
      while level <= maxLevel
        invariant 2 <= level <= (if maxLevel >= 2 then maxLevel + 1 else 2)
        invariant headerCellIndex == level + 1
        invariant rowhead == HeaderPrefix(headerCellIndex, maxLevel, messages, language)
      {
        HeaderPrefixStep(headerCellIndex, maxLevel, messages, language, rowhead, messages("l47", language) + " " + NatToString(level));
        rowhead := rowhead[headerCellIndex := messages("l47", language) + " " + NatToString(level)];
        headerCellIndex := headerCellIndex + 1;
        level := level + 1;
      }
      assert headerCellIndex == TrailingStart(maxLevel);
      HeaderPrefixStep(headerCellIndex, maxLevel, messages, language, rowhead, messages("l48", language));
      rowhead := rowhead[headerCellIndex := messages("l48", language)];
      headerCellIndex := headerCellIndex + 1;
      HeaderPrefixStep(headerCellIndex, maxLevel, messages, language, rowhead, messages("l33", language));
      rowhead := rowhead[headerCellIndex := messages("l33", language)];
      headerCellIndex := headerCellIndex + 1;
      HeaderPrefixStep(headerCellIndex, maxLevel, messages, language, rowhead, messages("l34", language));
      rowhead := rowhead[headerCellIndex := messages("l34", language)];
      headerCellIndex := headerCellIndex + 1;
      HeaderPrefixStep(headerCellIndex, maxLevel, messages, language, rowhead, messages("l49", language));
      rowhead := rowhead[headerCellIndex := messages("l49", language)];
      headerCellIndex := headerCellIndex + 1;
      HeaderPrefixStep(headerCellIndex, maxLevel, messages, language, rowhead, messages("l38", language));
      rowhead := rowhead[headerCellIndex := messages("l38", language)];
    }

    /** addCommentsSheet: the header, then per thread its header row (label with local name in
        column 0, resource uri under the last header), its comment rows depth first, and a
        blank row. */
    method AddCommentsSheet(commentThreads: seq<CommentThread>) returns (sheet: NamedSheet)
      requires ValidThreads(commentThreads)
      ensures sheet == CommentsSheet(commentThreads, env, exportLanguage)
    {
      var language := exportLanguage;
      var maxLevel := GetCommentsMaxLevels(commentThreads);
      var rowhead, resourceUriHeaderIndex := CommentsHeader(maxLevel);
      var cells: Sheet := WriteRow(map[], 0, rowhead);
      ghost var start := cells;
      assert start == map[0 := CommentsHeaderRow(maxLevel, env.messages, language)];
      ghost var blocks := ThreadBlocks(commentThreads, ThreadRowsOf(commentThreads), maxLevel, env, language);
      ghost var goal := WriteBlocks(start, 1, blocks);
      ghost var todo := blocks;
      assert commentThreads[0..] == commentThreads;
      var rowIndex := 1;
      var k := 0;
      while k < |commentThreads|
        invariant 0 <= k <= |commentThreads|
        invariant ValidThreads(commentThreads[k..])
        invariant todo == ThreadBlocks(commentThreads[k..], ThreadRowsOf(commentThreads[k..]), maxLevel, env, language)
        invariant goal == WriteBlocks(cells, rowIndex, todo)
      {
        var commentThread := commentThreads[k];
        ThreadBlocksStep(commentThreads, k, maxLevel, env, language);
        ghost var rest := ThreadBlocks(commentThreads[k + 1..], ThreadRowsOf(commentThreads[k + 1..]), maxLevel, env, language);
        ghost var block := ThreadBlock(commentThread, ThreadRows(commentThread), maxLevel, env, language);
        ghost var c0, r0 := cells, rowIndex;
        cells, rowIndex := AddThreadBlock(cells, rowIndex, commentThread, maxLevel, resourceUriHeaderIndex);
        WriteBlocksAdvance(goal, c0, r0, block, rest, cells, rowIndex);
        todo := rest;
        k := k + 1;
      }
      sheet := NamedSheet(env.messages("l21", language), cells);
    }
  }
}
