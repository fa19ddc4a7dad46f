/** A worksheet as the export fills it: the text of every cell, addressed by row and column. */
module Sheets {
  import opened Wrappers

  /** The cells of one row, by column. */
  type Row = map<nat, string>

  /** The created rows, by row number. */
  type Sheet = map<nat, Row>

  /** The cells of row r (none for a row that was never created). */
  function CellsOfRow(sheet: Sheet, r: nat): Row {
    if r in sheet then sheet[r] else map[]
  }

  /** Sheet.createRow(r) followed by the cells of the row: whatever row r held before is
      replaced, every other row is kept. */
  function WriteRow(sheet: Sheet, r: nat, row: Row): Sheet {
    sheet[r := row]
  }

  lemma WriteRowCells(sheet: Sheet, r: nat, row: Row)
    ensures CellsOfRow(WriteRow(sheet, r, row), r) == row
    ensures forall q: nat :: q != r ==> CellsOfRow(WriteRow(sheet, r, row), q) == CellsOfRow(sheet, q)
  {
  }

  /** A row given as a list of values, from column 0 on. */
  function RowOf(values: seq<string>): (row: Row)
    ensures forall c: nat :: c in row <==> c < |values|
    ensures forall c: nat :: c < |values| ==> row[c] == values[c]
  {
    map c: nat | c < |values| :: values[c]
  }

  /** The row holding cell(0) .. cell(n - 1), written left to right. */
  function PrefixRow(n: nat, cell: nat -> string): Row {
    if n == 0 then map[] else PrefixRow(n - 1, cell)[n - 1 := cell(n - 1)]
  }

  /** The first n columns hold their cells, and nothing else is written. */
  lemma {:induction false} PrefixRowCells(n: nat, cell: nat -> string)
    ensures forall k: nat :: k in PrefixRow(n, cell) <==> k < n
    ensures forall k: nat :: k < n ==> PrefixRow(n, cell)[k] == cell(k)
  {
    if n > 0 {
      PrefixRowCells(n - 1, cell);
    }
  }

  /** The sheet after writing `rows` one below the other from row r on. */
  function WriteRows(sheet: Sheet, r: nat, rows: seq<Row>): Sheet
    decreases |rows|
  {
    if rows == [] then sheet else WriteRows(WriteRow(sheet, r, rows[0]), r + 1, rows[1..])
  }

  lemma {:induction false} WriteRowsAppend(sheet: Sheet, r: nat, a: seq<Row>, b: seq<Row>)
    ensures WriteRows(sheet, r, a + b) == WriteRows(WriteRows(sheet, r, a), r + |a|, b)
    decreases |a|
  {
    if a == [] {
      assert a + b == b;
    } else {
      assert (a + b)[0] == a[0];
      assert (a + b)[1..] == a[1..] + b;
      WriteRowsAppend(WriteRow(sheet, r, a[0]), r + 1, a[1..], b);
    }
  }

  lemma WriteRowsSnoc(sheet: Sheet, r: nat, rows: seq<Row>, row: Row)
    ensures WriteRows(sheet, r, rows + [row]) == WriteRow(WriteRows(sheet, r, rows), r + |rows|, row)
  {
    WriteRowsAppend(sheet, r, rows, [row]);
    var mid := WriteRows(sheet, r, rows);
    assert [row][1..] == [];
    assert WriteRows(WriteRow(mid, r + |rows|, row), r + |rows| + 1, [row][1..]) == WriteRow(mid, r + |rows|, row);
  }

  /** Row r + i holds rows[i]; every row outside r .. r + |rows| - 1 keeps its cells. */
  lemma {:induction false} WriteRowsCells(sheet: Sheet, r: nat, rows: seq<Row>)
    ensures forall i :: 0 <= i < |rows| ==> CellsOfRow(WriteRows(sheet, r, rows), r + i) == rows[i]
    ensures forall q: nat :: q < r || q >= r + |rows| ==> CellsOfRow(WriteRows(sheet, r, rows), q) == CellsOfRow(sheet, q)
    decreases |rows|
  {
    if rows != [] {
      var next := WriteRow(sheet, r, rows[0]);
      var tail := rows[1..];
      WriteRowsCells(next, r + 1, tail);
      forall i | 0 <= i < |rows| ensures CellsOfRow(WriteRows(sheet, r, rows), r + i) == rows[i] {
        if i > 0 {
          assert tail[i - 1] == rows[i];
        }
      }
    }
  }

  /** A header row at 0 with `rows` below it: row 1 + k holds rows[k], and nothing lies below. */
  lemma RowsBelowHeader(header: Row, rows: seq<Row>)
    ensures var cells := WriteRows(map[0 := header], 1, rows);
      && CellsOfRow(cells, 0) == header
      && (forall k :: 0 <= k < |rows| ==> CellsOfRow(cells, 1 + k) == rows[k])
      && (forall q: nat :: q > |rows| ==> CellsOfRow(cells, q) == map[])
  {
    WriteRowsCells(map[0 := header], 1, rows);
  }

  /** A block: a header row, the rows below it, and one blank row after them. */
  type Block = (Row, seq<Row>)

  /** The number of sheet rows the blocks take. */
  function Height(blocks: seq<Block>): nat {
    if blocks == [] then 0 else 2 + |blocks[0].1| + Height(blocks[1..])
  }

  /** The sheet after writing the blocks one below the other from row r on. */
  function WriteBlocks(sheet: Sheet, r: nat, blocks: seq<Block>): Sheet
    decreases |blocks|
  {
    if blocks == [] then sheet
    else WriteBlocks(WriteRows(WriteRow(sheet, r, blocks[0].0), r + 1, blocks[0].1), r + 2 + |blocks[0].1|, blocks[1..])
  }

  lemma {:induction false} HeightAppend(a: seq<Block>, b: seq<Block>)
    ensures Height(a + b) == Height(a) + Height(b)
    decreases |a|
  {
    if a == [] {
      assert a + b == b;
    } else {
      assert (a + b)[0] == a[0];
      assert (a + b)[1..] == a[1..] + b;
      HeightAppend(a[1..], b);
    }
  }

  /** The rows above r and from r + Height(blocks) on keep their cells. */
  lemma {:induction false} WriteBlocksFrame(sheet: Sheet, r: nat, blocks: seq<Block>)
    ensures forall q: nat :: q < r || q >= r + Height(blocks) ==>
      CellsOfRow(WriteBlocks(sheet, r, blocks), q) == CellsOfRow(sheet, q)
    decreases |blocks|
  {
    if blocks != [] {
      var b := blocks[0];
      var withHeader := WriteRow(sheet, r, b.0);
      WriteRowsCells(withHeader, r + 1, b.1);
      WriteBlocksFrame(WriteRows(withHeader, r + 1, b.1), r + 2 + |b.1|, blocks[1..]);
    }
  }

  lemma {:induction false} WriteBlocksAppend(sheet: Sheet, r: nat, a: seq<Block>, b: seq<Block>)
    ensures WriteBlocks(sheet, r, a + b) == WriteBlocks(WriteBlocks(sheet, r, a), r + Height(a), b)
    decreases |a|
  {
    if a == [] {
      assert a + b == b;
    } else {
      var h := a[0];
      var next := WriteRows(WriteRow(sheet, r, h.0), r + 1, h.1);
      var r' := r + 2 + |h.1|;
      assert (a + b)[0] == h;
      assert (a + b)[1..] == a[1..] + b;
      assert WriteBlocks(sheet, r, a + b) == WriteBlocks(next, r', a[1..] + b);
      assert WriteBlocks(sheet, r, a) == WriteBlocks(next, r', a[1..]);
      assert r + Height(a) == r' + Height(a[1..]);
      WriteBlocksAppend(next, r', a[1..], b);
    }
  }

  /** The first block: its header at r, its rows right below, and the row after them left
      as it was. */
  lemma WriteBlocksFirst(sheet: Sheet, r: nat, blocks: seq<Block>)
    requires blocks != []
    ensures var s := WriteBlocks(sheet, r, blocks);
      && CellsOfRow(s, r) == blocks[0].0
      && (forall i :: 0 <= i < |blocks[0].1| ==> CellsOfRow(s, r + 1 + i) == blocks[0].1[i])
      && CellsOfRow(s, r + 1 + |blocks[0].1|) == CellsOfRow(sheet, r + 1 + |blocks[0].1|)
  {
    var b := blocks[0];
    var withHeader := WriteRow(sheet, r, b.0);
    var next := WriteRows(withHeader, r + 1, b.1);
    WriteRowsCells(withHeader, r + 1, b.1);
    WriteBlocksFrame(next, r + 2 + |b.1|, blocks[1..]);
  }

  /** Block k starts at r + Height(blocks[..k]): its header there, its rows right below, and
      the row after them left as it was. */
  lemma WriteBlocksAt(sheet: Sheet, r: nat, blocks: seq<Block>, k: nat)
    requires k < |blocks|
    ensures var s := WriteBlocks(sheet, r, blocks);
      var at := r + Height(blocks[..k]);
      && CellsOfRow(s, at) == blocks[k].0
      && (forall i :: 0 <= i < |blocks[k].1| ==> CellsOfRow(s, at + 1 + i) == blocks[k].1[i])
      && CellsOfRow(s, at + 1 + |blocks[k].1|) == CellsOfRow(sheet, at + 1 + |blocks[k].1|)
  {
    var before := blocks[..k];
    var at := r + Height(before);
    assert blocks == before + blocks[k..];
    WriteBlocksAppend(sheet, r, before, blocks[k..]);
    var mid := WriteBlocks(sheet, r, before);
    WriteBlocksFirst(mid, at, blocks[k..]);
    WriteBlocksFrame(sheet, r, before);
    assert blocks[k..][0] == blocks[k];
  }

  /** Writing a first block, then the others below it. */
  lemma WriteBlocksCons(sheet: Sheet, r: nat, b: Block, rest: seq<Block>)
    ensures WriteBlocks(sheet, r, [b] + rest) == WriteBlocks(WriteRows(WriteRow(sheet, r, b.0), r + 1, b.1), r + 2 + |b.1|, rest)
  {
    assert ([b] + rest)[0] == b;
    assert ([b] + rest)[1..] == rest;
  }

  /** One step of writing a list of blocks: once the first block is written, what is left to
      write is the rest, from the row after the first block's blank row. */
  lemma WriteBlocksAdvance(goal: Sheet, s0: Sheet, r0: nat, b: Block, rest: seq<Block>, s1: Sheet, r1: nat)
    requires goal == WriteBlocks(s0, r0, [b] + rest)
    requires s1 == WriteRows(WriteRow(s0, r0, b.0), r0 + 1, b.1)
    requires r1 == r0 + 2 + |b.1|
    ensures goal == WriteBlocks(s1, r1, rest)
  {
    WriteBlocksCons(s0, r0, b, rest);
  }
}
