/**
 * The frame-squashing script (BoxTheJets/scripts/squash_frames.py). An
 * extract table has one row per classification task and, for every
 * variable, one column per video frame 0..14. The script first moves every
 * variable's values from frames 1..14 into frame 0, then folds each T5 row's
 * frame-0 entries into the first T1 row of the same classification.
 *
 * A cell is masked, a text that is not a list, or the text of a list of
 * numbers; the column named after variable `v` and frame `j` is `vars[v][j]`.
 */
module SquashFrames {
  import opened Wrappers

  /** Frames 0..14 of each variable. */
  const Frames := 15

  /** The missing-value text of the point-extractor squash and of both merges. */
  const PointSentinel := "N/A"
  /** The missing-value text of the shape-extractor squash. */
  const ShapeSentinel := "None"
  const MergeSentinel := "N/A"

  datatype Cell = Masked | Text(s: string) | Items(xs: seq<real>)

  /** The empty text written into a cell whose value was moved away. */
  const Blank := Text("")

  datatype Row = Row(classificationId: int, task: string, vars: seq<seq<Cell>>)

  /**
   * Whether a cell counts as holding data once masked cells are filled with
   * the sentinel: every cell except a masked one and the sentinel text.
   */
  predicate HasData(c: Cell, sentinel: string)
  {
    match c
    case Masked => false
    case Text(s) => s != sentinel
    case Items(_) => true
  }

  /** Every row has `nvars` variables of `Frames` frames each. */
  predicate Shaped(rows: seq<Row>, nvars: nat)
  {
    forall r :: 0 <= r < |rows| ==>
      |rows[r].vars| == nvars && forall v :: 0 <= v < nvars ==> |rows[r].vars[v]| == Frames
  }

  function WithVar(row: Row, v: nat, cells: seq<Cell>): (r: Row)
    requires v < |row.vars|
    ensures r.classificationId == row.classificationId && r.task == row.task
    ensures |r.vars| == |row.vars| && r.vars[v] == cells
    ensures forall u :: 0 <= u < |row.vars| && u != v ==> r.vars[u] == row.vars[u]
  {
    row.(vars := row.vars[v := cells])
  }

  // ---------------------------------------------------------------------
  // Squash: frames 1..14 into frame 0
  // ---------------------------------------------------------------------

  /** One masked assignment pair for one row: frame `j`'s data moves into frame 0 and frame `j` is blanked. */
  function MoveFrame(c: seq<Cell>, j: nat, sentinel: string): (r: seq<Cell>)
    requires 1 <= j < |c|
    ensures |r| == |c|
  {
    if HasData(c[j], sentinel) then c[0 := c[j]][j := Blank] else c
  }

  /** Frames 1..upto-1 moved in increasing order. */
  function SquashCells(c: seq<Cell>, upto: nat, sentinel: string): (r: seq<Cell>)
    requires 1 <= upto <= |c|
    ensures |r| == |c|
  {
    if upto == 1 then c else MoveFrame(SquashCells(c, upto - 1, sentinel), upto - 1, sentinel)
  }

  /**
   * After frames 1..upto-1 are moved: each of them is blank if it held data
   * and untouched otherwise, later frames are untouched, and frame 0 holds
   * the value of the highest-numbered frame that held data, or its own
   * value when none did.
   */
  lemma {:induction false} SquashKeepsLastData(c: seq<Cell>, upto: nat, sentinel: string)
    requires 1 <= upto <= |c|
    ensures forall k :: 1 <= k < upto ==>
      SquashCells(c, upto, sentinel)[k] == if HasData(c[k], sentinel) then Blank else c[k]
    ensures forall k :: upto <= k < |c| ==> SquashCells(c, upto, sentinel)[k] == c[k]
    ensures (forall k :: 1 <= k < upto ==> !HasData(c[k], sentinel)) ==> SquashCells(c, upto, sentinel)[0] == c[0]
    ensures forall j :: (1 <= j < upto && HasData(c[j], sentinel) &&
      forall k :: j < k < upto ==> !HasData(c[k], sentinel)) ==> SquashCells(c, upto, sentinel)[0] == c[j]
  {
    if upto > 1 {
      SquashKeepsLastData(c, upto - 1, sentinel);
    }
  }

  /** A row with its first `upto` variables squashed. */
  function SquashRow(row: Row, upto: nat, sentinel: string): (r: Row)
    requires upto <= |row.vars|
    requires forall v :: 0 <= v < |row.vars| ==> |row.vars[v]| == Frames
    ensures r.classificationId == row.classificationId && r.task == row.task && |r.vars| == |row.vars|
  {
    row.(vars := seq(|row.vars|, v requires 0 <= v < |row.vars| =>
      if v < upto then SquashCells(row.vars[v], Frames, sentinel) else row.vars[v]))
  }

  /** The squashed table: every variable of every row squashed over all frames. */
  function SquashTable(rows: seq<Row>, nvars: nat, sentinel: string): (r: seq<Row>)
    requires Shaped(rows, nvars)
    ensures |r| == |rows| && Shaped(r, nvars)
    ensures forall q :: 0 <= q < |rows| ==> r[q] == SquashRow(rows[q], nvars, sentinel)
  {
    seq(|rows|, q requires 0 <= q < |rows| => SquashRow(rows[q], nvars, sentinel))
  }

  /**
   * Whole-table view of the squash: classification ids and tasks stay, and
   * every variable's frame 0 ends with its last data frame's value while the
   * data frames are blanked.
   */
  lemma SquashTableCells(rows: seq<Row>, nvars: nat, sentinel: string)
    requires Shaped(rows, nvars)
    ensures var s := SquashTable(rows, nvars, sentinel);
      forall q, v, k :: 0 <= q < |rows| && 0 <= v < nvars && 1 <= k < Frames ==>
        s[q].vars[v][k] == if HasData(rows[q].vars[v][k], sentinel) then Blank else rows[q].vars[v][k]
    ensures var s := SquashTable(rows, nvars, sentinel);
      forall q, v, j :: (0 <= q < |rows| && 0 <= v < nvars && 1 <= j < Frames && HasData(rows[q].vars[v][j], sentinel) &&
        forall k :: j < k < Frames ==> !HasData(rows[q].vars[v][k], sentinel)) ==>
        s[q].vars[v][0] == rows[q].vars[v][j]
    ensures var s := SquashTable(rows, nvars, sentinel);
      forall q, v :: (0 <= q < |rows| && 0 <= v < nvars &&
        forall k :: 1 <= k < Frames ==> !HasData(rows[q].vars[v][k], sentinel)) ==>
        s[q].vars[v][0] == rows[q].vars[v][0]
  {
    forall q, v | 0 <= q < |rows| && 0 <= v < nvars {
      SquashKeepsLastData(rows[q].vars[v], Frames, sentinel);
    }
  }

  /** Frame `j` of variable `v` moved into frame 0, for every row (lines 25-31 of the script). */
  method MoveFrameColumn(table: array<Row>, v: nat, j: nat, sentinel: string)
    requires forall r :: 0 <= r < table.Length ==> v < |table[r].vars| && 1 <= j < |table[r].vars[v]|
    modifies table
    ensures forall r :: 0 <= r < table.Length ==>
      table[r] == WithVar(old(table[r]), v, MoveFrame(old(table[r]).vars[v], j, sentinel))
  {
    for r := 0 to table.Length
      invariant forall q :: 0 <= q < r ==>
        table[q] == WithVar(old(table[q]), v, MoveFrame(old(table[q]).vars[v], j, sentinel))
      invariant forall q :: r <= q < table.Length ==> table[q] == old(table[q])
    {
      var row := table[r];
      var cells := row.vars[v];
      if HasData(cells[j], sentinel) {
        cells := cells[0 := cells[j]];
        cells := cells[j := Blank];
      }
      table[r] := WithVar(row, v, cells);
    }
  }

  /** Frames 1..14 of variable `v` moved in increasing order (the inner loop of the script). */
  method SquashVariable(table: array<Row>, v: nat, sentinel: string)
    requires forall r :: 0 <= r < table.Length ==> v < |table[r].vars| && |table[r].vars[v]| == Frames
    modifies table
    ensures forall r :: 0 <= r < table.Length ==>
      table[r] == WithVar(old(table[r]), v, SquashCells(old(table[r]).vars[v], Frames, sentinel))
  {
    for j := 1 to Frames
      invariant forall r :: 0 <= r < table.Length ==>
        table[r] == WithVar(old(table[r]), v, SquashCells(old(table[r]).vars[v], j, sentinel))
    {
      MoveFrameColumn(table, v, j, sentinel);
    }
  }

  lemma SquashRowStep(row: Row, v: nat, sentinel: string)
    requires v < |row.vars|
    requires forall u :: 0 <= u < |row.vars| ==> |row.vars[u]| == Frames
    ensures WithVar(SquashRow(row, v, sentinel), v, SquashCells(row.vars[v], Frames, sentinel)) == SquashRow(row, v + 1, sentinel)
  {
  }

  /** The squash over every variable of the table, in place (lines 18-31 and 87-93 of the script). */
  method SquashColumns(table: array<Row>, nvars: nat, sentinel: string)
    requires Shaped(table[..], nvars)
    modifies table
    ensures table[..] == SquashTable(old(table[..]), nvars, sentinel)
  {
    for v := 0 to nvars
      invariant forall r :: 0 <= r < table.Length ==> table[r] == SquashRow(old(table[r]), v, sentinel)
    {
      forall r | 0 <= r < table.Length {
        SquashRowStep(table[r], v, sentinel);
      }
      SquashVariable(table, v, sentinel);
    }
  }

  // ---------------------------------------------------------------------
  // Merge: T5 entries into the first T1 row of the classification
  // ---------------------------------------------------------------------

  /** A T1 variable's frame-0 column and the T5 column named after it. */
  datatype ColumnPair = ColumnPair(t1: nat, t5: nat)

  /** Both columns exist, with a frame 0, in every row, and they are different columns. */
  predicate PairShaped(rows: seq<Row>, p: ColumnPair)
  {
    p.t1 != p.t5 &&
    forall r :: 0 <= r < |rows| ==>
      p.t1 < |rows[r].vars| && p.t5 < |rows[r].vars| && |rows[r].vars[p.t1]| > 0 && |rows[r].vars[p.t5]| > 0
  }

  function SetFrame0(row: Row, v: nat, c: Cell): (r: Row)
    requires v < |row.vars| && |row.vars[v]| > 0
    ensures r.classificationId == row.classificationId && r.task == row.task && |r.vars| == |row.vars|
    ensures |r.vars[v]| == |row.vars[v]| && r.vars[v][0] == c
    ensures forall k :: 0 < k < |row.vars[v]| ==> r.vars[v][k] == row.vars[v][k]
    ensures forall u :: 0 <= u < |row.vars| && u != v ==> r.vars[u] == row.vars[u]
  {
    WithVar(row, v, row.vars[v][0 := c])
  }

  /**
   * `ast.literal_eval` of a T1 cell: the list a list cell holds; any other
   * cell raises ValueError, which the script turns into the empty list.
   */
  function AsList(c: Cell): (xs: seq<real>)
    ensures c.Items? ==> xs == c.xs
    ensures !c.Items? ==> xs == []
  {
    if c.Items? then c.xs else []
  }

  predicate IsT1Of(row: Row, cid: int)
  {
    row.classificationId == cid && row.task == "T1"
  }

  /** The first row at or after `from` with the classification id and task T1, if any. */
  function FirstT1From(rows: seq<Row>, cid: int, from: nat): (i: Option<nat>)
    requires from <= |rows|
    ensures i.Some? ==>
      from <= i.value < |rows| && IsT1Of(rows[i.value], cid) && forall q :: from <= q < i.value ==> !IsT1Of(rows[q], cid)
    ensures i.None? ==> forall q :: from <= q < |rows| ==> !IsT1Of(rows[q], cid)
    decreases |rows| - from
  {
    if from == |rows| then None
    else if IsT1Of(rows[from], cid) then Some(from)
    else FirstT1From(rows, cid, from + 1)
  }

  /** The first row with the classification id and task T1, if any. */
  function FirstT1(rows: seq<Row>, cid: int): (i: Option<nat>)
    ensures i.Some? ==>
      i.value < |rows| && IsT1Of(rows[i.value], cid) && forall q :: 0 <= q < i.value ==> !IsT1Of(rows[q], cid)
    ensures i.None? ==> forall q :: 0 <= q < |rows| ==> !IsT1Of(rows[q], cid)
  {
    FirstT1From(rows, cid, 0)
  }

  /** The lookup `np.where(...)[0][0]` as a scan; it fails (IndexError) when no such row exists, which the caller excludes. */
  method FindFirstT1(table: array<Row>, cid: int) returns (i: nat)
    requires FirstT1(table[..], cid).Some?
    ensures i == FirstT1(table[..], cid).value
  {
    ghost var target := FirstT1(table[..], cid).value;
    i := 0;
    while !IsT1Of(table[i], cid)
      invariant i <= target
      invariant forall q :: 0 <= q < i ==> !IsT1Of(table[q], cid)
      decreases target - i
    {
      i := i + 1;
    }
  }

  /**
   * The merge of row `r` needs its frame-0 T5 data to be a list and a T1
   * row of its classification to exist; otherwise the script stops with an
   * exception.
   */
  predicate RowMergeable(rows: seq<Row>, p: ColumnPair, r: nat)
    requires PairShaped(rows, p) && r < |rows|
  {
    HasData(rows[r].vars[p.t5][0], MergeSentinel) ==>
      rows[r].vars[p.t5][0].Items? && FirstT1(rows, rows[r].classificationId).Some?
  }

  predicate Mergeable(rows: seq<Row>, p: ColumnPair)
  {
    PairShaped(rows, p) && forall r {:trigger RowMergeable(rows, p, r)} :: 0 <= r < |rows| ==> RowMergeable(rows, p, r)
  }

  /** Same classification, task and layout in each row. */
  predicate SameLayout(a: seq<Row>, b: seq<Row>)
  {
    |a| == |b| &&
    forall q :: 0 <= q < |a| ==>
      a[q].classificationId == b[q].classificationId && a[q].task == b[q].task && |a[q].vars| == |b[q].vars| &&
      forall u :: 0 <= u < |a[q].vars| ==> |a[q].vars[u]| == |b[q].vars[u]|
  }

  /** Every cell outside frame 0 of the columns `cols` is the same in both tables. */
  predicate SameOutside(a: seq<Row>, b: seq<Row>, cols: set<nat>)
    requires SameLayout(a, b)
  {
    forall q, u, k :: 0 <= q < |a| && 0 <= u < |a[q].vars| && 0 <= k < |a[q].vars[u]| && !(k == 0 && u in cols) ==>
      b[q].vars[u][k] == a[q].vars[u][k]
  }

  lemma {:induction false} FirstT1FromOfSameLayout(a: seq<Row>, b: seq<Row>, cid: int, from: nat)
    requires SameLayout(a, b) && from <= |a|
    ensures FirstT1From(a, cid, from) == FirstT1From(b, cid, from)
    decreases |a| - from
  {
    if from < |a| {
      FirstT1FromOfSameLayout(a, b, cid, from + 1);
    }
  }

  /** Rows with the same classification ids and tasks have the same first T1 rows. */
  lemma FirstT1OfSameLayout(a: seq<Row>, b: seq<Row>, cid: int)
    requires SameLayout(a, b)
    ensures FirstT1(a, cid) == FirstT1(b, cid)
  {
    FirstT1FromOfSameLayout(a, b, cid, 0);
  }

  /**
   * One iteration of the row loop: when row `r` has frame-0 T5 data, the
   * first T1 row of its classification gets its T1 list followed by the T5
   * list, and then the T5 cell of row `r` is blanked.
   */
  function MergeRow(rows: seq<Row>, p: ColumnPair, r: nat): (m: seq<Row>)
    requires PairShaped(rows, p) && r < |rows| && RowMergeable(rows, p, r)
    ensures SameLayout(rows, m) && PairShaped(m, p) && SameOutside(rows, m, {p.t1, p.t5})
    ensures forall q :: 0 <= q < |rows| && q != r ==> m[q].vars[p.t5][0] == rows[q].vars[p.t5][0]
    ensures m[r].vars[p.t5][0] == if HasData(rows[r].vars[p.t5][0], MergeSentinel) then Blank else rows[r].vars[p.t5][0]
    ensures forall q :: 0 <= q < |rows| ==>
      m[q].vars[p.t1][0] == if HasData(rows[r].vars[p.t5][0], MergeSentinel) && FirstT1(rows, rows[r].classificationId) == Some(q)
      then Items(AsList(rows[q].vars[p.t1][0]) + AsList(rows[r].vars[p.t5][0]))
      else rows[q].vars[p.t1][0]
  {
    var row := rows[r];
    if !HasData(row.vars[p.t5][0], MergeSentinel) then rows
    else
      var i := FirstT1(rows, row.classificationId).value;
      var dataT1 := AsList(rows[i].vars[p.t1][0]);
      var dataT5 := row.vars[p.t5][0].xs;
      var written := rows[i := SetFrame0(rows[i], p.t1, Items(dataT1 + dataT5))];
      written[r := SetFrame0(written[r], p.t5, Blank)]
  }

  /** The row loop over rows 0..n-1. */
  function MergeUpTo(rows: seq<Row>, p: ColumnPair, n: nat): (m: seq<Row>)
    requires Mergeable(rows, p) && n <= |rows|
    ensures SameLayout(rows, m) && PairShaped(m, p) && SameOutside(rows, m, {p.t1, p.t5})
    ensures forall q :: n <= q < |rows| ==> m[q].vars[p.t5][0] == rows[q].vars[p.t5][0]
  {
    if n == 0 then rows
    else
      var before := MergeUpTo(rows, p, n - 1);
      FirstT1OfSameLayout(rows, before, rows[n - 1].classificationId);
      assert RowMergeable(rows, p, n - 1);
      assert RowMergeable(before, p, n - 1);
      MergeRow(before, p, n - 1)
  }

  lemma MergeUpToStep(rows: seq<Row>, p: ColumnPair, r: nat)
    requires Mergeable(rows, p) && r < |rows|
    ensures PairShaped(MergeUpTo(rows, p, r), p) && RowMergeable(MergeUpTo(rows, p, r), p, r)
    ensures MergeUpTo(rows, p, r + 1) == MergeRow(MergeUpTo(rows, p, r), p, r)
  {
    var before := MergeUpTo(rows, p, r);
    FirstT1OfSameLayout(rows, before, rows[r].classificationId);
    assert RowMergeable(rows, p, r);
  }

  /** Some row among 0..n-1 of the classification has frame-0 T5 data. */
  predicate Contributes(rows: seq<Row>, p: ColumnPair, cid: int, n: nat)
    requires PairShaped(rows, p) && n <= |rows|
  {
    exists q :: 0 <= q < n && rows[q].classificationId == cid && HasData(rows[q].vars[p.t5][0], MergeSentinel)
  }

  /** The T5 lists of the classification's rows among 0..n-1, concatenated in row order. */
  function Gathered(rows: seq<Row>, p: ColumnPair, cid: int, n: nat): (xs: seq<real>)
    requires PairShaped(rows, p) && n <= |rows|
    ensures !Contributes(rows, p, cid, n) ==> xs == []
  {
    if n == 0 then []
    else
      var c := rows[n - 1].vars[p.t5][0];
      Gathered(rows, p, cid, n - 1) +
        (if rows[n - 1].classificationId == cid && HasData(c, MergeSentinel) then AsList(c) else [])
  }

  /** What the T1 cell of row `q` holds after rows 0..n-1 were merged. */
  function MergedT1(rows: seq<Row>, p: ColumnPair, q: nat, n: nat): Cell
    requires PairShaped(rows, p) && q < |rows| && n <= |rows|
  {
    var cid := rows[q].classificationId;
    if FirstT1(rows, cid) == Some(q) && Contributes(rows, p, cid, n)
    then Items(AsList(rows[q].vars[p.t1][0]) + Gathered(rows, p, cid, n))
    else rows[q].vars[p.t1][0]
  }

  /** Visiting row n-1 blanks its T5 cell when it held data and leaves every other T5 cell as it was. */
  lemma MergeUpToStepT5(rows: seq<Row>, p: ColumnPair, n: nat)
    requires Mergeable(rows, p) && 0 < n <= |rows|
    ensures forall q :: 0 <= q < |rows| && q != n - 1 ==>
      MergeUpTo(rows, p, n)[q].vars[p.t5][0] == MergeUpTo(rows, p, n - 1)[q].vars[p.t5][0]
    ensures MergeUpTo(rows, p, n)[n - 1].vars[p.t5][0] ==
      if HasData(rows[n - 1].vars[p.t5][0], MergeSentinel) then Blank else rows[n - 1].vars[p.t5][0]
  {
    var before := MergeUpTo(rows, p, n - 1);
    FirstT1OfSameLayout(rows, before, rows[n - 1].classificationId);
    assert RowMergeable(rows, p, n - 1);
    assert MergeUpTo(rows, p, n) == MergeRow(before, p, n - 1);
    assert before[n - 1].vars[p.t5][0] == rows[n - 1].vars[p.t5][0];
  }

  /** Each row's frame-0 T5 cell is blanked iff it held data and was visited. */
  lemma {:induction false} MergeBlanksT5(rows: seq<Row>, p: ColumnPair, n: nat)
    requires Mergeable(rows, p) && n <= |rows|
    ensures forall q :: 0 <= q < |rows| ==>
      MergeUpTo(rows, p, n)[q].vars[p.t5][0] == if q < n && HasData(rows[q].vars[p.t5][0], MergeSentinel) then Blank else rows[q].vars[p.t5][0]
  {
    if n > 0 {
      MergeBlanksT5(rows, p, n - 1);
      MergeUpToStepT5(rows, p, n);
    }
  }

  /**
   * The first T1 row of each classification with T5 data holds its own T1
   * list (or the empty list when that did not parse) followed by all the
   * classification's T5 lists in row order; every other T1 cell is untouched.
   */
  lemma {:induction false} MergeAccumulates(rows: seq<Row>, p: ColumnPair, n: nat)
    requires Mergeable(rows, p) && n <= |rows|
    ensures forall q :: 0 <= q < |rows| ==> MergeUpTo(rows, p, n)[q].vars[p.t1][0] == MergedT1(rows, p, q, n)
  {
    if n > 0 {
      MergeAccumulates(rows, p, n - 1);
      var before := MergeUpTo(rows, p, n - 1);
      var r := n - 1;
      var cid := rows[r].classificationId;
      FirstT1OfSameLayout(rows, before, cid);
      assert before[r].vars[p.t5][0] == rows[r].vars[p.t5][0];
      forall q | 0 <= q < |rows|
        ensures MergeUpTo(rows, p, n)[q].vars[p.t1][0] == MergedT1(rows, p, q, n)
      {
        if HasData(rows[r].vars[p.t5][0], MergeSentinel) && FirstT1(rows, cid) == Some(q) {
          MergeStepT1(rows, p, n, q);
        } else {
          MergeStepOther(rows, p, n, q);
        }
      }
    }
  }

  /** Row n-1's data extends the T1 cell of its classification's first T1 row. */
  lemma MergeStepT1(rows: seq<Row>, p: ColumnPair, n: nat, i: nat)
    requires Mergeable(rows, p) && 0 < n <= |rows|
    requires HasData(rows[n - 1].vars[p.t5][0], MergeSentinel)
    requires FirstT1(rows, rows[n - 1].classificationId) == Some(i)
    ensures MergedT1(rows, p, i, n) ==
      Items(AsList(MergedT1(rows, p, i, n - 1)) + AsList(rows[n - 1].vars[p.t5][0]))
  {
    var cid := rows[n - 1].classificationId;
    var orig := rows[i].vars[p.t1][0];
    var c := rows[n - 1].vars[p.t5][0];
    assert rows[i].classificationId == cid;
    assert Gathered(rows, p, cid, n) == Gathered(rows, p, cid, n - 1) + AsList(c);
    assert Contributes(rows, p, cid, n);
    if Contributes(rows, p, cid, n - 1) {
      assert AsList(MergedT1(rows, p, i, n - 1)) == AsList(orig) + Gathered(rows, p, cid, n - 1);
    } else {
      assert MergedT1(rows, p, i, n - 1) == orig;
    }
  }

  /** Row n-1 leaves the T1 cell of every row other than its classification's first T1 row as it was. */
  lemma MergeStepOther(rows: seq<Row>, p: ColumnPair, n: nat, q: nat)
    requires Mergeable(rows, p) && 0 < n <= |rows| && q < |rows|
    requires HasData(rows[n - 1].vars[p.t5][0], MergeSentinel) ==>
      FirstT1(rows, rows[n - 1].classificationId) != Some(q)
    ensures MergedT1(rows, p, q, n) == MergedT1(rows, p, q, n - 1)
  {
    var cid := rows[q].classificationId;
    if FirstT1(rows, cid) == Some(q) && Contributes(rows, p, cid, n) {
      var w :| 0 <= w < n && rows[w].classificationId == cid && HasData(rows[w].vars[p.t5][0], MergeSentinel);
      if w < n - 1 {
        assert Contributes(rows, p, cid, n - 1);
      }
    }
  }

  /** The row loop of one column pair over the whole table. */
  function MergeColumnPair(rows: seq<Row>, p: ColumnPair): (m: seq<Row>)
    requires Mergeable(rows, p)
    ensures SameLayout(rows, m) && PairShaped(m, p) && SameOutside(rows, m, {p.t1, p.t5})
  {
    MergeUpTo(rows, p, |rows|)
  }

  /**
   * The merge of one column pair: every T5 frame-0 cell with data is
   * blanked, every other one kept, and each classification's first T1 row
   * ends with its T1 list followed by all of the classification's T5 lists.
   */
  lemma MergeColumnPairCells(rows: seq<Row>, p: ColumnPair)
    requires Mergeable(rows, p)
    ensures forall q :: 0 <= q < |rows| ==>
      MergeColumnPair(rows, p)[q].vars[p.t5][0] ==
        if HasData(rows[q].vars[p.t5][0], MergeSentinel) then Blank else rows[q].vars[p.t5][0]
    ensures forall q :: 0 <= q < |rows| ==> MergeColumnPair(rows, p)[q].vars[p.t1][0] == MergedT1(rows, p, q, |rows|)
  {
    MergeBlanksT5(rows, p, |rows|);
    MergeAccumulates(rows, p, |rows|);
  }

  /**
   * One turn of the row loop, in place: the T1 lookup, the list
   * concatenation, the write into the T1 row and the blanking of the T5 cell.
   */
  method MergeRowInPlace(table: array<Row>, p: ColumnPair, r: nat)
    requires PairShaped(table[..], p) && r < table.Length && RowMergeable(table[..], p, r)
    modifies table
    ensures table[..] == MergeRow(old(table[..]), p, r)
  {
    ghost var before := table[..];
    var row := table[r];
    var c := row.vars[p.t5][0];
    if HasData(c, MergeSentinel) {
      var i := FindFirstT1(table, row.classificationId);
      var dataT1 := AsList(table[i].vars[p.t1][0]);
      table[i] := SetFrame0(table[i], p.t1, Items(dataT1 + c.xs));
      ghost var written := table[..];
      assert written == before[i := SetFrame0(before[i], p.t1, Items(dataT1 + c.xs))];
      table[r] := SetFrame0(table[r], p.t5, Blank);
      assert table[..] == written[r := SetFrame0(written[r], p.t5, Blank)];
    }
  }

  /**
   * The row loop of one column pair, in place (lines 38-69 and 98-129 of the
   * script). A row is merged when its T5 cell holds data at its turn; the
   * script collects these rows before the loop, which selects the same rows
   * because a row's T5 cell changes only at its own turn.
   */
  method MergeColumn(table: array<Row>, p: ColumnPair)
    requires Mergeable(table[..], p)
    modifies table
    ensures table[..] == MergeColumnPair(old(table[..]), p)
  {
    ghost var rows := table[..];
    for r := 0 to table.Length
      invariant table[..] == MergeUpTo(rows, p, r)
    {
      MergeUpToStep(rows, p, r);
      MergeRowInPlace(table, p, r);
    }
  }

  /** The column pairs touch pairwise different columns. */
  predicate PairsDisjoint(pairs: seq<ColumnPair>)
  {
    forall a, b :: 0 <= a < |pairs| && 0 <= b < |pairs| && a != b ==>
      pairs[a].t1 != pairs[b].t1 && pairs[a].t1 != pairs[b].t5 && pairs[a].t5 != pairs[b].t5
  }

  predicate AllMergeable(rows: seq<Row>, pairs: seq<ColumnPair>)
  {
    forall k {:trigger Mergeable(rows, pairs[k])} :: 0 <= k < |pairs| ==> Mergeable(rows, pairs[k])
  }

  /** The columns of the first `n` pairs. */
  function PairCols(pairs: seq<ColumnPair>, n: nat): (cols: set<nat>)
    requires n <= |pairs|
    ensures forall k :: 0 <= k < n ==> pairs[k].t1 in cols && pairs[k].t5 in cols
  {
    if n == 0 then {} else PairCols(pairs, n - 1) + {pairs[n - 1].t1, pairs[n - 1].t5}
  }

  lemma {:induction false} PairColsExclude(pairs: seq<ColumnPair>, n: nat, k: nat)
    requires PairsDisjoint(pairs) && n <= k < |pairs|
    ensures pairs[k].t1 !in PairCols(pairs, n) && pairs[k].t5 !in PairCols(pairs, n)
  {
    if n > 0 {
      PairColsExclude(pairs, n - 1, k);
    }
  }

  /** A merge that leaves a pair's T5 column alone keeps that pair mergeable. */
  lemma MergeableTransfer(a: seq<Row>, b: seq<Row>, p: ColumnPair, cols: set<nat>)
    requires Mergeable(a, p) && SameLayout(a, b) && SameOutside(a, b, cols) && p.t5 !in cols
    ensures Mergeable(b, p)
  {
    assert PairShaped(b, p);
    forall r | 0 <= r < |b|
      ensures RowMergeable(b, p, r)
    {
      FirstT1OfSameLayout(a, b, b[r].classificationId);
      assert RowMergeable(a, p, r);
      assert b[r].vars[p.t5][0] == a[r].vars[p.t5][0];
    }
  }

  lemma SameOutsideCompose(a: seq<Row>, b: seq<Row>, c: seq<Row>, cols1: set<nat>, cols2: set<nat>)
    requires SameLayout(a, b) && SameLayout(b, c) && SameOutside(a, b, cols1) && SameOutside(b, c, cols2)
    ensures SameLayout(a, c) && SameOutside(a, c, cols1 + cols2)
  {
  }

  /**
   * The loop over the T1 variables (lines 38 and 98 of the script), in
   * place: each pair ends merged as if alone on the input table, and no
   * other cell changes.
   */
  method MergeColumns(table: array<Row>, pairs: seq<ColumnPair>)
    requires AllMergeable(table[..], pairs) && PairsDisjoint(pairs)
    modifies table
    ensures MergedPairs(old(table[..]), table[..], pairs, |pairs|)
  {
    ghost var rows := table[..];
    for k := 0 to |pairs|
      invariant MergedPairs(rows, table[..], pairs, k)
    {
      ghost var before := table[..];
      NextPairMergeable(rows, before, pairs, k);
      MergeColumn(table, pairs[k]);
      MergePairStep(rows, before, table[..], pairs, k);
    }
  }

  /** Frame 0 of column `u` is the same in both tables. */
  predicate SameFrame0(a: seq<Row>, b: seq<Row>, u: nat)
    requires |a| == |b|
    requires forall q :: 0 <= q < |a| ==> u < |a[q].vars| && |a[q].vars[u]| > 0 && u < |b[q].vars| && |b[q].vars[u]| > 0
  {
    forall q :: 0 <= q < |a| ==> a[q].vars[u][0] == b[q].vars[u][0]
  }

  lemma {:induction false} GatheredCongruent(a: seq<Row>, b: seq<Row>, p: ColumnPair, cid: int, n: nat)
    requires PairShaped(a, p) && PairShaped(b, p) && SameLayout(a, b) && n <= |a|
    requires SameFrame0(a, b, p.t5)
    ensures Gathered(a, p, cid, n) == Gathered(b, p, cid, n)
    ensures Contributes(a, p, cid, n) == Contributes(b, p, cid, n)
  {
    if n > 0 {
      GatheredCongruent(a, b, p, cid, n - 1);
      if Contributes(a, p, cid, n) {
        var w :| 0 <= w < n && a[w].classificationId == cid && HasData(a[w].vars[p.t5][0], MergeSentinel);
        assert b[w].vars[p.t5][0] == a[w].vars[p.t5][0];
      }
      if Contributes(b, p, cid, n) {
        var w :| 0 <= w < n && b[w].classificationId == cid && HasData(b[w].vars[p.t5][0], MergeSentinel);
        assert b[w].vars[p.t5][0] == a[w].vars[p.t5][0];
      }
    }
  }

  /** The merged T1 cells depend only on the layout and on frame 0 of the pair's two columns. */
  lemma MergedT1Congruent(a: seq<Row>, b: seq<Row>, p: ColumnPair, q: nat)
    requires PairShaped(a, p) && PairShaped(b, p) && SameLayout(a, b) && q < |a|
    requires SameFrame0(a, b, p.t1) && SameFrame0(a, b, p.t5)
    ensures MergedT1(a, p, q, |a|) == MergedT1(b, p, q, |b|)
  {
    FirstT1OfSameLayout(a, b, a[q].classificationId);
    GatheredCongruent(a, b, p, a[q].classificationId, |a|);
  }

  /**
   * Frame 0 of the pair's columns in `m` is what merging the pair alone on
   * `rows` gives: T5 cells with data blanked, each classification's first T1
   * row holding the concatenated lists.
   */
  predicate PairMerged(rows: seq<Row>, m: seq<Row>, p: ColumnPair)
  {
    PairShaped(rows, p) && PairShaped(m, p) && |m| == |rows| &&
    forall q :: 0 <= q < |rows| ==>
      m[q].vars[p.t5][0] == (if HasData(rows[q].vars[p.t5][0], MergeSentinel) then Blank else rows[q].vars[p.t5][0]) &&
      m[q].vars[p.t1][0] == MergedT1(rows, p, q, |rows|)
  }

  lemma PairMergedAlone(rows: seq<Row>, p: ColumnPair)
    requires Mergeable(rows, p)
    ensures PairMerged(rows, MergeColumnPair(rows, p), p)
  {
    MergeColumnPairCells(rows, p);
  }

  lemma PairMergedCongruent(rows: seq<Row>, a: seq<Row>, m: seq<Row>, p: ColumnPair)
    requires Mergeable(rows, p) && PairShaped(a, p) && SameLayout(rows, a)
    requires SameFrame0(rows, a, p.t1) && SameFrame0(rows, a, p.t5)
    requires PairShaped(m, p) && |m| == |rows| && PairMerged(a, m, p)
    ensures PairMerged(rows, m, p)
  {
    forall q | 0 <= q < |rows|
      ensures MergedT1(a, p, q, |a|) == MergedT1(rows, p, q, |rows|)
    {
      MergedT1Congruent(rows, a, p, q);
    }
  }

  lemma PairMergedKept(rows: seq<Row>, a: seq<Row>, m: seq<Row>, p: ColumnPair)
    requires PairShaped(rows, p) && PairShaped(a, p) && PairShaped(m, p) && |a| == |rows| == |m|
    requires PairMerged(rows, a, p) && SameFrame0(a, m, p.t1) && SameFrame0(a, m, p.t5)
    ensures PairMerged(rows, m, p)
  {
  }

  /** Frame 0 of a column outside `cols` is the same in both tables. */
  lemma SameOutsideFrame0(a: seq<Row>, b: seq<Row>, cols: set<nat>, u: nat)
    requires SameLayout(a, b) && SameOutside(a, b, cols) && u !in cols
    requires forall q :: 0 <= q < |a| ==> u < |a[q].vars| && |a[q].vars[u]| > 0
    ensures SameFrame0(a, b, u)
  {
  }

  /**
   * `m` is `rows` with the first `n` pairs merged: every one of them looks
   * as if it had been merged alone on `rows`, and nothing outside frame 0 of
   * their columns changed.
   */
  predicate MergedPairs(rows: seq<Row>, m: seq<Row>, pairs: seq<ColumnPair>, n: nat)
    requires n <= |pairs|
  {
    SameLayout(rows, m) && SameOutside(rows, m, PairCols(pairs, n)) &&
    forall j :: 0 <= j < n ==> PairMerged(rows, m, pairs[j])
  }

  /** Pairs not merged yet still find their T5 cells and T1 rows as in the input. */
  lemma NextPairMergeable(rows: seq<Row>, m: seq<Row>, pairs: seq<ColumnPair>, k: nat)
    requires AllMergeable(rows, pairs) && PairsDisjoint(pairs) && k < |pairs|
    requires MergedPairs(rows, m, pairs, k)
    ensures Mergeable(m, pairs[k])
  {
    assert Mergeable(rows, pairs[k]);
    PairColsExclude(pairs, k, k);
    MergeableTransfer(rows, m, pairs[k], PairCols(pairs, k));
  }

  /** The pair merged now reads its own columns as they were in the input. */
  lemma MergeNewPair(rows: seq<Row>, before: seq<Row>, after: seq<Row>, pairs: seq<ColumnPair>, k: nat)
    requires AllMergeable(rows, pairs) && PairsDisjoint(pairs) && k < |pairs|
    requires MergedPairs(rows, before, pairs, k) && Mergeable(before, pairs[k])
    requires after == MergeColumnPair(before, pairs[k])
    ensures PairMerged(rows, after, pairs[k])
  {
    var p := pairs[k];
    assert Mergeable(rows, p);
    PairColsExclude(pairs, k, k);
    SameOutsideFrame0(rows, before, PairCols(pairs, k), p.t1);
    SameOutsideFrame0(rows, before, PairCols(pairs, k), p.t5);
    PairMergedAlone(before, p);
    PairMergedCongruent(rows, before, after, p);
  }

  /** Merging pair `k` leaves what an earlier pair `j` left in its columns. */
  lemma MergeKeepsEarlierPair(rows: seq<Row>, before: seq<Row>, after: seq<Row>, pairs: seq<ColumnPair>, k: nat, j: nat)
    requires PairsDisjoint(pairs) && j < k < |pairs|
    requires Mergeable(before, pairs[k]) && after == MergeColumnPair(before, pairs[k])
    requires PairMerged(rows, before, pairs[j])
    ensures PairMerged(rows, after, pairs[j])
  {
    var p := pairs[j];
    var last := pairs[k];
    assert p.t1 !in {last.t1, last.t5} && p.t5 !in {last.t1, last.t5};
    SameOutsideFrame0(before, after, {last.t1, last.t5}, p.t1);
    SameOutsideFrame0(before, after, {last.t1, last.t5}, p.t5);
    PairMergedKept(rows, before, after, p);
  }

  /** One turn of the loop over the pairs keeps the description of the merged table. */
  lemma MergePairStep(rows: seq<Row>, before: seq<Row>, after: seq<Row>, pairs: seq<ColumnPair>, k: nat)
    requires AllMergeable(rows, pairs) && PairsDisjoint(pairs) && k < |pairs|
    requires MergedPairs(rows, before, pairs, k) && Mergeable(before, pairs[k])
    requires after == MergeColumnPair(before, pairs[k])
    ensures MergedPairs(rows, after, pairs, k + 1)
  {
    SameOutsideCompose(rows, before, after, PairCols(pairs, k), {pairs[k].t1, pairs[k].t5});
    forall j | 0 <= j < k + 1
      ensures PairMerged(rows, after, pairs[j])
    {
      if j == k {
        MergeNewPair(rows, before, after, pairs, k);
      } else {
        MergeKeepsEarlierPair(rows, before, after, pairs, k, j);
      }
    }
  }

  /**
   * The script on one extract table: the table is squashed in place, then a
   * copy of it is merged pair by pair (lines 18-69 for the point extractor
   * with the sentinel "N/A", lines 85-129 for the shape extractor with the
   * sentinel "None").
   */
  method SquashAndMerge(table: array<Row>, nvars: nat, pairs: seq<ColumnPair>, sentinel: string)
    returns (merged: array<Row>)
    requires Shaped(table[..], nvars) && PairsDisjoint(pairs)
    requires AllMergeable(SquashTable(table[..], nvars, sentinel), pairs)
    modifies table
    ensures table[..] == SquashTable(old(table[..]), nvars, sentinel)
    ensures fresh(merged) && MergedPairs(table[..], merged[..], pairs, |pairs|)
  {
    SquashColumns(table, nvars, sentinel);
    merged := new Row[table.Length](i reads table requires 0 <= i < table.Length => table[i]);
    assert merged[..] == table[..];
    MergeColumns(merged, pairs);
  }

  /** The point-extractor table (lines 18-69): frames are squashed with the sentinel "N/A". */
  method SquashAndMergePoints(table: array<Row>, nvars: nat, pairs: seq<ColumnPair>) returns (merged: array<Row>)
    requires Shaped(table[..], nvars) && PairsDisjoint(pairs)
    requires AllMergeable(SquashTable(table[..], nvars, PointSentinel), pairs)
    modifies table
    ensures table[..] == SquashTable(old(table[..]), nvars, "N/A")
    ensures fresh(merged) && MergedPairs(table[..], merged[..], pairs, |pairs|)
  {
    merged := SquashAndMerge(table, nvars, pairs, PointSentinel);
  }

  /**
   * The shape-extractor table (lines 85-129): a frame cell has data unless
   * it is masked or reads "None", and only that cell moves.
   */
  method SquashAndMergeShapes(table: array<Row>, nvars: nat, pairs: seq<ColumnPair>) returns (merged: array<Row>)
    requires Shaped(table[..], nvars) && PairsDisjoint(pairs)
    requires AllMergeable(SquashTable(table[..], nvars, ShapeSentinel), pairs)
    modifies table
    ensures table[..] == SquashTable(old(table[..]), nvars, "None")
    ensures fresh(merged) && MergedPairs(table[..], merged[..], pairs, |pairs|)
  {
    merged := SquashAndMerge(table, nvars, pairs, ShapeSentinel);
  }
}
