/**
 The grid of agent panes: near-square row sizes, and the splits that build it.
 A split ratio is the share of its parent that the parent keeps; shares and
 rectangles are exact reals.
 */
module PaneGrid {
  import opened Wrappers

  const MAX_AGENT_GRID_PANES := 16

  datatype Direction = Right | Down

  datatype PaneGridCell = PaneGridCell(slot: nat, row: nat, column: nat)

  datatype PaneGridSplit = PaneGridSplit(parentSlot: nat, newSlot: nat, direction: Direction, ratio: real)

  datatype PaneGridPlan = PaneGridPlan(
    paneCount: nat,
    rowCount: nat,
    columnCount: nat,
    cells: seq<PaneGridCell>,
    rowPaneCounts: seq<nat>,
    splits: seq<PaneGridSplit>)

  datatype GridError = InvalidPaneGridSize

  // ---------------------------------------------------------------- row sizes

  /** The least number whose square is at least n. */
  function CeilSqrt(n: nat): (c: nat)
    ensures c * c >= n && (c > 0 ==> (c - 1) * (c - 1) < n)
  {
    if n == 0 then 0
    else
      var c := CeilSqrt(n - 1);
      if c * c >= n then c else c + 1
  }

  function ColumnCount(n: nat): nat {
    CeilSqrt(n)
  }

  function RowCount(n: nat): (rows: nat)
    requires n >= 1
    ensures 1 <= rows <= n && rows * ColumnCount(n) >= n
  {
    CeilDivision(n, ColumnCount(n));
    (n + ColumnCount(n) - 1) / ColumnCount(n)
  }

  /** The first `larger` rows hold one pane more than the others. */
  function EvenSizes(rows: nat, base: nat, larger: nat): seq<nat>
  {
    seq(rows, row requires 0 <= row < rows => base + (if row < larger then 1 else 0))
  }

  function RowSizes(n: nat): seq<nat>
    requires n >= 1
  {
    EvenSizes(RowCount(n), n / RowCount(n), n % RowCount(n))
  }

  /** The first slot of a row. */
  function Start(sizes: seq<nat>, row: nat): nat
    requires row <= |sizes|
  {
    if row == 0 then 0 else Start(sizes, row - 1) + sizes[row - 1]
  }

  // ---------------------------------------------------------------- the row and column construction

  function Share(parts: nat): real
    requires parts >= 1
  {
    1.0 / parts as real
  }

  predicate Filled(sizes: seq<nat>) {
    sizes != [] && forall row :: 0 <= row < |sizes| ==> sizes[row] >= 1
  }

  /** Rows 1 to k, each cut from the bottom of the one before. */
  function RowSplits(sizes: seq<nat>, k: nat): seq<PaneGridSplit>
    requires k < |sizes|
  {
    if k == 0 then []
    else RowSplits(sizes, k - 1)
         + [PaneGridSplit(Start(sizes, k - 1), Start(sizes, k), Down, Share(|sizes| - k + 1))]
  }

  /** Columns 1 to k of one row, each cut from the right of the one before. */
  function ColumnSplits(start: nat, size: nat, k: nat): seq<PaneGridSplit>
    requires k < size
  {
    if k == 0 then []
    else ColumnSplits(start, size, k - 1) + [PaneGridSplit(start + k - 1, start + k, Right, Share(size - k + 1))]
  }

  function AllColumnSplits(sizes: seq<nat>, rows: nat): seq<PaneGridSplit>
    requires Filled(sizes) && rows <= |sizes|
  {
    if rows == 0 then []
    else AllColumnSplits(sizes, rows - 1)
         + ColumnSplits(Start(sizes, rows - 1), sizes[rows - 1], sizes[rows - 1] - 1)
  }

  function GridSplits(sizes: seq<nat>): seq<PaneGridSplit>
    requires Filled(sizes)
  {
    RowSplits(sizes, |sizes| - 1) + AllColumnSplits(sizes, |sizes|)
  }

  function RowCells(start: nat, row: nat, k: nat): seq<PaneGridCell> {
    if k == 0 then [] else RowCells(start, row, k - 1) + [PaneGridCell(start + k - 1, row, k - 1)]
  }

  function AllCells(sizes: seq<nat>, rows: nat): seq<PaneGridCell>
    requires rows <= |sizes|
  {
    if rows == 0 then [] else AllCells(sizes, rows - 1) + RowCells(Start(sizes, rows - 1), rows - 1, sizes[rows - 1])
  }

  /** The first splits of every small grid, so that one more pane never moves an earlier one. */
  const STABLE_SPLITS := [
    PaneGridSplit(0, 1, Right, 0.5),
    PaneGridSplit(0, 2, Down, 0.5),
    PaneGridSplit(1, 3, Right, 0.5),
    PaneGridSplit(1, 4, Down, 0.5),
    PaneGridSplit(3, 5, Down, 0.5)]

  /** The splits of the returned plan. */
  function PlannedSplits(n: nat): seq<PaneGridSplit>
    requires n >= 1
  {
    RowSizesFilled(n);
    if n <= 6 then STABLE_SPLITS[..n - 1] else GridSplits(RowSizes(n))
  }

  method CollectStarts(sizes: seq<nat>) returns (starts: seq<nat>)
    ensures |starts| == |sizes| && forall row :: 0 <= row < |sizes| ==> starts[row] == Start(sizes, row)
  {
    starts := [];
    var nextSlot := 0;
    for row := 0 to |sizes|
      invariant |starts| == row && nextSlot == Start(sizes, row)
      invariant forall j :: 0 <= j < row ==> starts[j] == Start(sizes, j)
    {
      starts := starts + [nextSlot];
      nextSlot := nextSlot + sizes[row];
    }
  }

  method SplitRows(sizes: seq<nat>, starts: seq<nat>) returns (splits: seq<PaneGridSplit>)
    requires Filled(sizes) && |starts| == |sizes|
    requires forall row :: 0 <= row < |sizes| ==> starts[row] == Start(sizes, row)
    ensures splits == RowSplits(sizes, |sizes| - 1)
  {
    splits := [];
    var remainingRowParent := 0;
    for row := 1 to |sizes|
      invariant splits == RowSplits(sizes, row - 1)
      invariant remainingRowParent == Start(sizes, row - 1)
    {
      splits := splits + [PaneGridSplit(remainingRowParent, starts[row], Down, Share(|sizes| - row + 1))];
      remainingRowParent := starts[row];
    }
  }

  method SplitColumns(start: nat, row: nat, size: nat) returns (cells: seq<PaneGridCell>, splits: seq<PaneGridSplit>)
    requires size >= 1
    ensures cells == RowCells(start, row, size) && splits == ColumnSplits(start, size, size - 1)
  {
    cells, splits := [], [];
    var remainingColumnParent := start;
    for column := 0 to size
      invariant cells == RowCells(start, row, column)
      invariant splits == ColumnSplits(start, size, if column == 0 then 0 else column - 1)
      invariant remainingColumnParent == if column == 0 then start else start + column - 1
    {
      var slot := start + column;
      cells := cells + [PaneGridCell(slot, row, column)];
      if column != 0 {
        splits := splits + [PaneGridSplit(remainingColumnParent, slot, Right, Share(size - column + 1))];
        remainingColumnParent := slot;
      }
    }
  }

  lemma Regroup<T>(a: seq<T>, b: seq<T>, c: seq<T>)
    ensures a + b + c == a + (b + c)
  {
  }

  method BuildGrid(sizes: seq<nat>) returns (cells: seq<PaneGridCell>, splits: seq<PaneGridSplit>)
    requires Filled(sizes)
    ensures cells == AllCells(sizes, |sizes|) && splits == GridSplits(sizes)
  {
    var starts := CollectStarts(sizes);
    splits := SplitRows(sizes, starts);
    cells := [];
    ghost var rowSplits, columns := splits, [];
    for row := 0 to |sizes|
      invariant columns == AllColumnSplits(sizes, row)
      invariant splits == rowSplits + columns
      invariant cells == AllCells(sizes, row)
    {
      var rowCells, columnSplits := SplitColumns(starts[row], row, sizes[row]);
      assert AllColumnSplits(sizes, row + 1) == columns + columnSplits;
      assert AllCells(sizes, row + 1) == cells + rowCells;
      Regroup(rowSplits, columns, columnSplits);
      cells, splits := cells + rowCells, splits + columnSplits;
      columns := columns + columnSplits;
    }
  }

  method PlanPaneGrid(paneCount: int) returns (r: Result<PaneGridPlan, GridError>)
    ensures r.Ok? <==> 1 <= paneCount <= MAX_AGENT_GRID_PANES
    ensures r.Ok? ==>
              r.value == PaneGridPlan(paneCount, RowCount(paneCount), ColumnCount(paneCount),
                                      AllCells(RowSizes(paneCount), RowCount(paneCount)), RowSizes(paneCount),
                                      PlannedSplits(paneCount))
  {
    if paneCount < 1 || paneCount > MAX_AGENT_GRID_PANES {
      return Err(InvalidPaneGridSize);
    }
    var columnCount := ColumnCount(paneCount);
    var rowCount := RowCount(paneCount);
    var rowPaneCounts := RowSizes(paneCount);
    RowSizesFilled(paneCount);
    var cells, splits := BuildGrid(rowPaneCounts);
    return Ok(PaneGridPlan(paneCount, rowCount, columnCount, cells, rowPaneCounts,
                           if paneCount <= 6 then STABLE_SPLITS[..paneCount - 1] else splits));
  }

  // ---------------------------------------------------------------- row sizes are even

  lemma MulLe(a: int, b: int, c: nat)
    requires a <= b
    ensures a * c <= b * c
  {
  }

  lemma CeilDivision(n: nat, columns: nat)
    requires n >= 1 && columns * columns >= n && (columns > 0 ==> (columns - 1) * (columns - 1) < n)
    ensures columns >= 1
    ensures var rows := (n + columns - 1) / columns; 1 <= rows <= n && rows * columns >= n
  {
    var rows := (n + columns - 1) / columns;
    assert rows * columns + (n + columns - 1) % columns == n + columns - 1;
    if rows < 1 {
      MulLe(rows, 0, columns);
    }
  }

  lemma EvenDivision(n: nat, rows: nat)
    requires 1 <= rows <= n
    ensures n / rows >= 1 && n == rows * (n / rows) + n % rows && n % rows < rows
  {
  }

  lemma RowSizesFilled(n: nat)
    requires n >= 1
    ensures Filled(RowSizes(n))
  {
    EvenDivision(n, RowCount(n));
  }

  lemma {:induction false} StartOfRow(rows: nat, base: nat, larger: nat, row: nat)
    requires row <= rows
    ensures Start(EvenSizes(rows, base, larger), row) == row * base + (if row < larger then row else larger)
  {
    if row > 0 {
      StartOfRow(rows, base, larger, row - 1);
      assert row * base == (row - 1) * base + base;
    }
  }

  lemma RowFits(n: nat, rows: nat, columns: nat)
    requires 1 <= rows <= n && rows * columns >= n
    ensures n / rows + (if n % rows > 0 then 1 else 0) <= columns
  {
    EvenDivision(n, rows);
    var base := n / rows;
    if base >= columns {
      MulLe(columns, base, rows);
      if base > columns {
        MulLe(columns + 1, base, rows);
      }
    }
  }

  /** Row sizes add up to the number of panes, differ by at most one, and fit the column count. */
  lemma RowsShareEvenly(n: nat)
    requires n >= 1
    ensures var sizes := RowSizes(n);
      && Start(sizes, |sizes|) == n
      && (forall i, j :: 0 <= i < |sizes| && 0 <= j < |sizes| ==> sizes[i] <= sizes[j] + 1)
      && forall i :: 0 <= i < |sizes| ==> 1 <= sizes[i] <= ColumnCount(n)
  {
    var rows := RowCount(n);
    EvenDivision(n, rows);
    StartOfRow(rows, n / rows, n % rows, rows);
    RowFits(n, rows, ColumnCount(n));
  }

  // ---------------------------------------------------------------- every slot is introduced once

  /** The slots present after the splits, if each split had its parent and introduced a new slot. */
  ghost function Grow(splits: seq<PaneGridSplit>, present: set<nat>): Option<set<nat>> {
    if splits == [] then Some(present)
    else
      var before, last := Grow(splits[..|splits| - 1], present), splits[|splits| - 1];
      if before.None? || last.parentSlot !in before.value || last.newSlot in before.value then None
      else Some(before.value + {last.newSlot})
  }

  lemma {:induction false} GrowConcat(a: seq<PaneGridSplit>, b: seq<PaneGridSplit>, present: set<nat>)
    requires Grow(a, present).Some?
    ensures Grow(a + b, present) == Grow(b, Grow(a, present).value)
  {
    if b == [] {
      assert a + b == a;
    } else {
      GrowConcat(a, b[..|b| - 1], present);
      assert (a + b)[..|a + b| - 1] == a + b[..|b| - 1];
    }
  }

  lemma {:induction false} StartsIncrease(sizes: seq<nat>, i: nat, j: nat)
    requires Filled(sizes) && i < j <= |sizes|
    ensures Start(sizes, i) + sizes[i] <= Start(sizes, j)
  {
    if i < j - 1 {
      StartsIncrease(sizes, i, j - 1);
    }
  }

  /** The first slots of rows 0 to k. */
  ghost function RowStarts(sizes: seq<nat>, k: nat): set<nat>
    requires k < |sizes|
  {
    if k == 0 then {0} else RowStarts(sizes, k - 1) + {Start(sizes, k)}
  }

  /** No row starts inside another row. */
  lemma {:induction false} RowsAreApart(sizes: seq<nat>, k: nat, row: nat)
    requires Filled(sizes) && k < |sizes| && row < |sizes|
    ensures forall slot :: slot in RowStarts(sizes, k) ==> slot <= Start(sizes, row) || slot >= Start(sizes, row + 1)
    ensures row <= k ==> Start(sizes, row) in RowStarts(sizes, k)
  {
    if k > 0 {
      RowsAreApart(sizes, k - 1, row);
      if k < row {
        StartsIncrease(sizes, k, row);
      } else if row + 1 < k {
        StartsIncrease(sizes, row + 1, k);
      }
    }
  }

  lemma {:induction false} RowsGrow(sizes: seq<nat>, k: nat)
    requires Filled(sizes) && k < |sizes|
    ensures Grow(RowSplits(sizes, k), {0}) == Some(RowStarts(sizes, k))
  {
    if k > 0 {
      RowsGrow(sizes, k - 1);
      RowsAreApart(sizes, k - 1, k - 1);
      RowStartsBelow(sizes, k - 1);
      GrowSnoc(RowSplits(sizes, k - 1),
               PaneGridSplit(Start(sizes, k - 1), Start(sizes, k), Down, Share(|sizes| - k + 1)),
               {0}, RowStarts(sizes, k - 1));
    }
  }

  lemma {:induction false} RowStartsBelow(sizes: seq<nat>, k: nat)
    requires Filled(sizes) && k < |sizes|
    ensures forall slot :: slot in RowStarts(sizes, k) ==> slot < Start(sizes, k + 1)
  {
    if k > 0 {
      RowStartsBelow(sizes, k - 1);
    }
  }

  /** The slots from lo up to, and without, hi. */
  ghost function Slots(lo: nat, hi: nat): set<nat>
    decreases hi
  {
    if lo >= hi then {} else Slots(lo, hi - 1) + {hi - 1}
  }

  lemma {:induction false} SlotMembers(lo: nat, hi: nat)
    ensures forall slot: nat :: slot in Slots(lo, hi) <==> lo <= slot < hi
    decreases hi
  {
    if lo < hi {
      SlotMembers(lo, hi - 1);
    }
  }

  /** One more split whose parent is there and whose slot is not. */
  lemma GrowSnoc(splits: seq<PaneGridSplit>, last: PaneGridSplit, present: set<nat>, grown: set<nat>)
    requires Grow(splits, present) == Some(grown) && last.parentSlot in grown && last.newSlot !in grown
    ensures Grow(splits + [last], present) == Some(grown + {last.newSlot})
  {
    assert (splits + [last])[..|splits|] == splits;
  }

  lemma ColumnStep(present: set<nat>, start: nat, k: nat)
    requires start in present && k >= 1
    ensures start + k - 1 in present + Slots(start + 1, start + k)
    ensures present + Slots(start + 1, start + k) + {start + k} == present + Slots(start + 1, start + k + 1)
    ensures start + k in present + Slots(start + 1, start + k) ==> start + k in present
  {
    SlotMembers(start + 1, start + k);
  }

  lemma {:induction false} ColumnsGrow(start: nat, size: nat, k: nat, present: set<nat>)
    requires k < size && start in present && forall slot :: start < slot < start + size ==> slot !in present
    ensures Grow(ColumnSplits(start, size, k), present) == Some(present + Slots(start + 1, start + k + 1))
  {
    if k == 0 {
      assert present + {} == present;
    } else {
      ColumnsGrow(start, size, k - 1, present);
      ColumnStep(present, start, k);
      GrowSnoc(ColumnSplits(start, size, k - 1), PaneGridSplit(start + k - 1, start + k, Right, Share(size - k + 1)),
               present, present + Slots(start + 1, start + k));
    }
  }

  /** Before its own splits, a row holds only its first slot; after them it is full. */
  lemma OpenRow(starts: set<nat>, start: nat, next: nat)
    requires start in starts && start < next
    requires forall slot :: slot in starts ==> slot <= start || slot >= next
    ensures forall slot :: start < slot < next ==> slot !in starts + Slots(0, start)
    ensures starts + Slots(0, start) + Slots(start + 1, next) == starts + Slots(0, next)
  {
    SlotMembers(0, start);
    SlotMembers(start + 1, next);
    SlotMembers(0, next);
  }

  lemma GrowBoth(a: seq<PaneGridSplit>, b: seq<PaneGridSplit>, present: set<nat>, middle: set<nat>, grown: set<nat>)
    requires Grow(a, present) == Some(middle) && Grow(b, middle) == Some(grown)
    ensures Grow(a + b, present) == Some(grown)
  {
    GrowConcat(a, b, present);
  }

  /** What the splits of one row add to slots that hold every row start and the rows before it. */
  lemma RowGrows(start: nat, size: nat, starts: set<nat>)
    requires size >= 1 && start in starts && forall slot :: slot in starts ==> slot <= start || slot >= start + size
    ensures Grow(ColumnSplits(start, size, size - 1), starts + Slots(0, start)) == Some(starts + Slots(0, start + size))
  {
    OpenRow(starts, start, start + size);
    ColumnsGrow(start, size, size - 1, starts + Slots(0, start));
  }

  lemma RowGrowsAmongStarts(sizes: seq<nat>, row: nat)
    requires Filled(sizes) && row < |sizes|
    ensures var starts := RowStarts(sizes, |sizes| - 1);
      Grow(ColumnSplits(Start(sizes, row), sizes[row], sizes[row] - 1), starts + Slots(0, Start(sizes, row)))
      == Some(starts + Slots(0, Start(sizes, row + 1)))
  {
    var start, size := Start(sizes, row), sizes[row];
    RowsAreApart(sizes, |sizes| - 1, row);
    assert Start(sizes, row + 1) == start + size;
    RowGrows(start, size, RowStarts(sizes, |sizes| - 1));
  }

  /** One more row's columns, behind those of the rows before it. */
  lemma OneMoreRowGrows(sizes: seq<nat>, row: nat, starts: set<nat>)
    requires Filled(sizes) && row < |sizes| && starts == RowStarts(sizes, |sizes| - 1)
    requires Grow(AllColumnSplits(sizes, row), starts) == Some(starts + Slots(0, Start(sizes, row)))
    ensures Grow(AllColumnSplits(sizes, row + 1), starts) == Some(starts + Slots(0, Start(sizes, row + 1)))
  {
    RowGrowsAmongStarts(sizes, row);
    GrowBoth(AllColumnSplits(sizes, row), ColumnSplits(Start(sizes, row), sizes[row], sizes[row] - 1), starts,
             starts + Slots(0, Start(sizes, row)), starts + Slots(0, Start(sizes, row + 1)));
  }

  lemma {:induction false} AllColumnsGrow(sizes: seq<nat>, rows: nat, starts: set<nat>)
    requires Filled(sizes) && rows <= |sizes| && starts == RowStarts(sizes, |sizes| - 1)
    ensures Grow(AllColumnSplits(sizes, rows), starts) == Some(starts + Slots(0, Start(sizes, rows)))
  {
    if rows == 0 {
      assert starts + {} == starts;
    } else {
      AllColumnsGrow(sizes, rows - 1, starts);
      OneMoreRowGrows(sizes, rows - 1, starts);
    }
  }

  lemma StartsAreSlots(starts: set<nat>, n: nat)
    requires forall slot :: slot in starts ==> slot < n
    ensures starts + Slots(0, n) == Slots(0, n)
  {
    SlotMembers(0, n);
  }

  /** The row and column construction introduces every slot but the first exactly once, its parent already present. */
  lemma GridGrows(sizes: seq<nat>)
    requires Filled(sizes)
    ensures Grow(GridSplits(sizes), {0}) == Some(Slots(0, Start(sizes, |sizes|)))
  {
    var starts := RowStarts(sizes, |sizes| - 1);
    RowsGrow(sizes, |sizes| - 1);
    AllColumnsGrow(sizes, |sizes|, starts);
    RowStartsBelow(sizes, |sizes| - 1);
    StartsAreSlots(starts, Start(sizes, |sizes|));
    GrowBoth(RowSplits(sizes, |sizes| - 1), AllColumnSplits(sizes, |sizes|), {0}, starts,
      Slots(0, Start(sizes, |sizes|)));
  }

  lemma {:induction false} StableGrows(n: nat)
    requires 1 <= n <= 6
    ensures Grow(STABLE_SPLITS[..n - 1], {0}) == Some(Slots(0, n))
  {
    if n == 1 {
      assert Slots(0, 1) == Slots(0, 0) + {0} == {0};
    } else {
      StableGrows(n - 1);
      SlotMembers(0, n - 1);
      assert STABLE_SPLITS[..n - 1] == STABLE_SPLITS[..n - 2] + [STABLE_SPLITS[n - 2]];
      GrowSnoc(STABLE_SPLITS[..n - 2], STABLE_SPLITS[n - 2], {0}, Slots(0, n - 1));
    }
  }

  /** The splits of every returned plan introduce slots 1 to n - 1 exactly once, each from a slot already there. */
  lemma PlannedSplitsGrow(n: nat)
    requires n >= 1
    ensures Grow(PlannedSplits(n), {0}) == Some(Slots(0, n))
  {
    if n <= 6 {
      StableGrows(n);
    } else {
      RowSizesFilled(n);
      RowsShareEvenly(n);
      GridGrows(RowSizes(n));
    }
  }

  // ---------------------------------------------------------------- geometry

  datatype Rect = Rect(x: real, y: real, w: real, h: real)

  type Layout = map<nat, Rect>

  /** The parent keeps its share of the rectangle, at the top or the left. */
  function Split(layout: Layout, split: PaneGridSplit): Layout {
    if split.parentSlot !in layout then layout
    else
      var p := layout[split.parentSlot];
      match split.direction
      case Right =>
        layout[split.parentSlot := p.(w := p.w * split.ratio)]
              [split.newSlot := Rect(p.x + p.w * split.ratio, p.y, p.w - p.w * split.ratio, p.h)]
      case Down =>
        layout[split.parentSlot := p.(h := p.h * split.ratio)]
              [split.newSlot := Rect(p.x, p.y + p.h * split.ratio, p.w, p.h - p.h * split.ratio)]
  }

  function Lay(splits: seq<PaneGridSplit>, layout: Layout): Layout {
    if splits == [] then layout else Split(Lay(splits[..|splits| - 1], layout), splits[|splits| - 1])
  }

  lemma {:induction false} LayConcat(a: seq<PaneGridSplit>, b: seq<PaneGridSplit>, layout: Layout)
    ensures Lay(a + b, layout) == Lay(b, Lay(a, layout))
  {
    if b == [] {
      assert a + b == a;
    } else {
      LayConcat(a, b[..|b| - 1], layout);
      assert (a + b)[..|a + b| - 1] == a + b[..|b| - 1];
    }
  }

  lemma LaySnoc(splits: seq<PaneGridSplit>, last: PaneGridSplit, layout: Layout)
    ensures Lay(splits + [last], layout) == Split(Lay(splits, layout), last)
  {
    assert (splits + [last])[..|splits|] == splits;
  }

  /** k units, added up. */
  ghost function Times(k: nat, unit: real): real {
    if k == 0 then 0.0 else Times(k - 1, unit) + unit
  }

  lemma {:induction false} TimesIsProduct(k: nat, unit: real)
    ensures Times(k, unit) == k as real * unit
  {
    if k > 0 {
      TimesIsProduct(k - 1, unit);
    }
  }

  lemma ShareOf(parts: nat, unit: real)
    requires parts >= 1
    ensures Times(parts, unit) * Share(parts) == unit
  {
    TimesIsProduct(parts, unit);
  }

  ghost predicate Placed(layout: Layout, slot: nat, rect: Rect) {
    slot in layout && layout[slot] == rect
  }

  ghost function RowRect(area: Rect, row: nat, unit: real): Rect {
    Rect(area.x, area.y + Times(row, unit), area.w, unit)
  }

  /** Rows before k have their final height; row k holds all that is left. */
  ghost predicate RowsPlaced(layout: Layout, sizes: seq<nat>, k: nat, area: Rect, unit: real)
    requires k < |sizes|
  {
    && (forall j: nat :: j < k ==> Placed(layout, Start(sizes, j), RowRect(area, j, unit)))
    && Placed(layout, Start(sizes, k), RowRect(area, k, unit).(h := Times(|sizes| - k, unit)))
  }

  /** Cutting a row in two leaves the other slots alone. */
  lemma CutRow(layout: Layout, parent: nat, slot: nat, rect: Rect, parts: nat, unit: real)
    requires parts >= 2 && parent != slot && Placed(layout, parent, rect.(h := Times(parts, unit)))
    ensures var after := Split(layout, PaneGridSplit(parent, slot, Down, Share(parts)));
      && Placed(after, parent, rect.(h := unit))
      && Placed(after, slot, rect.(y := rect.y + unit, h := Times(parts - 1, unit)))
      && forall other :: other in layout && other != parent && other != slot ==> Placed(after, other, layout[other])
  {
    ShareOf(parts, unit);
  }

  lemma {:induction false} EarlierStarts(sizes: seq<nat>, k: nat)
    requires Filled(sizes) && k <= |sizes|
    ensures forall j: nat :: j < k ==> Start(sizes, j) < Start(sizes, k)
  {
    if k > 0 {
      EarlierStarts(sizes, k - 1);
    }
  }

  lemma NextRow(layout: Layout, sizes: seq<nat>, k: nat, area: Rect, unit: real)
    requires Filled(sizes) && 1 <= k < |sizes| && RowsPlaced(layout, sizes, k - 1, area, unit)
    ensures RowsPlaced(Split(layout, PaneGridSplit(Start(sizes, k - 1), Start(sizes, k), Down, Share(|sizes| - k + 1))),
                       sizes, k, area, unit)
  {
    EarlierStarts(sizes, k - 1);
    EarlierStarts(sizes, k);
    CutRow(layout, Start(sizes, k - 1), Start(sizes, k), RowRect(area, k - 1, unit), |sizes| - k + 1, unit);
  }

  lemma {:induction false} RowsAreEqual(sizes: seq<nat>, k: nat, area: Rect, unit: real)
    requires Filled(sizes) && k < |sizes| && area.h == Times(|sizes|, unit)
    ensures RowsPlaced(Lay(RowSplits(sizes, k), map[0 := area]), sizes, k, area, unit)
  {
    if k > 0 {
      RowsAreEqual(sizes, k - 1, area, unit);
      NextRow(Lay(RowSplits(sizes, k - 1), map[0 := area]), sizes, k, area, unit);
      LaySnoc(RowSplits(sizes, k - 1),
              PaneGridSplit(Start(sizes, k - 1), Start(sizes, k), Down, Share(|sizes| - k + 1)), map[0 := area]);
    }
  }

  ghost function ColumnRect(row: Rect, column: nat, unit: real): Rect {
    Rect(row.x + Times(column, unit), row.y, unit, row.h)
  }

  ghost predicate ColumnAt(layout: Layout, slot: nat, start: nat, row: Rect, unit: real) {
    start <= slot && Placed(layout, slot, ColumnRect(row, slot - start, unit))
  }

  /** Columns before k have their final width, column k holds all that is left, and no other slot moved. */
  ghost predicate ColumnsPlaced(before: Layout, layout: Layout, start: nat, size: nat, k: nat, row: Rect, unit: real)
    requires k < size
  {
    && (forall slot: nat :: start <= slot < start + k ==> ColumnAt(layout, slot, start, row, unit))
    && Placed(layout, start + k, ColumnRect(row, k, unit).(w := Times(size - k, unit)))
    && forall slot: nat :: slot in before && !(start <= slot <= start + k) ==> Placed(layout, slot, before[slot])
  }

  lemma CutColumn(layout: Layout, parent: nat, slot: nat, rect: Rect, parts: nat, unit: real)
    requires parts >= 2 && parent != slot && Placed(layout, parent, rect.(w := Times(parts, unit)))
    ensures var after := Split(layout, PaneGridSplit(parent, slot, Right, Share(parts)));
      && Placed(after, parent, rect.(w := unit))
      && Placed(after, slot, rect.(x := rect.x + unit, w := Times(parts - 1, unit)))
      && forall other :: other in layout && other != parent && other != slot ==> Placed(after, other, layout[other])
  {
    ShareOf(parts, unit);
  }

  lemma NextColumn(before: Layout, layout: Layout, start: nat, size: nat, k: nat, row: Rect, unit: real)
    requires 1 <= k < size && ColumnsPlaced(before, layout, start, size, k - 1, row, unit)
    ensures ColumnsPlaced(before, Split(layout, PaneGridSplit(start + k - 1, start + k, Right, Share(size - k + 1))),
                          start, size, k, row, unit)
  {
    var after := Split(layout, PaneGridSplit(start + k - 1, start + k, Right, Share(size - k + 1)));
    CutColumn(layout, start + k - 1, start + k, ColumnRect(row, k - 1, unit), size - k + 1, unit);
    forall slot: nat | start <= slot < start + k ensures ColumnAt(after, slot, start, row, unit) {
      if slot < start + k - 1 {
        assert ColumnAt(layout, slot, start, row, unit);
      }
    }
    forall slot: nat | slot in before && !(start <= slot <= start + k) ensures Placed(after, slot, before[slot]) {
      assert Placed(layout, slot, before[slot]);
    }
  }

  lemma {:induction false} ColumnsAreEqual(before: Layout, start: nat, size: nat, k: nat, unit: real)
    requires k < size && start in before && before[start].w == Times(size, unit)
    ensures ColumnsPlaced(before, Lay(ColumnSplits(start, size, k), before), start, size, k, before[start], unit)
  {
    if k > 0 {
      ColumnsAreEqual(before, start, size, k - 1, unit);
      NextColumn(before, Lay(ColumnSplits(start, size, k - 1), before), start, size, k, before[start], unit);
      LaySnoc(ColumnSplits(start, size, k - 1), PaneGridSplit(start + k - 1, start + k, Right, Share(size - k + 1)),
        before);
    }
  }

  // ---------------------------------------------------------------- whole grids

  function RowHeight(sizes: seq<nat>, area: Rect): real
    requires sizes != []
  {
    area.h / |sizes| as real
  }

  function ColumnWidth(sizes: seq<nat>, area: Rect, row: nat): real
    requires Filled(sizes) && row < |sizes|
  {
    area.w / sizes[row] as real
  }

  /** Where the pane in a given row and column belongs: rows of equal height, columns of equal width. */
  ghost function CellRect(sizes: seq<nat>, area: Rect, row: nat, column: nat): Rect
    requires Filled(sizes) && row < |sizes|
  {
    ColumnRect(RowRect(area, row, RowHeight(sizes, area)), column, ColumnWidth(sizes, area, row))
  }

  ghost predicate RowDone(layout: Layout, sizes: seq<nat>, area: Rect, row: nat)
    requires Filled(sizes) && row < |sizes|
  {
    forall slot: nat :: Start(sizes, row) <= slot < Start(sizes, row + 1) ==>
      ColumnAt(layout, slot, Start(sizes, row), RowRect(area, row, RowHeight(sizes, area)),
        ColumnWidth(sizes, area, row))
  }

  ghost predicate RowWaits(layout: Layout, sizes: seq<nat>, area: Rect, row: nat)
    requires Filled(sizes) && row < |sizes|
  {
    Placed(layout, Start(sizes, row), RowRect(area, row, RowHeight(sizes, area)))
  }

  ghost predicate GridUpTo(layout: Layout, sizes: seq<nat>, area: Rect, rows: nat)
    requires Filled(sizes) && rows <= |sizes|
  {
    && (forall row: nat :: row < rows ==> RowDone(layout, sizes, area, row))
    && forall row: nat :: rows <= row < |sizes| ==> RowWaits(layout, sizes, area, row)
  }

  lemma DivideUp(total: real, parts: nat)
    requires parts >= 1
    ensures Times(parts, total / parts as real) == total
  {
    TimesIsProduct(parts, total / parts as real);
  }

  lemma OtherRowsStay(before: Layout, after: Layout, sizes: seq<nat>, area: Rect, row: nat, other: nat)
    requires Filled(sizes) && row < |sizes| && other < |sizes| && other != row
    requires forall slot: nat :: slot in before && !(Start(sizes, row) <= slot < Start(sizes, row + 1)) ==>
               Placed(after, slot, before[slot])
    ensures RowDone(before, sizes, area, other) ==> RowDone(after, sizes, area, other)
    ensures RowWaits(before, sizes, area, other) ==> RowWaits(after, sizes, area, other)
  {
    if other < row {
      StartsIncrease(sizes, other, row);
    } else {
      StartsBefore(sizes, row + 1, other);
    }
    if RowDone(before, sizes, area, other) {
      var rect, width := RowRect(area, other, RowHeight(sizes, area)), ColumnWidth(sizes, area, other);
      forall slot: nat | Start(sizes, other) <= slot < Start(sizes, other + 1)
        ensures ColumnAt(after, slot, Start(sizes, other), rect, width)
      {
        assert ColumnAt(before, slot, Start(sizes, other), rect, width);
      }
    }
  }

  lemma RowFinished(before: Layout, sizes: seq<nat>, area: Rect, row: nat)
    requires Filled(sizes) && row < |sizes| && RowWaits(before, sizes, area, row)
    ensures var after := Lay(ColumnSplits(Start(sizes, row), sizes[row], sizes[row] - 1), before);
      && RowDone(after, sizes, area, row)
      && forall slot: nat :: slot in before && !(Start(sizes, row) <= slot < Start(sizes, row + 1)) ==>
           Placed(after, slot, before[slot])
  {
    var start, size := Start(sizes, row), sizes[row];
    var unit := ColumnWidth(sizes, area, row);
    DivideUp(area.w, size);
    ColumnsAreEqual(before, start, size, size - 1, unit);
    assert Times(1, unit) == unit;
    var after := Lay(ColumnSplits(start, size, size - 1), before);
    assert ColumnAt(after, start + (size - 1), start, before[start], unit);
  }

  lemma ColumnsOfRow(before: Layout, sizes: seq<nat>, area: Rect, row: nat)
    requires Filled(sizes) && row < |sizes| && GridUpTo(before, sizes, area, row)
    ensures GridUpTo(Lay(ColumnSplits(Start(sizes, row), sizes[row], sizes[row] - 1), before), sizes, area, row + 1)
  {
    assert RowWaits(before, sizes, area, row);
    RowFinished(before, sizes, area, row);
    var after := Lay(ColumnSplits(Start(sizes, row), sizes[row], sizes[row] - 1), before);
    forall other: nat | other < row ensures RowDone(after, sizes, area, other) {
      OtherRowsStay(before, after, sizes, area, row, other);
    }
    forall other: nat | row < other < |sizes| ensures RowWaits(after, sizes, area, other) {
      OtherRowsStay(before, after, sizes, area, row, other);
    }
  }

  lemma StartsBefore(sizes: seq<nat>, i: nat, j: nat)
    requires Filled(sizes) && i <= j <= |sizes|
    ensures Start(sizes, i) <= Start(sizes, j)
  {
    if i < j {
      StartsIncrease(sizes, i, j);
    }
  }

  lemma {:induction false} ColumnsOfRows(before: Layout, sizes: seq<nat>, area: Rect, rows: nat)
    requires Filled(sizes) && rows <= |sizes| && GridUpTo(before, sizes, area, 0)
    ensures GridUpTo(Lay(AllColumnSplits(sizes, rows), before), sizes, area, rows)
  {
    if rows > 0 {
      ColumnsOfRows(before, sizes, area, rows - 1);
      var init, columns := AllColumnSplits(sizes, rows - 1),
        ColumnSplits(Start(sizes, rows - 1), sizes[rows - 1], sizes[rows - 1] - 1);
      ColumnsOfRow(Lay(init, before), sizes, area, rows - 1);
      LayConcat(init, columns, before);
    }
  }

  /** On any rectangle the row and column construction gives rows of equal height, each cut into equal widths. */
  lemma GridIsEven(sizes: seq<nat>, area: Rect, row: nat, column: nat)
    requires Filled(sizes) && row < |sizes| && column < sizes[row]
    ensures Placed(Lay(GridSplits(sizes), map[0 := area]), Start(sizes, row) + column,
      CellRect(sizes, area, row, column))
  {
    var unit := RowHeight(sizes, area);
    DivideUp(area.h, |sizes|);
    RowsAreEqual(sizes, |sizes| - 1, area, unit);
    var rows := Lay(RowSplits(sizes, |sizes| - 1), map[0 := area]);
    assert Times(1, unit) == unit;
    assert GridUpTo(rows, sizes, area, 0);
    ColumnsOfRows(rows, sizes, area, |sizes|);
    LayConcat(RowSplits(sizes, |sizes| - 1), AllColumnSplits(sizes, |sizes|), map[0 := area]);
    var done := Lay(AllColumnSplits(sizes, |sizes|), rows);
    assert RowDone(done, sizes, area, row);
    assert ColumnAt(done, Start(sizes, row) + column, Start(sizes, row), RowRect(area, row, unit),
      ColumnWidth(sizes, area, row));
  }

  // ---------------------------------------------------------------- the plan against its own cells

  ghost predicate CellOf(sizes: seq<nat>, rows: nat, cell: PaneGridCell)
    requires rows <= |sizes|
  {
    cell.row < rows && cell.column < sizes[cell.row] && cell.slot == Start(sizes, cell.row) + cell.column
  }

  lemma {:induction false} RowCellsMembers(start: nat, row: nat, k: nat)
    ensures forall cell :: cell in RowCells(start, row, k) <==>
                           cell.row == row && cell.column < k && cell.slot == start + cell.column
  {
    if k > 0 {
      RowCellsMembers(start, row, k - 1);
    }
  }

  lemma {:induction false} AllCellsMembers(sizes: seq<nat>, rows: nat)
    requires rows <= |sizes|
    ensures forall cell :: cell in AllCells(sizes, rows) <==> CellOf(sizes, rows, cell)
  {
    if rows > 0 {
      AllCellsMembers(sizes, rows - 1);
      RowCellsMembers(Start(sizes, rows - 1), rows - 1, sizes[rows - 1]);
    }
  }

  ghost predicate CellPlaced(layout: Layout, sizes: seq<nat>, area: Rect, cell: PaneGridCell)
    requires Filled(sizes)
  {
    cell.row < |sizes| && Placed(layout, cell.slot, CellRect(sizes, area, cell.row, cell.column))
  }

  /** Carrying out the plan's splits puts every pane where the plan's cells say it is. */
  ghost predicate MatchesCells(n: nat, area: Rect)
    requires n >= 1
  {
    RowSizesFilled(n);
    var sizes, layout := RowSizes(n), Lay(PlannedSplits(n), map[0 := area]);
    forall cell :: cell in AllCells(sizes, RowCount(n)) ==> CellPlaced(layout, sizes, area, cell)
  }

  lemma GridPlacesCells(sizes: seq<nat>, area: Rect)
    requires Filled(sizes)
    ensures var layout := Lay(GridSplits(sizes), map[0 := area]);
      forall cell :: cell in AllCells(sizes, |sizes|) ==> CellPlaced(layout, sizes, area, cell)
  {
    AllCellsMembers(sizes, |sizes|);
    forall cell | cell in AllCells(sizes, |sizes|)
      ensures CellPlaced(Lay(GridSplits(sizes), map[0 := area]), sizes, area, cell)
    {
      assert CellOf(sizes, |sizes|, cell);
      GridIsEven(sizes, area, cell.row, cell.column);
    }
  }

  lemma ConstructionMatches(n: nat, area: Rect)
    requires n >= 1 && Filled(RowSizes(n)) && PlannedSplits(n) == GridSplits(RowSizes(n))
    ensures MatchesCells(n, area)
  {
    GridPlacesCells(RowSizes(n), area);
    assert |RowSizes(n)| == RowCount(n);
  }

  lemma TwoOrFewer(n: nat)
    requires 1 <= n <= 2
    ensures Filled(RowSizes(n)) && PlannedSplits(n) == GridSplits(RowSizes(n))
  {
    RowSizesFilled(n);
    assert ColumnCount(n) == n && RowCount(n) == 1 && RowSizes(n) == [n];
    var sizes := [n];
    assert RowSplits(sizes, 0) == [] && AllColumnSplits(sizes, 1) == AllColumnSplits(sizes, 0)
      + ColumnSplits(0, n, n - 1);
    if n == 2 {
      assert ColumnSplits(0, 2, 1) == ColumnSplits(0, 2, 0) + [PaneGridSplit(0, 1, Right, Share(2))];
      assert Share(2) == 0.5;
    }
  }

  /** The first two panes of the stable layouts, once there are three panes or more. */
  lemma {:induction false} StableWidths(n: nat, area: Rect)
    requires 3 <= n <= 6
    ensures var layout := Lay(STABLE_SPLITS[..n - 1], map[0 := area]);
      && Placed(layout, 0, Rect(area.x, area.y, area.w * 0.5, area.h * 0.5))
      && (n == 3 ==> Placed(layout, 1, Rect(area.x + area.w * 0.5, area.y, area.w - area.w * 0.5, area.h)))
      && (n == 4 ==> 1 in layout && layout[1].w == (area.w - area.w * 0.5) * 0.5)
  {
    assert STABLE_SPLITS[..n - 1][..n - 2] == STABLE_SPLITS[..n - 2];
    if n == 3 {
      assert STABLE_SPLITS[..1][..0] == [];
      assert Lay(STABLE_SPLITS[..1], map[0 := area]) == Split(map[0 := area], STABLE_SPLITS[0]);
    } else {
      StableWidths(n - 1, area);
    }
  }

  /** The part of an area from and to the given halves and quarters. */
  ghost function Part(area: Rect, x: real, y: real, w: real, h: real): Rect {
    Rect(area.x + area.w * x, area.y + area.h * y, area.w * w, area.h * h)
  }

  lemma StableUpToFour(area: Rect)
    ensures StableLayout(area, 2) == map[0 := Part(area, 0.0, 0.0, 0.5, 1.0), 1 := Part(area, 0.5, 0.0, 0.5, 1.0)]
    ensures StableLayout(area, 3) == map[0 := Part(area, 0.0, 0.0, 0.5, 0.5), 1 := Part(area, 0.5, 0.0, 0.5, 1.0),
                                         2 := Part(area, 0.0, 0.5, 0.5, 0.5)]
    ensures StableLayout(area, 4) == map[0 := Part(area, 0.0, 0.0, 0.5, 0.5), 1 := Part(area, 0.5, 0.0, 0.25, 1.0),
                                         2 := Part(area, 0.0, 0.5, 0.5, 0.5), 3 := Part(area, 0.75, 0.0, 0.25, 1.0)]
  {
    assert STABLE_SPLITS[..1][..0] == [];
    assert StableLayout(area, 1) == map[0 := area];
    StableStep(area, 2);
    StableStep(area, 3);
    StableStep(area, 4);
  }

  /**
   On any area the stable splits give two, three, four, five and six panes these parts: the left half is
   cut once, into halves; the right half into quarters of the area, side by side and then below each other.
   */
  lemma StableLayouts(area: Rect)
    ensures StableLayout(area, 2) == map[0 := Part(area, 0.0, 0.0, 0.5, 1.0), 1 := Part(area, 0.5, 0.0, 0.5, 1.0)]
    ensures StableLayout(area, 3) == map[0 := Part(area, 0.0, 0.0, 0.5, 0.5), 1 := Part(area, 0.5, 0.0, 0.5, 1.0),
                                         2 := Part(area, 0.0, 0.5, 0.5, 0.5)]
    ensures StableLayout(area, 4) == map[0 := Part(area, 0.0, 0.0, 0.5, 0.5), 1 := Part(area, 0.5, 0.0, 0.25, 1.0),
                                         2 := Part(area, 0.0, 0.5, 0.5, 0.5), 3 := Part(area, 0.75, 0.0, 0.25, 1.0)]
    ensures StableLayout(area, 5) == map[0 := Part(area, 0.0, 0.0, 0.5, 0.5), 1 := Part(area, 0.5, 0.0, 0.25, 0.5),
                                         2 := Part(area, 0.0, 0.5, 0.5, 0.5), 3 := Part(area, 0.75, 0.0, 0.25, 1.0),
                                         4 := Part(area, 0.5, 0.5, 0.25, 0.5)]
    ensures StableLayout(area, 6) == map[0 := Part(area, 0.0, 0.0, 0.5, 0.5), 1 := Part(area, 0.5, 0.0, 0.25, 0.5),
                                         2 := Part(area, 0.0, 0.5, 0.5, 0.5), 3 := Part(area, 0.75, 0.0, 0.25, 0.5),
                                         4 := Part(area, 0.5, 0.5, 0.25, 0.5), 5 := Part(area, 0.75, 0.5, 0.25, 0.5)]
  {
    StableUpToFour(area);
    StableStep(area, 5);
    StableStep(area, 6);
  }

  ghost function StableLayout(area: Rect, n: nat): Layout
    requires 1 <= n <= 6
  {
    Lay(STABLE_SPLITS[..n - 1], map[0 := area])
  }

  lemma StableStep(area: Rect, n: nat)
    requires 2 <= n <= 6
    ensures StableLayout(area, n) == Split(StableLayout(area, n - 1), STABLE_SPLITS[n - 2])
  {
    assert STABLE_SPLITS[..n - 1][..n - 2] == STABLE_SPLITS[..n - 2];
  }

  lemma SmallSizes(n: nat)
    requires 3 <= n <= 6
    ensures RowCount(n) == 2
    ensures RowSizes(n) == if n == 3 then [2, 1] else if n == 4 then [2, 2] else if n == 5 then [3, 2] else [3, 3]
  {
    assert ColumnCount(n) == if n <= 4 then 2 else 3;
    if n == 3 {
      assert RowSizes(3) == EvenSizes(2, 1, 1);
    } else if n == 4 {
      assert RowSizes(4) == EvenSizes(2, 2, 0);
    } else if n == 5 {
      assert RowSizes(5) == EvenSizes(2, 2, 1);
    } else {
      assert RowSizes(6) == EvenSizes(2, 3, 0);
    }
  }

  /** A pane the plan and the stable layout put in rectangles of different size. */
  lemma FirstRowDiffers(sizes: seq<nat>, n: nat, area: Rect) returns (cell: PaneGridCell)
    requires 3 <= n <= 6 && area.w > 0.0 && area.h > 0.0
    requires sizes == if n == 3 then [2, 1] else if n == 4 then [2, 2] else if n == 5 then [3, 2] else [3, 3]
    ensures Filled(sizes) && CellOf(sizes, 2, cell)
    ensures !Placed(Lay(STABLE_SPLITS[..n - 1], map[0 := area]), cell.slot,
                    CellRect(sizes, area, cell.row, cell.column))
  {
    StableWidths(n, area);
    cell := if n <= 4 then PaneGridCell(1, 0, 1) else PaneGridCell(0, 0, 0);
    assert Start(sizes, 0) == 0;
    var rect := CellRect(sizes, area, cell.row, cell.column);
    assert rect.w == area.w / sizes[0] as real && rect.h == area.h / 2.0;
  }

  lemma ThreeToSixDiffer(n: nat, area: Rect)
    requires 3 <= n <= 6 && area.w > 0.0 && area.h > 0.0
    ensures !MatchesCells(n, area)
  {
    SmallSizes(n);
    AllCellsMembers(RowSizes(n), 2);
    var cell := FirstRowDiffers(RowSizes(n), n, area);
  }

  /**
   The stable splits of three to six panes do not build the rows and columns the
   same plan describes; every other plan builds exactly its own cells.
   */
  lemma PlanMatchesItsCellsIff(n: nat, area: Rect)
    requires n >= 1 && area.w > 0.0 && area.h > 0.0
    ensures MatchesCells(n, area) <==> n < 3 || n > 6
  {
    if n < 3 {
      TwoOrFewer(n);
      ConstructionMatches(n, area);
    } else if n > 6 {
      RowSizesFilled(n);
      ConstructionMatches(n, area);
    } else {
      ThreeToSixDiffer(n, area);
    }
  }
}
