/**
 Materializing a pane grid: filling the missing slots by splits, and checking
 that the panes Herdr reports tile the tab exactly.
 */
module PaneLayout {
  import opened Wrappers
  import opened PaneGrid

  // ---------------------------------------------------------------- filling slots

  datatype FillError = MissingParent(slot: nat) | NoAssignment(slot: nat) | SplitRefused(slot: nat)

  type Panes = map<nat, string>

  /** Herdr's answer to splitting a pane: the new pane, or nothing when it fails or lacks ownership evidence. */
  type Splitter = (string, PaneGridSplit) -> Option<string>

  /** The panes after the given splits, and how many panes were created on the way. */
  function Fill(splits: seq<PaneGridSplit>, owned: Panes, assignments: nat, splitter: Splitter)
    : Result<(Panes, nat), FillError>
  {
    if splits == [] then Ok((owned, 0))
    else
      var before :- Fill(splits[..|splits| - 1], owned, assignments, splitter);
      FillOne(splits[|splits| - 1], before.0, before.1, assignments, splitter)
  }

  function FillOne(split: PaneGridSplit, panes: Panes, created: nat, assignments: nat, splitter: Splitter)
    : Result<(Panes, nat), FillError>
  {
    if split.parentSlot !in panes then Err(MissingParent(split.parentSlot))
    else if split.newSlot in panes then Ok((panes, created))
    else if split.newSlot >= assignments then Err(NoAssignment(split.newSlot))
    else
      match splitter(panes[split.parentSlot], split)
      case None => Err(SplitRefused(split.newSlot))
      case Some(pane) => Ok((panes[split.newSlot := pane], created + 1))
  }

  lemma {:induction false} FillStops(splits: seq<PaneGridSplit>, owned: Panes, assignments: nat, splitter: Splitter,
                                     n: nat)
    requires n <= |splits| && Fill(splits[..n], owned, assignments, splitter).Err?
    ensures Fill(splits, owned, assignments, splitter) == Fill(splits[..n], owned, assignments, splitter)
  {
    if n < |splits| {
      assert splits[..|splits| - 1][..n] == splits[..n];
      FillStops(splits[..|splits| - 1], owned, assignments, splitter, n);
    } else {
      assert splits[..n] == splits;
    }
  }

  method FillSlots(splits: seq<PaneGridSplit>, owned: Panes, assignments: nat, splitter: Splitter)
    returns (r: Result<Panes, FillError>, created: nat)
    ensures match Fill(splits, owned, assignments, splitter)
            case Err(error) => r == Err(error)
            case Ok(filled) => r == Ok(filled.0) && created == filled.1
  {
    var panesBySlot := owned;
    created := 0;
    for i := 0 to |splits|
      invariant Fill(splits[..i], owned, assignments, splitter) == Ok((panesBySlot, created))
    {
      assert splits[..i + 1][..i] == splits[..i];
      var split := splits[i];
      if split.parentSlot !in panesBySlot {
        FillStops(splits, owned, assignments, splitter, i + 1);
        return Err(MissingParent(split.parentSlot)), created;
      }
      if split.newSlot !in panesBySlot {
        if split.newSlot >= assignments {
          FillStops(splits, owned, assignments, splitter, i + 1);
          return Err(NoAssignment(split.newSlot)), created;
        }
        var pane := splitter(panesBySlot[split.parentSlot], split);
        if pane.None? {
          FillStops(splits, owned, assignments, splitter, i + 1);
          return Err(SplitRefused(split.newSlot)), created;
        }
        panesBySlot := panesBySlot[split.newSlot := pane.value];
        created := created + 1;
      }
    }
    assert splits[..|splits|] == splits;
    r := Ok(panesBySlot);
  }

  ghost predicate Obliges(splits: seq<PaneGridSplit>, splitter: Splitter) {
    forall pane, split :: split in splits ==> splitter(pane, split).Some?
  }

  /** Slots that are present are the owned ones and those the splits have introduced so far. */
  ghost predicate Followed(filled: (Panes, nat), owned: Panes, grown: set<nat>) {
    && filled.0.Keys == owned.Keys + grown
    && (forall slot :: slot in owned ==> slot in filled.0 && filled.0[slot] == owned[slot])
    && filled.1 == |grown - owned.Keys|
  }

  /** A slot that is already owned changes nothing. */
  lemma SkipFollows(slot: nat, filled: (Panes, nat), owned: Panes, grown: set<nat>)
    requires Followed(filled, owned, grown) && slot in filled.0 && slot !in grown
    ensures Followed(filled, owned, grown + {slot})
  {
    assert slot in owned.Keys + grown;
    MissingGrows(owned.Keys, grown, slot);
    assert owned.Keys + (grown + {slot}) == owned.Keys + grown;
  }

  /** A missing slot takes one new pane. */
  lemma PaneFollows(slot: nat, pane: string, filled: (Panes, nat), owned: Panes, grown: set<nat>)
    requires Followed(filled, owned, grown) && slot !in filled.0 && slot !in grown
    ensures Followed((filled.0[slot := pane], filled.1 + 1), owned, grown + {slot})
  {
    assert slot !in owned.Keys + grown;
    MissingGrows(owned.Keys, grown, slot);
    UpdatedKeys(filled.0, slot, pane, owned.Keys, grown);
  }

  lemma UpdatedKeys(panes: Panes, slot: nat, pane: string, owned: set<nat>, grown: set<nat>)
    requires panes.Keys == owned + grown
    ensures panes[slot := pane].Keys == owned + (grown + {slot})
  {
    assert panes[slot := pane].Keys == panes.Keys + {slot};
  }

  lemma FillOneFollows(split: PaneGridSplit, filled: (Panes, nat), owned: Panes, grown: set<nat>, assignments: nat,
                       splitter: Splitter)
    requires Followed(filled, owned, grown) && split.parentSlot in grown && split.newSlot !in grown
    requires split.newSlot < assignments && forall pane :: splitter(pane, split).Some?
    ensures var next := FillOne(split, filled.0, filled.1, assignments, splitter);
      next.Ok? && Followed(next.value, owned, grown + {split.newSlot})
  {
    assert split.parentSlot in filled.0.Keys;
    if split.newSlot in filled.0 {
      SkipFollows(split.newSlot, filled, owned, grown);
    } else {
      PaneFollows(split.newSlot, splitter(filled.0[split.parentSlot], split).value, filled, owned, grown);
    }
  }

  lemma MissingGrows(owned: set<nat>, grown: set<nat>, slot: nat)
    requires slot !in grown
    ensures |grown + {slot} - owned| == |grown - owned| + if slot in owned then 0 else 1
  {
    if slot in owned {
      assert grown + {slot} - owned == grown - owned;
    } else {
      assert grown + {slot} - owned == (grown - owned) + {slot};
    }
  }

  lemma {:induction false} FillFollowsGrowth(splits: seq<PaneGridSplit>, owned: Panes, assignments: nat,
                                             splitter: Splitter)
    requires 0 in owned && Grow(splits, {0}).Some? && Grow(splits, {0}).value <= Slots(0, assignments)
    requires Obliges(splits, splitter)
    ensures var filled := Fill(splits, owned, assignments, splitter);
      filled.Ok? && Followed(filled.value, owned, Grow(splits, {0}).value)
  {
    if splits == [] {
      assert {0} - owned.Keys == {};
      assert owned.Keys + {0} == owned.Keys;
    } else {
      var init, last := splits[..|splits| - 1], splits[|splits| - 1];
      assert last in splits && forall split :: split in init ==> split in splits;
      FillFollowsGrowth(init, owned, assignments, splitter);
      var before := Grow(init, {0}).value;
      assert last.newSlot in before + {last.newSlot};
      SlotMembers(0, assignments);
      FillOneFollows(last, Fill(init, owned, assignments, splitter).value, owned, before, assignments, splitter);
    }
  }

  lemma {:induction false} SlotCount(n: nat)
    ensures |Slots(0, n)| == n
  {
    if n > 0 {
      SlotCount(n - 1);
      SlotMembers(0, n - 1);
    }
  }

  /**
   From any owned slots that include the root, the planned splits keep every
   owned pane, fill every slot, and create exactly the panes that were missing.
   */
  lemma GridIsCompleted(n: nat, owned: Panes, splitter: Splitter)
    requires n >= 1 && 0 in owned && owned.Keys <= Slots(0, n) && Obliges(PlannedSplits(n), splitter)
    ensures var filled := Fill(PlannedSplits(n), owned, n, splitter);
      && filled.Ok?
      && filled.value.0.Keys == Slots(0, n)
      && (forall slot :: slot in owned ==> filled.value.0[slot] == owned[slot])
      && filled.value.1 == n - |owned.Keys|
  {
    PlannedSplitsGrow(n);
    FillFollowsGrowth(PlannedSplits(n), owned, n, splitter);
    SlotMembers(0, n);
    SlotCount(n);
  }

  // ---------------------------------------------------------------- the tiling check

  datatype CellRect = CellRect(x: int, y: int, width: int, height: int)

  datatype LayoutError = PaneEscapes | PanesOverlap | NotTiled | UnbalancedSplit

  predicate Inside(r: CellRect, area: CellRect) {
    && r.width >= 1 && r.height >= 1
    && area.x <= r.x && area.y <= r.y
    && r.x + r.width <= area.x + area.width && r.y + r.height <= area.y + area.height
  }

  function Min(a: int, b: int): int {
    if a <= b then a else b
  }

  function Max(a: int, b: int): int {
    if a >= b then a else b
  }

  predicate Overlap(a: CellRect, b: CellRect) {
    && Min(a.x + a.width, b.x + b.width) - Max(a.x, b.x) > 0
    && Min(a.y + a.height, b.y + b.height) - Max(a.y, b.y) > 0
  }

  function SumOfAreas(panes: seq<CellRect>): int {
    if panes == [] then 0
    else SumOfAreas(panes[..|panes| - 1]) + panes[|panes| - 1].width * panes[|panes| - 1].height
  }

  ghost predicate Apart(panes: seq<CellRect>) {
    forall i, j :: 0 <= i < j < |panes| ==> !Overlap(panes[i], panes[j])
  }

  /** What the check asks of the reported panes. */
  ghost predicate Passes(area: CellRect, panes: seq<CellRect>) {
    && (forall i :: 0 <= i < |panes| ==> Inside(panes[i], area))
    && Apart(panes)
    && SumOfAreas(panes) == area.width * area.height
  }

  predicate Balanced(ratios: seq<real>) {
    forall i :: 0 <= i < |ratios| ==> 0.2 <= ratios[i] <= 0.8
  }

  method AssertBalancedLayout(area: CellRect, panes: seq<CellRect>, ratios: seq<real>)
    returns (r: Result<bool, LayoutError>)
    ensures r.Ok? <==> Passes(area, panes) && forall i :: 0 <= i < |ratios| ==> 0.2 <= ratios[i] <= 0.8
    ensures r == Err(PaneEscapes) ==> exists i :: 0 <= i < |panes| && !Inside(panes[i], area)
    ensures r == Err(PanesOverlap) ==> !Apart(panes)
    ensures r == Err(NotTiled) ==> !Passes(area, panes) && Apart(panes)
    ensures r == Err(UnbalancedSplit) ==> Passes(area, panes)
  {
    var areaRight, areaBottom := area.x + area.width, area.y + area.height;
    var coveredArea := 0;
    for i := 0 to |panes|
      invariant forall k :: 0 <= k < i ==> Inside(panes[k], area)
      invariant forall k, j :: 0 <= k < i && k < j < |panes| ==> !Overlap(panes[k], panes[j])
      invariant coveredArea == SumOfAreas(panes[..i])
    {
      var rect := panes[i];
      if rect.width < 1 || rect.height < 1 || rect.x < area.x || rect.y < area.y
         || rect.x + rect.width > areaRight || rect.y + rect.height > areaBottom {
        return Err(PaneEscapes);
      }
      for j := i + 1 to |panes|
        invariant forall k :: i < k < j ==> !Overlap(rect, panes[k])
      {
        var other := panes[j];
        var overlapWidth := Min(rect.x + rect.width, other.x + other.width) - Max(rect.x, other.x);
        var overlapHeight := Min(rect.y + rect.height, other.y + other.height) - Max(rect.y, other.y);
        if overlapWidth > 0 && overlapHeight > 0 {
          return Err(PanesOverlap);
        }
      }
      assert panes[..i + 1][..i] == panes[..i];
      coveredArea := coveredArea + rect.width * rect.height;
    }
    assert panes[..|panes|] == panes;
    if coveredArea != area.width * area.height {
      return Err(NotTiled);
    }
    if !Balanced(ratios) {
      return Err(UnbalancedSplit);
    }
    return Ok(true);
  }

  /** A share of two to four equal parts is a balanced split. */
  lemma ShareIsBalanced(parts: nat)
    requires 2 <= parts <= 4
    ensures 0.2 <= Share(parts) <= 0.8
  {
    assert parts == 2 || parts == 3 || parts == 4;
    assert Share(2) == 0.5 && Share(4) == 0.25 && 0.2 <= Share(3) <= 0.8;
  }

  ghost predicate BalancedSplits(splits: seq<PaneGridSplit>) {
    forall i :: 0 <= i < |splits| ==> 0.2 <= splits[i].ratio <= 0.8
  }

  lemma {:induction false} RowSplitsBalanced(sizes: seq<nat>, k: nat)
    requires k < |sizes| <= 4
    ensures BalancedSplits(RowSplits(sizes, k))
  {
    if k > 0 {
      RowSplitsBalanced(sizes, k - 1);
      ShareIsBalanced(|sizes| - k + 1);
    }
  }

  lemma {:induction false} ColumnSplitsBalanced(start: nat, size: nat, k: nat)
    requires k < size <= 4
    ensures BalancedSplits(ColumnSplits(start, size, k))
  {
    if k > 0 {
      ColumnSplitsBalanced(start, size, k - 1);
      ShareIsBalanced(size - k + 1);
    }
  }

  lemma {:induction false} AllColumnSplitsBalanced(sizes: seq<nat>, rows: nat)
    requires Filled(sizes) && rows <= |sizes| && forall i :: 0 <= i < |sizes| ==> sizes[i] <= 4
    ensures BalancedSplits(AllColumnSplits(sizes, rows))
  {
    if rows > 0 {
      AllColumnSplitsBalanced(sizes, rows - 1);
      ColumnSplitsBalanced(Start(sizes, rows - 1), sizes[rows - 1], sizes[rows - 1] - 1);
    }
  }

  lemma SquareGrows(c: nat)
    ensures c >= 5 ==> (c - 1) * (c - 1) >= 16
  {
    if c >= 5 {
      MulLe(4, c - 1, 4);
      MulLe(4, c - 1, c - 1);
    }
  }

  lemma AtMostFourColumns(n: nat)
    requires 1 <= n <= 16
    ensures 1 <= ColumnCount(n) <= 4 && RowCount(n) <= ColumnCount(n)
  {
    var c := ColumnCount(n);
    SquareGrows(c);
    assert (n + c - 1) / c <= c by {
      assert n + c - 1 < (c + 1) * c;
    }
  }

  /** Every plan for up to 16 panes splits within the ratios the check of the finished layout allows. */
  lemma PlannedSplitsAreBalanced(n: nat)
    requires 1 <= n <= MAX_AGENT_GRID_PANES
    ensures forall i :: 0 <= i < |PlannedSplits(n)| ==> 0.2 <= PlannedSplits(n)[i].ratio <= 0.8
  {
    if n > 6 {
      var sizes := RowSizes(n);
      RowSizesFilled(n);
      RowsShareEvenly(n);
      AtMostFourColumns(n);
      RowSplitsBalanced(sizes, |sizes| - 1);
      AllColumnSplitsBalanced(sizes, |sizes|);
    }
  }

  // ---------------------------------------------------------------- unit cells

  type Cell = (int, int)

  predicate Covers(r: CellRect, cell: Cell) {
    r.x <= cell.0 < r.x + r.width && r.y <= cell.1 < r.y + r.height
  }

  ghost function Column(x: int, y: int, height: nat): (cells: set<Cell>)
    ensures forall c: Cell :: c in cells <==> c.0 == x && y <= c.1 < y + height
  {
    if height == 0 then {} else Column(x, y, height - 1) + {(x, y + height - 1)}
  }

  /** The unit cells of a rectangle. */
  ghost function CellsOf(r: CellRect): (cells: set<Cell>)
    requires r.width >= 0 && r.height >= 0
    ensures forall c: Cell :: c in cells <==> Covers(r, c)
    decreases r.width
  {
    if r.width == 0 then {} else CellsOf(r.(width := r.width - 1)) + Column(r.x + r.width - 1, r.y, r.height)
  }

  lemma {:induction false} CountColumn(cells: set<Cell>, x: int, y: int, height: nat)
    requires forall c: Cell :: c in cells <==> c.0 == x && y <= c.1 < y + height
    ensures |cells| == height
    decreases height
  {
    if height == 0 {
      assert cells == {};
    } else {
      var rest := cells - {(x, y + height - 1)};
      CountColumn(rest, x, y, height - 1);
      assert cells == rest + {(x, y + height - 1)};
    }
  }

  /** The area of a rectangle, added up column by column. */
  function AddColumns(width: nat, height: nat): nat {
    if width == 0 then 0 else AddColumns(width - 1, height) + height
  }

  lemma {:induction false} AddColumnsIsProduct(width: nat, height: nat)
    ensures AddColumns(width, height) == width * height
  {
    if width > 0 {
      AddColumnsIsProduct(width - 1, height);
    }
  }

  lemma {:induction false} CountByColumns(cells: set<Cell>, x: int, y: int, width: nat, height: nat)
    requires forall c: Cell :: c in cells <==> x <= c.0 < x + width && y <= c.1 < y + height
    ensures |cells| == AddColumns(width, height)
    decreases width
  {
    if width == 0 {
      assert cells == {};
    } else {
      var left := set c | c in cells && c.0 < x + width - 1;
      var right := set c | c in cells && c.0 == x + width - 1;
      CountByColumns(left, x, y, width - 1, height);
      CountColumn(right, x + width - 1, y, height);
      assert cells == left + right;
      DisjointUnion(left, right);
    }
  }

  /** A rectangle has as many cells as its area. */
  lemma CellCount(r: CellRect)
    requires r.width >= 0 && r.height >= 0
    ensures |CellsOf(r)| == r.width * r.height
  {
    CountByColumns(CellsOf(r), r.x, r.y, r.width, r.height);
    AddColumnsIsProduct(r.width, r.height);
  }

  lemma DisjointUnion<T>(a: set<T>, b: set<T>)
    ensures a !! b ==> |a + b| == |a| + |b|
  {
  }

  ghost predicate WellSized(panes: seq<CellRect>) {
    forall i :: 0 <= i < |panes| ==> panes[i].width >= 1 && panes[i].height >= 1
  }

  ghost predicate CoveredBySome(panes: seq<CellRect>, cell: Cell) {
    exists i :: 0 <= i < |panes| && Covers(panes[i], cell)
  }

  ghost function Covered(panes: seq<CellRect>): (cells: set<Cell>)
    requires WellSized(panes)
    ensures forall c: Cell :: c in cells <==> CoveredBySome(panes, c)
  {
    if panes == [] then {}
    else
      var init, last := panes[..|panes| - 1], panes[|panes| - 1];
      assert forall c: Cell :: CoveredBySome(panes, c) <==> CoveredBySome(init, c) || Covers(last, c) by {
        forall c: Cell ensures CoveredBySome(panes, c) <==> CoveredBySome(init, c) || Covers(last, c) {
          if i :| 0 <= i < |init| && Covers(init[i], c) {
            assert panes[i] == init[i];
          }
          if i :| 0 <= i < |panes| && Covers(panes[i], c) {
            assert i < |init| ==> init[i] == panes[i];
          }
        }
      }
      Covered(init) + CellsOf(last)
  }

  lemma ApartShareNoCell(a: CellRect, b: CellRect, cell: Cell)
    requires !Overlap(a, b)
    ensures !(Covers(a, cell) && Covers(b, cell))
  {
  }

  /** The last of the panes covers no cell of the others. */
  lemma LastCoversOthersNot(panes: seq<CellRect>)
    requires panes != [] && WellSized(panes) && Apart(panes)
    ensures Covered(panes[..|panes| - 1]) !! CellsOf(panes[|panes| - 1])
  {
    var init, last := panes[..|panes| - 1], panes[|panes| - 1];
    forall cell | cell in Covered(init) ensures cell !in CellsOf(last) {
      var i :| 0 <= i < |init| && Covers(init[i], cell);
      ApartShareNoCell(panes[i], last, cell);
    }
  }

  /** Panes that are apart cover as many cells as their areas add up to. */
  lemma {:induction false} CoveredCount(panes: seq<CellRect>)
    requires WellSized(panes) && Apart(panes)
    ensures |Covered(panes)| == SumOfAreas(panes)
  {
    if panes != [] {
      var init, last := panes[..|panes| - 1], panes[|panes| - 1];
      CoveredCount(init);
      LastCoversOthersNot(panes);
      CellCount(last);
      DisjointUnion(Covered(init), CellsOf(last));
    }
  }

  /** Every cell of the area is covered, nothing outside it is, and no cell is covered twice. */
  ghost predicate TilesExactly(area: CellRect, panes: seq<CellRect>) {
    && (forall cell: Cell :: Covers(area, cell) <==> CoveredBySome(panes, cell))
    && forall cell: Cell, i, j :: Shared(panes, cell, i, j) ==> i == j
  }

  predicate Shared(panes: seq<CellRect>, cell: Cell, i: int, j: int) {
    0 <= i < |panes| && 0 <= j < |panes| && Covers(panes[i], cell) && Covers(panes[j], cell)
  }

  lemma SubsetOfSameSize<T>(a: set<T>, b: set<T>)
    requires a <= b && |a| == |b|
    ensures a == b
  {
    assert |b - a| == |b| - |a|;
  }

  lemma CoveredInside(area: CellRect, panes: seq<CellRect>)
    requires WellSized(panes) && area.width >= 0 && area.height >= 0
    requires forall i :: 0 <= i < |panes| ==> Inside(panes[i], area)
    ensures Covered(panes) <= CellsOf(area)
  {
    forall cell | cell in Covered(panes) ensures cell in CellsOf(area) {
      var i :| 0 <= i < |panes| && Covers(panes[i], cell);
      assert Inside(panes[i], area);
    }
  }

  lemma PassingCovers(area: CellRect, panes: seq<CellRect>)
    requires panes != [] && Passes(area, panes)
    ensures WellSized(panes) && forall cell: Cell :: Covers(area, cell) <==> CoveredBySome(panes, cell)
  {
    assert Inside(panes[0], area);
    CoveredCount(panes);
    CellCount(area);
    CoveredInside(area, panes);
    SubsetOfSameSize(Covered(panes), CellsOf(area));
    forall cell: Cell ensures Covers(area, cell) <==> CoveredBySome(panes, cell) {
      assert cell in CellsOf(area) <==> cell in Covered(panes);
    }
  }

  lemma PassingTiles(area: CellRect, panes: seq<CellRect>)
    requires panes != [] && Passes(area, panes)
    ensures WellSized(panes) && TilesExactly(area, panes)
  {
    PassingCovers(area, panes);
    forall cell: Cell, i, j | Shared(panes, cell, i, j) ensures i == j {
      if i < j {
        ApartShareNoCell(panes[i], panes[j], cell);
      } else if j < i {
        ApartShareNoCell(panes[j], panes[i], cell);
      }
    }
  }

  lemma TilesInside(area: CellRect, panes: seq<CellRect>, i: nat)
    requires WellSized(panes) && TilesExactly(area, panes) && i < |panes|
    ensures Inside(panes[i], area)
  {
    var r := panes[i];
    var first, last := (r.x, r.y), (r.x + r.width - 1, r.y + r.height - 1);
    assert Covers(r, first) && Covers(r, last);
    assert CoveredBySome(panes, first) && CoveredBySome(panes, last);
  }

  lemma TilesApart(area: CellRect, panes: seq<CellRect>, i: nat, j: nat)
    requires WellSized(panes) && TilesExactly(area, panes) && i < j < |panes|
    ensures !Overlap(panes[i], panes[j])
  {
    var cell := (Max(panes[i].x, panes[j].x), Max(panes[i].y, panes[j].y));
    assert !Shared(panes, cell, i, j);
  }

  lemma TilesAllApart(area: CellRect, panes: seq<CellRect>)
    requires WellSized(panes) && TilesExactly(area, panes)
    ensures Apart(panes)
  {
    forall i, j | 0 <= i < j < |panes| ensures !Overlap(panes[i], panes[j]) {
      TilesApart(area, panes, i, j);
    }
  }

  lemma SameCellsSameArea(area: CellRect, panes: seq<CellRect>)
    requires WellSized(panes) && Apart(panes) && area.width >= 0 && area.height >= 0
    requires forall cell: Cell :: Covers(area, cell) <==> CoveredBySome(panes, cell)
    ensures SumOfAreas(panes) == area.width * area.height
  {
    CoveredCount(panes);
    CellCount(area);
    assert Covered(panes) == CellsOf(area);
  }

  lemma TilingPasses(area: CellRect, panes: seq<CellRect>)
    requires panes != [] && WellSized(panes) && TilesExactly(area, panes)
    ensures Passes(area, panes)
  {
    forall i | 0 <= i < |panes| ensures Inside(panes[i], area) {
      TilesInside(area, panes, i);
    }
    TilesAllApart(area, panes);
    assert Inside(panes[0], area);
    SameCellsSameArea(area, panes);
  }

  /** The check accepts panes exactly when they cover every cell of the tab once and nothing else. */
  lemma PassesIffTiles(area: CellRect, panes: seq<CellRect>)
    requires panes != []
    ensures Passes(area, panes) <==> WellSized(panes) && TilesExactly(area, panes)
  {
    if Passes(area, panes) {
      PassingTiles(area, panes);
    } else if WellSized(panes) && TilesExactly(area, panes) {
      TilingPasses(area, panes);
    }
  }
}
