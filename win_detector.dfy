/**
 * The win detector (api/src/handler/game/mod.rs): counts the completed
 * lines on an N x N board of checked flags stored row-major.
 */
module WinDetector {
  import opened Errors
  import opened Arith

  /** The four walking directions of the detector. */
  datatype Direction = Right | Down | RightDown | RightUp

  /** Smallest and largest accepted side length (the range 2..10 of the source). */
  const MinGrid: nat := 2
  const MaxGrid: nat := 9

  /** Defensive bound on the number of steps of one walk. */
  const WalkGuard: nat := 1000

  function Square(k: int): int { k * k }

  /**
   * Searches v, v+1, ..., MaxGrid for a side length whose square is
   * fieldAmount, like the `any` over 2..10 in the source.
   */
  function SquareRootFrom(fieldAmount: nat, v: nat): (r: Result<nat>)
    requires MinGrid <= v <= MaxGrid + 1
    decreases MaxGrid + 1 - v
    ensures r.Ok? ==> v <= r.value <= MaxGrid && Square(r.value) == fieldAmount
    ensures r.Err? ==> r.error == InternalServer
    ensures r.Err? ==> forall k :: v <= k <= MaxGrid ==> Square(k) != fieldAmount
  {
    if v > MaxGrid then Err(InternalServer)
    else if Square(v) == fieldAmount then Ok(v)
    else SquareRootFrom(fieldAmount, v + 1)
  }

  /**
   * The side length of a board with fieldAmount cells: Ok(k) exactly when
   * fieldAmount == k * k for some k in 2..9, an internal error otherwise.
   */
  function GridSize(fieldAmount: nat): (r: Result<nat>)
    ensures r.Ok? ==> MinGrid <= r.value <= MaxGrid && r.value * r.value == fieldAmount
    ensures r.Err? ==> r.error == InternalServer
  {
    SquareRootFrom(fieldAmount, MinGrid)
  }

  /** No side length in 2..9 squares to a rejected length. */
  lemma GridSizeRejects(fieldAmount: nat)
    ensures GridSize(fieldAmount).Err? <==> forall k :: MinGrid <= k <= MaxGrid ==> Square(k) != fieldAmount
  {
  }

  /** The asserted examples of `test_grid_size`. */
  lemma GridSizeExamples()
    ensures GridSize(0).Err? && GridSize(1).Err? && GridSize(2).Err? && GridSize(3).Err?
    ensures GridSize(4) == Ok(2)
    ensures GridSize(5).Err? && GridSize(6).Err? && GridSize(7).Err? && GridSize(8).Err?
    ensures GridSize(9) == Ok(3)
    ensures GridSize(10).Err?
  {
  }

  // ---------------------------------------------------------------------
  // Arithmetic on cell indices r * g + c
  // ---------------------------------------------------------------------

  lemma CellBound(g: int, r: int, c: int)
    requires 0 <= r < g && 0 <= c < g
    ensures 0 <= r * g + c < g * g
  {
    assert r * g <= (g - 1) * g;
  }

  // ---------------------------------------------------------------------
  // One walk
  // ---------------------------------------------------------------------

  /** The index after idx when walking in direction; a RightUp step landing on 0 goes to -1. */
  function Step(direction: Direction, gridSize: int, idx: int): int
  {
    match direction
    case Right => idx + 1
    case Down => idx + gridSize
    case RightDown => idx + gridSize + 1
    case RightUp => if idx - (gridSize - 1) != 0 then idx - (gridSize - 1) else -1
  }

  /**
   * Walks from idx in direction and returns hits plus the number of
   * checked cells it visits. n counts the cells visited so far; the walk
   * stops after the grid-size-th cell, on leaving the board, or (Right
   * only) on wrapping into the next row.
   */
  function Walk(fields: seq<bool>, startIdx: int, idx: int, direction: Direction, hits: nat, n: nat): (r: nat)
    requires GridSize(|fields|).Ok?
    requires n <= WalkGuard
    decreases WalkGuard - n
    ensures hits <= r
    ensures n < GridSize(|fields|).value ==> r <= hits + (GridSize(|fields|).value - n)
  {
    var steps := n + 1;
    var gridSize := GridSize(|fields|).value as int;
    if idx > |fields| - 1 || idx < 0 then hits
    else if direction == Right && (idx != startIdx && idx % gridSize == 0) then hits
    else
      var hitsNow := if fields[idx] then hits + 1 else hits;
      if steps == gridSize || steps > WalkGuard then hitsNow
      else Walk(fields, startIdx, Step(direction, gridSize, idx), direction, hitsNow, steps)
  }

  /** The index reached after k steps from idx. */
  ghost function Path(direction: Direction, gridSize: int, idx: int, k: nat): int
    decreases k
  {
    if k == 0 then idx else Path(direction, gridSize, Step(direction, gridSize, idx), k - 1)
  }

  /** Whether a walk started at startIdx goes on to visit idx (rather than stopping there). */
  ghost predicate Enters(fields: seq<bool>, gridSize: int, startIdx: int, direction: Direction, idx: int)
    requires gridSize > 0
  {
    0 <= idx <= |fields| - 1 && !(direction == Right && idx != startIdx && idx % gridSize == 0)
  }

  /** All the first k cells of the path from idx are entered and checked. */
  ghost predicate PathChecked(fields: seq<bool>, gridSize: int, startIdx: int, direction: Direction, idx: int, k: nat)
    requires gridSize > 0
  {
    forall j :: 0 <= j < k ==>
      Enters(fields, gridSize, startIdx, direction, Path(direction, gridSize, idx, j)) &&
      fields[Path(direction, gridSize, idx, j)]
  }

  /** Checking the first m cells of a path: its first cell, then m - 1 cells of the path from the next index. */
  lemma PathCheckedStep(fields: seq<bool>, gridSize: int, startIdx: int, direction: Direction, idx: int, m: nat)
    requires gridSize > 0 && m >= 1
    ensures PathChecked(fields, gridSize, startIdx, direction, idx, m)
      <==> Enters(fields, gridSize, startIdx, direction, idx) && fields[idx]
           && PathChecked(fields, gridSize, startIdx, direction, Step(direction, gridSize, idx), m - 1)
  {
    var next := Step(direction, gridSize, idx);
    assert Path(direction, gridSize, idx, 0) == idx;
    if PathChecked(fields, gridSize, startIdx, direction, idx, m) {
      forall j | 0 <= j < m - 1
        ensures Enters(fields, gridSize, startIdx, direction, Path(direction, gridSize, next, j)) &&
                fields[Path(direction, gridSize, next, j)]
      {
        assert Path(direction, gridSize, idx, j + 1) == Path(direction, gridSize, next, j);
      }
    }
    if Enters(fields, gridSize, startIdx, direction, idx) && fields[idx]
       && PathChecked(fields, gridSize, startIdx, direction, next, m - 1) {
      forall j | 0 <= j < m
        ensures Enters(fields, gridSize, startIdx, direction, Path(direction, gridSize, idx, j)) &&
                fields[Path(direction, gridSize, idx, j)]
      {
        if j > 0 {
          assert Path(direction, gridSize, idx, j) == Path(direction, gridSize, next, j - 1);
        }
      }
    }
  }

  /** One step of a walk that has not yet visited g cells. */
  lemma WalkUnfold(fields: seq<bool>, startIdx: int, idx: int, direction: Direction, hits: nat, n: nat)
    requires GridSize(|fields|).Ok?
    requires n < GridSize(|fields|).value
    ensures var g := GridSize(|fields|).value;
      var hitsNow := if 0 <= idx < |fields| && fields[idx] then hits + 1 else hits;
      && (!Enters(fields, g, startIdx, direction, idx) ==> Walk(fields, startIdx, idx, direction, hits, n) == hits)
      && (Enters(fields, g, startIdx, direction, idx) && n + 1 == g ==> Walk(fields, startIdx, idx, direction, hits, n) == hitsNow)
      && (Enters(fields, g, startIdx, direction, idx) && n + 1 < g ==>
            Walk(fields, startIdx, idx, direction, hits, n) == Walk(fields, startIdx, Step(direction, g, idx), direction, hitsNow, n + 1))
  {
  }

  /**
   * A walk that still has g - n cells to visit returns hits + (g - n)
   * exactly when those cells are all entered and all checked.
   */
  lemma {:induction false} WalkCompletes(fields: seq<bool>, startIdx: int, idx: int, direction: Direction, hits: nat, n: nat)
    requires GridSize(|fields|).Ok?
    requires n < GridSize(|fields|).value
    ensures var g := GridSize(|fields|).value;
      Walk(fields, startIdx, idx, direction, hits, n) == hits + (g - n)
      <==> PathChecked(fields, g, startIdx, direction, idx, g - n)
    decreases GridSize(|fields|).value - n
  {
    var g := GridSize(|fields|).value;
    PathCheckedStep(fields, g, startIdx, direction, idx, g - n);
    WalkUnfold(fields, startIdx, idx, direction, hits, n);
    if Enters(fields, g, startIdx, direction, idx) && n + 1 < g {
      var next := Step(direction, g, idx);
      var hitsNow := if fields[idx] then hits + 1 else hits;
      WalkCompletes(fields, startIdx, next, direction, hitsNow, n + 1);
    } else if n + 1 == g {
      assert PathChecked(fields, g, startIdx, direction, Step(direction, g, idx), 0);
    }
  }

  // ---------------------------------------------------------------------
  // Where a walk goes
  // ---------------------------------------------------------------------

  /** The index step of the three directions that never remap an index. */
  function Stride(direction: Direction, gridSize: int): int
    requires direction != RightUp
  {
    match direction
    case Right => 1
    case Down => gridSize
    case RightDown => gridSize + 1
  }

  /** Right, Down and RightDown walks move by a fixed stride. */
  lemma {:induction false} PathStraight(direction: Direction, gridSize: int, idx: int, k: nat)
    requires direction != RightUp
    ensures Path(direction, gridSize, idx, k) == idx + k * Stride(direction, gridSize)
    decreases k
  {
    if k > 0 {
      PathStraight(direction, gridSize, Step(direction, gridSize, idx), k - 1);
    }
  }

  /**
   * A RightUp walk moves by -(gridSize - 1) while it stays above 0; once a
   * step would reach 0 or below, the walk is at a negative index.
   */
  lemma {:induction false} PathRightUp(gridSize: int, idx: int, k: nat)
    requires gridSize >= 2
    ensures idx - k * (gridSize - 1) > 0 ==> Path(RightUp, gridSize, idx, k) == idx - k * (gridSize - 1)
    ensures k >= 1 && idx - k * (gridSize - 1) <= 0 ==> Path(RightUp, gridSize, idx, k) < 0
    decreases k
  {
    if k > 0 {
      var m := gridSize - 1;
      var next := Step(RightUp, gridSize, idx);
      var rest := (k - 1) * m;
      assert k * m == rest + m;
      assert rest >= 0;
      PathRightUp(gridSize, next, k - 1);
      if idx - m <= 0 {
        assert next < 0;
      }
    }
  }

  // ---------------------------------------------------------------------
  // Reference: the lines of the board
  // ---------------------------------------------------------------------

  /** The cell in row r, column c of a row-major board of side g. */
  ghost function Cell(fields: seq<bool>, g: int, r: int, c: int): bool
    requires |fields| == g * g && 0 <= r < g && 0 <= c < g
  {
    CellBound(g, r, c);
    fields[r * g + c]
  }

  ghost predicate RowFull(fields: seq<bool>, g: int, r: int)
    requires |fields| == g * g && 0 <= r < g
  {
    forall c :: 0 <= c < g ==> Cell(fields, g, r, c)
  }

  ghost predicate ColumnFull(fields: seq<bool>, g: int, c: int)
    requires |fields| == g * g && 0 <= c < g
  {
    forall r :: 0 <= r < g ==> Cell(fields, g, r, c)
  }

  /** Top-left to bottom-right. */
  ghost predicate DiagonalFull(fields: seq<bool>, g: int)
    requires |fields| == g * g
  {
    forall k :: 0 <= k < g ==> Cell(fields, g, k, k)
  }

  /** The cell of the anti-diagonal in column k. */
  ghost function AntiDiagonalCell(fields: seq<bool>, g: int, k: int): bool
    requires |fields| == g * g && 0 <= k < g
  {
    Cell(fields, g, g - 1 - k, k)
  }

  /** Bottom-left to top-right. */
  ghost predicate AntiDiagonalFull(fields: seq<bool>, g: int)
    requires |fields| == g * g
  {
    forall k :: 0 <= k < g ==> AntiDiagonalCell(fields, g, k)
  }

  /** The number of full rows among rows 0..r-1. */
  ghost function FullRows(fields: seq<bool>, g: int, r: nat): (count: nat)
    requires |fields| == g * g && r <= g
    ensures count <= r
  {
    if r == 0 then 0 else FullRows(fields, g, r - 1) + (if RowFull(fields, g, r - 1) then 1 else 0)
  }

  /** The number of full columns among columns 0..c-1. */
  ghost function FullColumns(fields: seq<bool>, g: int, c: nat): (count: nat)
    requires |fields| == g * g && c <= g
    ensures count <= c
  {
    if c == 0 then 0 else FullColumns(fields, g, c - 1) + (if ColumnFull(fields, g, c - 1) then 1 else 0)
  }

  /**
   * The number of completed lines of a board: full rows, full columns and
   * the two diagonals; no line at all when the length is not a square of
   * 2..9.
   */
  ghost function LineCount(fields: seq<bool>): nat
  {
    match GridSize(|fields|)
    case Err(_) => 0
    case Ok(g) =>
      FullRows(fields, g, g) + FullColumns(fields, g, g)
      + (if DiagonalFull(fields, g) then 1 else 0)
      + (if AntiDiagonalFull(fields, g) then 1 else 0)
  }

  // ---------------------------------------------------------------------
  // Which walks complete
  // ---------------------------------------------------------------------

  /** The walk from border cell b in direction counts as a bingo. */
  ghost predicate Completes(fields: seq<bool>, direction: Direction, b: int)
    requires GridSize(|fields|).Ok?
  {
    Walk(fields, b, b, direction, 0, 0) == GridSize(|fields|).value
  }

  /** A walk from b completes exactly when the g cells of its path are entered and checked. */
  lemma CompletesPath(fields: seq<bool>, direction: Direction, b: int)
    requires GridSize(|fields|).Ok?
    ensures var g := GridSize(|fields|).value;
      Completes(fields, direction, b) <==> PathChecked(fields, g, b, direction, b, g)
  {
    WalkCompletes(fields, b, b, direction, 0, 0);
  }

  /** A Right walk from the first cell of row r completes iff row r is full. */
  lemma RightFromFirstColumn(fields: seq<bool>, r: int)
    requires GridSize(|fields|).Ok?
    requires 0 <= r < GridSize(|fields|).value
    ensures Completes(fields, Right, r * GridSize(|fields|).value) <==> RowFull(fields, GridSize(|fields|).value, r)
  {
    var g := GridSize(|fields|).value;
    CompletesPath(fields, Right, r * g);
    forall j | 0 <= j < g
      ensures (Enters(fields, g, r * g, Right, Path(Right, g, r * g, j)) && fields[Path(Right, g, r * g, j)])
              == Cell(fields, g, r, j)
    {
      RowPathCell(fields, r, j);
    }
  }

  lemma RowPathCell(fields: seq<bool>, r: int, j: int)
    requires GridSize(|fields|).Ok?
    requires 0 <= r < GridSize(|fields|).value && 0 <= j < GridSize(|fields|).value
    ensures var g := GridSize(|fields|).value;
      (Enters(fields, g, r * g, Right, Path(Right, g, r * g, j)) && fields[Path(Right, g, r * g, j)]) == Cell(fields, g, r, j)
  {
    var g := GridSize(|fields|).value;
    PathStraight(Right, g, r * g, j);
    CellBound(g, r, j);
    DivMod(g, r, j);
  }

  /** A Right walk from any other cell of the first row wraps into row 1 and aborts. */
  lemma RightFromFirstRow(fields: seq<bool>, c: int)
    requires GridSize(|fields|).Ok?
    requires 0 < c < GridSize(|fields|).value
    ensures !Completes(fields, Right, c)
  {
    var g := GridSize(|fields|).value;
    CompletesPath(fields, Right, c);
    PathStraight(Right, g, c, g - c);
    DivMod(g, 1, 0);
    assert !Enters(fields, g, c, Right, Path(Right, g, c, g - c));
  }

  /** A Down walk from the top of column c completes iff column c is full. */
  lemma DownFromFirstRow(fields: seq<bool>, c: int)
    requires GridSize(|fields|).Ok?
    requires 0 <= c < GridSize(|fields|).value
    ensures Completes(fields, Down, c) <==> ColumnFull(fields, GridSize(|fields|).value, c)
  {
    var g := GridSize(|fields|).value;
    CompletesPath(fields, Down, c);
    forall j | 0 <= j < g
      ensures (Enters(fields, g, c, Down, Path(Down, g, c, j)) && fields[Path(Down, g, c, j)])
              == Cell(fields, g, j, c)
    {
      ColumnPathCell(fields, c, j);
    }
  }

  lemma ColumnPathCell(fields: seq<bool>, c: int, j: int)
    requires GridSize(|fields|).Ok?
    requires 0 <= c < GridSize(|fields|).value && 0 <= j < GridSize(|fields|).value
    ensures var g := GridSize(|fields|).value;
      (Enters(fields, g, c, Down, Path(Down, g, c, j)) && fields[Path(Down, g, c, j)]) == Cell(fields, g, j, c)
  {
    var g := GridSize(|fields|).value;
    PathStraight(Down, g, c, j);
    CellBound(g, j, c);
  }

  /** A Down walk from a lower cell of the first column leaves the board. */
  lemma DownFromFirstColumn(fields: seq<bool>, r: int)
    requires GridSize(|fields|).Ok?
    requires 1 <= r < GridSize(|fields|).value
    ensures !Completes(fields, Down, r * GridSize(|fields|).value)
  {
    var g := GridSize(|fields|).value;
    CompletesPath(fields, Down, r * g);
    PathStraight(Down, g, r * g, g - r);
    DownExit(g, r);
    assert !Enters(fields, g, r * g, Down, Path(Down, g, r * g, g - r));
  }

  lemma DownExit(g: int, r: int)
    ensures r * g + (g - r) * g == g * g
  {
  }

  /** The RightDown walk from the top-left corner completes iff the diagonal is full. */
  lemma RightDownFromCorner(fields: seq<bool>)
    requires GridSize(|fields|).Ok?
    ensures Completes(fields, RightDown, 0) <==> DiagonalFull(fields, GridSize(|fields|).value)
  {
    var g := GridSize(|fields|).value;
    CompletesPath(fields, RightDown, 0);
    forall j | 0 <= j < g
      ensures (Enters(fields, g, 0, RightDown, Path(RightDown, g, 0, j)) && fields[Path(RightDown, g, 0, j)])
              == Cell(fields, g, j, j)
    {
      DiagonalPathCell(fields, j);
    }
  }

  lemma DiagonalPathCell(fields: seq<bool>, j: int)
    requires GridSize(|fields|).Ok?
    requires 0 <= j < GridSize(|fields|).value
    ensures var g := GridSize(|fields|).value;
      (Enters(fields, g, 0, RightDown, Path(RightDown, g, 0, j)) && fields[Path(RightDown, g, 0, j)]) == Cell(fields, g, j, j)
  {
    var g := GridSize(|fields|).value;
    PathStraight(RightDown, g, 0, j);
    DiagonalIndex(g, j);
    CellBound(g, j, j);
  }

  lemma DiagonalIndex(g: int, j: int)
    ensures j * (g + 1) == j * g + j
  {
  }

  lemma DiagonalExit(g: int)
    ensures (g - 1) * (g + 1) == g * g - 1
  {
  }

  /** A RightDown walk from any other border cell leaves the board before its last step. */
  lemma RightDownElsewhere(fields: seq<bool>, b: int)
    requires GridSize(|fields|).Ok?
    requires b >= 1
    ensures !Completes(fields, RightDown, b)
  {
    var g := GridSize(|fields|).value;
    CompletesPath(fields, RightDown, b);
    PathStraight(RightDown, g, b, g - 1);
    DiagonalExit(g);
    assert !Enters(fields, g, b, RightDown, Path(RightDown, g, b, g - 1));
  }

  /** The RightUp walk from the bottom-left corner completes iff the anti-diagonal is full. */
  lemma RightUpFromCorner(fields: seq<bool>)
    requires GridSize(|fields|).Ok?
    ensures var g := GridSize(|fields|).value;
      Completes(fields, RightUp, (g - 1) * g) <==> AntiDiagonalFull(fields, g)
  {
    var g := GridSize(|fields|).value;
    var b := (g - 1) * g;
    CompletesPath(fields, RightUp, b);
    forall j | 0 <= j < g
      ensures (Enters(fields, g, b, RightUp, Path(RightUp, g, b, j)) && fields[Path(RightUp, g, b, j)])
              == AntiDiagonalCell(fields, g, j)
    {
      AntiDiagonalPathCell(fields, j);
    }
  }

  lemma AntiDiagonalPathCell(fields: seq<bool>, j: int)
    requires GridSize(|fields|).Ok?
    requires 0 <= j < GridSize(|fields|).value
    ensures var g := GridSize(|fields|).value;
      var b := (g - 1) * g;
      (Enters(fields, g, b, RightUp, Path(RightUp, g, b, j)) && fields[Path(RightUp, g, b, j)]) == AntiDiagonalCell(fields, g, j)
  {
    var g := GridSize(|fields|).value;
    var b := (g - 1) * g;
    AntiDiagonalStep(g, j);
    PathRightUp(g, b, j);
    CellBound(g, g - 1 - j, j);
  }

  /** The j-th RightUp step from the bottom-left corner lands on row g-1-j, column j. */
  lemma AntiDiagonalStep(g: int, j: int)
    requires 2 <= g && 0 <= j < g
    ensures (g - 1) * g - j * (g - 1) == (g - 1 - j) * g + j > 0
  {
    assert (g - 1) * g == g * g - g;
    assert j * (g - 1) == j * g - j;
    assert (g - 1 - j) * g == g * g - g - j * g;
    if j == 0 {
      MulBelow(g - 1, g);
    } else {
      MulLe(0, g - 1 - j, g);
    }
  }

  /** A RightUp walk from a cell no lower than (g-1)^2 reaches index 0 or below and stops. */
  lemma RightUpElsewhere(fields: seq<bool>, b: int)
    requires GridSize(|fields|).Ok?
    requires b <= (GridSize(|fields|).value - 1) * (GridSize(|fields|).value - 1)
    ensures !Completes(fields, RightUp, b)
  {
    var g := GridSize(|fields|).value;
    CompletesPath(fields, RightUp, b);
    PathRightUp(g, b, g - 1);
    assert !Enters(fields, g, b, RightUp, Path(RightUp, g, b, g - 1));
  }

  // ---------------------------------------------------------------------
  // The border cells and the walks from them
  // ---------------------------------------------------------------------

  /** A start cell: in the first row or the first column. */
  predicate IsBorder(gridSize: nat, n: nat)
    requires gridSize > 0
  {
    n < gridSize || n % gridSize == 0
  }

  /** The border cells below m, in increasing order, as the first loop of `bingos` pushes them. */
  ghost function BorderPrefix(gridSize: nat, m: nat): seq<nat>
    requires gridSize > 0
  {
    if m == 0 then [] else BorderPrefix(gridSize, m - 1) + (if IsBorder(gridSize, m - 1) then [m - 1] else [])
  }

  /** 0, 1, ..., m-1. */
  ghost function Range(m: nat): (r: seq<nat>)
    ensures |r| == m
  {
    if m == 0 then [] else Range(m - 1) + [m - 1]
  }

  /** g, 2g, ..., r*g: the first column below the corner. */
  ghost function ColumnTail(g: nat, r: nat): (t: seq<nat>)
    ensures |t| == r
  {
    if r == 0 then [] else ColumnTail(g, r - 1) + [r * g]
  }

  lemma {:induction false} BorderPrefixFirstRow(g: nat, m: nat)
    requires 0 < g && m <= g
    ensures BorderPrefix(g, m) == Range(m)
  {
    if m > 0 {
      BorderPrefixFirstRow(g, m - 1);
    }
  }

  /** Cells r*g+1 .. r*g+c-1 of a row below the first are not border cells. */
  lemma {:induction false} BorderPrefixGap(g: nat, r: nat, c: nat)
    requires 0 < g && 1 <= r && 1 <= c <= g
    ensures BorderPrefix(g, r * g + c) == BorderPrefix(g, r * g + 1)
    decreases c
  {
    if c > 1 {
      BorderPrefixGap(g, r, c - 1);
      DivMod(g, r, c - 1);
      MulBelow(r, g);
    }
  }

  /** The first cell of row r is a border cell. */
  lemma BorderPrefixRowStart(g: nat, r: nat)
    requires 2 <= g && 1 <= r < g
    ensures BorderPrefix(g, r * g + 1) == BorderPrefix(g, r * g) + [r * g]
  {
    DivMod(g, r, 0);
    assert IsBorder(g, r * g);
  }

  lemma {:induction false} BorderPrefixRows(g: nat, r: nat)
    requires 2 <= g && 1 <= r < g
    ensures BorderPrefix(g, r * g + 1) == Range(g) + ColumnTail(g, r)
  {
    BorderPrefixRowStart(g, r);
    if r == 1 {
      BorderPrefixFirstRow(g, g);
      assert ColumnTail(g, 1) == [g];
    } else {
      BorderPrefixRows(g, r - 1);
      BorderPrefixGap(g, r - 1, g);
      var n, p := r * g, (r - 1) * g;
      assert p + g == n;
      calc {
        BorderPrefix(g, n + 1);
        BorderPrefix(g, n) + [n];
        BorderPrefix(g, p + 1) + [n];
        Range(g) + ColumnTail(g, r - 1) + [n];
        Range(g) + (ColumnTail(g, r - 1) + [n]);
        Range(g) + ColumnTail(g, r);
      }
    }
  }

  /** The first loop of `bingos` collects exactly the first row followed by the rest of the first column. */
  lemma BorderShape(g: nat)
    requires 2 <= g
    ensures BorderPrefix(g, g * g - 1) == Range(g) + ColumnTail(g, g - 1)
  {
    BorderPrefixRows(g, g - 1);
    assert g * g - 1 == (g - 1) * g + (g - 1);
    BorderPrefixGap(g, g - 1, g - 1);
  }

  /** How many of the walks from the cells bs in direction complete. */
  ghost function Hits(fields: seq<bool>, direction: Direction, bs: seq<nat>): nat
    requires GridSize(|fields|).Ok?
  {
    if bs == [] then 0
    else Hits(fields, direction, bs[..|bs| - 1]) + (if Completes(fields, direction, bs[|bs| - 1]) then 1 else 0)
  }

  lemma {:induction false} HitsAppend(fields: seq<bool>, direction: Direction, a: seq<nat>, b: seq<nat>)
    requires GridSize(|fields|).Ok?
    ensures Hits(fields, direction, a + b) == Hits(fields, direction, a) + Hits(fields, direction, b)
    decreases |b|
  {
    if b != [] {
      assert (a + b)[..|a + b| - 1] == a + b[..|b| - 1];
      HitsAppend(fields, direction, a, b[..|b| - 1]);
    } else {
      assert a + b == a;
    }
  }

  lemma HitsSnoc(fields: seq<bool>, direction: Direction, bs: seq<nat>, b: nat)
    requires GridSize(|fields|).Ok?
    ensures Hits(fields, direction, bs + [b]) == Hits(fields, direction, bs) + (if Completes(fields, direction, b) then 1 else 0)
  {
    assert (bs + [b])[..|bs|] == bs;
  }

  /** r*g lies no lower than (g-1)^2 for every row r above the last. */
  lemma AboveAntiCorner(g: int, r: int)
    requires 0 <= r < g - 1
    ensures r * g <= (g - 1) * (g - 1)
  {
    MulLe(r, g - 2, g);
    assert (g - 2) * g == g * g - 2 * g;
    assert (g - 1) * (g - 1) == g * g - 2 * g + 1;
  }

  /** From the first row only the corner starts a row. */
  lemma {:induction false} HitsRightFirstRow(fields: seq<bool>, m: nat)
    requires GridSize(|fields|).Ok?
    requires 1 <= m <= GridSize(|fields|).value
    ensures Hits(fields, Right, Range(m)) == (if RowFull(fields, GridSize(|fields|).value, 0) then 1 else 0)
  {
    HitsSnoc(fields, Right, Range(m - 1), m - 1);
    if m == 1 {
      RightFromFirstColumn(fields, 0);
    } else {
      HitsRightFirstRow(fields, m - 1);
      RightFromFirstRow(fields, m - 1);
    }
  }

  /** From the first row, each Down walk checks one column. */
  lemma {:induction false} HitsDownFirstRow(fields: seq<bool>, m: nat)
    requires GridSize(|fields|).Ok?
    requires m <= GridSize(|fields|).value
    ensures Hits(fields, Down, Range(m)) == FullColumns(fields, GridSize(|fields|).value, m)
  {
    if m > 0 {
      HitsSnoc(fields, Down, Range(m - 1), m - 1);
      HitsDownFirstRow(fields, m - 1);
      DownFromFirstRow(fields, m - 1);
    }
  }

  /** From the first row only the corner starts the diagonal. */
  lemma {:induction false} HitsRightDownFirstRow(fields: seq<bool>, m: nat)
    requires GridSize(|fields|).Ok?
    requires 1 <= m <= GridSize(|fields|).value
    ensures Hits(fields, RightDown, Range(m)) == (if DiagonalFull(fields, GridSize(|fields|).value) then 1 else 0)
  {
    HitsSnoc(fields, RightDown, Range(m - 1), m - 1);
    if m == 1 {
      RightDownFromCorner(fields);
    } else {
      HitsRightDownFirstRow(fields, m - 1);
      RightDownElsewhere(fields, m - 1);
    }
  }

  /** No RightUp walk from the first row completes. */
  lemma {:induction false} HitsRightUpFirstRow(fields: seq<bool>, m: nat)
    requires GridSize(|fields|).Ok?
    requires m <= GridSize(|fields|).value
    ensures Hits(fields, RightUp, Range(m)) == 0
  {
    if m > 0 {
      var g := GridSize(|fields|).value;
      HitsSnoc(fields, RightUp, Range(m - 1), m - 1);
      HitsRightUpFirstRow(fields, m - 1);
      MulBelow(g - 1, g - 1);
      RightUpElsewhere(fields, m - 1);
    }
  }

  /** Each Right walk down the first column checks one row. */
  lemma {:induction false} HitsRightFirstColumn(fields: seq<bool>, r: nat)
    requires GridSize(|fields|).Ok?
    requires r < GridSize(|fields|).value
    ensures var g := GridSize(|fields|).value;
      Hits(fields, Right, ColumnTail(g, r)) + (if RowFull(fields, g, 0) then 1 else 0) == FullRows(fields, g, r + 1)
  {
    var g := GridSize(|fields|).value;
    if r > 0 {
      HitsSnoc(fields, Right, ColumnTail(g, r - 1), r * g);
      HitsRightFirstColumn(fields, r - 1);
      RightFromFirstColumn(fields, r);
    }
  }

  /** No Down walk from below the corner completes. */
  lemma {:induction false} HitsDownFirstColumn(fields: seq<bool>, r: nat)
    requires GridSize(|fields|).Ok?
    requires r < GridSize(|fields|).value
    ensures Hits(fields, Down, ColumnTail(GridSize(|fields|).value, r)) == 0
  {
    var g := GridSize(|fields|).value;
    if r > 0 {
      HitsSnoc(fields, Down, ColumnTail(g, r - 1), r * g);
      HitsDownFirstColumn(fields, r - 1);
      DownFromFirstColumn(fields, r);
    }
  }

  /** No RightDown walk from below the corner completes. */
  lemma {:induction false} HitsRightDownFirstColumn(fields: seq<bool>, r: nat)
    requires GridSize(|fields|).Ok?
    requires r < GridSize(|fields|).value
    ensures Hits(fields, RightDown, ColumnTail(GridSize(|fields|).value, r)) == 0
  {
    var g := GridSize(|fields|).value;
    if r > 0 {
      HitsSnoc(fields, RightDown, ColumnTail(g, r - 1), r * g);
      HitsRightDownFirstColumn(fields, r - 1);
      MulBelow(r, g);
      RightDownElsewhere(fields, r * g);
    }
  }

  /** Down the first column, only the walk from the bottom-left corner can complete. */
  lemma {:induction false} HitsRightUpFirstColumn(fields: seq<bool>, r: nat)
    requires GridSize(|fields|).Ok?
    requires r < GridSize(|fields|).value
    ensures var g := GridSize(|fields|).value;
      Hits(fields, RightUp, ColumnTail(g, r)) == (if r == g - 1 && AntiDiagonalFull(fields, g) then 1 else 0)
  {
    var g := GridSize(|fields|).value;
    if r > 0 {
      HitsSnoc(fields, RightUp, ColumnTail(g, r - 1), r * g);
      HitsRightUpFirstColumn(fields, r - 1);
      if r < g - 1 {
        AboveAntiCorner(g, r);
        RightUpElsewhere(fields, r * g);
      } else {
        RightUpFromCorner(fields);
      }
    }
  }

  /** The Right walks from the border count the full rows. */
  lemma HitsRight(fields: seq<bool>)
    requires GridSize(|fields|).Ok?
    ensures var g := GridSize(|fields|).value;
      Hits(fields, Right, Range(g) + ColumnTail(g, g - 1)) == FullRows(fields, g, g)
  {
    var g := GridSize(|fields|).value;
    HitsAppend(fields, Right, Range(g), ColumnTail(g, g - 1));
    HitsRightFirstRow(fields, g);
    HitsRightFirstColumn(fields, g - 1);
  }

  /** The Down walks from the border count the full columns. */
  lemma HitsDown(fields: seq<bool>)
    requires GridSize(|fields|).Ok?
    ensures var g := GridSize(|fields|).value;
      Hits(fields, Down, Range(g) + ColumnTail(g, g - 1)) == FullColumns(fields, g, g)
  {
    var g := GridSize(|fields|).value;
    HitsAppend(fields, Down, Range(g), ColumnTail(g, g - 1));
    HitsDownFirstRow(fields, g);
    HitsDownFirstColumn(fields, g - 1);
  }

  /** The RightDown walks from the border count the diagonal. */
  lemma HitsRightDown(fields: seq<bool>)
    requires GridSize(|fields|).Ok?
    ensures var g := GridSize(|fields|).value;
      Hits(fields, RightDown, Range(g) + ColumnTail(g, g - 1)) == if DiagonalFull(fields, g) then 1 else 0
  {
    var g := GridSize(|fields|).value;
    HitsAppend(fields, RightDown, Range(g), ColumnTail(g, g - 1));
    HitsRightDownFirstRow(fields, g);
    HitsRightDownFirstColumn(fields, g - 1);
  }

  /** The RightUp walks from the border count the anti-diagonal. */
  lemma HitsRightUp(fields: seq<bool>)
    requires GridSize(|fields|).Ok?
    ensures var g := GridSize(|fields|).value;
      Hits(fields, RightUp, Range(g) + ColumnTail(g, g - 1)) == if AntiDiagonalFull(fields, g) then 1 else 0
  {
    var g := GridSize(|fields|).value;
    HitsAppend(fields, RightUp, Range(g), ColumnTail(g, g - 1));
    HitsRightUpFirstRow(fields, g);
    HitsRightUpFirstColumn(fields, g - 1);
  }

  /** The sum of Hits over several directions. */
  ghost function TotalHits(fields: seq<bool>, directions: seq<Direction>, bs: seq<nat>): nat
    requires GridSize(|fields|).Ok?
  {
    if directions == [] then 0
    else TotalHits(fields, directions[..|directions| - 1], bs) + Hits(fields, directions[|directions| - 1], bs)
  }

  lemma TotalHitsSame(fields: seq<bool>, directions: seq<Direction>, a: seq<nat>, b: seq<nat>)
    requires GridSize(|fields|).Ok?
    requires a == b
    ensures TotalHits(fields, directions, a) == TotalHits(fields, directions, b)
  {
  }

  lemma TotalHitsFour(fields: seq<bool>, bs: seq<nat>)
    requires GridSize(|fields|).Ok?
    ensures TotalHits(fields, [Right, Down, RightDown, RightUp], bs)
         == Hits(fields, Right, bs) + Hits(fields, Down, bs) + Hits(fields, RightDown, bs) + Hits(fields, RightUp, bs)
  {
    var ds := [Right, Down, RightDown, RightUp];
    assert ds[..3] == [Right, Down, RightDown];
    assert [Right, Down, RightDown][..2] == [Right, Down];
    assert [Right, Down][..1] == [Right];
    assert [Right][..0] == [];
    assert TotalHits(fields, [Right], bs) == Hits(fields, Right, bs);
    assert TotalHits(fields, [Right, Down], bs) == TotalHits(fields, [Right], bs) + Hits(fields, Down, bs);
    assert TotalHits(fields, [Right, Down, RightDown], bs)
        == TotalHits(fields, [Right, Down], bs) + Hits(fields, RightDown, bs);
    assert TotalHits(fields, ds, bs) == TotalHits(fields, [Right, Down, RightDown], bs) + Hits(fields, RightUp, bs);
  }

  /**
   * The walks in the four directions from all border cells complete exactly
   * once per full row, full column, full diagonal and full anti-diagonal.
   */
  lemma BorderWalksCountLines(fields: seq<bool>)
    requires GridSize(|fields|).Ok?
    ensures var g := GridSize(|fields|).value;
      TotalHits(fields, [Right, Down, RightDown, RightUp], BorderPrefix(g, g * g - 1)) == LineCount(fields)
  {
    var g := GridSize(|fields|).value;
    var ds := [Right, Down, RightDown, RightUp];
    BorderShape(g);
    TotalHitsSame(fields, ds, BorderPrefix(g, g * g - 1), Range(g) + ColumnTail(g, g - 1));
    BorderHitsCountLines(fields);
  }

  /** The same count, over the border cells listed as first row and first column. */
  lemma BorderHitsCountLines(fields: seq<bool>)
    requires GridSize(|fields|).Ok?
    ensures var g := GridSize(|fields|).value;
      TotalHits(fields, [Right, Down, RightDown, RightUp], Range(g) + ColumnTail(g, g - 1)) == LineCount(fields)
  {
    var g := GridSize(|fields|).value;
    TotalHitsFour(fields, Range(g) + ColumnTail(g, g - 1));
    HitsRight(fields);
    HitsDown(fields);
    HitsRightDown(fields);
    HitsRightUp(fields);
    LineCountOk(fields);
  }

  lemma LineCountOk(fields: seq<bool>)
    requires GridSize(|fields|).Ok?
    ensures var g := GridSize(|fields|).value;
      LineCount(fields) == FullRows(fields, g, g) + FullColumns(fields, g, g)
        + (if DiagonalFull(fields, g) then 1 else 0) + (if AntiDiagonalFull(fields, g) then 1 else 0)
  {
  }

  // ---------------------------------------------------------------------
  // Properties of the line count
  // ---------------------------------------------------------------------

  /** A board of invalid length has no line; a valid one has at most 2g + 2. */
  lemma LineCountBound(fields: seq<bool>)
    ensures GridSize(|fields|).Err? ==> LineCount(fields) == 0
    ensures GridSize(|fields|).Ok? ==> LineCount(fields) <= 2 * GridSize(|fields|).value + 2
  {
  }

  /** The board whose only unchecked cell is x (no unchecked cell when x is out of range). */
  ghost predicate OnlyFalseAt(fields: seq<bool>, x: int)
  {
    forall i :: 0 <= i < |fields| ==> (fields[i] <==> i != x)
  }

  /** Two cells of a board are the same exactly when their rows and columns are. */
  lemma CellInjective(g: int, r: int, c: int, r1: int, c1: int)
    requires 0 <= r && 0 <= c < g && 0 <= r1 && 0 <= c1 < g
    requires r * g + c == r1 * g + c1
    ensures r == r1 && c == c1
  {
    DivMod(g, r, c);
    DivMod(g, r1, c1);
  }

  /** On a board whose only unchecked cell is x, cell (r, c) is checked unless it is x. */
  lemma OneFalseCell(fields: seq<bool>, g: int, x: int, r: int, c: int)
    requires |fields| == g * g && 0 <= r < g && 0 <= c < g && OnlyFalseAt(fields, x)
    ensures Cell(fields, g, r, c) <==> r * g + c != x
  {
    CellBound(g, r, c);
    var i := r * g + c;
    assert fields[i] <==> i != x;
  }

  lemma RowFullOneFalse(fields: seq<bool>, g: int, x: int, row: int)
    requires |fields| == g * g && 0 <= row < g && OnlyFalseAt(fields, x)
    ensures RowFull(fields, g, row) <==> !(row * g <= x < row * g + g)
  {
    if row * g <= x < row * g + g {
      OneFalseCell(fields, g, x, row, x - row * g);
    } else {
      forall c | 0 <= c < g
        ensures Cell(fields, g, row, c)
      {
        OneFalseCell(fields, g, x, row, c);
      }
    }
  }

  lemma {:induction false} FullRowsOneFalse(fields: seq<bool>, g: int, x: int, r: nat)
    requires |fields| == g * g && r <= g && OnlyFalseAt(fields, x)
    ensures FullRows(fields, g, r) == r - (if 0 <= x < r * g then 1 else 0)
  {
    if r > 0 {
      FullRowsOneFalse(fields, g, x, r - 1);
      RowFullOneFalse(fields, g, x, r - 1);
      assert r * g == (r - 1) * g + g;
      assert 0 <= (r - 1) * g;
    }
  }

  lemma {:induction false} FullColumnsOneFalse(fields: seq<bool>, g: int, r0: int, c0: int, c: nat)
    requires |fields| == g * g && c <= g && 0 <= r0 < g && 0 <= c0 < g
    requires OnlyFalseAt(fields, r0 * g + c0)
    ensures FullColumns(fields, g, c) == c - (if c0 < c then 1 else 0)
  {
    if c > 0 {
      FullColumnsOneFalse(fields, g, r0, c0, c - 1);
      var col := c - 1;
      if col == c0 {
        OneFalseCell(fields, g, r0 * g + c0, r0, col);
      } else {
        forall r | 0 <= r < g
          ensures Cell(fields, g, r, col)
        {
          OneFalseCell(fields, g, r0 * g + c0, r, col);
          if r * g + col == r0 * g + c0 {
            CellInjective(g, r, col, r0, c0);
          }
        }
      }
    }
  }

  lemma DiagonalOneFalse(fields: seq<bool>, g: int, r0: int, c0: int)
    requires |fields| == g * g && 0 <= r0 < g && 0 <= c0 < g
    requires OnlyFalseAt(fields, r0 * g + c0)
    ensures DiagonalFull(fields, g) <==> r0 != c0
  {
    var x := r0 * g + c0;
    if r0 == c0 {
      OneFalseCell(fields, g, x, r0, r0);
    } else {
      forall k | 0 <= k < g
        ensures Cell(fields, g, k, k)
      {
        OneFalseCell(fields, g, x, k, k);
        if k * g + k == x {
          CellInjective(g, k, k, r0, c0);
        }
      }
    }
  }

  lemma AntiDiagonalOneFalse(fields: seq<bool>, g: int, r0: int, c0: int)
    requires |fields| == g * g && 0 <= r0 < g && 0 <= c0 < g
    requires OnlyFalseAt(fields, r0 * g + c0)
    ensures AntiDiagonalFull(fields, g) <==> r0 + c0 != g - 1
  {
    var x := r0 * g + c0;
    if r0 + c0 == g - 1 {
      OneFalseCell(fields, g, x, r0, c0);
      assert !AntiDiagonalCell(fields, g, c0);
    } else {
      forall k | 0 <= k < g
        ensures AntiDiagonalCell(fields, g, k)
      {
        OneFalseCell(fields, g, x, g - 1 - k, k);
        if (g - 1 - k) * g + k == x {
          CellInjective(g, g - 1 - k, k, r0, c0);
        }
      }
    }
  }

  /**
   * A board with the single unchecked cell (r0, c0) keeps every line but
   * its row and its column, and a diagonal unless the cell lies on it.
   */
  lemma LineCountOneFalse(fields: seq<bool>, r0: int, c0: int)
    requires GridSize(|fields|).Ok?
    requires 0 <= r0 < GridSize(|fields|).value && 0 <= c0 < GridSize(|fields|).value
    requires OnlyFalseAt(fields, r0 * GridSize(|fields|).value + c0)
    ensures var g := GridSize(|fields|).value;
      LineCount(fields) == 2 * (g - 1) + (if r0 != c0 then 1 else 0) + (if r0 + c0 != g - 1 then 1 else 0)
  {
    var g := GridSize(|fields|).value;
    CellBound(g, r0, c0);
    FullRowsOneFalse(fields, g, r0 * g + c0, g);
    FullColumnsOneFalse(fields, g, r0, c0, g);
    DiagonalOneFalse(fields, g, r0, c0);
    AntiDiagonalOneFalse(fields, g, r0, c0);
  }

  /** A fully checked board has every line: 2g + 2. */
  lemma LineCountAllTrue(fields: seq<bool>)
    requires GridSize(|fields|).Ok?
    requires forall i :: 0 <= i < |fields| ==> fields[i]
    ensures LineCount(fields) == 2 * GridSize(|fields|).value + 2
  {
    var g := GridSize(|fields|).value;
    assert OnlyFalseAt(fields, -1);
    FullRowsOneFalse(fields, g, -1, g);
    assert FullColumns(fields, g, g) == g by {
      FullColumnsAllTrue(fields, g, g);
    }
    forall k | 0 <= k < g
      ensures Cell(fields, g, k, k) && AntiDiagonalCell(fields, g, k)
    {
      CellBound(g, k, k);
      CellBound(g, g - 1 - k, k);
    }
  }

  lemma {:induction false} FullColumnsAllTrue(fields: seq<bool>, g: int, c: nat)
    requires |fields| == g * g && c <= g
    requires forall i :: 0 <= i < |fields| ==> fields[i]
    ensures FullColumns(fields, g, c) == c
  {
    if c > 0 {
      FullColumnsAllTrue(fields, g, c - 1);
      var col := c - 1;
      forall r | 0 <= r < g
        ensures Cell(fields, g, r, col)
      {
        CellBound(g, r, col);
      }
    }
  }

  /** On a 2 x 2 board the count is the sum of its six lines. */
  lemma LineCountTwoByTwo(a: bool, b: bool, c: bool, d: bool)
    ensures LineCount([a, b, c, d]) ==
      (if a && b then 1 else 0) + (if c && d then 1 else 0)
      + (if a && c then 1 else 0) + (if b && d then 1 else 0)
      + (if a && d then 1 else 0) + (if b && c then 1 else 0)
  {
    var fields := [a, b, c, d];
    assert GridSize(4) == Ok(2);
    assert Cell(fields, 2, 0, 0) == a && Cell(fields, 2, 0, 1) == b;
    assert Cell(fields, 2, 1, 0) == c && Cell(fields, 2, 1, 1) == d;
    assert AntiDiagonalCell(fields, 2, 0) == c && AntiDiagonalCell(fields, 2, 1) == b;
    assert RowFull(fields, 2, 0) == (a && b);
    assert RowFull(fields, 2, 1) == (c && d);
    assert ColumnFull(fields, 2, 0) == (a && c);
    assert ColumnFull(fields, 2, 1) == (b && d);
    assert DiagonalFull(fields, 2) == (a && d);
    assert AntiDiagonalFull(fields, 2) == (b && c);
    assert FullRows(fields, 2, 2) == (if a && b then 1 else 0) + (if c && d then 1 else 0);
    assert FullColumns(fields, 2, 2) == (if a && c then 1 else 0) + (if b && d then 1 else 0);
  }

  /** The asserted examples of `test_bingos` of invalid length or on a 2 x 2 board. */
  lemma LineCountExamples()
    ensures LineCount([]) == 0 && LineCount([false]) == 0 && LineCount([false, false]) == 0
    ensures LineCount([false, false, false]) == 0
    ensures LineCount(seq(5, i => false)) == 0 && LineCount(seq(6, i => false)) == 0
    ensures LineCount(seq(7, i => false)) == 0 && LineCount(seq(8, i => false)) == 0
    ensures LineCount([false, false, false, false]) == 0
    ensures LineCount([true, true, false, false]) == 1 && LineCount([false, false, true, true]) == 1
    ensures LineCount([true, false, false, true]) == 1 && LineCount([false, true, true, false]) == 1
    ensures LineCount([true, false, true, false]) == 1 && LineCount([false, true, false, true]) == 1
    ensures LineCount([true, true, true, true]) == 6
  {
    GridSizeExamples();
    LineCountTwoByTwo(false, false, false, false);
    LineCountTwoByTwo(true, true, false, false);
    LineCountTwoByTwo(false, false, true, true);
    LineCountTwoByTwo(true, false, false, true);
    LineCountTwoByTwo(false, true, true, false);
    LineCountTwoByTwo(true, false, true, false);
    LineCountTwoByTwo(false, true, false, true);
    LineCountTwoByTwo(true, true, true, true);
  }

  /** The asserted examples of `test_bingos` on boards of side 3 to 6. */
  lemma LineCountLargerExamples()
    ensures LineCount(seq(9, i => true)) == 8
    ensures LineCount(seq(16, i => true)) == 10
    ensures LineCount(seq(25, i => true)) == 12
    ensures LineCount(seq(25, i => i != 16)) == 9
    ensures LineCount(seq(25, i => i != 12)) == 8
    ensures LineCount(seq(36, i => true)) == 14
  {
    GridSizeExamples();
    assert GridSize(16) == Ok(4) && GridSize(25) == Ok(5) && GridSize(36) == Ok(6);
    LineCountAllTrue(seq(9, i => true));
    LineCountAllTrue(seq(16, i => true));
    LineCountAllTrue(seq(25, i => true));
    LineCountAllTrue(seq(36, i => true));
    LineCountOneFalse(seq(25, i => i != 16), 3, 1);
    LineCountOneFalse(seq(25, i => i != 12), 2, 2);
  }

  // ---------------------------------------------------------------------
  // The detector
  // ---------------------------------------------------------------------

  /** Counting the completed walks from one more start cell. */
  lemma HitsPrefixStep(fields: seq<bool>, direction: Direction, bs: seq<nat>, j: nat)
    requires GridSize(|fields|).Ok? && j < |bs|
    ensures Hits(fields, direction, bs[..j + 1]) == Hits(fields, direction, bs[..j]) + (if Completes(fields, direction, bs[j]) then 1 else 0)
  {
    assert bs[..j + 1] == bs[..j] + [bs[j]];
    HitsSnoc(fields, direction, bs[..j], bs[j]);
  }

  /** Summing the completed walks over one more direction. */
  lemma TotalHitsPrefixStep(fields: seq<bool>, directions: seq<Direction>, bs: seq<nat>, i: nat)
    requires GridSize(|fields|).Ok? && i < |directions|
    ensures TotalHits(fields, directions[..i + 1], bs) == TotalHits(fields, directions[..i], bs) + Hits(fields, directions[i], bs)
  {
    assert directions[..i + 1][..i] == directions[..i];
  }

  /**
   * `bingos`: walks from every border cell in the four directions and
   * counts the walks that visit grid-size checked cells. The count is the
   * number of completed lines; a board of invalid length has none.
   */
  method Bingos(fields: seq<bool>) returns (bingoAmount: nat)
    ensures bingoAmount == LineCount(fields)
  {
    var size := GridSize(|fields|);
    if size.Err? {
      return 0;
    }
    var gridSize := size.value;
    var directions := [Right, Down, RightDown, RightUp];

    var borderFields: seq<nat> := [];
    for n := 0 to |fields| - 1
      invariant borderFields == BorderPrefix(gridSize, n)
    {
      if n < gridSize || n % gridSize == 0 {
        borderFields := borderFields + [n];
      }
    }

    bingoAmount := 0;
    for i := 0 to |directions|
      invariant bingoAmount == TotalHits(fields, directions[..i], borderFields)
    {
      TotalHitsPrefixStep(fields, directions, borderFields, i);
      for j := 0 to |borderFields|
        invariant bingoAmount == TotalHits(fields, directions[..i], borderFields) + Hits(fields, directions[i], borderFields[..j])
      {
        HitsPrefixStep(fields, directions[i], borderFields, j);
        if Walk(fields, borderFields[j], borderFields[j], directions[i], 0, 0) == gridSize {
          bingoAmount := bingoAmount + 1;
        }
      }
      assert borderFields[..|borderFields|] == borderFields;
    }
    assert directions[..4] == directions;
    BorderWalksCountLines(fields);
  }
}
