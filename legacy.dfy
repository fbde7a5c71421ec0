/**
 * The earlier revision of the game handlers (api/src/handler/game.rs):
 * fixed 5x5 boards, their bingo count, their board view and ranking, and
 * a session loop that survives a dropped sender.
 */
module Legacy {
  import opened Types
  import opened Errors
  import opened Seqs
  import opened Body
  import opened Tables
  import opened Chunks
  import opened Fields
  import opened Players
  import opened WinDetector
  import opened Session

  /** Side length and size of every board of this revision. */
  const Side: nat := 5
  const BoardSize: nat := 25

  // ---------------------------------------------------------------------
  // calc_bingos
  // ---------------------------------------------------------------------

  /** Cell y of row x. */
  function RowCell(hits: seq<bool>, x: nat, y: nat): bool
    requires |hits| == BoardSize && x < Side && y < Side
  {
    hits[x * Side + y]
  }

  /** Cell y of column x. */
  function ColumnCell(hits: seq<bool>, x: nat, y: nat): bool
    requires |hits| == BoardSize && x < Side && y < Side
  {
    hits[x + y * Side]
  }

  /** The k-th cell of the diagonal: 0, 6, 12, 18, 24. */
  function DiagonalCell(hits: seq<bool>, k: nat): bool
    requires |hits| == BoardSize && k < Side
  {
    hits[6 * k]
  }

  /** The k-th cell of the anti-diagonal: 4, 8, 12, 16, 20. */
  function AntiDiagonalCellAt(hits: seq<bool>, k: nat): bool
    requires |hits| == BoardSize && k < Side
  {
    hits[4 * (k + 1)]
  }

  predicate RowComplete(hits: seq<bool>, x: nat)
    requires |hits| == BoardSize && x < Side
  {
    forall y: nat :: y < Side ==> RowCell(hits, x, y)
  }

  predicate ColumnComplete(hits: seq<bool>, x: nat)
    requires |hits| == BoardSize && x < Side
  {
    forall y: nat :: y < Side ==> ColumnCell(hits, x, y)
  }

  predicate DiagonalComplete(hits: seq<bool>)
    requires |hits| == BoardSize
  {
    forall k: nat :: k < Side ==> DiagonalCell(hits, k)
  }

  predicate AntiDiagonalComplete(hits: seq<bool>)
    requires |hits| == BoardSize
  {
    forall k: nat :: k < Side ==> AntiDiagonalCellAt(hits, k)
  }

  /** The number of complete rows among rows 0..x-1. */
  function CompleteRows(hits: seq<bool>, x: nat): (n: nat)
    requires |hits| == BoardSize && x <= Side
    ensures n <= x
  {
    if x == 0 then 0 else CompleteRows(hits, x - 1) + (if RowComplete(hits, x - 1) then 1 else 0)
  }

  /** The number of complete columns among columns 0..x-1. */
  function CompleteColumns(hits: seq<bool>, x: nat): (n: nat)
    requires |hits| == BoardSize && x <= Side
    ensures n <= x
  {
    if x == 0 then 0 else CompleteColumns(hits, x - 1) + (if ColumnComplete(hits, x - 1) then 1 else 0)
  }

  /** What `calc_bingos` counts: nothing unless there are 25 hits, else the complete lines. */
  function LegacyCount(hits: seq<bool>): (n: nat)
    ensures n <= 12
    ensures |hits| != BoardSize ==> n == 0
  {
    if |hits| != BoardSize then 0
    else
      CompleteRows(hits, Side) + CompleteColumns(hits, Side)
      + (if DiagonalComplete(hits) then 1 else 0) + (if AntiDiagonalComplete(hits) then 1 else 0)
  }

  /**
   * `calc_bingos`: counts full rows and columns with short-circuiting
   * scans, then the two diagonals with a running index n that starts at
   * -6 (stepping by 6) and at 0 (stepping by 4).
   */
  method CalcBingos(hits: seq<bool>) returns (bingos: int)
    ensures bingos == LegacyCount(hits)
  {
    if |hits| != BoardSize {
      return 0;
    }
    bingos := 0;
    for x := 0 to Side
      invariant bingos == CompleteRows(hits, x)
    {
      var row := x * Side;
      var y := 0;
      while y < Side && hits[row + y]
        invariant 0 <= y <= Side
        invariant forall j: nat :: j < y ==> RowCell(hits, x, j)
      {
        y := y + 1;
      }
      if y < Side {
        assert !RowCell(hits, x, y);
      }
      if y == Side {
        bingos := bingos + 1;
      }
    }
    ghost var rows := bingos;
    for x := 0 to Side
      invariant bingos == rows + CompleteColumns(hits, x)
    {
      var y := 0;
      while y < Side && hits[x + y * Side]
        invariant 0 <= y <= Side
        invariant forall j: nat :: j < y ==> ColumnCell(hits, x, j)
      {
        y := y + 1;
      }
      if y < Side {
        assert !ColumnCell(hits, x, y);
      }
      if y == Side {
        bingos := bingos + 1;
      }
    }
    var n := -6;
    var k := 0;
    var all := true;
    while k < Side && all
      invariant 0 <= k <= Side && n == 6 * k - 6
      invariant all <==> forall j: nat :: j < k ==> DiagonalCell(hits, j)
    {
      n := n + 6;
      all := hits[n];
      assert all == DiagonalCell(hits, k);
      k := k + 1;
    }
    if all {
      bingos := bingos + 1;
    }
    n, k, all := 0, 0, true;
    while k < Side && all
      invariant 0 <= k <= Side && n == 4 * k
      invariant all <==> forall j: nat :: j < k ==> AntiDiagonalCellAt(hits, j)
    {
      n := n + 4;
      all := hits[n];
      assert all == AntiDiagonalCellAt(hits, k);
      k := k + 1;
    }
    if all {
      bingos := bingos + 1;
    }
  }

  lemma {:induction false} CompleteRowsAgree(hits: seq<bool>, x: nat)
    requires |hits| == BoardSize && x <= Side
    ensures CompleteRows(hits, x) == FullRows(hits, Side, x)
  {
    if x > 0 {
      CompleteRowsAgree(hits, x - 1);
      var r := x - 1;
      if RowComplete(hits, r) {
        forall c | 0 <= c < Side
          ensures Cell(hits, Side, r, c)
        {
          assert RowCell(hits, r, c);
        }
      }
      if RowFull(hits, Side, r) {
        forall y: nat | y < Side
          ensures RowCell(hits, r, y)
        {
          assert Cell(hits, Side, r, y);
        }
      }
    }
  }

  lemma {:induction false} CompleteColumnsAgree(hits: seq<bool>, x: nat)
    requires |hits| == BoardSize && x <= Side
    ensures CompleteColumns(hits, x) == FullColumns(hits, Side, x)
  {
    if x > 0 {
      CompleteColumnsAgree(hits, x - 1);
      var c := x - 1;
      if ColumnComplete(hits, c) {
        forall r | 0 <= r < Side
          ensures Cell(hits, Side, r, c)
        {
          assert ColumnCell(hits, c, r);
        }
      }
      if ColumnFull(hits, Side, c) {
        forall y: nat | y < Side
          ensures ColumnCell(hits, c, y)
        {
          assert Cell(hits, Side, y, c);
        }
      }
    }
  }

  lemma DiagonalsAgree(hits: seq<bool>)
    requires |hits| == BoardSize
    ensures DiagonalComplete(hits) <==> DiagonalFull(hits, Side)
    ensures AntiDiagonalComplete(hits) <==> AntiDiagonalFull(hits, Side)
  {
    forall k | 0 <= k < Side
      ensures Cell(hits, Side, k, k) == DiagonalCell(hits, k)
      ensures AntiDiagonalCell(hits, Side, Side - 1 - k) == AntiDiagonalCellAt(hits, k)
    {
      assert (Side - 1 - (Side - 1 - k)) * Side + (Side - 1 - k) == 4 * (k + 1);
    }
    if AntiDiagonalFull(hits, Side) {
      forall k: nat | k < Side
        ensures AntiDiagonalCellAt(hits, k)
      {
        assert AntiDiagonalCell(hits, Side, Side - 1 - k);
      }
    }
    if AntiDiagonalComplete(hits) {
      forall k | 0 <= k < Side
        ensures AntiDiagonalCell(hits, Side, k)
      {
        var j: nat := Side - 1 - k;
        assert AntiDiagonalCellAt(hits, j);
        assert Side - 1 - j == k;
      }
    }
  }

  /** On 25 hits the fixed 5x5 count agrees with the detector of the current revision. */
  lemma LegacyCountAgreesWithDetector(hits: seq<bool>)
    requires |hits| == BoardSize
    ensures LegacyCount(hits) == LineCount(hits)
  {
    assert Square(5) == 25;
    assert GridSize(25) == Ok(5);
    CompleteRowsAgree(hits, Side);
    CompleteColumnsAgree(hits, Side);
    DiagonalsAgree(hits);
  }

  /** On a full 4x4 board the two revisions disagree: this one ignores every size but 25. */
  lemma LegacyIgnoresOtherSizes()
    ensures LegacyCount(seq(16, i => true)) == 0
    ensures LineCount(seq(16, i => true)) == 10
  {
    var full := seq(16, i => true);
    assert GridSize(16) == Ok(4);
    LineCountAllTrue(full);
  }

  // ---------------------------------------------------------------------
  // get_fields and create_fields
  // ---------------------------------------------------------------------

  /** The template ids of a new board: the first 25 of the shuffled template. */
  function Deal(ids: seq<Uuid>, picks: seq<nat>): (board: seq<Uuid>)
    requires |ids| >= BoardSize
    ensures |board| == BoardSize
    ensures multiset(board) <= multiset(ids)
  {
    var shuffled := Shuffle(ids, picks);
    assert shuffled == shuffled[..BoardSize] + shuffled[BoardSize..];
    shuffled[..BoardSize]
  }

  /** The tables after `create_fields` and the player insert of `get_fields`. */
  function Created(before: Snapshot, gameId: Uuid, userId: Uuid, board: seq<Uuid>): Snapshot
  {
    before.(
      fields := before.fields + NewFields(before.nextId, gameId, userId, board),
      players := before.players + [PlayerRow(userId, gameId, AnonymousPlayer)],
      nextId := before.nextId + |board|)
  }

  /** The board view of this revision: rows of five. */
  function FixedBoardOf(views: seq<FieldView>): seq<seq<FieldOut>>
  {
    Rows(Map(views, ToFieldOut), Side)
  }

  /**
   * `get_fields`: a user without fields in the game gets 25 fields drawn
   * from the shuffled template and an anonymous player row; then the
   * fields are listed in rows of five. Fewer than 25 templates make the
   * source panic on the slice, which the precondition rules out.
   */
  method GetFields(db: Database, gameTemplateId: Uuid, gameId: Uuid, userId: Uuid, picks: seq<nat>)
    returns (rows: seq<seq<FieldOut>>)
    requires |db.FieldViews(gameId, userId)| == 0 ==> |db.TemplateFieldIds(gameTemplateId)| >= BoardSize
    modifies db
    ensures |old(db.FieldViews(gameId, userId))| > 0 ==> db.State() == old(db.State())
    ensures |old(db.FieldViews(gameId, userId))| == 0 ==>
      db.State() == Created(old(db.State()), gameId, userId, Deal(old(db.TemplateFieldIds(gameTemplateId)), picks))
    ensures rows == FixedBoardOf(db.FieldViews(gameId, userId))
  {
    var existing := db.FieldViews(gameId, userId);
    if |existing| == 0 {
      var ids := db.TemplateFieldIds(gameTemplateId);
      var board := Deal(ids, picks);
      InsertFields(db, gameId, userId, board);
      db.InsertPlayer(userId, gameId, AnonymousPlayer);
    }
    var fields := Map(db.FieldViews(gameId, userId), ToFieldOut);
    rows := ChunkRows(fields, Side);
  }

  /** Rows of five: no field gives one empty row; 25 fields give five rows of five, in order. */
  lemma FixedBoardRows(items: seq<FieldOut>)
    ensures |items| == 0 ==> Rows(items, Side) == [[]]
    ensures |items| == BoardSize ==>
      |Rows(items, Side)| == Side
      && forall j :: 0 <= j < Side ==> Rows(items, Side)[j] == items[j * Side..j * Side + Side]
  {
    if |items| == BoardSize {
      assert (|items| - 1) / Side == 4;
      forall j | 0 <= j < 4
        ensures Rows(items, Side)[j] == items[j * Side..j * Side + Side]
      {
        FullChunksRow(items, Side, 4, j);
      }
    }
  }

  /** Created fields all show when the user had none and the board holds the template's ids. */
  lemma CreatedViews(before: Snapshot, gameTemplateId: Uuid, gameId: Uuid, userId: Uuid, board: seq<Uuid>)
    requires |ViewsIn(before, gameId, userId)| == 0
    requires multiset(board) <= multiset(TemplateIdsIn(before, gameTemplateId))
    ensures |ViewsIn(Created(before, gameId, userId, board), gameId, userId)| == |board|
  {
    var added := NewFields(before.nextId, gameId, userId, board);
    var keep := (f: FieldRow) => f.gameId == gameId && f.userId == userId;
    FilterAppend(before.fields, added, keep);
    FilterAll(added, keep);
    JoinAppend(FieldsOf(before.fields, gameId, userId), added, before.fieldTemplates);
    NewFieldsShown(before, gameTemplateId, gameId, userId, board);
  }

  /** A created board shows 25 fields, as five rows of five. */
  lemma CreatedBoardIsFiveByFive(before: Snapshot, gameTemplateId: Uuid, gameId: Uuid, userId: Uuid, picks: seq<nat>)
    requires |ViewsIn(before, gameId, userId)| == 0 && |TemplateIdsIn(before, gameTemplateId)| >= BoardSize
    ensures var after := Created(before, gameId, userId, Deal(TemplateIdsIn(before, gameTemplateId), picks));
      |ViewsIn(after, gameId, userId)| == BoardSize
      && |FixedBoardOf(ViewsIn(after, gameId, userId))| == Side
      && forall j :: 0 <= j < Side ==> |FixedBoardOf(ViewsIn(after, gameId, userId))[j]| == Side
  {
    var board := Deal(TemplateIdsIn(before, gameTemplateId), picks);
    var views := ViewsIn(Created(before, gameId, userId, board), gameId, userId);
    CreatedViews(before, gameTemplateId, gameId, userId, board);
    FixedBoardRows(Map(views, ToFieldOut));
  }

  // ---------------------------------------------------------------------
  // get_players
  // ---------------------------------------------------------------------

  /** The rows mapped to PlayerOut with the fixed 5x5 count, before sorting. */
  function LegacyScored(rows: seq<PlayerQueryRow>, userId: Uuid): (players: seq<PlayerOut>)
    ensures |players| == |rows|
  {
    seq(|rows|, i requires 0 <= i < |rows| => PlayerOutOf(rows[i], userId, LegacyCount(HitsOrEmpty(rows[i].hits))))
  }

  /** `get_players` of this revision: the same ranking, with bingos from `calc_bingos`. */
  method GetPlayers(db: Database, gameId: Uuid, userId: Uuid) returns (players: seq<PlayerOut>)
    ensures players == SortRanked(LegacyScored(db.PlayerRows(gameId), userId))
    ensures multiset(players) == multiset(LegacyScored(db.PlayerRows(gameId), userId))
    ensures Sorted(players)
  {
    var rows := db.PlayerRows(gameId);
    var scored: seq<PlayerOut> := [];
    for i := 0 to |rows|
      invariant scored == LegacyScored(rows[..i], userId)
    {
      var bingos := CalcBingos(HitsOrEmpty(rows[i].hits));
      scored := scored + [PlayerOutOf(rows[i], userId, bingos)];
    }
    assert rows[..|rows|] == rows;
    players := SortRanked(scored);
    SortRankedSorted(scored);
  }

  /** On 5x5 boards both revisions score every player alike. */
  lemma LegacyScoresAgree(rows: seq<PlayerQueryRow>, userId: Uuid)
    requires forall i :: 0 <= i < |rows| ==> |HitsOrEmpty(rows[i].hits)| == BoardSize
    ensures LegacyScored(rows, userId) == Scored(rows, userId)
  {
    forall i | 0 <= i < |rows|
      ensures LegacyScored(rows, userId)[i] == Scored(rows, userId)[i]
    {
      LegacyCountAgreesWithDetector(HitsOrEmpty(rows[i].hits));
    }
  }

  // ---------------------------------------------------------------------
  // The session loop
  // ---------------------------------------------------------------------

  /**
   * In this revision a dropped sender only logs. Every later wait on the
   * dropped channel fails at once as well, so the loop spins without
   * blocking and never ends: any number of dropped wakes sends nothing and
   * leaves the session running.
   */
  lemma {:induction false} DroppedSenderKeepsWaiting(fields: MessageOut, players: MessageOut, gameId: Uuid,
                                                     watermark: Timestamp, n: nat)
    ensures Run(fields, players, gameId, watermark, false, seq(n, i => Dropped)) == ([], Waiting)
  {
    if n > 0 {
      DroppedSenderKeepsWaiting(fields, players, gameId, watermark, n - 1);
      assert seq(n, i => Dropped)[1..] == seq(n - 1, i => Dropped);
    }
  }

  /** The current revision, given the same wakes, ends at the first dropped sender. */
  lemma CurrentRevisionStopsOnDrop(fields: MessageOut, players: MessageOut, gameId: Uuid, watermark: Timestamp, n: nat)
    requires n > 0
    ensures Run(fields, players, gameId, watermark, true, seq(n, i => Dropped)) == ([], Closed)
  {
  }
}
