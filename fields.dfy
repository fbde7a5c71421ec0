/**
 * A player's board (api/src/handler/game/field.rs): listing it as rows,
 * regenerating it from the game template, and toggling one field.
 */
module Fields {
  import opened Types
  import opened Errors
  import opened Text
  import opened Seqs
  import opened Arith
  import opened Body
  import opened Tables
  import opened Chunks

  const AnonymousPlayer: string := "Anonymous player"
  const GridSizeMessage: string := "Grid size must be grater than one and less than 9."

  function NotEnoughFieldsMessage(gridSize: int): string
  {
    "Template has not enough fields for grid size of " + IntToString(gridSize)
  }

  // ---------------------------------------------------------------------
  // Listing
  // ---------------------------------------------------------------------

  /** A selected field as the client sees it. */
  function ToFieldOut(v: FieldView): FieldOut
  {
    FieldOut(v.id, v.caption, 0, v.checked, false)
  }

  /** The rows `list_fields` answers for the selected fields: rows of floor(sqrt(len)) fields. */
  function BoardOf(views: seq<FieldView>): seq<seq<FieldOut>>
  {
    Rows(Map(views, ToFieldOut), FloorSqrt(|views|))
  }

  /**
   * `list_fields`: selects the user's fields of the game with their
   * captions and chunks them into rows of floor(sqrt(len)).
   */
  method ListFields(db: Database, gameId: Uuid, userId: Uuid) returns (rows: seq<seq<FieldOut>>)
    ensures rows == BoardOf(db.FieldViews(gameId, userId))
  {
    var fields := Map(db.FieldViews(gameId, userId), ToFieldOut);
    var gridSize := 0;
    if |fields| > 0 {
      gridSize := FloorSqrt(|fields|);
    }
    rows := ChunkRows(fields, gridSize);
  }

  /** No field gives one empty row. */
  lemma BoardOfEmpty()
    ensures BoardOf([]) == [[]]
  {
  }

  /** A single field comes after a leading empty row. */
  lemma BoardOfSingle(v: FieldView)
    ensures BoardOf([v]) == [[], [FieldOut(v.id, v.caption, 0, v.checked, false)]]
  {
    assert FloorSqrt(1) == 1;
    assert Map([v], ToFieldOut) == [ToFieldOut(v)];
  }

  /**
   * With two fields or more the rows hold the fields in order, every row
   * but the last floor(sqrt(len)) of them and the last 1..floor(sqrt(len));
   * every cell carries the caption as text, position 0 and no bingo.
   */
  lemma BoardOfMany(views: seq<FieldView>)
    requires |views| >= 2
    ensures var rows := BoardOf(views); var k := FloorSqrt(|views|);
      Flatten(rows) == Map(views, ToFieldOut)
      && (forall j :: 0 <= j < |rows| - 1 ==> |rows[j]| == k)
      && 1 <= |rows[|rows| - 1]| <= k
    ensures forall i :: 0 <= i < |views| ==>
      var f := Flatten(BoardOf(views))[i];
      f.id == views[i].id && f.text == views[i].caption && f.checked == views[i].checked
      && f.position == 0 && !f.bingo
  {
    var k := FloorSqrt(|views|);
    assert k < |views| by {
      if k >= |views| {
        assert k * k >= |views| * |views| by { MulLe(|views|, k, k); MulLe(|views|, k, |views|); }
        MulBelow(|views|, |views|);
        assert |views| * |views| > |views| by {
          assert |views| * |views| == |views| * (|views| - 1) + |views|;
          MulBelow(|views| - 1, |views|);
        }
      }
    }
    RowsFlatten(Map(views, ToFieldOut), k);
    RowsShape(Map(views, ToFieldOut), k);
  }

  /** A board of g * g fields (g >= 2) is shown as g rows of g. */
  lemma BoardOfSquare(views: seq<FieldView>, g: nat)
    requires g >= 2 && |views| == g * g
    ensures |BoardOf(views)| == g && forall j :: 0 <= j < g ==> |BoardOf(views)[j]| == g
  {
    FloorSqrtSquare(g);
    SquareAbove(g);
    LastRowIndex(g * g, g, g - 1);
    RowsShape(Map(views, ToFieldOut), g);
  }

  // ---------------------------------------------------------------------
  // Regeneration
  // ---------------------------------------------------------------------

  /**
   * Draws the elements of xs in a random order: picks[0] chooses the first
   * element among all, picks[1] the second among the rest, and so on; the
   * randomness of the source is the picks.
   */
  function Shuffle<T>(xs: seq<T>, picks: seq<nat>): (r: seq<T>)
    ensures multiset(r) == multiset(xs) && |r| == |xs|
    decreases |xs|
  {
    if |xs| == 0 then []
    else
      var j := (if |picks| > 0 then picks[0] else 0) % |xs|;
      var rest := xs[..j] + xs[j + 1..];
      assert xs == xs[..j] + [xs[j]] + xs[j + 1..];
      [xs[j]] + Shuffle(rest, if |picks| > 0 then picks[1..] else [])
  }

  /** The template ids of a new board: the first gridSize^2 of the shuffled template. */
  function Draw(ids: seq<Uuid>, picks: seq<nat>, gridSize: int): (board: seq<Uuid>)
    requires GridSizeInRange(gridSize) && SliceInBounds(|ids|, gridSize)
    ensures |board| == gridSize * gridSize
    ensures multiset(board) <= multiset(ids)
  {
    var shuffled := Shuffle(ids, picks);
    assert shuffled == shuffled[..gridSize * gridSize] + shuffled[gridSize * gridSize..];
    shuffled[..gridSize * gridSize]
  }

  /** The field rows inserted for a board, one per field template, numbered from firstId. */
  function NewFields(firstId: Uuid, gameId: Uuid, userId: Uuid, templateIds: seq<Uuid>): (r: seq<FieldRow>)
    ensures |r| == |templateIds|
  {
    seq(|templateIds|, i requires 0 <= i < |templateIds| =>
      FieldRow(firstId + i, gameId, templateIds[i], i, userId, false))
  }

  /** Inserts one unchecked field per template id, at positions 0, 1, ... in order. */
  method InsertFields(db: Database, gameId: Uuid, userId: Uuid, templateIds: seq<Uuid>)
    modifies db
    ensures db.State() == old(db.State()).(
      fields := old(db.fields) + NewFields(old(db.nextId), gameId, userId, templateIds),
      nextId := old(db.nextId) + |templateIds|)
  {
    for i := 0 to |templateIds|
      invariant db.State() == old(db.State()).(
        fields := old(db.fields) + NewFields(old(db.nextId), gameId, userId, templateIds[..i]),
        nextId := old(db.nextId) + i)
    {
      db.InsertField(gameId, templateIds[i], i, userId);
      assert NewFields(old(db.nextId), gameId, userId, templateIds[..i + 1])
        == NewFields(old(db.nextId), gameId, userId, templateIds[..i])
           + [FieldRow(old(db.nextId) + i, gameId, templateIds[i], i, userId, false)];
    }
    assert templateIds[..|templateIds|] == templateIds;
  }

  /** The ids of selected fields. */
  function IdsOf(views: seq<FieldView>): seq<Uuid>
  {
    Map(views, (v: FieldView) => v.id)
  }

  /** Whether the existing board is replaced: it is empty or shorter than the side length. */
  predicate NeedsRegeneration(existing: nat, gridSize: int)
  {
    existing == 0 || existing < gridSize
  }

  /** The template check of the source: fewer field templates than the side length. */
  predicate TemplateGuardAsWritten(count: nat, gridSize: int)
  {
    count < gridSize
  }

  predicate GridSizeInRange(gridSize: int)
  {
    2 <= gridSize <= 8
  }

  /** Whether a board of side gridSize can be sliced from count field templates. */
  predicate SliceInBounds(count: nat, gridSize: int)
  {
    gridSize * gridSize <= count
  }

  /**
   * The tables once the old board and the user's player row are deleted
   * and an anonymous player row is appended.
   */
  function Cleared(before: Snapshot, gameId: Uuid, userId: Uuid, existingIds: seq<Uuid>): Snapshot
  {
    before.(
      fields := FieldsWithoutIds(before.fields, existingIds),
      players := PlayersOutside(before.players, [gameId], Some(userId)) + [PlayerRow(userId, gameId, AnonymousPlayer)])
  }

  /** The tables after a board is regenerated: the cleared tables with the new fields appended. */
  function Regenerated(before: Snapshot, gameId: Uuid, userId: Uuid, existingIds: seq<Uuid>, board: seq<Uuid>): Snapshot
  {
    var cleared := Cleared(before, gameId, userId, existingIds);
    cleared.(
      fields := cleared.fields + NewFields(before.nextId, gameId, userId, board),
      nextId := before.nextId + |board|)
  }

  /** What preparing a board leaves: an answer and the tables, or a panic and the tables written so far. */
  datatype Preparation =
    | Answered(state: Snapshot, result: Result<seq<seq<FieldOut>>>)
    | Panicked(state: Snapshot)

  /**
   * `prepare_fields` as the source writes it: the template is checked
   * against the side length N only, so a template of N..N^2-1 fields gets
   * past the checks, the deletes and the insert run, and the slice of N^2
   * ids then panics.
   */
  function PrepareAsWritten(s: Snapshot, gameTemplateId: Uuid, gameId: Uuid, userId: Uuid, gridSize: int, picks: seq<nat>): Preparation
  {
    var existing := ViewsIn(s, gameId, userId);
    var ids := TemplateIdsIn(s, gameTemplateId);
    if !NeedsRegeneration(|existing|, gridSize) then Answered(s, Ok(BoardOf(existing)))
    else if TemplateGuardAsWritten(|ids|, gridSize) then Answered(s, Err(BadRequest(NotEnoughFieldsMessage(gridSize))))
    else if !GridSizeInRange(gridSize) then Answered(s, Err(BadRequest(GridSizeMessage)))
    else if !SliceInBounds(|ids|, gridSize) then Panicked(Cleared(s, gameId, userId, IdsOf(existing)))
    else
      var after := Regenerated(s, gameId, userId, IdsOf(existing), Draw(ids, picks, gridSize));
      Answered(after, Ok(BoardOf(ViewsIn(after, gameId, userId))))
  }

  /**
   * `prepare_fields` with the template also checked against N^2 before any
   * write: where the source panics, it answers that the template has not
   * enough fields and leaves the tables as they were.
   */
  function PrepareCorrected(s: Snapshot, gameTemplateId: Uuid, gameId: Uuid, userId: Uuid, gridSize: int, picks: seq<nat>): (p: Preparation)
    ensures p.Answered?
  {
    match PrepareAsWritten(s, gameTemplateId, gameId, userId, gridSize, picks)
    case Panicked(_) => Answered(s, Err(BadRequest(NotEnoughFieldsMessage(gridSize))))
    case Answered(after, result) => Answered(after, result)
  }

  /**
   * `prepare_fields`. The access handlers call `create_fields_for_player`,
   * which the source does not define; this model assumes it is this
   * operation run on the caller's connection. The operation keeps a board of at least gridSize fields, and otherwise
   * checks the template and the grid size, deletes the old board and the
   * user's player row, inserts an anonymous player and gridSize^2 fields
   * drawn from the shuffled template, and lists the board. A template of
   * gridSize..gridSize^2-1 fields, on which the source panics after its
   * writes, is rejected before them.
   */
  method PrepareFields(db: Database, gameTemplateId: Uuid, gameId: Uuid, userId: Uuid, gridSize: int, picks: seq<nat>)
    returns (r: Result<seq<seq<FieldOut>>>)
    modifies db
    ensures Answered(db.State(), r) == PrepareCorrected(old(db.State()), gameTemplateId, gameId, userId, gridSize, picks)
  {
    ghost var before := db.State();
    var existing := db.FieldViews(gameId, userId);
    if |existing| == 0 || |existing| < gridSize {
      var ids := db.TemplateFieldIds(gameTemplateId);
      if |ids| < gridSize {
        return Err(BadRequest(NotEnoughFieldsMessage(gridSize)));
      }
      if !(2 <= gridSize <= 8) {
        return Err(BadRequest(GridSizeMessage));
      }
      if |ids| < gridSize * gridSize {
        assert PrepareAsWritten(before, gameTemplateId, gameId, userId, gridSize, picks).Panicked?;
        return Err(BadRequest(NotEnoughFieldsMessage(gridSize)));
      }
      var existingIds := IdsOf(existing);
      db.DeleteFieldsWithIds(existingIds);
      db.DeletePlayersIn([gameId], Some(userId));
      db.InsertPlayer(userId, gameId, AnonymousPlayer);
      assert db.State() == Cleared(before, gameId, userId, existingIds);
      var board := Draw(ids, picks, gridSize);
      InsertFields(db, gameId, userId, board);
      assert db.State() == Regenerated(before, gameId, userId, existingIds, board);
    }
    var rows := ListFields(db, gameId, userId);
    return Ok(rows);
  }

  /**
   * The new rows carry the drawn template ids in order, at positions
   * 0..len-1, unchecked, in the user's game.
   */
  lemma NewFieldsLayout(firstId: Uuid, gameId: Uuid, userId: Uuid, board: seq<Uuid>)
    ensures var rows := NewFields(firstId, gameId, userId, board);
      Map(rows, (f: FieldRow) => f.fieldTemplateId) == board
      && (forall i :: 0 <= i < |rows| ==>
            rows[i].position == i && rows[i].gameId == gameId && rows[i].userId == userId && !rows[i].checked)
  {
  }

  lemma IdsOfShows(views: seq<FieldView>, v: FieldView)
    requires v in views
    ensures v.id in IdsOf(views)
  {
    var i :| 0 <= i < |views| && views[i] == v;
    assert IdsOf(views)[i] == v.id;
  }

  /** Every id of the drawn board names a field template of the game template. */
  lemma BoardTemplatesExist(before: Snapshot, gameTemplateId: Uuid, board: seq<Uuid>)
    requires multiset(board) <= multiset(TemplateIdsIn(before, gameTemplateId))
    ensures forall x :: x in board ==> CaptionOf(before.fieldTemplates, x).Some?
  {
    var ts := Filter(before.fieldTemplates, (ft: FieldTemplateRow) => ft.gameTemplateId == gameTemplateId);
    forall x | x in board
      ensures CaptionOf(before.fieldTemplates, x).Some?
    {
      assert x in multiset(board);
      assert x in TemplateIdsIn(before, gameTemplateId);
      var i :| 0 <= i < |ts| && ts[i].id == x;
      assert ts[i] in before.fieldTemplates;
    }
  }

  /** A field whose template exists shows under its id. */
  lemma ShownId(fields: seq<FieldRow>, templates: seq<FieldTemplateRow>, f: FieldRow)
    requires f in fields
    ensures CaptionOf(templates, f.fieldTemplateId).Some? ==> f.id in IdsOf(JoinCaptions(fields, templates))
  {
    if CaptionOf(templates, f.fieldTemplateId).Some? {
      JoinShows(fields, templates, f);
      var v :| v in JoinCaptions(fields, templates) && v.id == f.id;
      IdsOfShows(JoinCaptions(fields, templates), v);
    }
  }

  /** What survives the deletion of the listed board no longer shows. */
  lemma KeptFieldsHidden(before: Snapshot, gameId: Uuid, userId: Uuid)
    ensures var existing := ViewsIn(before, gameId, userId);
      JoinCaptions(FieldsOf(FieldsWithoutIds(before.fields, IdsOf(existing)), gameId, userId), before.fieldTemplates) == []
  {
    var existing := ViewsIn(before, gameId, userId);
    var kept := FieldsOf(FieldsWithoutIds(before.fields, IdsOf(existing)), gameId, userId);
    forall f | f in kept
      ensures CaptionOf(before.fieldTemplates, f.fieldTemplateId).None?
    {
      assert f in FieldsOf(before.fields, gameId, userId) && f.id !in IdsOf(existing);
      ShownId(FieldsOf(before.fields, gameId, userId), before.fieldTemplates, f);
    }
    JoinNoTemplate(kept, before.fieldTemplates);
  }

  /** Every new field shows, its template being one of the game template's. */
  lemma NewFieldsShown(before: Snapshot, gameTemplateId: Uuid, gameId: Uuid, userId: Uuid, board: seq<Uuid>)
    requires multiset(board) <= multiset(TemplateIdsIn(before, gameTemplateId))
    ensures |JoinCaptions(NewFields(before.nextId, gameId, userId, board), before.fieldTemplates)| == |board|
  {
    var added := NewFields(before.nextId, gameId, userId, board);
    BoardTemplatesExist(before, gameTemplateId, board);
    forall f | f in added
      ensures CaptionOf(before.fieldTemplates, f.fieldTemplateId).Some?
    {
      var i :| 0 <= i < |added| && added[i] == f;
      assert f.fieldTemplateId == board[i];
    }
    JoinAllTemplates(added, before.fieldTemplates);
  }

  /**
   * After a regeneration the user's board in the game is exactly the new
   * fields: nothing of the old board shows any more, and every new field
   * shows with its caption.
   */
  lemma RegeneratedViews(before: Snapshot, gameTemplateId: Uuid, gameId: Uuid, userId: Uuid, board: seq<Uuid>)
    requires multiset(board) <= multiset(TemplateIdsIn(before, gameTemplateId))
    ensures var existing := ViewsIn(before, gameId, userId);
      ViewsIn(Regenerated(before, gameId, userId, IdsOf(existing), board), gameId, userId)
        == JoinCaptions(NewFields(before.nextId, gameId, userId, board), before.fieldTemplates)
    ensures var existing := ViewsIn(before, gameId, userId);
      |ViewsIn(Regenerated(before, gameId, userId, IdsOf(existing), board), gameId, userId)| == |board|
  {
    var existing := ViewsIn(before, gameId, userId);
    var kept := FieldsWithoutIds(before.fields, IdsOf(existing));
    var added := NewFields(before.nextId, gameId, userId, board);
    FilterAppend(kept, added, (f: FieldRow) => f.gameId == gameId && f.userId == userId);
    FilterAll(added, (f: FieldRow) => f.gameId == gameId && f.userId == userId);
    assert FieldsOf(kept + added, gameId, userId) == FieldsOf(kept, gameId, userId) + added;
    JoinAppend(FieldsOf(kept, gameId, userId), added, before.fieldTemplates);
    KeptFieldsHidden(before, gameId, userId);
    var shown := JoinCaptions(added, before.fieldTemplates);
    assert [] + shown == shown;
    NewFieldsShown(before, gameTemplateId, gameId, userId, board);
  }

  /**
   * Regeneration leaves the user exactly one kind of player row in the
   * game, the anonymous one, and keeps every other player row.
   */
  lemma RegeneratedPlayers(before: Snapshot, gameId: Uuid, userId: Uuid, existingIds: seq<Uuid>, board: seq<Uuid>)
    ensures var after := Regenerated(before, gameId, userId, existingIds, board).players;
      PlayerRow(userId, gameId, AnonymousPlayer) in after
      && (forall p :: p in after && p.gameId == gameId && p.userId == userId ==> p.username == AnonymousPlayer)
      && (forall p :: p in before.players && !(p.gameId == gameId && p.userId == userId) ==> p in after)
  {
  }

  /** A successful regeneration shows a board of gridSize rows of gridSize fields. */
  lemma RegeneratedBoardIsSquare(before: Snapshot, gameTemplateId: Uuid, gameId: Uuid, userId: Uuid, gridSize: int, picks: seq<nat>)
    requires GridSizeInRange(gridSize)
    requires SliceInBounds(|TemplateIdsIn(before, gameTemplateId)|, gridSize)
    ensures var ids := TemplateIdsIn(before, gameTemplateId);
      var existing := ViewsIn(before, gameId, userId);
      var after := Regenerated(before, gameId, userId, IdsOf(existing), Draw(ids, picks, gridSize));
      var rows := BoardOf(ViewsIn(after, gameId, userId));
      |rows| == gridSize && forall j :: 0 <= j < gridSize ==> |rows[j]| == gridSize
  {
    var ids := TemplateIdsIn(before, gameTemplateId);
    var board := Draw(ids, picks, gridSize);
    RegeneratedViews(before, gameTemplateId, gameId, userId, board);
    var existing := ViewsIn(before, gameId, userId);
    var after := Regenerated(before, gameId, userId, IdsOf(existing), board);
    BoardOfSquare(ViewsIn(after, gameId, userId), gridSize);
  }

  // ---------------------------------------------------------------------
  // The regeneration guard as the source writes it, and the correction
  // ---------------------------------------------------------------------

  /**
   * The source panics exactly when a board is due, the side length is in
   * 2..8 and the template has at least N but fewer than N^2 fields.
   */
  lemma AsWrittenPanicsExactly(s: Snapshot, gameTemplateId: Uuid, gameId: Uuid, userId: Uuid, gridSize: int, picks: seq<nat>)
    ensures var existing := ViewsIn(s, gameId, userId);
      var count := |TemplateIdsIn(s, gameTemplateId)|;
      PrepareAsWritten(s, gameTemplateId, gameId, userId, gridSize, picks).Panicked?
      <==> (NeedsRegeneration(|existing|, gridSize) && 2 <= gridSize <= 8 && gridSize <= count < gridSize * gridSize)
  {
  }

  /**
   * After the deletes and the insert, the user's only player rows in the
   * game are anonymous ones, and every row of the user there under
   * another name is gone.
   */
  lemma ClearedPlayers(s: Snapshot, gameId: Uuid, userId: Uuid, existingIds: seq<Uuid>)
    ensures var after := Cleared(s, gameId, userId, existingIds).players;
      PlayerRow(userId, gameId, AnonymousPlayer) in after
      && forall p :: p in after && p.gameId == gameId && p.userId == userId ==> p.username == AnonymousPlayer
  {
  }

  /**
   * When the source panics, its writes have already happened: the user has
   * no board and is an anonymous player in the game, so a user who had a
   * board or another name finds the tables changed.
   */
  lemma PanicFollowsWrites(s: Snapshot, gameTemplateId: Uuid, gameId: Uuid, userId: Uuid, gridSize: int, picks: seq<nat>)
    requires PrepareAsWritten(s, gameTemplateId, gameId, userId, gridSize, picks).Panicked?
    ensures var after := PrepareAsWritten(s, gameTemplateId, gameId, userId, gridSize, picks).state;
      ViewsIn(after, gameId, userId) == []
      && PlayerRow(userId, gameId, AnonymousPlayer) in after.players
      && (forall p :: p in after.players && p.gameId == gameId && p.userId == userId ==> p.username == AnonymousPlayer)
    ensures var after := PrepareAsWritten(s, gameTemplateId, gameId, userId, gridSize, picks).state;
      ViewsIn(s, gameId, userId) != []
      || (exists p :: p in s.players && p.gameId == gameId && p.userId == userId && p.username != AnonymousPlayer)
      ==> after != s
  {
    var existing := ViewsIn(s, gameId, userId);
    var after := Cleared(s, gameId, userId, IdsOf(existing));
    assert PrepareAsWritten(s, gameTemplateId, gameId, userId, gridSize, picks).state == after;
    KeptFieldsHidden(s, gameId, userId);
    assert ViewsIn(after, gameId, userId) == [];
    ClearedPlayers(s, gameId, userId, IdsOf(existing));
  }

  /**
   * A user with a name of their own and no board in a 3 x 3 game whose
   * template has 5 fields: the source deletes their player row, inserts an
   * anonymous one and then panics on the slice of 9 ids.
   */
  lemma ShortTemplatePanics(s: Snapshot, gameTemplateId: Uuid, gameId: Uuid, userId: Uuid, name: string, picks: seq<nat>)
    requires |TemplateIdsIn(s, gameTemplateId)| == 5 && ViewsIn(s, gameId, userId) == []
    requires PlayerRow(userId, gameId, name) in s.players && name != AnonymousPlayer
    ensures var p := PrepareAsWritten(s, gameTemplateId, gameId, userId, 3, picks);
      p.Panicked? && p.state != s
  {
    AsWrittenPanicsExactly(s, gameTemplateId, gameId, userId, 3, picks);
    PanicFollowsWrites(s, gameTemplateId, gameId, userId, 3, picks);
  }

  /**
   * The corrected preparation rejects exactly when a board is due and the
   * side length is out of range or the template has fewer than N^2 fields,
   * and a rejection leaves the tables as they were.
   */
  lemma PrepareCorrectedRejects(s: Snapshot, gameTemplateId: Uuid, gameId: Uuid, userId: Uuid, gridSize: int, picks: seq<nat>)
    ensures var p := PrepareCorrected(s, gameTemplateId, gameId, userId, gridSize, picks);
      var count := |TemplateIdsIn(s, gameTemplateId)|;
      var due := NeedsRegeneration(|ViewsIn(s, gameId, userId)|, gridSize);
      (p.result.Err? <==> due && (!GridSizeInRange(gridSize) || !SliceInBounds(count, gridSize)))
      && (p.result.Err? ==> p.state == s)
  {
    var count := |TemplateIdsIn(s, gameTemplateId)|;
    if TemplateGuardAsWritten(count, gridSize) && GridSizeInRange(gridSize) {
      MulBelow(gridSize, gridSize);
    }
  }

  /** A regeneration by the corrected preparation lists a board of N rows of N. */
  lemma PrepareCorrectedSquare(s: Snapshot, gameTemplateId: Uuid, gameId: Uuid, userId: Uuid, gridSize: int, picks: seq<nat>)
    ensures var p := PrepareCorrected(s, gameTemplateId, gameId, userId, gridSize, picks);
      p.result.Ok? && NeedsRegeneration(|ViewsIn(s, gameId, userId)|, gridSize) ==>
        |p.result.value| == gridSize && forall j :: 0 <= j < gridSize ==> |p.result.value[j]| == gridSize
  {
    var count := |TemplateIdsIn(s, gameTemplateId)|;
    if NeedsRegeneration(|ViewsIn(s, gameId, userId)|, gridSize) && GridSizeInRange(gridSize) && SliceInBounds(count, gridSize) {
      RegeneratedBoardIsSquare(s, gameTemplateId, gameId, userId, gridSize, picks);
    }
  }

  /** Wherever the source does not panic, the corrected preparation does what it does. */
  lemma CorrectedAgreesWithWritten(s: Snapshot, gameTemplateId: Uuid, gameId: Uuid, userId: Uuid, gridSize: int, picks: seq<nat>)
    ensures var w := PrepareAsWritten(s, gameTemplateId, gameId, userId, gridSize, picks);
      !w.Panicked? ==> PrepareCorrected(s, gameTemplateId, gameId, userId, gridSize, picks) == w
  {
  }

  // ---------------------------------------------------------------------
  // Toggling a field
  // ---------------------------------------------------------------------

  /** Whether the user owns a field with this id in a game that is not closed. */
  predicate OwnsOpenField(s: Snapshot, id: Uuid, userId: Uuid)
  {
    exists i, j :: 0 <= i < |s.fields| && 0 <= j < |s.games|
      && s.fields[i].id == id && s.fields[i].userId == userId
      && s.games[j].id == s.fields[i].gameId && !s.games[j].closed
  }

  /** Every field with this id has its checked flag flipped. */
  function Toggled(fields: seq<FieldRow>, id: Uuid): (r: seq<FieldRow>)
    ensures |r| == |fields|
  {
    seq(|fields|, i requires 0 <= i < |fields| =>
      if fields[i].id == id then fields[i].(checked := !fields[i].checked) else fields[i])
  }

  /** Toggling the same field twice restores the board. */
  lemma ToggledTwice(fields: seq<FieldRow>, id: Uuid)
    ensures Toggled(Toggled(fields, id), id) == fields
  {
  }

  /** Toggling changes the checked flag of the field with this id and nothing else. */
  lemma ToggledOnly(fields: seq<FieldRow>, id: Uuid)
    ensures forall i :: 0 <= i < |fields| ==>
      Toggled(fields, id)[i].(checked := fields[i].checked) == fields[i]
      && (Toggled(fields, id)[i].checked != fields[i].checked <==> fields[i].id == id)
  {
  }

  /**
   * `handle_update_field`: a user may flip a field of theirs in an open
   * game; any other id is not found and changes nothing.
   */
  method UpdateField(db: Database, userId: Uuid, id: Uuid) returns (r: Result<()>)
    modifies db
    ensures OwnsOpenField(old(db.State()), id, userId) ==>
      r == Ok(()) && db.State() == old(db.State()).(fields := Toggled(old(db.fields), id))
    ensures !OwnsOpenField(old(db.State()), id, userId) ==>
      r == Err(NotFound) && db.State() == old(db.State())
  {
    if !OwnsOpenField(db.State(), id, userId) {
      return Err(FromSqlx(RowNotFound));
    }
    db.fields := Toggled(db.fields, id);
    return Ok(());
  }
}
