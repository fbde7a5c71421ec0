/**
 * Starting, joining and leaving games (api/src/handler/game/access.rs).
 */
module Access {
  import opened Types
  import opened Errors
  import opened Text
  import opened Seqs
  import opened Body
  import opened Tables
  import opened Fields
  import opened Players

  const UnknownUsername: string := "unknown"
  const AccessCodeLength: nat := 16

  function NotEnoughTemplateFieldsMessage(fieldAmount: nat, gridSize: int): string
  {
    "Game template has not enough fields (" + IntToString(fieldAmount)
    + ") for the selected grid size of " + IntToString(gridSize) + "."
  }

  /**
   * A fresh access code: 16 characters sampled from the 62 ASCII letters
   * and digits; draws are the sampler's random numbers.
   */
  function AccessCode(draws: seq<nat>): (code: string)
    ensures |code| == AccessCodeLength
    ensures forall i :: 0 <= i < |code| ==> code[i] in Alphanumeric
  {
    seq(AccessCodeLength, i requires 0 <= i < AccessCodeLength =>
      Alphanumeric[(if i < |draws| then draws[i] else 0) % |Alphanumeric|])
  }

  /** The position of c in s. */
  function IndexOf(s: string, c: char): (k: nat)
    requires c in s
    ensures k < |s| && s[k] == c
  {
    if s[0] == c then 0 else 1 + IndexOf(s[1..], c)
  }

  /** Drawing the index of c (modulo the alphabet's size) yields c. */
  lemma DrawIndexOf(alphabet: string, c: char)
    requires c in alphabet
    ensures alphabet[IndexOf(alphabet, c) % |alphabet|] == c
  {
    var k := IndexOf(alphabet, c);
    assert k % |alphabet| == k;
  }

  /** Every 16-character code of letters and digits can be drawn. */
  lemma AccessCodeCoversAll(code: string)
    requires |code| == AccessCodeLength
    requires forall i :: 0 <= i < |code| ==> code[i] in Alphanumeric
    ensures AccessCode(seq(AccessCodeLength, i requires 0 <= i < AccessCodeLength => IndexOf(Alphanumeric, code[i]))) == code
  {
    var draws := seq(AccessCodeLength, i requires 0 <= i < AccessCodeLength => IndexOf(Alphanumeric, code[i]));
    forall i | 0 <= i < AccessCodeLength
      ensures AccessCode(draws)[i] == code[i]
    {
      DrawIndexOf(Alphanumeric, code[i]);
    }
  }

  /** The username of the first player flagged as the caller, or "unknown". */
  function UsernameOf(players: seq<PlayerOut>): (name: string)
    ensures (forall i :: 0 <= i < |players| ==> !players[i].isMe) ==> name == UnknownUsername
    ensures forall i :: 0 <= i < |players| && players[i].isMe && (forall j :: 0 <= j < i ==> !players[j].isMe) ==>
      name == players[i].username
  {
    if |players| == 0 then UnknownUsername
    else if players[0].isMe then players[0].username
    else
      var rest := players[1..];
      assert forall i :: 1 <= i < |players| ==> players[i] == rest[i - 1];
      UsernameOf(rest)
  }

  // ---------------------------------------------------------------------
  // What preparing a board does, stated on snapshots
  // ---------------------------------------------------------------------

  /** The error `create_fields_for_player` returns on this state, if any (with the corrected template check). */
  function PrepareError(s: Snapshot, gameTemplateId: Uuid, gameId: Uuid, userId: Uuid, gridSize: int, picks: seq<nat>): Option<Error>
  {
    var p := PrepareCorrected(s, gameTemplateId, gameId, userId, gridSize, picks);
    if p.result.Err? then Some(p.result.error) else None
  }

  /** The tables `create_fields_for_player` leaves (with the corrected template check). */
  function Prepared(s: Snapshot, gameTemplateId: Uuid, gameId: Uuid, userId: Uuid, gridSize: int, picks: seq<nat>): Snapshot
  {
    PrepareCorrected(s, gameTemplateId, gameId, userId, gridSize, picks).state
  }

  /** The answer to starting or joining: the game, the user's board, the ranking and the user's name. */
  ghost function Answer(s: Snapshot, game: GameRow, userId: Uuid, open: bool, continued: bool): GameOut
  {
    var players := SortRanked(Scored(PlayerRowsOf(s.players, s.fields, s.fieldTemplates, game.id), userId));
    GameOut(game.id, open, continued, game.accessCode, BoardOf(ViewsIn(s, game.id, userId)), players, UsernameOf(players))
  }

  /** `join_game` turns the before state into the after state, answering r. */
  ghost predicate Joined(before: Snapshot, after: Snapshot, found: Option<GameRow>, userId: Uuid, picks: seq<nat>,
                         r: Result<GameOut>)
  {
    match found
    case None => r == Err(NotFound) && after == before
    case Some(g) =>
      var e := PrepareError(before, g.gameTemplateId, g.id, userId, g.gridSize, picks);
      if e.Some? then r == Err(e.value) && after == before
      else
        after == Prepared(before, g.gameTemplateId, g.id, userId, g.gridSize, picks)
        && r == Ok(Answer(after, g, userId, !g.closed, true))
  }

  /** Prepares the user's board in the game and lists the ranking. */
  method Enter(db: Database, game: GameRow, userId: Uuid, open: bool, continued: bool, picks: seq<nat>)
    returns (r: Result<GameOut>)
    modifies db
    ensures var e := PrepareError(old(db.State()), game.gameTemplateId, game.id, userId, game.gridSize, picks);
      (e.Some? ==> r == Err(e.value) && db.State() == old(db.State()))
      && (e.None? ==>
          db.State() == Prepared(old(db.State()), game.gameTemplateId, game.id, userId, game.gridSize, picks)
          && r == Ok(Answer(db.State(), game, userId, open, continued)))
  {
    var fields := PrepareFields(db, game.gameTemplateId, game.id, userId, game.gridSize, picks);
    if fields.Err? {
      return Err(fields.error);
    }
    var players := GetPlayers(db, game.id, userId);
    var username := UsernameOf(players);
    return Ok(GameOut(game.id, open, continued, game.accessCode, fields.value, players, username));
  }

  /** `join_game`: finds the game by its access code and enters it; a closed game answers open = false. */
  method JoinGame(db: Database, userId: Uuid, accessCode: string, picks: seq<nat>) returns (r: Result<GameOut>)
    modifies db
    ensures Joined(old(db.State()), db.State(), old(db.GameByAccessCode(accessCode)), userId, picks, r)
  {
    var found := db.GameByAccessCode(accessCode);
    if found.None? {
      return Err(FromSqlx(RowNotFound));
    }
    var game := found.value;
    r := Enter(db, game, userId, !game.closed, true, picks);
  }

  /** The state after a game row is appended with the next id. */
  function WithGame(s: Snapshot, game: GameRow): Snapshot
  {
    s.(games := s.games + [game], nextId := s.nextId + 1)
  }

  /**
   * The creating half of `handle_start_game`, once the checks passed:
   * inserts a game with a new access code and enters it as its creator.
   */
  method CreateGame(db: Database, userId: Uuid, gameTemplateId: Uuid, gridSize: int, codeDraws: seq<nat>, picks: seq<nat>)
    returns (r: Result<GameOut>)
    requires GridSizeInRange(gridSize) && |db.TemplateFieldIds(gameTemplateId)| >= gridSize * gridSize
    modifies db
    ensures var game := GameRow(old(db.nextId), gameTemplateId, AccessCode(codeDraws), gridSize, userId, false);
      var created := WithGame(old(db.State()), game);
      PrepareError(created, gameTemplateId, game.id, userId, gridSize, picks).None?
      && db.State() == Prepared(created, gameTemplateId, game.id, userId, gridSize, picks)
      && r == Ok(Answer(db.State(), game, userId, true, false))
  {
    var accessCode := AccessCode(codeDraws);
    var game := db.InsertGame(gameTemplateId, accessCode, gridSize, userId);
    assert db.State() == WithGame(old(db.State()), game);
    assert db.TemplateFieldIds(gameTemplateId) == old(db.TemplateFieldIds(gameTemplateId));
    CheckedStartCannotFailToPrepare(db.State(), gameTemplateId, game.id, userId, gridSize, picks);
    r := Enter(db, game, userId, true, false, picks);
  }

  /**
   * `handle_start_game`: checks the grid size, rejoins the user's game of
   * this template if there is one, and otherwise creates a game with a new
   * access code on a visible template that has enough fields.
   */
  method StartGame(db: Database, userId: Uuid, gameTemplateId: Uuid, gridSize: int, codeDraws: seq<nat>, picks: seq<nat>)
    returns (r: Result<GameOut>)
    modifies db
    ensures !GridSizeInRange(gridSize) ==> r == Err(BadRequest(GridSizeMessage)) && db.State() == old(db.State())
    ensures GridSizeInRange(gridSize) && old(db.GameOfPlayer(gameTemplateId, userId)).Some? ==>
      var code := old(db.GameOfPlayer(gameTemplateId, userId)).value.accessCode;
      Joined(old(db.State()), db.State(), old(db.GameByAccessCode(code)), userId, picks, r)
    ensures
      GridSizeInRange(gridSize) && old(db.GameOfPlayer(gameTemplateId, userId)).None?
      && old(db.VisibleTemplate(gameTemplateId, userId)).None? ==>
      r == Err(NotFound) && db.State() == old(db.State())
    ensures var count := |old(db.TemplateFieldIds(gameTemplateId))|;
      GridSizeInRange(gridSize) && old(db.GameOfPlayer(gameTemplateId, userId)).None?
      && old(db.VisibleTemplate(gameTemplateId, userId)).Some? && count < gridSize * gridSize ==>
      r == Err(BadRequest(NotEnoughTemplateFieldsMessage(count, gridSize))) && db.State() == old(db.State())
    ensures var count := |old(db.TemplateFieldIds(gameTemplateId))|;
      GridSizeInRange(gridSize) && old(db.GameOfPlayer(gameTemplateId, userId)).None?
      && old(db.VisibleTemplate(gameTemplateId, userId)).Some? && count >= gridSize * gridSize ==>
      var game := GameRow(old(db.nextId), gameTemplateId, AccessCode(codeDraws), gridSize, userId, false);
      var created := WithGame(old(db.State()), game);
      db.State() == Prepared(created, gameTemplateId, game.id, userId, gridSize, picks)
      && r == Ok(Answer(db.State(), game, userId, true, false))
  {
    if !(2 <= gridSize <= 8) {
      return Err(BadRequest(GridSizeMessage));
    }
    var existing := db.GameOfPlayer(gameTemplateId, userId);
    if existing.Some? {
      r := JoinGame(db, userId, existing.value.accessCode, picks);
      return;
    }
    var template := db.VisibleTemplate(gameTemplateId, userId);
    if template.None? {
      return Err(FromSqlx(RowNotFound));
    }
    var fieldAmount := |db.TemplateFieldIds(template.value.id)|;
    if fieldAmount < gridSize * gridSize {
      return Err(BadRequest(NotEnoughTemplateFieldsMessage(fieldAmount, gridSize)));
    }
    r := CreateGame(db, userId, gameTemplateId, gridSize, codeDraws, picks);
  }

  /**
   * `handle_leave_game`: deletes the user's player rows, then their
   * fields, in every game of the template.
   */
  method LeaveGame(db: Database, userId: Uuid, gameTemplateId: Uuid)
    modifies db
    ensures var ids := old(db.GameIdsOf(gameTemplateId));
      db.State() == old(db.State()).(
        players := PlayersOutside(old(db.players), ids, Some(userId)),
        fields := FieldsOutside(old(db.fields), ids, Some(userId)))
  {
    var gameIds := db.GameIdsOf(gameTemplateId);
    db.DeletePlayersIn(gameIds, Some(userId));
    db.DeleteFieldsIn(gameIds, Some(userId));
  }

  /**
   * After leaving, the user plays in none of the games left; every other
   * membership is as before.
   */
  lemma LeavingEndsOnlyTheUsersMemberships(players: seq<PlayerRow>, gameIds: seq<Uuid>, userId: Uuid,
                                           gameId: Uuid, other: Uuid)
    ensures gameId in gameIds ==> !HasPlayer(PlayersOutside(players, gameIds, Some(userId)), gameId, userId)
    ensures gameId !in gameIds || other != userId ==>
      (HasPlayer(PlayersOutside(players, gameIds, Some(userId)), gameId, other) <==> HasPlayer(players, gameId, other))
  {
    var after := PlayersOutside(players, gameIds, Some(userId));
    forall i | 0 <= i < |after|
      ensures !(after[i].gameId in gameIds && after[i].userId == userId)
    {
      assert after[i] in after;
    }
    if gameId !in gameIds || other != userId {
      if HasPlayer(players, gameId, other) {
        var i :| 0 <= i < |players| && players[i].gameId == gameId && players[i].userId == other;
        assert players[i] in after;
      }
      if HasPlayer(after, gameId, other) {
        var i :| 0 <= i < |after| && after[i].gameId == gameId && after[i].userId == other;
        assert after[i] in players;
      }
    }
  }

  /** After leaving, the user has no field in those games; every other field is kept, in order. */
  lemma LeavingRemovesOnlyTheUsersFields(fields: seq<FieldRow>, gameIds: seq<Uuid>, userId: Uuid)
    ensures forall f :: f in FieldsOutside(fields, gameIds, Some(userId)) <==>
      f in fields && !(f.gameId in gameIds && f.userId == userId)
    ensures forall g :: g !in gameIds ==>
      forall u :: FieldsOf(FieldsOutside(fields, gameIds, Some(userId)), g, u) == FieldsOf(fields, g, u)
  {
    forall g, u | g !in gameIds
      ensures FieldsOf(FieldsOutside(fields, gameIds, Some(userId)), g, u) == FieldsOf(fields, g, u)
    {
      var user := Some(userId);
      FilterWeaker(fields, (f: FieldRow) => !(f.gameId in gameIds && (user.None? || f.userId == user.value)),
                   (f: FieldRow) => f.gameId == g && f.userId == u);
    }
  }

  /**
   * Once the grid size is in range and the template has gridSize^2 fields,
   * preparing the new board cannot fail, and the source as written does
   * not panic either, so the corrected check changes nothing here.
   */
  lemma CheckedStartCannotFailToPrepare(s: Snapshot, gameTemplateId: Uuid, gameId: Uuid, userId: Uuid, gridSize: int, picks: seq<nat>)
    requires GridSizeInRange(gridSize) && |TemplateIdsIn(s, gameTemplateId)| >= gridSize * gridSize
    ensures PrepareError(s, gameTemplateId, gameId, userId, gridSize, picks).None?
    ensures var w := PrepareAsWritten(s, gameTemplateId, gameId, userId, gridSize, picks);
      w.Answered? && w.result.Ok? && w.state == Prepared(s, gameTemplateId, gameId, userId, gridSize, picks)
  {
    PrepareCorrectedRejects(s, gameTemplateId, gameId, userId, gridSize, picks);
  }
}
