/**
 * The `bingo` database schema as an in-memory table store. Each table is
 * a sequence of rows in insertion order; `where` clauses are filters and
 * inner joins look the partner row up. Queries return what the tables
 * hold; a `fetch_one` that finds no row yields RowNotFound.
 */
module Tables {
  import opened Types
  import opened Seqs

  datatype GameTemplateRow = GameTemplateRow(id: Uuid, title: string, language: string, createdBy: Uuid, approved: bool)
  datatype FieldTemplateRow = FieldTemplateRow(id: Uuid, gameTemplateId: Uuid, caption: string)
  datatype GameRow = GameRow(id: Uuid, gameTemplateId: Uuid, accessCode: string, gridSize: int, createdBy: Uuid, closed: bool)
  datatype PlayerRow = PlayerRow(userId: Uuid, gameId: Uuid, username: string)
  datatype FieldRow = FieldRow(id: Uuid, gameId: Uuid, fieldTemplateId: Uuid, position: int, userId: Uuid, checked: bool)

  /** A field joined with its field template: what the board queries select. */
  datatype FieldView = FieldView(id: Uuid, checked: bool, caption: string)

  /** A row of the player query: a player with the checked flags of their fields. */
  datatype PlayerQueryRow = PlayerQueryRow(userId: Uuid, username: string, hits: Option<seq<bool>>)

  /** The contents of every table at one moment. */
  datatype Snapshot = Snapshot(
    gameTemplates: seq<GameTemplateRow>,
    fieldTemplates: seq<FieldTemplateRow>,
    games: seq<GameRow>,
    players: seq<PlayerRow>,
    fields: seq<FieldRow>,
    nextId: Uuid)

  /** The caption of the first field template with this id. */
  function CaptionOf(templates: seq<FieldTemplateRow>, id: Uuid): (r: Option<string>)
    ensures r.None? <==> forall i :: 0 <= i < |templates| ==> templates[i].id != id
    ensures r.Some? ==> exists i :: 0 <= i < |templates| && templates[i].id == id && templates[i].caption == r.value
  {
    if |templates| == 0 then None
    else if templates[0].id == id then Some(templates[0].caption)
    else
      var r := CaptionOf(templates[1..], id);
      assert r.Some? ==> exists i :: 1 <= i < |templates| && templates[i].id == id && templates[i].caption == r.value by {
        if r.Some? {
          var i :| 0 <= i < |templates[1..]| && templates[1..][i].id == id && templates[1..][i].caption == r.value;
          assert templates[i + 1] == templates[1..][i];
        }
      }
      r
  }

  /** The inner join of fields with field templates: fields whose template is gone drop out. */
  function JoinCaptions(fields: seq<FieldRow>, templates: seq<FieldTemplateRow>): (r: seq<FieldView>)
    ensures |r| <= |fields|
  {
    if |fields| == 0 then []
    else
      var head := match CaptionOf(templates, fields[0].fieldTemplateId)
        case None => []
        case Some(caption) => [FieldView(fields[0].id, fields[0].checked, caption)];
      head + JoinCaptions(fields[1..], templates)
  }

  /** The ids of the games played on a game template, in table order. */
  function GameIdsIn(games: seq<GameRow>, gameTemplateId: Uuid): (ids: seq<Uuid>)
    ensures forall g :: g in games && g.gameTemplateId == gameTemplateId ==> g.id in ids
    ensures forall id :: id in ids ==> exists g :: g in games && g.gameTemplateId == gameTemplateId && g.id == id
  {
    var kept := Filter(games, (g: GameRow) => g.gameTemplateId == gameTemplateId);
    var ids := Map(kept, (g: GameRow) => g.id);
    assert forall j :: 0 <= j < |ids| ==> kept[j] in kept && ids[j] == kept[j].id;
    ids
  }

  /** A user's fields of a game, in table order. */
  function FieldsOf(fields: seq<FieldRow>, gameId: Uuid, userId: Uuid): seq<FieldRow>
  {
    Filter(fields, (f: FieldRow) => f.gameId == gameId && f.userId == userId)
  }

  /** A user's fields of a game joined with their captions, in table order. */
  function ViewsIn(s: Snapshot, gameId: Uuid, userId: Uuid): seq<FieldView>
  {
    JoinCaptions(FieldsOf(s.fields, gameId, userId), s.fieldTemplates)
  }

  /** The ids of a game template's field templates, in table order. */
  function TemplateIdsIn(s: Snapshot, gameTemplateId: Uuid): seq<Uuid>
  {
    Map(Filter(s.fieldTemplates, (ft: FieldTemplateRow) => ft.gameTemplateId == gameTemplateId),
        (ft: FieldTemplateRow) => ft.id)
  }

  lemma {:induction false} JoinAppend(a: seq<FieldRow>, b: seq<FieldRow>, templates: seq<FieldTemplateRow>)
    ensures JoinCaptions(a + b, templates) == JoinCaptions(a, templates) + JoinCaptions(b, templates)
  {
    if |a| > 0 {
      assert (a + b)[1..] == a[1..] + b;
      JoinAppend(a[1..], b, templates);
    } else {
      assert a + b == b;
    }
  }

  /** Fields whose template is gone do not show. */
  lemma {:induction false} JoinNoTemplate(fields: seq<FieldRow>, templates: seq<FieldTemplateRow>)
    requires forall f :: f in fields ==> CaptionOf(templates, f.fieldTemplateId).None?
    ensures JoinCaptions(fields, templates) == []
  {
    if |fields| > 0 {
      assert fields[0] in fields;
      assert forall f :: f in fields[1..] ==> f in fields;
      JoinNoTemplate(fields[1..], templates);
    }
  }

  /** Fields whose templates all exist all show. */
  lemma {:induction false} JoinAllTemplates(fields: seq<FieldRow>, templates: seq<FieldTemplateRow>)
    requires forall f :: f in fields ==> CaptionOf(templates, f.fieldTemplateId).Some?
    ensures |JoinCaptions(fields, templates)| == |fields|
  {
    if |fields| > 0 {
      assert fields[0] in fields;
      assert forall f :: f in fields[1..] ==> f in fields;
      JoinAllTemplates(fields[1..], templates);
    }
  }

  /** A field whose template exists shows under its own id. */
  lemma {:induction false} JoinShows(fields: seq<FieldRow>, templates: seq<FieldTemplateRow>, f: FieldRow)
    requires f in fields && CaptionOf(templates, f.fieldTemplateId).Some?
    ensures exists v :: v in JoinCaptions(fields, templates) && v.id == f.id
  {
    if fields[0] != f {
      JoinShows(fields[1..], templates, f);
      var v :| v in JoinCaptions(fields[1..], templates) && v.id == f.id;
      assert v in JoinCaptions(fields, templates);
    } else {
      assert JoinCaptions(fields, templates)[0].id == f.id;
    }
  }

  /** The checked flags of a player's fields in one game, as `array_agg` collects them. */
  function HitsOf(fields: seq<FieldRow>, templates: seq<FieldTemplateRow>, gameId: Uuid, userId: Uuid): seq<bool>
  {
    Map(JoinCaptions(FieldsOf(fields, gameId, userId), templates), (v: FieldView) => v.checked)
  }

  /**
   * The player query: every player of the game that has fields, with the
   * checked flags of those fields. Players without a field drop out of the
   * inner join.
   */
  function PlayerRowsOf(players: seq<PlayerRow>, fields: seq<FieldRow>, templates: seq<FieldTemplateRow>, gameId: Uuid): (r: seq<PlayerQueryRow>)
    ensures |r| <= |players|
    ensures forall i :: 0 <= i < |r| ==> r[i].hits.Some?
  {
    if |players| == 0 then []
    else
      var p := players[0];
      var hits := HitsOf(fields, templates, gameId, p.userId);
      var head := if p.gameId == gameId && |hits| > 0 then [PlayerQueryRow(p.userId, p.username, Some(hits))] else [];
      head + PlayerRowsOf(players[1..], fields, templates, gameId)
  }

  /** The first element of a query result, or None when it is empty (`fetch_optional`). */
  function First<T>(s: seq<T>): (r: Option<T>)
    ensures r.None? <==> |s| == 0
    ensures r.Some? ==> r.value == s[0]
  {
    if |s| == 0 then None else Some(s[0])
  }

  /** Whether some player row puts this user in this game. */
  predicate HasPlayer(players: seq<PlayerRow>, gameId: Uuid, userId: Uuid)
  {
    exists i :: 0 <= i < |players| && players[i].gameId == gameId && players[i].userId == userId
  }

  /** Whether a game template with this id exists. */
  predicate HasTemplate(templates: seq<GameTemplateRow>, id: Uuid)
  {
    exists i :: 0 <= i < |templates| && templates[i].id == id
  }

  // ---------------------------------------------------------------------
  // The `where` clauses of the delete statements
  // ---------------------------------------------------------------------

  /** The fields whose id is not listed. */
  function FieldsWithoutIds(fields: seq<FieldRow>, ids: seq<Uuid>): seq<FieldRow>
  {
    Filter(fields, (f: FieldRow) => f.id !in ids)
  }

  /** The fields outside the listed games, or of other users when userId is given. */
  function FieldsOutside(fields: seq<FieldRow>, gameIds: seq<Uuid>, userId: Option<Uuid>): seq<FieldRow>
  {
    Filter(fields, (f: FieldRow) => !(f.gameId in gameIds && (userId.None? || f.userId == userId.value)))
  }

  /** The players outside the listed games, or other users when userId is given. */
  function PlayersOutside(players: seq<PlayerRow>, gameIds: seq<Uuid>, userId: Option<Uuid>): seq<PlayerRow>
  {
    Filter(players, (p: PlayerRow) => !(p.gameId in gameIds && (userId.None? || p.userId == userId.value)))
  }

  /** The games whose id is not listed. */
  function GamesWithoutIds(games: seq<GameRow>, ids: seq<Uuid>): seq<GameRow>
  {
    Filter(games, (g: GameRow) => g.id !in ids)
  }

  /** The field templates of other game templates. */
  function FieldTemplatesNotOf(templates: seq<FieldTemplateRow>, gameTemplateId: Uuid): seq<FieldTemplateRow>
  {
    Filter(templates, (t: FieldTemplateRow) => t.gameTemplateId != gameTemplateId)
  }

  /** The game templates with another id. */
  function GameTemplatesWithoutId(templates: seq<GameTemplateRow>, id: Uuid): seq<GameTemplateRow>
  {
    Filter(templates, (t: GameTemplateRow) => t.id != id)
  }

  class Database {
    var gameTemplates: seq<GameTemplateRow>
    var fieldTemplates: seq<FieldTemplateRow>
    var games: seq<GameRow>
    var players: seq<PlayerRow>
    var fields: seq<FieldRow>
    /** The next id the database hands out; ids come from a counter. */
    var nextId: Uuid

    function State(): Snapshot
      reads this
    {
      Snapshot(gameTemplates, fieldTemplates, games, players, fields, nextId)
    }

    constructor ()
      ensures State() == Snapshot([], [], [], [], [], 0)
    {
      gameTemplates, fieldTemplates, games, players, fields := [], [], [], [], [];
      nextId := 0;
    }

    // ------------------------------------------------------------------
    // Queries
    // ------------------------------------------------------------------

    /** A user's fields of a game joined with their captions, in table order. */
    function FieldViews(gameId: Uuid, userId: Uuid): seq<FieldView>
      reads this
    {
      ViewsIn(State(), gameId, userId)
    }

    /** The ids of a game template's field templates, in table order. */
    function TemplateFieldIds(gameTemplateId: Uuid): seq<Uuid>
      reads this
    {
      TemplateIdsIn(State(), gameTemplateId)
    }

    /** The ids of the games played on a game template, in table order. */
    function GameIdsOf(gameTemplateId: Uuid): seq<Uuid>
      reads this
    {
      GameIdsIn(games, gameTemplateId)
    }

    /** The first game of a game template in which the user has a player row. */
    function GameOfPlayer(gameTemplateId: Uuid, userId: Uuid): (r: Option<GameRow>)
      reads this
      ensures r.Some? ==> r.value in games && r.value.gameTemplateId == gameTemplateId && HasPlayer(players, r.value.id, userId)
      ensures r.None? ==> forall g :: g in games && g.gameTemplateId == gameTemplateId ==> !HasPlayer(players, g.id, userId)
    {
      var ps := players;
      First(Filter(games, (g: GameRow) => g.gameTemplateId == gameTemplateId && HasPlayer(ps, g.id, userId)))
    }

    /** The game template if the user created it or it is approved. */
    function VisibleTemplate(gameTemplateId: Uuid, userId: Uuid): (r: Option<GameTemplateRow>)
      reads this
      ensures r.Some? ==> r.value in gameTemplates && r.value.id == gameTemplateId && (r.value.createdBy == userId || r.value.approved)
      ensures r.None? ==> forall t :: t in gameTemplates && t.id == gameTemplateId ==> t.createdBy != userId && !t.approved
    {
      First(Filter(gameTemplates, (t: GameTemplateRow) => t.id == gameTemplateId && (t.createdBy == userId || t.approved)))
    }

    /** The game template if the user created it. */
    function OwnedTemplate(gameTemplateId: Uuid, userId: Uuid): (r: Option<GameTemplateRow>)
      reads this
      ensures r.Some? ==> r.value in gameTemplates && r.value.id == gameTemplateId && r.value.createdBy == userId
      ensures r.None? ==> forall t :: t in gameTemplates && t.id == gameTemplateId ==> t.createdBy != userId
    {
      First(Filter(gameTemplates, (t: GameTemplateRow) => t.id == gameTemplateId && t.createdBy == userId))
    }

    /** The first game with this access code whose template still exists. */
    function GameByAccessCode(accessCode: string): (r: Option<GameRow>)
      reads this
      ensures r.Some? ==> r.value in games && r.value.accessCode == accessCode && HasTemplate(gameTemplates, r.value.gameTemplateId)
      ensures r.None? ==> forall g :: g in games && g.accessCode == accessCode ==> !HasTemplate(gameTemplates, g.gameTemplateId)
    {
      var ts := gameTemplates;
      First(Filter(games, (g: GameRow) => g.accessCode == accessCode && HasTemplate(ts, g.gameTemplateId)))
    }

    /** Whether the game is open and the user plays in it. */
    predicate IsOpenMember(gameId: Uuid, userId: Uuid)
      reads this
    {
      var ps := players;
      exists i :: 0 <= i < |games| && games[i].id == gameId && !games[i].closed && HasPlayer(ps, gameId, userId)
    }

    /** The player query of a game. */
    function PlayerRows(gameId: Uuid): seq<PlayerQueryRow>
      reads this
    {
      PlayerRowsOf(players, fields, fieldTemplates, gameId)
    }

    // ------------------------------------------------------------------
    // Statements
    // ------------------------------------------------------------------

    method InsertGameTemplate(title: string, language: string, createdBy: Uuid) returns (id: Uuid)
      modifies this
      ensures id == old(nextId)
      ensures State() == old(State()).(
        gameTemplates := old(gameTemplates) + [GameTemplateRow(id, title, language, createdBy, false)],
        nextId := id + 1)
    {
      id := nextId;
      nextId := nextId + 1;
      gameTemplates := gameTemplates + [GameTemplateRow(id, title, language, createdBy, false)];
    }

    method InsertFieldTemplate(gameTemplateId: Uuid, caption: string)
      modifies this
      ensures State() == old(State()).(
        fieldTemplates := old(fieldTemplates) + [FieldTemplateRow(old(nextId), gameTemplateId, caption)],
        nextId := old(nextId) + 1)
    {
      fieldTemplates := fieldTemplates + [FieldTemplateRow(nextId, gameTemplateId, caption)];
      nextId := nextId + 1;
    }

    method InsertGame(gameTemplateId: Uuid, accessCode: string, gridSize: int, createdBy: Uuid) returns (game: GameRow)
      modifies this
      ensures game == GameRow(old(nextId), gameTemplateId, accessCode, gridSize, createdBy, false)
      ensures State() == old(State()).(games := old(games) + [game], nextId := old(nextId) + 1)
    {
      game := GameRow(nextId, gameTemplateId, accessCode, gridSize, createdBy, false);
      games := games + [game];
      nextId := nextId + 1;
    }

    method InsertPlayer(userId: Uuid, gameId: Uuid, username: string)
      modifies this
      ensures State() == old(State()).(players := old(players) + [PlayerRow(userId, gameId, username)])
    {
      players := players + [PlayerRow(userId, gameId, username)];
    }

    method InsertField(gameId: Uuid, fieldTemplateId: Uuid, position: int, userId: Uuid)
      modifies this
      ensures State() == old(State()).(
        fields := old(fields) + [FieldRow(old(nextId), gameId, fieldTemplateId, position, userId, false)],
        nextId := old(nextId) + 1)
    {
      fields := fields + [FieldRow(nextId, gameId, fieldTemplateId, position, userId, false)];
      nextId := nextId + 1;
    }

    /** `delete from bingo.fields where id = any(ids)`. */
    method DeleteFieldsWithIds(ids: seq<Uuid>)
      modifies this
      ensures State() == old(State()).(fields := FieldsWithoutIds(old(fields), ids))
    {
      fields := FieldsWithoutIds(fields, ids);
    }

    /** `delete from bingo.fields where game_id = any(gameIds) [and user_id = userId]`. */
    method DeleteFieldsIn(gameIds: seq<Uuid>, userId: Option<Uuid>)
      modifies this
      ensures State() == old(State()).(fields := FieldsOutside(old(fields), gameIds, userId))
    {
      fields := FieldsOutside(fields, gameIds, userId);
    }

    /** `delete from bingo.players where game_id = any(gameIds) [and user_id = userId]`. */
    method DeletePlayersIn(gameIds: seq<Uuid>, userId: Option<Uuid>)
      modifies this
      ensures State() == old(State()).(players := PlayersOutside(old(players), gameIds, userId))
    {
      players := PlayersOutside(players, gameIds, userId);
    }

    /** `delete from bingo.games where id = any(ids)`. */
    method DeleteGamesWithIds(ids: seq<Uuid>)
      modifies this
      ensures State() == old(State()).(games := GamesWithoutIds(old(games), ids))
    {
      games := GamesWithoutIds(games, ids);
    }

    /** `delete from bingo.field_templates where game_template_id = gameTemplateId`. */
    method DeleteFieldTemplatesOf(gameTemplateId: Uuid)
      modifies this
      ensures State() == old(State()).(fieldTemplates := FieldTemplatesNotOf(old(fieldTemplates), gameTemplateId))
    {
      fieldTemplates := FieldTemplatesNotOf(fieldTemplates, gameTemplateId);
    }

    /** `delete from bingo.game_templates where id = id`. */
    method DeleteGameTemplate(id: Uuid)
      modifies this
      ensures State() == old(State()).(gameTemplates := GameTemplatesWithoutId(old(gameTemplates), id))
    {
      gameTemplates := GameTemplatesWithoutId(gameTemplates, id);
    }
  }
}
