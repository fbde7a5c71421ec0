/**
 * The websocket session of a player (api/src/handler/game/websocket.rs):
 * after a membership check it waits on the change registry and, whenever
 * its game changed after the last push, sends the player's board and the
 * ranking.
 */
module Session {
  import opened Types
  import opened Errors
  import opened Body
  import opened Tables
  import opened Fields
  import opened Players
  import opened Registry

  /** One day, in the units of Timestamp (seconds). */
  const Day: int := 86400

  /**
   * One wake-up of `receiver.changed()`: the sender was dropped, or the
   * registry changed. A change carries the registry as borrowed, the
   * clock at that moment, the failure of acquiring a connection if any,
   * and whether each of the two sends succeeds.
   */
  datatype Wake =
    | Dropped
    | Changed(updates: map<Uuid, Timestamp>, now: Timestamp, connection: Option<SqlxError>,
              fieldsSent: bool, playersSent: bool)

  /** How the session stands: ended normally, ended with an error, or still waiting. */
  datatype Outcome = Closed | Failed(error: Error) | Waiting

  /** The registry records a change of the game later than the watermark. */
  predicate UpdatedSince(updates: map<Uuid, Timestamp>, gameId: Uuid, watermark: Timestamp)
  {
    gameId in updates && updates[gameId] > watermark
  }

  /** The messages of one push whose sends succeed as flagged, in the order sent. */
  function Delivered(fields: MessageOut, players: MessageOut, fieldsSent: bool, playersSent: bool): seq<MessageOut>
  {
    (if fieldsSent then [fields] else []) + (if playersSent then [players] else [])
  }

  /**
   * The messages delivered and the outcome, for a session that pushes the
   * messages fields and players and has last pushed at watermark.
   * dropEnds says whether a dropped sender ends the loop.
   */
  function Run(fields: MessageOut, players: MessageOut, gameId: Uuid, watermark: Timestamp, dropEnds: bool,
               wakes: seq<Wake>): (seq<MessageOut>, Outcome)
    decreases |wakes|
  {
    if |wakes| == 0 then ([], Waiting)
    else match wakes[0]
      case Dropped =>
        if dropEnds then ([], Closed) else Run(fields, players, gameId, watermark, dropEnds, wakes[1..])
      case Changed(updates, now, connection, fieldsSent, playersSent) =>
        if !UpdatedSince(updates, gameId, watermark) then
          Run(fields, players, gameId, watermark, dropEnds, wakes[1..])
        else if connection.Some? then ([], Failed(FromSqlx(connection.value)))
        else if fieldsSent && playersSent then
          var rest := Run(fields, players, gameId, now, dropEnds, wakes[1..]);
          ([fields, players] + rest.0, rest.1)
        else (Delivered(fields, players, fieldsSent, playersSent), Closed)
  }

  /**
   * The session loop before wakes[i..] has delivered what precedes the
   * rest of the run in whole.
   */
  ghost predicate Tracks(whole: (seq<MessageOut>, Outcome), delivered: seq<MessageOut>, fields: MessageOut,
                         players: MessageOut, gameId: Uuid, watermark: Timestamp, rest: seq<Wake>)
  {
    whole == (delivered + Run(fields, players, gameId, watermark, true, rest).0,
              Run(fields, players, gameId, watermark, true, rest).1)
  }

  /** A wake that is not relevant changes nothing. */
  lemma TracksSkip(whole: (seq<MessageOut>, Outcome), delivered: seq<MessageOut>, fields: MessageOut,
                   players: MessageOut, gameId: Uuid, watermark: Timestamp, wakes: seq<Wake>, i: nat)
    requires i < |wakes| && wakes[i].Changed? && !UpdatedSince(wakes[i].updates, gameId, watermark)
    requires Tracks(whole, delivered, fields, players, gameId, watermark, wakes[i..])
    ensures Tracks(whole, delivered, fields, players, gameId, watermark, wakes[i + 1..])
  {
    assert wakes[i..][1..] == wakes[i + 1..];
  }

  /** A relevant wake whose two sends succeed delivers both messages and moves the watermark. */
  lemma TracksPush(whole: (seq<MessageOut>, Outcome), delivered: seq<MessageOut>, fields: MessageOut,
                   players: MessageOut, gameId: Uuid, watermark: Timestamp, wakes: seq<Wake>, i: nat)
    requires i < |wakes| && wakes[i].Changed? && UpdatedSince(wakes[i].updates, gameId, watermark)
    requires wakes[i].connection.None? && wakes[i].fieldsSent && wakes[i].playersSent
    requires Tracks(whole, delivered, fields, players, gameId, watermark, wakes[i..])
    ensures Tracks(whole, delivered + [fields, players], fields, players, gameId, wakes[i].now, wakes[i + 1..])
  {
    assert wakes[i..][1..] == wakes[i + 1..];
    var rest := Run(fields, players, gameId, wakes[i].now, true, wakes[i + 1..]);
    assert delivered + ([fields, players] + rest.0) == delivered + [fields, players] + rest.0;
  }

  /** The wakes that end the loop. */
  lemma TracksStop(whole: (seq<MessageOut>, Outcome), delivered: seq<MessageOut>, fields: MessageOut,
                   players: MessageOut, gameId: Uuid, watermark: Timestamp, wakes: seq<Wake>, i: nat)
    requires i < |wakes|
    requires Tracks(whole, delivered, fields, players, gameId, watermark, wakes[i..])
    ensures var w := wakes[i];
      && (w.Dropped? ==> whole == (delivered, Closed))
      && (w.Changed? && UpdatedSince(w.updates, gameId, watermark) && w.connection.Some? ==>
            whole == (delivered, Failed(FromSqlx(w.connection.value))))
      && (w.Changed? && UpdatedSince(w.updates, gameId, watermark) && w.connection.None?
          && !(w.fieldsSent && w.playersSent) ==>
            whole == (delivered + Delivered(fields, players, w.fieldsSent, w.playersSent), Closed))
  {
    assert delivered + [] == delivered;
  }

  lemma TracksStart(whole: (seq<MessageOut>, Outcome), fields: MessageOut, players: MessageOut, gameId: Uuid,
                    watermark: Timestamp, wakes: seq<Wake>)
    requires whole == Run(fields, players, gameId, watermark, true, wakes)
    ensures Tracks(whole, [], fields, players, gameId, watermark, wakes[0..])
  {
    assert wakes[0..] == wakes;
    assert [] + whole.0 == whole.0;
  }

  lemma TracksEnd(whole: (seq<MessageOut>, Outcome), delivered: seq<MessageOut>, fields: MessageOut,
                  players: MessageOut, gameId: Uuid, watermark: Timestamp)
    requires Tracks(whole, delivered, fields, players, gameId, watermark, [])
    ensures whole == (delivered, Waiting)
  {
    assert delivered + [] == delivered;
  }

  /** The board message for the user in the game. */
  function FieldsMessage(db: Database, gameId: Uuid, userId: Uuid): MessageOut
    reads db
  {
    Fields(BoardOf(db.FieldViews(gameId, userId)))
  }

  /** The ranking message of the game, as seen by the user. */
  ghost function PlayersMessage(db: Database, gameId: Uuid, userId: Uuid): MessageOut
    reads db
  {
    Players(SortRanked(Scored(db.PlayerRows(gameId), userId)))
  }

  /**
   * One push: lists the board and the ranking, then sends the two messages
   * in that order; the socket stays healthy only if both sends succeed.
   */
  method Push(db: Database, userId: Uuid, gameId: Uuid, fieldsSent: bool, playersSent: bool)
    returns (sent: seq<MessageOut>, healthy: bool)
    ensures sent == Delivered(FieldsMessage(db, gameId, userId), PlayersMessage(db, gameId, userId), fieldsSent, playersSent)
    ensures healthy <==> fieldsSent && playersSent
  {
    var rows := ListFields(db, gameId, userId);
    var players := GetPlayers(db, gameId, userId);
    var messages := [Fields(rows), Players(players)];
    var outcomes := [fieldsSent, playersSent];
    sent := [];
    healthy := true;
    for j := 0 to 2
      invariant sent == Delivered(messages[0], messages[1], j > 0 && fieldsSent, j > 1 && playersSent)
      invariant healthy <==> (j > 0 ==> fieldsSent) && (j > 1 ==> playersSent)
    {
      if outcomes[j] {
        sent := sent + [messages[j]];
      } else {
        healthy := false;
      }
    }
  }

  /**
   * `send_game_update_messages`: fails with NotFound unless the user plays
   * in the open game; then starts with a watermark one day before the
   * connection and loops while the socket is healthy.
   */
  method SendGameUpdateMessages(db: Database, userId: Uuid, gameId: Uuid, connectedAt: Timestamp, wakes: seq<Wake>)
    returns (delivered: seq<MessageOut>, outcome: Outcome)
    ensures !db.IsOpenMember(gameId, userId) ==> delivered == [] && outcome == Failed(NotFound)
    ensures db.IsOpenMember(gameId, userId) ==>
      (delivered, outcome)
      == Run(FieldsMessage(db, gameId, userId), PlayersMessage(db, gameId, userId), gameId, connectedAt - Day, true, wakes)
  {
    if !db.IsOpenMember(gameId, userId) {
      return [], Failed(FromSqlx(RowNotFound));
    }
    delivered, outcome := WakeLoop(db, userId, gameId, connectedAt - Day, wakes);
  }

  /**
   * The `while socket_healthy` loop: each relevant wake moves the
   * watermark to the wake's time and pushes the board and the ranking.
   */
  method WakeLoop(db: Database, userId: Uuid, gameId: Uuid, watermark0: Timestamp, wakes: seq<Wake>)
    returns (delivered: seq<MessageOut>, outcome: Outcome)
    ensures (delivered, outcome)
      == Run(FieldsMessage(db, gameId, userId), PlayersMessage(db, gameId, userId), gameId, watermark0, true, wakes)
  {
    ghost var f, p := FieldsMessage(db, gameId, userId), PlayersMessage(db, gameId, userId);
    ghost var whole := Run(f, p, gameId, watermark0, true, wakes);
    var watermark := watermark0;
    delivered := [];
    var i := 0;
    TracksStart(whole, f, p, gameId, watermark, wakes);
    while i < |wakes|
      invariant 0 <= i <= |wakes|
      invariant Tracks(whole, delivered, f, p, gameId, watermark, wakes[i..])
      decreases |wakes| - i
    {
      TracksStop(whole, delivered, f, p, gameId, watermark, wakes, i);
      match wakes[i]
      case Dropped =>
        return delivered, Closed;
      case Changed(updates, now, connection, fieldsSent, playersSent) =>
        if UpdatedSince(updates, gameId, watermark) {
          if connection.Some? {
            return delivered, Failed(FromSqlx(connection.value));
          }
          var sent, healthy := Push(db, userId, gameId, fieldsSent, playersSent);
          if !healthy {
            return delivered + sent, Closed;
          }
          TracksPush(whole, delivered, f, p, gameId, watermark, wakes, i);
          assert sent == [f, p];
          delivered := delivered + sent;
          watermark := now;
        } else {
          TracksSkip(whole, delivered, f, p, gameId, watermark, wakes, i);
        }
      i := i + 1;
    }
    TracksEnd(whole, delivered, f, p, gameId, watermark);
    return delivered, Waiting;
  }


  /** Only the board and the ranking are ever pushed. */
  lemma {:induction false} OnlyBoardAndRanking(fields: MessageOut, players: MessageOut, gameId: Uuid,
                                               watermark: Timestamp, dropEnds: bool, wakes: seq<Wake>)
    ensures forall m :: m in Run(fields, players, gameId, watermark, dropEnds, wakes).0 ==> m == fields || m == players
    decreases |wakes|
  {
    if |wakes| > 0 {
      match wakes[0]
      case Dropped =>
        OnlyBoardAndRanking(fields, players, gameId, watermark, dropEnds, wakes[1..]);
      case Changed(_, now, _, _, _) =>
        OnlyBoardAndRanking(fields, players, gameId, watermark, dropEnds, wakes[1..]);
        OnlyBoardAndRanking(fields, players, gameId, now, dropEnds, wakes[1..]);
    }
  }

  /** Registry entries no later than the watermark push nothing and never fail the session. */
  lemma {:induction false} StaleChangesSendNothing(fields: MessageOut, players: MessageOut, gameId: Uuid,
                                                   watermark: Timestamp, dropEnds: bool, wakes: seq<Wake>)
    requires forall i :: 0 <= i < |wakes| && wakes[i].Changed? ==> !UpdatedSince(wakes[i].updates, gameId, watermark)
    ensures Run(fields, players, gameId, watermark, dropEnds, wakes).0 == []
    ensures !Run(fields, players, gameId, watermark, dropEnds, wakes).1.Failed?
    decreases |wakes|
  {
    if |wakes| > 0 {
      assert forall i :: 0 <= i < |wakes[1..]| ==> wakes[1..][i] == wakes[i + 1];
      StaleChangesSendNothing(fields, players, gameId, watermark, dropEnds, wakes[1..]);
    }
  }

  /** Each wake is a fresh change of the game whose two sends succeed. */
  predicate HealthyChanges(gameId: Uuid, watermark: Timestamp, wakes: seq<Wake>)
    decreases |wakes|
  {
    |wakes| == 0 ||
    (wakes[0].Changed? && UpdatedSince(wakes[0].updates, gameId, watermark) && wakes[0].connection.None?
     && wakes[0].fieldsSent && wakes[0].playersSent
     && HealthyChanges(gameId, wakes[0].now, wakes[1..]))
  }

  /** n pushes: the board, then the ranking, n times. */
  function Pushes(fields: MessageOut, players: MessageOut, n: nat): (r: seq<MessageOut>)
    ensures |r| == 2 * n
  {
    if n == 0 then [] else [fields, players] + Pushes(fields, players, n - 1)
  }

  /** Every fresh change pushes the board and then the ranking, and the session keeps waiting. */
  lemma {:induction false} EveryChangePushesBoardThenRanking(fields: MessageOut, players: MessageOut, gameId: Uuid,
                                                             watermark: Timestamp, dropEnds: bool, wakes: seq<Wake>)
    requires HealthyChanges(gameId, watermark, wakes)
    ensures Run(fields, players, gameId, watermark, dropEnds, wakes) == (Pushes(fields, players, |wakes|), Waiting)
    decreases |wakes|
  {
    if |wakes| > 0 {
      EveryChangePushesBoardThenRanking(fields, players, gameId, wakes[0].now, dropEnds, wakes[1..]);
    }
  }

  /** A failed send ends the session after that push, whatever comes next. */
  lemma SendFailureEndsSession(fields: MessageOut, players: MessageOut, gameId: Uuid, watermark: Timestamp,
                               dropEnds: bool, w: Wake, rest: seq<Wake>)
    requires w.Changed? && UpdatedSince(w.updates, gameId, watermark) && w.connection.None?
    requires !(w.fieldsSent && w.playersSent)
    ensures Run(fields, players, gameId, watermark, dropEnds, [w] + rest)
      == (Delivered(fields, players, w.fieldsSent, w.playersSent), Closed)
    ensures |Run(fields, players, gameId, watermark, dropEnds, [w] + rest).0| <= 1
  {
    assert ([w] + rest)[0] == w;
  }

  /** A dropped sender ends the session, or (when it does not end the loop) is skipped. */
  lemma DroppedSender(fields: MessageOut, players: MessageOut, gameId: Uuid, watermark: Timestamp,
                      dropEnds: bool, rest: seq<Wake>)
    ensures dropEnds ==> Run(fields, players, gameId, watermark, dropEnds, [Dropped] + rest) == ([], Closed)
    ensures !dropEnds ==>
      Run(fields, players, gameId, watermark, dropEnds, [Dropped] + rest)
      == Run(fields, players, gameId, watermark, dropEnds, rest)
  {
    assert ([Dropped] + rest)[1..] == rest;
  }

  /** A notification recorded below capacity wakes every session last pushed before it. */
  lemma NotificationWakesSession(m: map<Uuid, Timestamp>, gameId: Uuid, now: Timestamp, watermark: Timestamp)
    requires |m| <= Capacity && now > watermark
    ensures UpdatedSince(Notify(m, gameId, now), gameId, watermark)
  {
  }

  /** The notification that clears an over-full registry wakes no session. */
  lemma ClearedRegistryWakesNoSession(m: map<Uuid, Timestamp>, gameId: Uuid, now: Timestamp, other: Uuid,
                                      watermark: Timestamp)
    requires |m| > Capacity
    ensures !UpdatedSince(Notify(m, gameId, now), other, watermark)
  {
  }
}
