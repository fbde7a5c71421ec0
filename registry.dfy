/**
 * The change registry fed by database notifications (api/src/pg_listen.rs):
 * a map from game id to the time of its latest change, published through a
 * watch channel that the game sessions observe.
 */
module Registry {
  import opened Types
  import opened Errors

  /** Above this many entries the next notification clears the map. */
  const Capacity: nat := 100000

  /** The closure given to `send_modify` for a notification about gameId at time now. */
  function Notify(m: map<Uuid, Timestamp>, gameId: Uuid, now: Timestamp): (r: map<Uuid, Timestamp>)
    ensures |r| <= Capacity + 1
    ensures |m| > Capacity ==> r == map[]
    ensures |m| <= Capacity ==> r.Keys == m.Keys + {gameId} && r[gameId] == now
    ensures |m| <= Capacity ==> forall g :: g in m && g != gameId ==> r[g] == m[g]
    ensures |m| <= Capacity && gameId in m ==> |r| == |m|
  {
    if |m| > Capacity then map[] else m[gameId := now]
  }

  /** A notification's payload: a game id, or JSON the parser rejects. */
  datatype Payload = Parsed(gameId: Uuid) | Malformed(description: string)

  /** What `listener.recv()` yields: a notification received at some instant, or a failure. */
  datatype Notification = Received(payload: Payload, now: Timestamp) | RecvFailed(err: SqlxError)

  /** The error a notification ends the loop with, if any. */
  function Failure(n: Notification): Option<Error>
  {
    match n
    case RecvFailed(e) => Some(FromSqlx(e))
    case Received(Malformed(d), _) => Some(FromSerdeError(d))
    case Received(Parsed(_), _) => None
  }

  /**
   * The registry after the loop has consumed the notifications, and the
   * error it stopped with (None: still listening).
   */
  function Replay(m: map<Uuid, Timestamp>, feed: seq<Notification>): (map<Uuid, Timestamp>, Option<Error>)
    decreases |feed|
  {
    if |feed| == 0 then (m, None)
    else if Failure(feed[0]).Some? then (m, Failure(feed[0]))
    else Replay(Notify(m, feed[0].payload.gameId, feed[0].now), feed[1..])
  }

  /** `process_notifications`, as an object whose map the watch channel publishes. */
  class UpdateRegistry {
    var updates: map<Uuid, Timestamp>

    constructor ()
      ensures updates == map[]
    {
      updates := map[];
    }

    /**
     * Connects (setup is the connection's or subscription's failure, if
     * any), then applies notifications until one fails.
     */
    method ProcessNotifications(setup: Option<SqlxError>, feed: seq<Notification>) returns (err: Option<Error>)
      modifies this
      ensures setup.Some? ==> updates == old(updates) && err == Some(FromSqlx(setup.value))
      ensures setup.None? ==> (updates, err) == Replay(old(updates), feed)
    {
      if setup.Some? {
        return Some(FromSqlx(setup.value));
      }
      var i := 0;
      while i < |feed|
        invariant 0 <= i <= |feed|
        invariant Replay(old(updates), feed) == Replay(updates, feed[i..])
        decreases |feed| - i
      {
        var failure := Failure(feed[i]);
        if failure.Some? {
          return failure;
        }
        assert feed[i..][1..] == feed[i + 1..];
        updates := Notify(updates, feed[i].payload.gameId, feed[i].now);
        i := i + 1;
      }
      return None;
    }
  }

  /** The registry never holds more than Capacity + 1 entries. */
  lemma {:induction false} ReplayBounded(m: map<Uuid, Timestamp>, feed: seq<Notification>)
    requires |m| <= Capacity + 1
    ensures |Replay(m, feed).0| <= Capacity + 1
    decreases |feed|
  {
    if |feed| > 0 && Failure(feed[0]).None? {
      ReplayBounded(Notify(m, feed[0].payload.gameId, feed[0].now), feed[1..]);
    }
  }

  /** Notifications that all parse are applied one after the other. */
  predicate AllParsed(feed: seq<Notification>)
  {
    forall i :: 0 <= i < |feed| ==> Failure(feed[i]).None?
  }

  /** Replaying a parsed prefix and then the rest is replaying the whole feed. */
  lemma {:induction false} ReplayAppend(m: map<Uuid, Timestamp>, a: seq<Notification>, b: seq<Notification>)
    requires AllParsed(a)
    ensures Replay(m, a).1 == None
    ensures Replay(m, a + b) == Replay(Replay(m, a).0, b)
    decreases |a|
  {
    if |a| == 0 {
      assert a + b == b;
    } else {
      assert (a + b)[1..] == a[1..] + b;
      assert (a + b)[0] == a[0];
      ReplayAppend(Notify(m, a[0].payload.gameId, a[0].now), a[1..], b);
    }
  }

  /** The loop stops at the first failure: what follows it is never read. */
  lemma ReplayStopsAtFailure(m: map<Uuid, Timestamp>, a: seq<Notification>, n: Notification, rest: seq<Notification>)
    requires AllParsed(a)
    requires Failure(n).Some?
    ensures Replay(m, a + [n] + rest) == (Replay(m, a).0, Failure(n))
  {
    assert a + [n] + rest == a + ([n] + rest);
    ReplayAppend(m, a, [n] + rest);
  }

  /** After a notification for g that does not find the map over capacity, g maps to its time. */
  lemma ReplayLatest(m: map<Uuid, Timestamp>, a: seq<Notification>, g: Uuid, now: Timestamp)
    requires AllParsed(a)
    requires |Replay(m, a).0| <= Capacity
    ensures var r := Replay(m, a + [Received(Parsed(g), now)]);
      r.1 == None && g in r.0 && r.0[g] == now
  {
    ReplayAppend(m, a, [Received(Parsed(g), now)]);
  }

  /** When the map is over capacity, the notification that clears it is itself lost. */
  lemma OverflowDropsNotification(m: map<Uuid, Timestamp>, g: Uuid, now: Timestamp)
    requires |m| > Capacity
    ensures g !in Replay(m, [Received(Parsed(g), now)]).0
  {
  }

  /** Times recorded in the registry never exceed the latest notification's time. */
  lemma {:induction false} ReplayNotAfter(m: map<Uuid, Timestamp>, feed: seq<Notification>, bound: Timestamp)
    requires forall g :: g in m ==> m[g] <= bound
    requires forall i :: 0 <= i < |feed| && feed[i].Received? ==> feed[i].now <= bound
    ensures forall g :: g in Replay(m, feed).0 ==> Replay(m, feed).0[g] <= bound
    decreases |feed|
  {
    if |feed| > 0 && Failure(feed[0]).None? {
      var next := Notify(m, feed[0].payload.gameId, feed[0].now);
      assert feed[0].Received?;
      assert forall i :: 0 <= i < |feed[1..]| ==> feed[1..][i] == feed[i + 1];
      ReplayNotAfter(next, feed[1..], bound);
    }
  }
}
