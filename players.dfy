/**
 * The players of a game (api/src/handler/game/player.rs): the player
 * query mapped to PlayerOut, ranked by bingos and checked fields, and the
 * username update.
 */
module Players {
  import opened Types
  import opened Seqs
  import opened Body
  import opened Tables
  import opened WinDetector

  /** A NULL hits array reads as no hits. */
  function HitsOrEmpty(hits: Option<seq<bool>>): seq<bool>
  {
    match hits
    case None => []
    case Some(h) => h
  }

  /** A row of the player query as the client sees it, given its bingo count. */
  function PlayerOutOf(row: PlayerQueryRow, userId: Uuid, bingos: int): PlayerOut
  {
    PlayerOut(row.userId, row.username, bingos, HitsOrEmpty(row.hits), row.userId == userId)
  }

  /** The rows mapped to PlayerOut with the detector's count, before sorting. */
  ghost function Scored(rows: seq<PlayerQueryRow>, userId: Uuid): (players: seq<PlayerOut>)
    ensures |players| == |rows|
  {
    seq(|rows|, i requires 0 <= i < |rows| => PlayerOutOf(rows[i], userId, LineCount(HitsOrEmpty(rows[i].hits))))
  }

  // ---------------------------------------------------------------------
  // The ranking order
  // ---------------------------------------------------------------------

  /** The sort key: bingos, then the number of checked fields. */
  function Key(p: PlayerOut): (int, nat)
  {
    (p.bingos, CountTrue(p.hits))
  }

  /** a ranks no lower than b: more bingos, or as many and at least as many checked fields. */
  predicate Precedes(a: PlayerOut, b: PlayerOut)
  {
    a.bingos > b.bingos || (a.bingos == b.bingos && CountTrue(a.hits) >= CountTrue(b.hits))
  }

  ghost predicate Sorted(s: seq<PlayerOut>)
  {
    forall i, j :: 0 <= i < j < |s| ==> Precedes(s[i], s[j])
  }

  /** The players with the given key, in order. */
  function WithKey(s: seq<PlayerOut>, k: (int, nat)): seq<PlayerOut>
  {
    if |s| == 0 then []
    else WithKey(s[..|s| - 1], k) + (if Key(s[|s| - 1]) == k then [s[|s| - 1]] else [])
  }

  /** Places x after the last element of sorted that ranks no lower than x. */
  function Insert(sorted: seq<PlayerOut>, x: PlayerOut): (r: seq<PlayerOut>)
    ensures multiset(r) == multiset(sorted) + multiset{x}
    decreases |sorted|
  {
    if |sorted| == 0 then [x]
    else
      var last := sorted[|sorted| - 1];
      var init := sorted[..|sorted| - 1];
      assert sorted == init + [last];
      if Precedes(last, x) then sorted + [x]
      else Insert(init, x) + [last]
  }

  /**
   * The stable sort of `players.sort_by`: by bingos descending, then by
   * the number of checked fields descending; ties keep their order.
   */
  function SortRanked(s: seq<PlayerOut>): (r: seq<PlayerOut>)
    ensures multiset(r) == multiset(s)
    decreases |s|
  {
    if |s| == 0 then []
    else
      assert s == s[..|s| - 1] + [s[|s| - 1]];
      Insert(SortRanked(s[..|s| - 1]), s[|s| - 1])
  }

  lemma SortedAppend(s: seq<PlayerOut>, z: PlayerOut)
    requires Sorted(s)
    requires forall i :: 0 <= i < |s| ==> Precedes(s[i], z)
    ensures Sorted(s + [z])
  {
    var t := s + [z];
    forall i, j | 0 <= i < j < |t|
      ensures Precedes(t[i], t[j])
    {
      if j < |s| {
        assert t[i] == s[i] && t[j] == s[j];
      }
    }
  }

  /** Everything Insert places ranks no lower than z when x and the elements of s do. */
  lemma InsertPrecedes(s: seq<PlayerOut>, x: PlayerOut, z: PlayerOut)
    requires forall k :: 0 <= k < |s| ==> Precedes(s[k], z)
    requires Precedes(x, z)
    ensures forall i :: 0 <= i < |Insert(s, x)| ==> Precedes(Insert(s, x)[i], z)
  {
    var r := Insert(s, x);
    forall i | 0 <= i < |r|
      ensures Precedes(r[i], z)
    {
      var y := r[i];
      assert y in multiset(r);
      if y != x {
        assert y in multiset(s);
        var k :| 0 <= k < |s| && s[k] == y;
      }
    }
  }

  lemma {:induction false} InsertSorted(sorted: seq<PlayerOut>, x: PlayerOut)
    requires Sorted(sorted)
    ensures Sorted(Insert(sorted, x))
    decreases |sorted|
  {
    if |sorted| > 0 {
      var last := sorted[|sorted| - 1];
      var init := sorted[..|sorted| - 1];
      assert sorted == init + [last];
      InsertUnfold(init, last, x);
      if Precedes(last, x) {
        forall i | 0 <= i < |sorted|
          ensures Precedes(sorted[i], x)
        {
          if i < |sorted| - 1 {
            assert Precedes(sorted[i], last);
          }
        }
        SortedAppend(sorted, x);
      } else {
        assert Sorted(init) by {
          forall i, j | 0 <= i < j < |init|
            ensures Precedes(init[i], init[j])
          {
            assert init[i] == sorted[i] && init[j] == sorted[j];
          }
        }
        InsertSorted(init, x);
        forall k | 0 <= k < |init|
          ensures Precedes(init[k], last)
        {
          assert init[k] == sorted[k];
        }
        InsertPrecedes(init, x, last);
        SortedAppend(Insert(init, x), last);
      }
    }
  }

  lemma {:induction false} SortRankedSorted(s: seq<PlayerOut>)
    ensures Sorted(SortRanked(s))
    decreases |s|
  {
    if |s| > 0 {
      SortRankedSorted(s[..|s| - 1]);
      InsertSorted(SortRanked(s[..|s| - 1]), s[|s| - 1]);
    }
  }

  lemma {:induction false} WithKeyAppend(a: seq<PlayerOut>, b: seq<PlayerOut>, k: (int, nat))
    ensures WithKey(a + b, k) == WithKey(a, k) + WithKey(b, k)
    decreases |b|
  {
    if |b| == 0 {
      assert a + b == a;
    } else {
      var c := b[..|b| - 1];
      assert (a + b)[..|a + b| - 1] == a + c;
      WithKeyAppend(a, c, k);
    }
  }

  lemma WithKeySingle(x: PlayerOut, k: (int, nat))
    ensures WithKey([x], k) == if Key(x) == k then [x] else []
  {
    assert [x][..0] == [];
  }

  lemma SwapTail<T>(p: seq<T>, a: seq<T>, b: seq<T>)
    requires a + b == b + a
    ensures p + a + b == p + b + a
  {
    calc {
      p + a + b;
      p + (a + b);
      p + (b + a);
      p + b + a;
    }
  }

  /** The inductive step of InsertStable when x goes before the last element. */
  lemma InsertStableStep(init: seq<PlayerOut>, last: PlayerOut, x: PlayerOut, k: (int, nat))
    requires !Precedes(last, x)
    requires WithKey(Insert(init, x), k) == WithKey(init, k) + WithKey([x], k)
    ensures WithKey(Insert(init, x) + [last], k) == WithKey(init + [last], k) + WithKey([x], k)
  {
    WithKeyAppend(Insert(init, x), [last], k);
    WithKeyAppend(init, [last], k);
    WithKeySingle(x, k);
    WithKeySingle(last, k);
    // x and last never both have key k, so their filtered singletons commute
    var wx, wl := WithKey([x], k), WithKey([last], k);
    assert wx + wl == wl + wx by {
      if Key(x) == k {
        assert Key(last) != k;
        assert wl == [];
      } else {
        assert wx == [];
      }
    }
    SwapTail(WithKey(init, k), wx, wl);
  }

  /** One step of Insert, on a non-empty sorted prefix. */
  lemma InsertUnfold(init: seq<PlayerOut>, last: PlayerOut, x: PlayerOut)
    ensures Insert(init + [last], x) == if Precedes(last, x) then init + [last] + [x] else Insert(init, x) + [last]
  {
    assert (init + [last])[..|init|] == init;
  }

  /** One step of SortRanked. */
  lemma SortRankedUnfold(init: seq<PlayerOut>, last: PlayerOut)
    ensures SortRanked(init + [last]) == Insert(SortRanked(init), last)
  {
    assert (init + [last])[..|init|] == init;
  }

  /** The inductive step of InsertStable when x goes after the last element. */
  lemma InsertStableAppend(init: seq<PlayerOut>, last: PlayerOut, x: PlayerOut, k: (int, nat))
    requires Precedes(last, x)
    ensures WithKey(Insert(init + [last], x), k) == WithKey(init + [last], k) + WithKey([x], k)
  {
    InsertUnfold(init, last, x);
    WithKeyAppend(init + [last], [x], k);
  }

  lemma {:induction false} InsertStable(sorted: seq<PlayerOut>, x: PlayerOut, k: (int, nat))
    ensures WithKey(Insert(sorted, x), k) == WithKey(sorted, k) + WithKey([x], k)
    decreases |sorted|
  {
    if |sorted| > 0 {
      var init, last := sorted[..|sorted| - 1], sorted[|sorted| - 1];
      assert sorted == init + [last];
      if Precedes(last, x) {
        InsertStableAppend(init, last, x, k);
      } else {
        InsertStable(init, x, k);
        InsertStableStep(init, last, x, k);
        InsertUnfold(init, last, x);
      }
    }
  }

  /** Players with equal keys keep the order of the query. */
  lemma {:induction false} SortRankedStable(s: seq<PlayerOut>, k: (int, nat))
    ensures WithKey(SortRanked(s), k) == WithKey(s, k)
    decreases |s|
  {
    if |s| > 0 {
      var init, last := s[..|s| - 1], s[|s| - 1];
      assert s == init + [last];
      calc {
        WithKey(SortRanked(s), k);
        { SortRankedUnfold(init, last); }
        WithKey(Insert(SortRanked(init), last), k);
        { InsertStable(SortRanked(init), last, k); }
        WithKey(SortRanked(init), k) + WithKey([last], k);
        { SortRankedStable(init, k); }
        WithKey(init, k) + WithKey([last], k);
        { WithKeyAppend(init, [last], k); }
        WithKey(s, k);
      }
    }
  }

  // ---------------------------------------------------------------------
  // The handlers
  // ---------------------------------------------------------------------

  /**
   * `ger_players`: maps every row of the player query to a PlayerOut whose
   * bingos the detector counts on its hits, then ranks them.
   */
  method GetPlayers(db: Database, gameId: Uuid, userId: Uuid) returns (players: seq<PlayerOut>)
    ensures players == SortRanked(Scored(db.PlayerRows(gameId), userId))
    ensures multiset(players) == multiset(Scored(db.PlayerRows(gameId), userId))
    ensures Sorted(players)
    ensures forall k :: WithKey(players, k) == WithKey(Scored(db.PlayerRows(gameId), userId), k)
  {
    var rows := db.PlayerRows(gameId);
    var scored: seq<PlayerOut> := [];
    for i := 0 to |rows|
      invariant scored == Scored(rows[..i], userId)
    {
      var bingos := Bingos(HitsOrEmpty(rows[i].hits));
      scored := scored + [PlayerOutOf(rows[i], userId, bingos)];
    }
    assert rows[..|rows|] == rows;
    players := SortRanked(scored);
    SortRankedSorted(scored);
    forall k
      ensures WithKey(players, k) == WithKey(scored, k)
    {
      SortRankedStable(scored, k);
    }
  }

  /** Every scored player carries the detector's count on its hits, and is me exactly for my rows. */
  lemma ScoredRows(rows: seq<PlayerQueryRow>, userId: Uuid)
    ensures forall i :: 0 <= i < |rows| ==>
      var p := Scored(rows, userId)[i];
      p.userId == rows[i].userId && p.username == rows[i].username
      && p.hits == HitsOrEmpty(rows[i].hits) && p.bingos == LineCount(p.hits)
      && (p.isMe <==> rows[i].userId == userId)
    ensures forall i :: 0 <= i < |rows| && rows[i].hits.None? ==> Scored(rows, userId)[i].bingos == 0
  {
    forall i | 0 <= i < |rows| && rows[i].hits.None?
      ensures Scored(rows, userId)[i].bingos == 0
    {
      assert GridSize(0).Err?;
    }
  }

  /** The player rows with the user's row in the game renamed. */
  function Renamed(players: seq<PlayerRow>, userId: Uuid, gameId: Uuid, username: string): (r: seq<PlayerRow>)
    ensures |r| == |players|
  {
    seq(|players|, i requires 0 <= i < |players| =>
      if players[i].userId == userId && players[i].gameId == gameId then players[i].(username := username)
      else players[i])
  }

  /** Renaming touches only the rows of this user in this game, and only their username. */
  lemma RenamedOnly(players: seq<PlayerRow>, userId: Uuid, gameId: Uuid, username: string)
    ensures forall i :: 0 <= i < |players| ==>
      var p := Renamed(players, userId, gameId, username)[i];
      if players[i].userId == userId && players[i].gameId == gameId
      then p == PlayerRow(userId, gameId, username)
      else p == players[i]
  {
  }

  /** Renaming twice is renaming once with the later name. */
  lemma RenamedTwice(players: seq<PlayerRow>, userId: Uuid, gameId: Uuid, first: string, second: string)
    ensures Renamed(Renamed(players, userId, gameId, first), userId, gameId, second)
      == Renamed(players, userId, gameId, second)
  {
  }

  /** `handle_update_username`: sets the username of the user's player row in the game. */
  method UpdateUsername(db: Database, userId: Uuid, gameId: Uuid, username: string)
    modifies db
    ensures db.State() == old(db.State()).(players := Renamed(old(db.players), userId, gameId, username))
  {
    db.players := Renamed(db.players, userId, gameId, username);
  }
}
