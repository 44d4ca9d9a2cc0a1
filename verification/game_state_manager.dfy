/**
 * The in-process game registry (lib/gameStateManager.ts): a cache of game states keyed by
 * id and a registry of listeners keyed by game type. Listeners are identified by a number
 * (JavaScript compares the callbacks by reference); every call the registry makes to a
 * listener is appended to `delivered`, so "who was told what, in which order" is part of
 * the state.
 */
module GameStates {
  import opened Wrappers
  import opened GameTypes
  import opened Recency

  type Listener = nat

  /** One call `listener(gameState)`. */
  datatype Delivery = Delivery(listener: Listener, state: GameState)

  /** 24 * 60 * 60 * 1000. */
  const DayMillis: int := 86400000

  /** The listeners registered for `gameType`: none when the type has no entry. */
  function ListenersOf(ls: map<string, set<Listener>>, gameType: string): set<Listener> {
    if gameType in ls then ls[gameType] else {}
  }

  /** The registry after `subscribe(gameType, l)`: the set is created on first use. */
  function Subscribed(ls: map<string, set<Listener>>, gameType: string, l: Listener)
    : (r: map<string, set<Listener>>)
    ensures r.Keys == ls.Keys + {gameType}
    ensures ListenersOf(r, gameType) == ListenersOf(ls, gameType) + {l}
    ensures forall t :: t != gameType ==> ListenersOf(r, t) == ListenersOf(ls, t)
  {
    ls[gameType := ListenersOf(ls, gameType) + {l}]
  }

  /**
   * The registry after the unsubscribe closure runs: `l` leaves the set, and a set left
   * empty is removed together with its entry.
   */
  function Unsubscribed(ls: map<string, set<Listener>>, gameType: string, l: Listener)
    : (r: map<string, set<Listener>>)
    ensures ListenersOf(r, gameType) == ListenersOf(ls, gameType) - {l}
    ensures forall t :: t != gameType ==> (t in r <==> t in ls)
    ensures forall t :: t != gameType ==> ListenersOf(r, t) == ListenersOf(ls, t)
    ensures gameType in r <==> ListenersOf(ls, gameType) - {l} != {}
  {
    if gameType !in ls then ls
    else if ls[gameType] - {l} == {} then ls - {gameType}
    else ls[gameType := ls[gameType] - {l}]
  }

  /** No type keeps an entry with an empty set of listeners. */
  predicate NoEmptySets(ls: map<string, set<Listener>>) {
    forall t :: t in ls ==> ls[t] != {}
  }

  /** Sum of the set sizes over the types in `ks`. */
  ghost function SumSizes(ls: map<string, set<Listener>>, ks: set<string>): nat
    requires ks <= ls.Keys
    decreases ks
  {
    if ks == {} then 0
    else
      var k :| k in ks;
      |ls[k]| + SumSizes(ls, ks - {k})
  }

  /** All listeners of all types, each registration counted once. */
  ghost function TotalListeners(ls: map<string, set<Listener>>): nat {
    SumSizes(ls, ls.Keys)
  }

  /** The sum may be taken out in any order. */
  lemma {:induction false} SumSizesRemove(ls: map<string, set<Listener>>, ks: set<string>, k: string)
    requires ks <= ls.Keys && k in ks
    ensures SumSizes(ls, ks) == |ls[k]| + SumSizes(ls, ks - {k})
    decreases ks
  {
    var j :| j in ks && SumSizes(ls, ks) == |ls[j]| + SumSizes(ls, ks - {j});
    if j != k {
      SumSizesRemove(ls, ks - {j}, k);
      SumSizesRemove(ls, ks - {k}, j);
      assert ks - {j} - {k} == ks - {k} - {j};
    }
  }

  /** The sum only depends on the sets of the types it covers. */
  lemma {:induction false} SumSizesFrame(ls: map<string, set<Listener>>, ls': map<string, set<Listener>>, ks: set<string>)
    requires ks <= ls.Keys && ks <= ls'.Keys
    requires forall t :: t in ks ==> ls[t] == ls'[t]
    ensures SumSizes(ls, ks) == SumSizes(ls', ks)
    decreases ks
  {
    if ks != {} {
      var k :| k in ks;
      SumSizesRemove(ls, ks, k);
      SumSizesRemove(ls', ks, k);
      SumSizesFrame(ls, ls', ks - {k});
    }
  }

  /** Subscribing adds one to the total, or nothing when the listener is already there. */
  lemma SubscribeCount(ls: map<string, set<Listener>>, gameType: string, l: Listener)
    ensures TotalListeners(Subscribed(ls, gameType, l))
            == TotalListeners(ls) + (if l in ListenersOf(ls, gameType) then 0 else 1)
  {
    var r := Subscribed(ls, gameType, l);
    var rest := ls.Keys - {gameType};
    SumSizesRemove(r, r.Keys, gameType);
    assert r.Keys - {gameType} == rest;
    SumSizesFrame(ls, r, rest);
    if gameType in ls {
      SumSizesRemove(ls, ls.Keys, gameType);
    } else {
      assert ls.Keys == rest;
    }
  }

  /** Subscribing twice leaves one registration. */
  lemma SubscribeIdempotent(ls: map<string, set<Listener>>, gameType: string, l: Listener)
    ensures Subscribed(Subscribed(ls, gameType, l), gameType, l) == Subscribed(ls, gameType, l)
  {
    var r := Subscribed(ls, gameType, l);
    assert ListenersOf(r, gameType) + {l} == ListenersOf(r, gameType);
  }

  /** Running the unsubscribe closure a second time changes nothing. */
  lemma UnsubscribeIdempotent(ls: map<string, set<Listener>>, gameType: string, l: Listener)
    requires NoEmptySets(ls)
    ensures Unsubscribed(Unsubscribed(ls, gameType, l), gameType, l) == Unsubscribed(ls, gameType, l)
  {
    var r := Unsubscribed(ls, gameType, l);
    if gameType in r {
      assert r[gameType] - {l} == r[gameType];
    }
  }

  /** Subscribing and unsubscribing keep every registered set non-empty. */
  lemma RegistryStaysPruned(ls: map<string, set<Listener>>, gameType: string, l: Listener)
    requires NoEmptySets(ls)
    ensures NoEmptySets(Subscribed(ls, gameType, l))
    ensures NoEmptySets(Unsubscribed(ls, gameType, l))
  {
    var r := Unsubscribed(ls, gameType, l);
    forall t | t in r
      ensures r[t] != {}
    {
      assert ListenersOf(r, t) == r[t];
      if t != gameType {
        assert ListenersOf(ls, t) == ls[t];
      }
    }
  }

  /** The cache after cleanup: the games updated at or after `cutoff`. */
  function KeepRecent(games: map<string, GameState>, cutoff: int): (r: map<string, GameState>)
    ensures forall id :: id in r <==> id in games && games[id].updatedAt >= cutoff
    ensures forall id :: id in r ==> r[id] == games[id]
  {
    map id | id in games && games[id].updatedAt >= cutoff :: games[id]
  }

  /** A second cleanup with the same or an earlier cutoff removes nothing more. */
  lemma KeepRecentIdempotent(games: map<string, GameState>, cutoff: int, earlier: int)
    requires earlier <= cutoff
    ensures KeepRecent(KeepRecent(games, cutoff), earlier) == KeepRecent(games, cutoff)
  {
  }

  class GameStateManager {
    var games: map<string, GameState>
    var listeners: map<string, set<Listener>>
    var delivered: seq<Delivery>

    /** Every game is cached under its own id, and no type keeps an empty listener set. */
    ghost predicate Valid()
      reads this
    {
      && (forall id :: id in games ==> games[id].id == id)
      && NoEmptySets(listeners)
    }

    constructor ()
      ensures games == map[] && listeners == map[] && delivered == []
      ensures Valid()
    {
      games := map[];
      listeners := map[];
      delivered := [];
    }

    /**
     * The cache path of getGame: among the cached games of `gameType`, one with the
     * greatest updatedAt. `None` is where the real code falls back to the database.
     */
    method GetGame(gameType: string) returns (r: Option<GameState>)
      ensures r.Some? ==> r.value in games.Values && r.value.gameType == gameType
      ensures r.Some? ==> forall g :: g in games.Values && g.gameType == gameType ==> g.updatedAt <= r.value.updatedAt
      ensures r.None? <==> forall g :: g in games.Values ==> g.gameType != gameType
    {
      var keep := (g: GameState) => g.gameType == gameType;
      var stamp := (g: GameState) => g.updatedAt;
      var k := FindLatest(games, keep, stamp);
      if k.Some? {
        r := Some(games[k.value]);
        assert IsLatest(games, keep, stamp, k.value);
        forall g | g in games.Values && g.gameType == gameType
          ensures g.updatedAt <= r.value.updatedAt
        {
          var j :| j in games && games[j] == g;
          assert keep(games[j]);
        }
      } else {
        r := None;
        forall g | g in games.Values
          ensures g.gameType != gameType
        {
          var j :| j in games && games[j] == g;
          assert !keep(games[j]);
        }
      }
    }

    /**
     * notifyListeners: with a state, every listener of `gameType` is called once with it;
     * with no state, or no listeners, nobody is called.
     */
    method NotifyListeners(gameType: string, gameState: Option<GameState>)
      modifies this`delivered
      ensures gameState.None? ==> delivered == old(delivered)
      ensures gameState.Some? ==> Notified(old(delivered), delivered, ListenersOf(listeners, gameType), gameState.value)
    {
      if gameType in listeners && gameState.Some? {
        var all := listeners[gameType];
        var todo := all;
        ghost var before := delivered;
        while todo != {}
          invariant todo <= all
          invariant |before| <= |delivered| && delivered[..|before|] == before
          invariant |delivered| - |before| + |todo| == |all|
          invariant forall i :: |before| <= i < |delivered| ==>
                      delivered[i].state == gameState.value && delivered[i].listener in all - todo
          invariant forall i, j :: |before| <= i < j < |delivered| ==> delivered[i].listener != delivered[j].listener
          invariant forall l :: l in all - todo ==> exists i :: |before| <= i < |delivered| && delivered[i].listener == l
          decreases todo
        {
          var l :| l in todo;
          ghost var prev, prevTodo := delivered, todo;
          delivered := delivered + [Delivery(l, gameState.value)];
          todo := todo - {l};
          forall l' | l' in all - todo
            ensures exists i :: |before| <= i < |delivered| && delivered[i].listener == l'
          {
            if l' == l {
              assert delivered[|prev|].listener == l';
            } else {
              assert l' in all - prevTodo;
              var i :| |before| <= i < |prev| && prev[i].listener == l';
              assert delivered[i] == prev[i];
            }
          }
        }
        assert all - todo == ListenersOf(listeners, gameType);
      } else if gameState.Some? {
        assert ListenersOf(listeners, gameType) == {};
      }
    }

    /**
     * setGame: the state is cached under its id with updatedAt set to `now`, and exactly
     * the listeners of its type are told the refreshed state, each once.
     */
    method SetGame(gameState: GameState, now: int)
      requires Valid()
      modifies this
      ensures Valid()
      ensures games == old(games)[gameState.id := gameState.(updatedAt := now)]
      ensures listeners == old(listeners)
      ensures Notified(old(delivered), delivered, ListenersOf(listeners, gameState.gameType),
                       gameState.(updatedAt := now))
    {
      var updated := gameState.(updatedAt := now);
      games := games[updated.id := updated];
      NotifyListeners(gameState.gameType, Some(updated));
    }

    /** deleteGame: only `gameId` leaves the cache, and no listener is called. */
    method DeleteGame(gameId: string)
      requires Valid()
      modifies this
      ensures Valid()
      ensures games == old(games) - {gameId}
      ensures listeners == old(listeners) && delivered == old(delivered)
    {
      if gameId in games {
        var game := games[gameId];
        games := games - {gameId};
        NotifyListeners(game.gameType, None);
      }
    }

    /**
     * subscribe: the listener joins its type's set; it is then told the latest cached game
     * of that type, if there is one.
     */
    method Subscribe(gameType: string, listener: Listener)
      requires Valid()
      modifies this
      ensures Valid()
      ensures listeners == Subscribed(old(listeners), gameType, listener)
      ensures games == old(games)
      ensures (forall g :: g in games.Values ==> g.gameType != gameType) ==> delivered == old(delivered)
      ensures (exists g :: g in games.Values && g.gameType == gameType) ==>
        && |delivered| == |old(delivered)| + 1
        && delivered[..|old(delivered)|] == old(delivered)
        && var d := delivered[|old(delivered)|];
        && d.listener == listener && d.state in games.Values && d.state.gameType == gameType
        && forall g :: g in games.Values && g.gameType == gameType ==> g.updatedAt <= d.state.updatedAt
    {
      RegistryStaysPruned(listeners, gameType, listener);
      listeners := Subscribed(listeners, gameType, listener);
      var current := GetGame(gameType);
      if current.Some? {
        delivered := delivered + [Delivery(listener, current.value)];
      }
    }

    /** The closure subscribe returns. */
    method Unsubscribe(gameType: string, listener: Listener)
      requires Valid()
      modifies this`listeners
      ensures Valid()
      ensures listeners == Unsubscribed(old(listeners), gameType, listener)
    {
      RegistryStaysPruned(listeners, gameType, listener);
      if gameType in listeners {
        var gameListeners := listeners[gameType] - {listener};
        if gameListeners == {} {
          listeners := listeners - {gameType};
        } else {
          listeners := listeners[gameType := gameListeners];
        }
      }
    }

    /**
     * getListenerCount: the size of one type's set (0 when it has none), or with no type
     * given (or an empty one) the sum over all types.
     */
    method GetListenerCount(gameType: Option<string>) returns (n: nat)
      ensures Truthy(gameType) ==> n == |ListenersOf(listeners, gameType.value)|
      ensures !Truthy(gameType) ==> n == TotalListeners(listeners)
    {
      if Truthy(gameType) {
        n := if gameType.value in listeners then |listeners[gameType.value]| else 0;
        return;
      }
      n := 0;
      var todo := listeners.Keys;
      while todo != {}
        invariant todo <= listeners.Keys
        invariant n + SumSizes(listeners, todo) == TotalListeners(listeners)
        decreases todo
      {
        var t :| t in todo;
        SumSizesRemove(listeners, todo, t);
        n := n + |listeners[t]|;
        todo := todo - {t};
      }
    }

    /** cleanup: every cached game last updated more than a day before `now` is dropped. */
    method Cleanup(now: int)
      requires Valid()
      modifies this`games
      ensures Valid()
      ensures games == KeepRecent(old(games), now - DayMillis)
    {
      var oneDayAgo := now - DayMillis;
      var gamesToDelete: seq<string> := [];
      var todo := games.Keys;
      while todo != {}
        invariant todo <= games.Keys
        invariant forall id :: id in gamesToDelete <==> id in games && id !in todo && games[id].updatedAt < oneDayAgo
        decreases todo
      {
        var id :| id in todo;
        if games[id].updatedAt < oneDayAgo {
          gamesToDelete := gamesToDelete + [id];
        }
        todo := todo - {id};
      }
      ghost var start := games;
      for i := 0 to |gamesToDelete|
        invariant games.Keys == start.Keys - set j | 0 <= j < i :: gamesToDelete[j]
        invariant forall id :: id in games ==> games[id] == start[id]
      {
        games := games - {gamesToDelete[i]};
      }
    }
  }

  /**
   * `after` extends `before` with one call per listener in `ls`, each with `state`: no
   * listener outside `ls`, none twice, none left out.
   */
  ghost predicate Notified(before: seq<Delivery>, after: seq<Delivery>, ls: set<Listener>, state: GameState) {
    && |before| <= |after| && after[..|before|] == before
    && |after| - |before| == |ls|
    && (forall i :: |before| <= i < |after| ==> after[i].state == state && after[i].listener in ls)
    && (forall i, j :: |before| <= i < j < |after| ==> after[i].listener != after[j].listener)
    && (forall l :: l in ls ==> exists i :: |before| <= i < |after| && after[i].listener == l)
  }
}
