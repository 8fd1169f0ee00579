/**
 * The game server (server/server.py): a registry of at most two clients fed from a pool
 * of player ids, the two artificial-latency queues (inputs in, broadcasts out), and one
 * iteration of the game loop. A client is its player id; its websocket is not
 * modelled, and a send is a Delivery naming its recipient. Clock readings, the random
 * spawn positions and the square root of 2 are parameters.
 *
 * As in the engine, the server's fields are gathered into a value, `ServerState`, the
 * operations are functions on that value with their properties proved as lemmas, and
 * the class GameServer at the end is proved to compute those functions in place.
 */
module Server {
  import opened Wrappers
  import opened Constants
  import opened Movement
  import opened Messages
  import opened Latency
  import opened Engine

  /** The server's DelayedMessage without its time: a client message and its sender. */
  datatype InputEntry = InputEntry(message: ClientMessage, playerId: int)

  /** DelayedBroadcast without its time: the message and the player it skips, if any. */
  datatype Broadcast = Broadcast(message: ServerMessage, exclude: Option<int>)

  /** One websocket send: to whom, and what. */
  datatype Delivery = Delivery(recipient: int, message: ServerMessage)

  /** The connection limit of register_client. */
  const MaxClients: nat := 2
  /** The pool of player ids a new server starts with. */
  const PlayerIds: seq<int> := [1, 2]
  /** Ticks per second of game_loop. */
  const TickRate: nat := 60
  /** Both queues hold entries for NETWORK_DELAY_MS. */
  const Delay: real := NetworkDelayMs as real / 1000.0
  const BroadcastInterval: real := 1.0 / StateBroadcastRate as real
  const TickInterval: real := 1.0 / TickRate as real
  const FullText: string := "Game is full. Only 2 players allowed."
  const WaitingText: string := "Waiting for another player to join..."

  // ---------------------------------------------------------------------------
  // The pool of player ids

  /** Non-decreasing, the order list.sort() leaves. */
  ghost predicate Ascending(s: seq<int>)
  {
    forall i, j :: 0 <= i <= j < |s| ==> s[i] <= s[j]
  }

  /** `ids.append(x); ids.sort()` on an ascending list: `x` goes before the first larger id. */
  function Insert(xs: seq<int>, x: int): (r: seq<int>)
    ensures multiset(r) == multiset(xs) + multiset{x}
    decreases |xs|
  {
    if xs == [] || x <= xs[0] then [x] + xs
    else
      assert xs == [xs[0]] + xs[1..];
      [xs[0]] + Insert(xs[1..], x)
  }

  /** Insert adds exactly `x`, and keeps a strictly ascending list strictly ascending. */
  lemma {:induction false} InsertOrdered(xs: seq<int>, x: int)
    ensures forall y :: y in Insert(xs, x) <==> y in xs || y == x
    ensures StrictlyIncreasing(xs) && x !in xs ==> StrictlyIncreasing(Insert(xs, x))
    decreases |xs|
  {
    var r := Insert(xs, x);
    forall y ensures y in r <==> y in xs || y == x {
      assert y in r <==> y in multiset(r);
      assert y in xs <==> y in multiset(xs);
    }
    if StrictlyIncreasing(xs) && x !in xs {
      if xs == [] {
      } else if x <= xs[0] {
        forall i | 0 <= i < |xs| ensures xs[i] > x {
          assert xs[0] != x;
          assert i == 0 || xs[0] < xs[i];
        }
        ConsIncreasing(x, xs);
      } else {
        var tail := xs[1..];
        TailIncreasing(xs);
        assert x !in tail by {
          forall y | y in tail ensures y in xs {
            var j :| 0 <= j < |tail| && tail[j] == y;
            assert xs[j + 1] == y;
          }
        }
        InsertOrdered(tail, x);
        var rest := Insert(tail, x);
        forall i | 0 <= i < |rest| ensures rest[i] > xs[0] {
          assert rest[i] in rest;
          if rest[i] != x {
            var j :| 0 <= j < |tail| && tail[j] == rest[i];
          }
        }
        ConsIncreasing(xs[0], rest);
        assert r == [xs[0]] + rest;
      }
    }
  }

  /** An ascending list is determined by its elements. */
  lemma {:induction false} AscendingUnique(a: seq<int>, b: seq<int>)
    requires Ascending(a) && Ascending(b)
    requires multiset(a) == multiset(b)
    ensures a == b
    decreases |a|
  {
    assert |a| == |multiset(a)| == |multiset(b)| == |b|;
    if a != [] {
      assert a[0] in multiset(b) && b[0] in multiset(a);
      var i :| 0 <= i < |b| && b[i] == a[0];
      var j :| 0 <= j < |a| && a[j] == b[0];
      assert b[0] <= b[i] && a[0] <= a[j];
      assert a[0] == b[0];
      SameTails(a, b);
      AscendingTail(a);
      AscendingTail(b);
      AscendingUnique(a[1..], b[1..]);
    }
  }

  /** Lists with the same elements and the same head have tails with the same elements. */
  lemma SameTails(a: seq<int>, b: seq<int>)
    requires a != [] && b != [] && a[0] == b[0]
    requires multiset(a) == multiset(b)
    ensures multiset(a[1..]) == multiset(b[1..])
  {
    assert a == [a[0]] + a[1..] && b == [b[0]] + b[1..];
    assert multiset(a) == multiset{a[0]} + multiset(a[1..]);
    assert multiset(b) == multiset{a[0]} + multiset(b[1..]);
    forall y ensures multiset(a[1..])[y] == multiset(b[1..])[y] {
      assert multiset(a)[y] == multiset{a[0]}[y] + multiset(a[1..])[y];
      assert multiset(b)[y] == multiset{a[0]}[y] + multiset(b[1..])[y];
    }
  }

  lemma AscendingTail(a: seq<int>)
    requires a != [] && Ascending(a)
    ensures Ascending(a[1..])
  {
    forall i, j | 0 <= i <= j < |a| - 1 ensures a[1..][i] <= a[1..][j] {
      assert a[1..][i] == a[i + 1] && a[1..][j] == a[j + 1];
    }
  }

  /**
   * On the pool (strictly ascending, the id not in it) Insert computes exactly what
   * appending and sorting computes.
   */
  lemma InsertIsSort(xs: seq<int>, x: int, sorted: seq<int>)
    requires StrictlyIncreasing(xs) && x !in xs
    requires Ascending(sorted) && multiset(sorted) == multiset(xs + [x])
    ensures sorted == Insert(xs, x)
  {
    assert multiset(xs + [x]) == multiset(xs) + multiset{x};
    InsertOrdered(xs, x);
    var r := Insert(xs, x);
    assert Ascending(r) by {
      forall i, j | 0 <= i <= j < |r| ensures r[i] <= r[j] {
        if i < j {
          assert r[i] < r[j];
        }
      }
    }
    AscendingUnique(sorted, r);
  }

  /** No three entries of a list drawn from {1, 2} are pairwise different. */
  lemma Pigeonhole(s: seq<int>)
    requires forall i :: 0 <= i < |s| ==> s[i] == 1 || s[i] == 2
    ensures |s| > 2 ==> s[0] == s[1] || s[0] == s[2] || s[1] == s[2]
  {
    if |s| > 2 {
      assert s[0] == 1 || s[0] == 2;
      assert s[1] == 1 || s[1] == 2;
      assert s[2] == 1 || s[2] == 2;
    }
  }

  /** Every player id is connected or in the pool, never both; the pool is strictly ascending. */
  ghost predicate Registry(clients: seq<int>, pool: seq<int>)
  {
    && NoDup(clients)
    && StrictlyIncreasing(pool)
    && (forall id :: id in clients ==> id !in pool)
    && (forall id :: id in clients || id in pool <==> id == 1 || id == 2)
  }

  /** The two tests of register_client agree: there are two clients exactly when the pool is empty. */
  lemma RegistryFull(clients: seq<int>, pool: seq<int>)
    requires Registry(clients, pool)
    ensures |clients| <= MaxClients
    ensures |clients| >= MaxClients <==> pool == []
  {
    forall i | 0 <= i < |clients| ensures clients[i] == 1 || clients[i] == 2 {
      assert clients[i] in clients;
    }
    Pigeonhole(clients);
    assert |clients| >= 2 ==> clients[0] in clients && clients[1] in clients && clients[0] != clients[1];
    assert |pool| > 0 ==> pool[0] in pool;
    if pool == [] {
      assert 1 in clients && 2 in clients;
      var i :| 0 <= i < |clients| && clients[i] == 1;
      var j :| 0 <= j < |clients| && clients[j] == 2;
      assert i != j;
    }
  }

  /** Taking the front of the pool hands out the smallest free id and keeps the registry. */
  lemma TakeSmallestId(clients: seq<int>, pool: seq<int>)
    requires Registry(clients, pool) && pool != []
    ensures Registry(clients + [pool[0]], pool[1..])
    ensures pool[0] !in clients && (pool[0] == 1 || pool[0] == 2)
    ensures forall k :: (k == 1 || k == 2) && k !in clients ==> pool[0] <= k
  {
    var id := pool[0];
    assert id in pool;
    forall k | (k == 1 || k == 2) && k !in clients ensures id <= k {
      assert k in pool;
      var j :| 0 <= j < |pool| && pool[j] == k;
      assert j == 0 || pool[0] < pool[j];
    }
    var c := clients + [id];
    forall i, j | 0 <= i < j < |c| ensures c[i] != c[j] {
      if j == |clients| {
        assert c[i] in clients;
      }
    }
    forall y | y in pool[1..] ensures y in pool && y != id {
      var j :| 0 <= j < |pool[1..]| && pool[1..][j] == y;
      assert pool[j + 1] == y;
    }
    forall y | y in pool ensures y == id || y in pool[1..] {
      var j :| 0 <= j < |pool| && pool[j] == y;
      if j > 0 {
        assert pool[1..][j - 1] == y;
      }
    }
  }

  /** Giving a connected id back to the pool keeps the registry. */
  lemma ReturnId(clients: seq<int>, pool: seq<int>, id: int)
    requires Registry(clients, pool) && id in clients
    ensures id !in pool
    ensures Registry(Without(clients, {id}), Insert(pool, id))
  {
    InsertOrdered(pool, id);
  }

  // ---------------------------------------------------------------------------
  // Delivering broadcasts

  /** `exclude and player_id == exclude` */
  predicate Skips(exclude: Option<int>, id: int)
  {
    TruthyInt(exclude) && id == exclude.value
  }

  /** The ids _send_to_clients sends to, in the order of the clients dict. */
  function Recipients(clients: seq<int>, exclude: Option<int>): seq<int>
    decreases |clients|
  {
    if clients == [] then []
    else
      var rest := Recipients(clients[..|clients| - 1], exclude);
      var id := clients[|clients| - 1];
      if Skips(exclude, id) then rest else rest + [id]
  }

  /**
   * A broadcast reaches every client except the excluded one, and no one else; with no
   * truthy exclusion it reaches all of them, in order.
   */
  lemma {:induction false} RecipientsFacts(clients: seq<int>, exclude: Option<int>)
    ensures forall id :: id in Recipients(clients, exclude) <==> id in clients && !Skips(exclude, id)
    ensures !TruthyInt(exclude) ==> Recipients(clients, exclude) == clients
    decreases |clients|
  {
    if clients != [] {
      var init := clients[..|clients| - 1];
      RecipientsFacts(init, exclude);
      assert clients == init + [clients[|clients| - 1]];
    }
  }

  /** The sends of one broadcast. */
  function SendsOf(message: ServerMessage, rs: seq<int>): (r: seq<Delivery>)
  {
    seq(|rs|, i requires 0 <= i < |rs| => Delivery(rs[i], message))
  }

  /** send_delayed_broadcasts: the broadcasts in order, each sent by _send_to_clients. */
  function Deliveries(ready: seq<Broadcast>, clients: seq<int>): seq<Delivery>
    decreases |ready|
  {
    if ready == [] then []
    else
      var b := ready[|ready| - 1];
      Deliveries(ready[..|ready| - 1], clients) + SendsOf(b.message, Recipients(clients, b.exclude))
  }

  /**
   * Every send goes to a connected client that the broadcast does not exclude, and every
   * connected client not excluded by a broadcast is sent that broadcast.
   */
  lemma {:induction false} DeliveriesExact(ready: seq<Broadcast>, clients: seq<int>)
    ensures forall d :: d in Deliveries(ready, clients) ==>
              d.recipient in clients
              && exists i :: 0 <= i < |ready| && d.message == ready[i].message && !Skips(ready[i].exclude, d.recipient)
    ensures forall i, c :: 0 <= i < |ready| && c in clients && !Skips(ready[i].exclude, c) ==>
              Delivery(c, ready[i].message) in Deliveries(ready, clients)
    decreases |ready|
  {
    if ready != [] {
      var init := ready[..|ready| - 1];
      var b := ready[|ready| - 1];
      DeliveriesExact(init, clients);
      RecipientsFacts(clients, b.exclude);
      var prev := Deliveries(init, clients);
      var rs := Recipients(clients, b.exclude);
      var last := SendsOf(b.message, rs);
      assert Deliveries(ready, clients) == prev + last;
      forall d | d in Deliveries(ready, clients)
        ensures d.recipient in clients
        ensures exists i :: 0 <= i < |ready| && d.message == ready[i].message && !Skips(ready[i].exclude, d.recipient)
      {
        if d in prev {
          var i :| 0 <= i < |init| && d.message == init[i].message && !Skips(init[i].exclude, d.recipient);
          assert ready[i] == init[i];
        } else {
          assert d in last;
          var k :| 0 <= k < |last| && last[k] == d;
          assert d.recipient == rs[k] && rs[k] in rs;
          assert d.message == ready[|ready| - 1].message;
        }
      }
      forall i, c | 0 <= i < |ready| && c in clients && !Skips(ready[i].exclude, c)
        ensures Delivery(c, ready[i].message) in Deliveries(ready, clients)
      {
        if i < |init| {
          assert ready[i] == init[i];
        } else {
          assert c in rs;
          var k :| 0 <= k < |rs| && rs[k] == c;
          assert last[k] == Delivery(c, b.message);
        }
      }
    }
  }

  // ---------------------------------------------------------------------------
  // Inputs

  /**
   * process_delayed_inputs on the world: each released entry, in order, that is an input
   * message sets its sender's input, a missing dx or dy counting as 0; anything else is
   * ignored.
   */
  function ApplyInputs(w: World, entries: seq<InputEntry>): (r: World)
    ensures WellFormed(w) ==> WellFormed(r)
    decreases |entries|
  {
    if entries == [] then w
    else
      var prev := ApplyInputs(w, entries[..|entries| - 1]);
      var e := entries[|entries| - 1];
      if e.message.Input? then
        SetInputKeepsWellFormedIf(prev, e.playerId, e.message.dx.GetOr(0), e.message.dy.GetOr(0));
        SetInputW(prev, e.playerId, e.message.dx.GetOr(0), e.message.dy.GetOr(0))
      else prev
  }

  /** ApplyInputs over one more entry applies that entry to the result so far. */
  lemma ApplyOneMore(w: World, es: seq<InputEntry>, i: nat)
    requires i < |es|
    ensures ApplyInputs(w, es[..i + 1]) ==
              if es[i].message.Input?
              then SetInputW(ApplyInputs(w, es[..i]), es[i].playerId, es[i].message.dx.GetOr(0), es[i].message.dy.GetOr(0))
              else ApplyInputs(w, es[..i])
  {
    assert es[..i + 1][..i] == es[..i];
  }

  lemma SetInputKeepsWellFormedIf(w: World, id: int, dx: int, dy: int)
    ensures WellFormed(w) ==> WellFormed(SetInputW(w, id, dx, dy))
  {
    if WellFormed(w) {
      SetInputKeepsWellFormed(w, id, dx, dy);
    }
  }

  /** The last input message from `id` among `entries`, if there is one. */
  function LatestInput(entries: seq<InputEntry>, id: int): Option<(int, int)>
    decreases |entries|
  {
    if entries == [] then None
    else
      var e := entries[|entries| - 1];
      if e.message.Input? && e.playerId == id then Some((e.message.dx.GetOr(0), e.message.dy.GetOr(0)))
      else LatestInput(entries[..|entries| - 1], id)
  }

  /**
   * The latest input wins: after the released entries, each player's input is the clamped
   * direction of the last input message it sent, or what it was when it sent none; its
   * position and score, every other field of the world and the set of players stay.
   */
  lemma {:induction false} LatestInputWins(w: World, entries: seq<InputEntry>)
    ensures var r := ApplyInputs(w, entries);
            && r == w.(players := r.players)
            && r.players.Keys == w.players.Keys
            && forall k :: k in w.players ==>
                 r.players[k] == match LatestInput(entries, k)
                                 case None => w.players[k]
                                 case Some(d) => w.players[k].(dx := ClampInput(d.0), dy := ClampInput(d.1))
    decreases |entries|
  {
    if entries != [] {
      LatestInputWins(w, entries[..|entries| - 1]);
    }
  }

  // ---------------------------------------------------------------------------
  // The server as a value

  /** Every field of a GameServer that the model keeps (the sockets are not kept). */
  datatype ServerState = ServerState(
    world: World,
    clients: seq<int>, pool: seq<int>,
    inputs: seq<Envelope<InputEntry>>, broadcasts: seq<Envelope<Broadcast>>,
    lastUpdateTime: real, lastBroadcastTime: real)

  /**
   * The server's invariant: the engine's, the id registry's, and the clients dict lists
   * the same ids in the same order as the game's players dict.
   */
  ghost predicate ServerOk(s: ServerState)
  {
    && WellFormed(s.world)
    && Registry(s.clients, s.pool)
    && s.clients == s.world.playerOrder
  }

  function InitialServer(now: real): ServerState
  {
    ServerState(InitialWorld(), [], PlayerIds, [], [], now, now)
  }

  lemma InitialServerOk(now: real)
    ensures ServerOk(InitialServer(now))
  {
    assert PlayerIds[0] == 1 && PlayerIds[1] == 2;
    assert forall id :: id in PlayerIds <==> id == 1 || id == 2;
  }

  /** add_message / add_broadcast: stamped `now + Delay`, at the back. */
  function Enqueue<T>(q: seq<Envelope<T>>, payload: T, now: real): seq<Envelope<T>>
  {
    q + [Envelope(now + Delay, payload)]
  }

  /** A queue_broadcast of each message in turn, all at `now`, none excluding anyone. */
  function EnqueueAll(q: seq<Envelope<Broadcast>>, msgs: seq<ServerMessage>, now: real): (r: seq<Envelope<Broadcast>>)
    ensures |r| == |q| + |msgs|
    ensures r[..|q|] == q
    ensures forall i :: 0 <= i < |msgs| ==> r[|q| + i] == Envelope(now + Delay, Broadcast(msgs[i], None))
    decreases |msgs|
  {
    if msgs == [] then q
    else Enqueue(EnqueueAll(q, msgs[..|msgs| - 1], now), Broadcast(msgs[|msgs| - 1], None), now)
  }

  /** start_game: the engine starts, and a game start broadcast is queued. */
  function StartS(s: ServerState, now: real, spawns: seq<seq<Point>>): ServerState
    requires forall m :: 0 <= m < |s.world.playerOrder| ==> s.world.playerOrder[m] in s.world.players
    requires forall k :: 0 <= k < |spawns| ==> |spawns[k]| == MaxSpawnAttempts + 1
  {
    s.(world := StartGameW(s.world, now, spawns),
       broadcasts := Enqueue(s.broadcasts, Broadcast(GameStart(now), None), now))
  }

  /** The three candidate lists of start_game. */
  predicate StartSpawns(spawns: seq<seq<Point>>)
  {
    |spawns| == InitialCoins && forall k :: 0 <= k < |spawns| ==> SpawnCandidates(spawns[k])
  }

  /** What register_client returns and sends on the new socket, and the server after it. */
  datatype Registration = Registration(state: ServerState, id: Option<int>, sent: seq<ServerMessage>)

  /**
   * register_client, with the random spawn position and the coin positions passed in: a
   * full server answers with an error; otherwise the first free id is taken, its player
   * added and assigned, and the game starts if it can, else the client is told to wait.
   */
  function RegisterS(s: ServerState, x: real, y: real, now: real, spawns: seq<seq<Point>>): Registration
    requires forall m :: 0 <= m < |s.world.playerOrder| ==> s.world.playerOrder[m] in s.world.players
    requires StartSpawns(spawns)
  {
    if |s.clients| >= MaxClients || s.pool == [] then Registration(s, None, [Error(FullText)])
    else
      var id := s.pool[0];
      var s1 := AdmitS(s, x, y);
      var assign := Assign(Some(id), Some(ColorFor(id)), x, y);
      if CanStart(s1.world) then Registration(StartS(s1, now, spawns), Some(id), [assign])
      else Registration(s1, Some(id), [assign, WaitingNotice(WaitingText)])
  }

  /** The first free id is popped from the pool, and its client and player are added. */
  function AdmitS(s: ServerState, x: real, y: real): ServerState
    requires s.pool != []
  {
    var id := s.pool[0];
    s.(world := AddPlayerW(s.world, id, x, y), clients := Put(s.clients, id), pool := s.pool[1..])
  }

  /**
   * unregister_client: a connected id leaves the clients and the game, goes back to the
   * pool in order, and a disconnect broadcast is queued; an unknown id changes nothing.
   */
  function UnregisterS(s: ServerState, id: int, now: real): ServerState
  {
    if id in s.clients then
      s.(clients := Without(s.clients, {id}), world := RemovePlayerW(s.world, id),
         pool := if id in s.pool then s.pool else Insert(s.pool, id),
         broadcasts := Enqueue(s.broadcasts, Broadcast(PlayerDisconnected(id), None), now))
    else s
  }

  /** process_input */
  function ProcessInputS(s: ServerState, id: int, m: ClientMessage, now: real): ServerState
  {
    s.(inputs := Enqueue(s.inputs, InputEntry(m, id), now))
  }

  /** process_delayed_inputs: drain the due inputs and apply them. */
  function InputsStep(s: ServerState, now: real): (r: ServerState)
    ensures r == s.(world := r.world, inputs := r.inputs)
    ensures r.world.phase == s.world.phase
    ensures ServerOk(s) ==> ServerOk(r)
  {
    var n := ReadyCount(s.inputs, now);
    LatestInputWins(s.world, Payloads(s.inputs[..n]));
    s.(world := ApplyInputs(s.world, Payloads(s.inputs[..n])), inputs := s.inputs[n..])
  }

  datatype Sent = Sent(state: ServerState, sent: seq<Delivery>)

  /** send_delayed_broadcasts: drain the due broadcasts and send each to its recipients. */
  function BroadcastStep(s: ServerState, now: real): (r: Sent)
    ensures r.state == s.(broadcasts := r.state.broadcasts)
    ensures ServerOk(s) ==> ServerOk(r.state)
  {
    var n := ReadyCount(s.broadcasts, now);
    Sent(s.(broadcasts := s.broadcasts[n..]), Deliveries(Payloads(s.broadcasts[..n]), s.clients))
  }

  /** The game over message: the winner and everybody's score. */
  function GameOverOf(w: World): (r: ServerMessage)
    requires forall k :: k in w.players ==> w.players[k].id == k
    ensures r.GameOver? && r.winner == w.winner && r.finalScores.Some?
    ensures r.finalScores.value.Keys == w.players.Keys
    ensures forall k :: k in w.players ==> r.finalScores.value[k] == w.players[k].score
  {
    GameOver(w.winner, Some(FinalScores(w.players)))
  }

  lemma IdsMatchKeys(w: World)
    requires WellFormed(w)
    ensures forall k :: k in w.players ==> w.players[k].id == k
  {
    forall k | k in w.players ensures w.players[k].id == k {
      assert PlayerOk(k, w.players[k]);
    }
  }

  /**
   * The game logic block of game_loop: with clients and a playing game, one update; its
   * events are queued, then a game over message when the update ended the game.
   */
  function LogicStep(s: ServerState, dt: real, now: real, sqrt2: real, cands: seq<Point>): (r: ServerState)
    requires ServerOk(s) && IsSqrt2(sqrt2) && SpawnCandidates(cands)
    ensures r == s.(world := r.world, broadcasts := r.broadcasts)
    ensures ServerOk(r)
    ensures PhaseRank(s.world.phase) <= PhaseRank(r.world.phase)
  {
    if s.clients != [] && s.world.phase == Playing then
      var t := Tick(s.world, dt, now, sqrt2, cands);
      TickKeepsWellFormed(s.world, dt, now, sqrt2, cands);
      TickPhaseMonotone(s.world, dt, now, sqrt2, cands);
      IdsMatchKeys(t.world);
      QueueOutcome(s, t, now)
    else s
  }

  /** What the game logic block does with an update's result: queue its events, then the game over message if it ended. */
  function QueueOutcome(s: ServerState, t: TickResult, now: real): (r: ServerState)
    requires forall k :: k in t.world.players ==> t.world.players[k].id == k
    ensures r == s.(world := t.world, broadcasts := r.broadcasts)
  {
    var q := EnqueueAll(s.broadcasts, t.events, now);
    s.(world := t.world,
       broadcasts := if t.world.phase == Ended then Enqueue(q, Broadcast(GameOverOf(t.world), None), now) else q)
  }

  /** The state broadcast of game_loop, at most once per BroadcastInterval while playing. */
  predicate StateDue(s: ServerState, now: real)
  {
    s.clients != [] && s.world.phase == Playing && now - s.lastBroadcastTime >= BroadcastInterval
  }

  function StateStep(s: ServerState, now: real): (r: ServerState)
    requires ServerOk(s)
    ensures r == s.(broadcasts := r.broadcasts, lastBroadcastTime := r.lastBroadcastTime)
    ensures ServerOk(r)
  {
    if StateDue(s, now) then
      s.(broadcasts := Enqueue(s.broadcasts, Broadcast(Snapshot(s.world, now), None), now),
         lastBroadcastTime := now)
    else s
  }

  /** `max(0, tick_interval - elapsed)` */
  function SleepTime(elapsed: real): (r: real)
    ensures r >= 0.0
    ensures elapsed >= 0.0 ==> r <= TickInterval
    ensures r > 0.0 ==> elapsed + r == TickInterval
    ensures elapsed >= TickInterval ==> r == 0.0
    ensures elapsed <= TickInterval ==> r == TickInterval - elapsed
  {
    if TickInterval - elapsed > 0.0 then TickInterval - elapsed else 0.0
  }

  /** `delta_time`: the time since the last update. */
  function Elapsed(last: real, now: real): real
  {
    now - last
  }

  /** One iteration of game_loop: the server after it, what it sent, and how long it sleeps. */
  datatype Iteration = Iteration(state: ServerState, sent: seq<Delivery>, sleep: real)

  /**
   * One pass of the `while self.running` loop. Both clock readings at the top are `now`;
   * `finish` is the reading taken before sleeping.
   */
  function LoopStep(s: ServerState, now: real, sqrt2: real, cands: seq<Point>, finish: real): (r: Iteration)
    requires ServerOk(s) && IsSqrt2(sqrt2) && SpawnCandidates(cands)
    ensures ServerOk(r.state)
    ensures PhaseRank(s.world.phase) <= PhaseRank(r.state.world.phase)
    ensures r.state.clients == s.clients && r.state.pool == s.pool && r.state.lastUpdateTime == now
  {
    var s1 := InputsStep(s.(lastUpdateTime := now), now);
    var b := BroadcastStep(s1, now);
    var s3 := LogicStep(b.state, Elapsed(s.lastUpdateTime, now), now, sqrt2, cands);
    Iteration(StateStep(s3, now), b.sent, SleepTime(finish - now))
  }

  // ---------------------------------------------------------------------------
  // Properties of the server

  /** Admitting a player into a server with room keeps the invariant; the new id was free. */
  lemma AdmitKeepsOk(s: ServerState, x: real, y: real)
    requires ServerOk(s) && InPlayerSpawnBox(x, y) && |s.clients| < MaxClients && s.pool != []
    ensures s.pool[0] !in s.clients
    ensures ServerOk(AdmitS(s, x, y))
  {
    TakeSmallestId(s.clients, s.pool);
    AddPlayerKeepsWellFormed(s.world, s.pool[0], x, y);
  }

  /**
   * register_client: a full server sends an error and changes nothing; otherwise an id is
   * assigned, and the invariant is kept either way.
   */
  lemma RegisterFacts(s: ServerState, x: real, y: real, now: real, spawns: seq<seq<Point>>)
    requires ServerOk(s) && InPlayerSpawnBox(x, y) && StartSpawns(spawns)
    ensures var r := RegisterS(s, x, y, now, spawns);
            && ServerOk(r.state)
            && (s.pool == [] <==> r.id == None)
            && (r.id == None ==> r.state == s && r.sent == [Error(FullText)])
  {
    RegistryFull(s.clients, s.pool);
    if s.pool != [] {
      AdmitKeepsOk(s, x, y);
      var s1 := AdmitS(s, x, y);
      if CanStart(s1.world) {
        StartKeepsOk(s1, now, spawns);
      }
    }
  }

  /** start_game keeps the invariant, and the game is then playing. */
  lemma StartKeepsOk(s: ServerState, now: real, spawns: seq<seq<Point>>)
    requires ServerOk(s) && StartSpawns(spawns)
    ensures ServerOk(StartS(s, now, spawns))
    ensures StartS(s, now, spawns).world.phase == Playing
  {
    StartGameFacts(s.world, now, spawns);
  }

  /**
   * register_client with a free id: the smallest free id is taken and assigned with its
   * colour and spawn position, and the client is added at the end of the clients.
   */
  lemma RegisterAdmits(s: ServerState, x: real, y: real, now: real, spawns: seq<seq<Point>>)
    requires ServerOk(s) && InPlayerSpawnBox(x, y) && StartSpawns(spawns)
    requires |s.clients| < MaxClients && s.pool != []
    ensures var r := RegisterS(s, x, y, now, spawns);
            && r.id.Some?
            && r.id.value !in s.clients
            && (forall k :: (k == 1 || k == 2) && k !in s.clients ==> r.id.value <= k)
            && r.state.clients == s.clients + [r.id.value]
            && r.sent != [] && r.sent[0] == Assign(r.id, Some(ColorFor(r.id.value)), x, y)
  {
    TakeSmallestId(s.clients, s.pool);
    assert Put(s.clients, s.pool[0]) == s.clients + [s.pool[0]];
  }

  /** Whether register_client starts the game, and what it queues and sends besides the assignment. */
  lemma RegisterStarts(s: ServerState, x: real, y: real, now: real, spawns: seq<seq<Point>>)
    requires ServerOk(s) && InPlayerSpawnBox(x, y) && StartSpawns(spawns)
    requires |s.clients| < MaxClients && s.pool != []
    ensures var r := RegisterS(s, x, y, now, spawns);
            var starts := CanStart(AddPlayerW(s.world, s.pool[0], x, y));
            && (starts ==>
                  && r.state.world.phase == Playing
                  && |r.sent| == 1
                  && r.state.broadcasts == s.broadcasts + [Envelope(now + Delay, Broadcast(GameStart(now), None))])
            && (!starts ==>
                  && r.state.world.phase == s.world.phase
                  && |r.sent| == 2 && r.sent[1] == WaitingNotice(WaitingText)
                  && r.state.broadcasts == s.broadcasts)
  {
    AdmitKeepsOk(s, x, y);
    var s1 := AdmitS(s, x, y);
    if CanStart(s1.world) {
      StartKeepsOk(s1, now, spawns);
    }
  }
  /**
   * unregister_client: a connected id is removed from the clients and the game, returned
   * to the pool in order, and announced; the registry is kept. An unknown id changes nothing.
   */
  lemma UnregisterFacts(s: ServerState, id: int, now: real)
    requires ServerOk(s)
    ensures var r := UnregisterS(s, id, now);
            && ServerOk(r)
            && (id !in s.clients ==> r == s)
            && (id in s.clients ==>
                  && id !in r.clients && id in r.pool && id !in r.world.players
                  && r.pool == Insert(s.pool, id)
                  && r.broadcasts == s.broadcasts + [Envelope(now + Delay, Broadcast(PlayerDisconnected(id), None))]
                  && r.world.phase == s.world.phase)
  {
    if id in s.clients {
      ReturnId(s.clients, s.pool, id);
      RemovePlayerKeepsWellFormed(s.world, id);
    }
  }

  /**
   * The game logic block queues a game over message exactly when the game was playing
   * with clients and the update ended it; it is then the last message queued, goes to
   * everybody, and carries the winner and every player's final score. The old queue is
   * left in front.
   */
  lemma GameOverExactlyOnEnd(s: ServerState, dt: real, now: real, sqrt2: real, cands: seq<Point>)
    requires ServerOk(s) && IsSqrt2(sqrt2) && SpawnCandidates(cands)
    ensures var r := LogicStep(s, dt, now, sqrt2, cands);
            && |s.broadcasts| <= |r.broadcasts| && r.broadcasts[..|s.broadcasts|] == s.broadcasts
            && ((exists i :: |s.broadcasts| <= i < |r.broadcasts| && r.broadcasts[i].payload.message.GameOver?)
                <==> s.clients != [] && s.world.phase == Playing && r.world.phase == Ended)
            && (forall i :: |s.broadcasts| <= i < |r.broadcasts| && r.broadcasts[i].payload.message.GameOver? ==>
                  && i == |r.broadcasts| - 1
                  && r.broadcasts[i].payload.exclude == None
                  && r.broadcasts[i].payload.message.winner == r.world.winner
                  && r.broadcasts[i].payload.message.finalScores.Some?
                  && r.broadcasts[i].payload.message.finalScores.value.Keys == r.world.players.Keys
                  && (forall k :: k in r.world.players ==>
                        r.broadcasts[i].payload.message.finalScores.value[k] == r.world.players[k].score))
  {
    if s.clients != [] && s.world.phase == Playing {
      IdsMatchPlaying(s, dt, now, sqrt2, cands);
      CollectAllEventsAreCoins(s.world, dt, now, sqrt2, cands);
      QueueOutcomeFacts(s, Tick(s.world, dt, now, sqrt2, cands), now);
    } else {
      assert s.broadcasts[..|s.broadcasts|] == s.broadcasts;
    }
  }

  /** QueueOutcome, for any update result whose events are coin collections. */
  lemma QueueOutcomeFacts(s: ServerState, t: TickResult, now: real)
    requires forall k :: k in t.world.players ==> t.world.players[k].id == k
    requires forall i :: 0 <= i < |t.events| ==> t.events[i].CoinCollected?
    ensures var r := QueueOutcome(s, t, now);
            && r.world == t.world
            && |s.broadcasts| <= |r.broadcasts| && r.broadcasts[..|s.broadcasts|] == s.broadcasts
            && ((exists i :: |s.broadcasts| <= i < |r.broadcasts| && r.broadcasts[i].payload.message.GameOver?)
                <==> t.world.phase == Ended)
            && (forall i :: |s.broadcasts| <= i < |r.broadcasts| && r.broadcasts[i].payload.message.GameOver? ==>
                  i == |r.broadcasts| - 1 && r.broadcasts[i].payload == Broadcast(GameOverOf(t.world), None))
  {
    var g := GameOverOf(t.world);
    assert QueueOutcome(s, t, now).broadcasts == EnqueueAll(s.broadcasts, t.events, now)
                             + (if t.world.phase == Ended then [Envelope(now + Delay, Broadcast(g, None))] else []);
    GameOverQueuedLast(s.broadcasts, t.events, now, t.world.phase == Ended, g);
  }

  /** After an update, every player is still stored under its own id. */
  lemma IdsMatchPlaying(s: ServerState, dt: real, now: real, sqrt2: real, cands: seq<Point>)
    requires ServerOk(s) && IsSqrt2(sqrt2) && SpawnCandidates(cands)
    ensures var t := Tick(s.world, dt, now, sqrt2, cands);
            forall k :: k in t.world.players ==> t.world.players[k].id == k
  {
    TickKeepsWellFormed(s.world, dt, now, sqrt2, cands);
    IdsMatchKeys(Tick(s.world, dt, now, sqrt2, cands).world);
  }

  /**
   * Queueing coin events and then, when the game ended, one game over message: the old
   * queue is a prefix, and among the new entries a game over message appears exactly when
   * the game ended, as the last entry.
   */
  lemma GameOverQueuedLast(q: seq<Envelope<Broadcast>>, events: seq<ServerMessage>, now: real, ended: bool, g: ServerMessage)
    requires forall i :: 0 <= i < |events| ==> events[i].CoinCollected?
    requires g.GameOver?
    ensures var r := EnqueueAll(q, events, now) + (if ended then [Envelope(now + Delay, Broadcast(g, None))] else []);
            && |q| <= |r| && r[..|q|] == q
            && ((exists i :: |q| <= i < |r| && r[i].payload.message.GameOver?) <==> ended)
            && (forall i :: |q| <= i < |r| && r[i].payload.message.GameOver? ==>
                  i == |r| - 1 && r[i].payload == Broadcast(g, None))
  {
    var e := EnqueueAll(q, events, now);
    var r := e + (if ended then [Envelope(now + Delay, Broadcast(g, None))] else []);
    forall i | |q| <= i < |e| ensures !e[i].payload.message.GameOver? {
      assert e[i] == Envelope(now + Delay, Broadcast(events[i - |q|], None));
    }
    assert r[..|e|] == e;
    assert r[..|q|] == e[..|q|];
    if ended {
      assert r[|r| - 1].payload.message.GameOver?;
    }
  }

  /** Without clients or outside a playing game, the game logic block does nothing. */
  lemma LogicOnlyWhilePlaying(s: ServerState, dt: real, now: real, sqrt2: real, cands: seq<Point>)
    requires ServerOk(s) && IsSqrt2(sqrt2) && SpawnCandidates(cands)
    requires s.clients == [] || s.world.phase != Playing
    ensures LogicStep(s, dt, now, sqrt2, cands) == s
  {
  }

  /** Every event an update reports is a coin collection. */
  lemma CollectAllEventsAreCoins(w: World, dt: real, now: real, sqrt2: real, cands: seq<Point>)
    requires WellFormed(w) && IsSqrt2(sqrt2) && SpawnCandidates(cands)
    ensures forall i :: 0 <= i < |Tick(w, dt, now, sqrt2, cands).events| ==>
              Tick(w, dt, now, sqrt2, cands).events[i].CoinCollected?
  {
    if w.phase == Playing && !TimeUp(w, now) {
      TickCoins(w, dt, now, sqrt2, cands);
    }
  }

  /**
   * A state message is queued, and the broadcast time moved to `now`, exactly when there
   * are clients, the game is playing and BroadcastInterval has passed since the last one.
   */
  lemma StateThrottle(s: ServerState, now: real)
    requires ServerOk(s)
    ensures var r := StateStep(s, now);
            && (StateDue(s, now) ==>
                  r.broadcasts == s.broadcasts + [Envelope(now + Delay, Broadcast(Snapshot(s.world, now), None))]
                  && r.lastBroadcastTime == now)
            && (!StateDue(s, now) ==> r == s)
            && r.lastBroadcastTime >= s.lastBroadcastTime
  {
  }

  // ---------------------------------------------------------------------------
  // Loops of the server, on values

  /** _send_to_clients: skip the excluded client, send to the others in dict order. */
  method SendToClients(clients: seq<int>, message: ServerMessage, exclude: Option<int>)
    returns (sent: seq<Delivery>)
    ensures sent == SendsOf(message, Recipients(clients, exclude))
  {
    sent := [];
    if clients == [] {
      return;
    }
    var i := 0;
    while i < |clients|
      invariant 0 <= i <= |clients|
      invariant sent == SendsOf(message, Recipients(clients[..i], exclude))
    {
      assert clients[..i + 1][..i] == clients[..i];
      if !Skips(exclude, clients[i]) {
        sent := sent + [Delivery(clients[i], message)];
      }
      i := i + 1;
    }
    assert clients[..i] == clients;
  }

  /** The loop of send_delayed_broadcasts over the released broadcasts. */
  method SendAll(ready: seq<Envelope<Broadcast>>, clients: seq<int>) returns (sent: seq<Delivery>)
    ensures sent == Deliveries(Payloads(ready), clients)
  {
    sent := [];
    var i := 0;
    while i < |ready|
      invariant 0 <= i <= |ready|
      invariant sent == Deliveries(Payloads(ready[..i]), clients)
    {
      assert Payloads(ready[..i + 1])[..i] == Payloads(ready[..i]);
      var b := ready[i].payload;
      var more := SendToClients(clients, b.message, b.exclude);
      sent := sent + more;
      i := i + 1;
    }
    assert ready[..i] == ready;
  }

  // ---------------------------------------------------------------------------
  // The server object

  /** GameServer: the engine, the registry and the two latency queues, updated in place. */
  class GameServer {
    const game: GameState
    const inputQueue: DelayQueue<InputEntry>
    const broadcastQueue: DelayQueue<Broadcast>
    /** The keys of the clients dict, in insertion order. */
    var clients: seq<int>
    var availableIds: seq<int>
    var lastUpdateTime: real
    var lastBroadcastTime: real
    const broadcastInterval: real

    /** The fields as one value. */
    function Model(): ServerState
      reads this, game, inputQueue, broadcastQueue
    {
      ServerState(game.Model(), clients, availableIds, inputQueue.entries, broadcastQueue.entries,
                  lastUpdateTime, lastBroadcastTime)
    }

    ghost predicate Valid()
      reads this, game, inputQueue, broadcastQueue
    {
      && game.Valid()
      && Registry(clients, availableIds)
      && clients == game.playerOrder
      && inputQueue.delay == Delay && broadcastQueue.delay == Delay
      && broadcastInterval == BroadcastInterval
    }

    /** `__init__`, with the clock reading `now`. */
    constructor(now: real)
      ensures Valid() && Model() == InitialServer(now)
      ensures fresh(game) && fresh(inputQueue) && fresh(broadcastQueue)
    {
      game := new GameState();
      clients := [];
      availableIds := PlayerIds;
      inputQueue := new DelayQueue(NetworkDelayMs);
      broadcastQueue := new DelayQueue(NetworkDelayMs);
      lastUpdateTime := now;
      lastBroadcastTime := now;
      broadcastInterval := 1.0 / StateBroadcastRate as real;
      new;
      InitialServerOk(now);
    }

    /** register_client, with the player's spawn position and the start game's coin positions passed in. */
    method RegisterClient(x: real, y: real, now: real, spawns: seq<seq<Point>>)
      returns (id: Option<int>, sent: seq<ServerMessage>)
      requires Valid() && InPlayerSpawnBox(x, y) && StartSpawns(spawns)
      modifies this, game, broadcastQueue
      ensures Valid()
      ensures Registration(Model(), id, sent) == RegisterS(old(Model()), x, y, now, spawns)
    {
      ghost var s := Model();
      if |clients| >= MaxClients || availableIds == [] {
        return None, [Error(FullText)];
      }
      var pid, p := AdmitPlayer(x, y);
      id := Some(pid);
      sent := [Assign(Some(pid), Some(p.color), p.x, p.y)];
      if game.CanStartGame() {
        StartGame(now, spawns);
      } else {
        sent := sent + [WaitingNotice(WaitingText)];
      }
      RegisterFacts(s, x, y, now, spawns);
    }

    /** The part of register_client that takes an id and adds its client and player. */
    method AdmitPlayer(x: real, y: real) returns (pid: int, p: Player)
      requires Valid() && InPlayerSpawnBox(x, y) && |clients| < MaxClients && availableIds != []
      modifies this, game
      ensures pid == old(availableIds[0])
      ensures p == Player(pid, x, y, 0, ColorFor(pid), 0, 0)
      ensures Valid()
      ensures Model() == AdmitS(old(Model()), x, y)
    {
      ghost var s := Model();
      pid := availableIds[0];
      availableIds := availableIds[1..];
      clients := Put(clients, pid);
      p := game.AddPlayer(pid, x, y);
      assert Model() == AdmitS(s, x, y);
      AdmitKeepsOk(s, x, y);
    }

    /** start_game: both clock readings are `now`. */
    method StartGame(now: real, spawns: seq<seq<Point>>)
      requires game.Valid() && StartSpawns(spawns) && broadcastQueue.delay == Delay
      modifies game, broadcastQueue
      ensures game.Valid()
      ensures Model() == StartS(old(Model()), now, spawns)
    {
      game.StartGame(now, spawns);
      QueueBroadcast(GameStart(now), None, now);
    }

    /** queue_broadcast: the message is stamped `now + Delay` and waits at the back. */
    method QueueBroadcast(message: ServerMessage, exclude: Option<int>, now: real)
      requires broadcastQueue.delay == Delay
      modifies broadcastQueue
      ensures broadcastQueue.entries == Enqueue(old(broadcastQueue.entries), Broadcast(message, exclude), now)
    {
      broadcastQueue.Add(Broadcast(message, exclude), now);
    }

    /** unregister_client */
    method UnregisterClient(id: int, now: real)
      requires Valid()
      modifies this, game, broadcastQueue
      ensures Valid()
      ensures Model() == UnregisterS(old(Model()), id, now)
    {
      ghost var s := Model();
      UnregisterFacts(s, id, now);
      if id in clients {
        ghost var w := RemovePlayerW(s.world, id);
        ghost var c := Without(s.clients, {id});
        ghost var p := if id in s.pool then s.pool else Insert(s.pool, id);
        ghost var b := Enqueue(s.broadcasts, Broadcast(PlayerDisconnected(id), None), now);
        assert UnregisterS(s, id, now) == ServerState(w, c, p, s.inputs, b, s.lastUpdateTime, s.lastBroadcastTime);
        clients := Without(clients, {id});
        game.RemovePlayer(id);
        if id !in availableIds {
          availableIds := Insert(availableIds, id);
        }
        QueueBroadcast(PlayerDisconnected(id), None, now);
        assert Model() == ServerState(w, c, p, s.inputs, b, s.lastUpdateTime, s.lastBroadcastTime);
      }
    }

    /** process_input: the message waits in the input queue. */
    method ProcessInput(id: int, m: ClientMessage, now: real)
      requires Valid()
      modifies inputQueue
      ensures Valid()
      ensures Model() == ProcessInputS(old(Model()), id, m, now)
    {
      inputQueue.Add(InputEntry(m, id), now);
    }

    /** process_delayed_inputs */
    method ProcessDelayedInputs(now: real)
      requires Valid()
      modifies inputQueue, game
      ensures Valid()
      ensures Model() == InputsStep(old(Model()), now)
    {
      ghost var s := Model();
      var ready := inputQueue.GetReady(now);
      ApplyReady(ready);
      assert Model() == InputsStep(s, now);
    }

    /** The loop of process_delayed_inputs: each released input message updates its player. */
    method ApplyReady(ready: seq<Envelope<InputEntry>>)
      requires game.Valid()
      modifies game
      ensures game.Valid()
      ensures game.Model() == ApplyInputs(old(game.Model()), Payloads(ready))
    {
      ghost var w := game.Model();
      ghost var es := Payloads(ready);
      var i := 0;
      while i < |ready|
        invariant 0 <= i <= |ready|
        invariant game.Valid()
        invariant game.Model() == ApplyInputs(w, es[..i])
      {
        ApplyEntry(ready[i].payload);
        ApplyOneMore(w, es, i);
        i := i + 1;
      }
      assert es[..i] == es;
    }

    /** One pass of that loop: an input message sets its sender's input, a missing dx or dy counting as 0. */
    method ApplyEntry(e: InputEntry)
      requires game.Valid()
      modifies game
      ensures game.Valid()
      ensures game.Model() == if e.message.Input?
                              then SetInputW(old(game.Model()), e.playerId, e.message.dx.GetOr(0), e.message.dy.GetOr(0))
                              else old(game.Model())
    {
      if e.message.Input? {
        game.UpdatePlayerInput(e.playerId, e.message.dx.GetOr(0), e.message.dy.GetOr(0));
      }
    }

    /** send_delayed_broadcasts: what is sent, in order. */
    method SendDelayedBroadcasts(now: real) returns (sent: seq<Delivery>)
      requires Valid()
      modifies broadcastQueue
      ensures Valid()
      ensures Sent(Model(), sent) == BroadcastStep(old(Model()), now)
    {
      var ready := broadcastQueue.GetReady(now);
      sent := SendAll(ready, clients);
    }

    /** The `for event in events: self.queue_broadcast(event)` loop. */
    method QueueEvents(events: seq<ServerMessage>, now: real)
      modifies broadcastQueue
      ensures broadcastQueue.entries == EnqueueAll(old(broadcastQueue.entries), events, now)
      requires broadcastQueue.delay == Delay
    {
      ghost var q := broadcastQueue.entries;
      var i := 0;
      while i < |events|
        invariant 0 <= i <= |events|
        invariant broadcastQueue.entries == EnqueueAll(q, events[..i], now)
      {
        assert events[..i + 1][..i] == events[..i];
        QueueBroadcast(events[i], None, now);
        i := i + 1;
      }
      assert events[..i] == events;
    }

    /** The game logic block of game_loop. */
    method GameLogic(dt: real, now: real, sqrt2: real, cands: seq<Point>)
      requires Valid() && IsSqrt2(sqrt2) && SpawnCandidates(cands)
      modifies game, broadcastQueue
      ensures Valid()
      ensures Model() == LogicStep(old(Model()), dt, now, sqrt2, cands)
    {
      ghost var s := Model();
      if clients != [] && game.phase == Playing {
        var events := game.Update(dt, now, sqrt2, cands);
        QueueEvents(events, now);
        if game.phase == Ended {
          IdsMatchKeys(game.Model());
          QueueBroadcast(GameOver(game.winner, Some(FinalScores(game.players))), None, now);
        }
      }
      assert Model() == LogicStep(s, dt, now, sqrt2, cands);
    }

    /** The state broadcast block of game_loop. */
    method BroadcastStateIfDue(now: real)
      requires Valid()
      modifies this, broadcastQueue
      ensures Valid()
      ensures Model() == StateStep(old(Model()), now)
    {
      if clients != [] && game.phase == Playing && now - lastBroadcastTime >= broadcastInterval {
        QueueBroadcast(Snapshot(game.Model(), now), None, now);
        lastBroadcastTime := now;
      }
    }

    /**
     * One iteration of game_loop, with the clock reading at the top `now`, the one before
     * the sleep `finish`, and the engine's random draws passed in; returns what was sent
     * and the time to sleep.
     */
    method LoopIteration(now: real, sqrt2: real, cands: seq<Point>, finish: real)
      returns (sent: seq<Delivery>, sleep: real)
      requires Valid() && IsSqrt2(sqrt2) && SpawnCandidates(cands)
      modifies this, game, inputQueue, broadcastQueue
      ensures Valid()
      ensures Iteration(Model(), sent, sleep) == LoopStep(old(Model()), now, sqrt2, cands, finish)
    {
      ghost var s := Model();
      var dt := Elapsed(lastUpdateTime, now);
      lastUpdateTime := now;
      assert Model() == s.(lastUpdateTime := now);
      ProcessDelayedInputs(now);
      ghost var s1 := Model();
      sent := SendDelayedBroadcasts(now);
      ghost var s2 := Model();
      GameLogic(dt, now, sqrt2, cands);
      ghost var s3 := Model();
      BroadcastStateIfDue(now);
      assert s1 == InputsStep(s.(lastUpdateTime := now), now);
      assert Sent(s2, sent) == BroadcastStep(s1, now);
      assert s3 == LogicStep(s2, dt, now, sqrt2, cands);
      assert Model() == StateStep(s3, now);
      sleep := SleepTime(finish - now);
    }
  }
}
