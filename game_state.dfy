/**
 * The authoritative simulation (server/game_state.py). The state of the engine is the
 * class GameState at the end of this module; its methods are proved to compute the pure
 * functions on the value `World` defined first, and the properties the engine promises
 * are lemmas about those functions.
 *
 * Each Python dict is a map together with the sequence of its keys in insertion order,
 * because the order in which players and coins are visited decides who collects a coin
 * and who wins a tie.
 */
module Engine {
  import opened Wrappers
  import opened Constants
  import opened Movement
  import opened Messages

  datatype Player = Player(id: int, x: real, y: real, score: nat, color: Color, dx: int, dy: int)

  datatype Coin = Coin(id: int, x: real, y: real)

  /** Every field of a GameState. */
  datatype World = World(
    players: map<int, Player>, playerOrder: seq<int>,
    coins: map<int, Coin>, coinOrder: seq<int>,
    phase: Phase, nextCoinId: int, lastCoinSpawnTime: real,
    gameStartTime: Option<real>, winner: Option<int>)

  /** Distance kept between a spawned player and the edges, beyond its radius (add_player). */
  const SpawnMargin: real := 50.0
  /** Distance kept between a spawned coin and the edges, beyond its radius (spawn_coin). */
  const CoinMargin: real := 10.0
  /** A spawn position is rejected closer than this to a player (spawn_coin). */
  const SpawnClearance: real := PlayerRadius + CoinRadius + 50.0
  const MaxSpawnAttempts: nat := 50
  /** Coins spawned by start_game. */
  const InitialCoins: nat := 3

  function PlayerPos(p: Player): Point { Point(p.x, p.y) }
  function CoinPos(c: Coin): Point { Point(c.x, c.y) }

  // ---------------------------------------------------------------------------
  // Insertion-ordered keys

  ghost predicate NoDup(s: seq<int>)
  {
    forall i, j :: 0 <= i < j < |s| ==> s[i] != s[j]
  }

  ghost predicate StrictlyIncreasing(s: seq<int>)
  {
    forall i, j :: 0 <= i < j < |s| ==> s[i] < s[j]
  }

  /** Key order after `d[k] = v`: a new key goes to the back, an existing one keeps its place. */
  function Put(order: seq<int>, k: int): (r: seq<int>)
    ensures forall x :: x in r <==> x in order || x == k
    ensures NoDup(order) ==> NoDup(r)
    ensures |order| <= |r| && r[..|order|] == order
    ensures k in order ==> |r| == |order|
    ensures k !in order ==> |r| == |order| + 1 && r[|order|] == k
  {
    if k in order then order else order + [k]
  }

  /** Key order after deleting the keys `ks`. */
  function Without(order: seq<int>, ks: set<int>): (r: seq<int>)
    ensures forall x :: x in r <==> x in order && x !in ks
    ensures NoDup(order) ==> NoDup(r)
    decreases |order|
  {
    if order == [] then []
    else (if order[0] in ks then [] else [order[0]]) + Without(order[1..], ks)
  }

  /** Deleting keys from a concatenation deletes them from each part. */
  lemma {:induction false} WithoutAppend(s: seq<int>, t: seq<int>, ks: set<int>)
    ensures Without(s + t, ks) == Without(s, ks) + Without(t, ks)
    decreases |s|
  {
    if s == [] {
      assert s + t == t;
    } else {
      var h: seq<int> := if s[0] in ks then [] else [s[0]];
      assert (s + t)[0] == s[0];
      assert (s + t)[1..] == s[1..] + t;
      WithoutAppend(s[1..], t, ks);
      calc {
        Without(s + t, ks);
        h + Without(s[1..] + t, ks);
        h + (Without(s[1..], ks) + Without(t, ks));
        (h + Without(s[1..], ks)) + Without(t, ks);
        Without(s, ks) + Without(t, ks);
      }
    }
  }

  /** A kept key sits in the result just after the kept keys that precede it. */
  lemma WithoutPlace(order: seq<int>, ks: set<int>, i: nat)
    requires i < |order| && order[i] !in ks
    ensures |Without(order[..i], ks)| < |Without(order, ks)|
    ensures Without(order, ks)[|Without(order[..i], ks)|] == order[i]
  {
    assert order == order[..i] + ([order[i]] + order[i + 1..]);
    WithoutAppend(order[..i], [order[i]] + order[i + 1..], ks);
    assert ([order[i]] + order[i + 1..])[1..] == order[i + 1..];
  }

  /** More of the order keeps more keys once a kept key is passed. */
  lemma WithoutPrefixGrows(order: seq<int>, ks: set<int>, i: nat, j: nat)
    requires i < j <= |order| && order[i] !in ks
    ensures |Without(order[..i], ks)| < |Without(order[..j], ks)|
  {
    assert order[..j] == order[..i] + ([order[i]] + order[i + 1..j]);
    WithoutAppend(order[..i], [order[i]] + order[i + 1..j], ks);
    assert ([order[i]] + order[i + 1..j])[1..] == order[i + 1..j];
  }

  /**
   * Deleting keys keeps the relative order of the keys that remain: for two kept keys,
   * the earlier one is placed before the later one in the result.
   */
  lemma WithoutKeepsOrder(order: seq<int>, ks: set<int>, i: nat, j: nat)
    requires i < j < |order| && order[i] !in ks && order[j] !in ks
    ensures var r := Without(order, ks);
            var a, b := |Without(order[..i], ks)|, |Without(order[..j], ks)|;
            a < b < |r| && r[a] == order[i] && r[b] == order[j]
  {
    WithoutPlace(order, ks, i);
    WithoutPlace(order, ks, j);
    WithoutPrefixGrows(order, ks, i, j);
  }

  lemma {:induction false} WithoutNothing(order: seq<int>)
    ensures Without(order, {}) == order
    decreases |order|
  {
    if order != [] {
      WithoutNothing(order[1..]);
    }
  }

  /** Deleting keys one batch after another is deleting them all at once. */
  lemma {:induction false} WithoutTwice(order: seq<int>, a: set<int>, b: set<int>)
    ensures Without(Without(order, a), b) == Without(order, a + b)
    decreases |order|
  {
    if order != [] {
      WithoutTwice(order[1..], a, b);
      var tail := Without(order[1..], a);
      if order[0] !in a {
        var s := [order[0]] + tail;
        assert Without(order, a) == s;
        assert s[0] == order[0] && s[1..] == tail;
        assert Without(s, b) == (if order[0] in b then [] else [order[0]]) + Without(tail, b);
      } else {
        assert Without(order, a) == tail;
      }
    }
  }

  lemma {:induction false} WithoutAbove(order: seq<int>, ks: set<int>, b: int)
    requires forall i :: 0 <= i < |order| ==> order[i] > b
    ensures forall i :: 0 <= i < |Without(order, ks)| ==> Without(order, ks)[i] > b
    decreases |order|
  {
    if order != [] {
      WithoutAbove(order[1..], ks, b);
    }
  }

  lemma {:induction false} WithoutIncreasing(order: seq<int>, ks: set<int>)
    requires StrictlyIncreasing(order)
    ensures StrictlyIncreasing(Without(order, ks))
    decreases |order|
  {
    if order != [] {
      var tail := order[1..];
      TailIncreasing(order);
      WithoutIncreasing(tail, ks);
      WithoutAbove(tail, ks, order[0]);
      var rest := Without(tail, ks);
      if order[0] !in ks {
        assert Without(order, ks) == [order[0]] + rest;
        ConsIncreasing(order[0], rest);
      } else {
        assert Without(order, ks) == rest;
      }
    }
  }

  lemma TailIncreasing(order: seq<int>)
    requires StrictlyIncreasing(order) && order != []
    ensures StrictlyIncreasing(order[1..])
    ensures forall i :: 0 <= i < |order[1..]| ==> order[1..][i] > order[0]
  {
    var tail := order[1..];
    forall i, j | 0 <= i < j < |tail| ensures tail[i] < tail[j] {
      assert tail[i] == order[i + 1] && tail[j] == order[j + 1];
    }
    forall i | 0 <= i < |tail| ensures tail[i] > order[0] {
      assert tail[i] == order[i + 1];
    }
  }

  lemma ConsIncreasing(x: int, rest: seq<int>)
    requires StrictlyIncreasing(rest)
    requires forall i :: 0 <= i < |rest| ==> rest[i] > x
    ensures StrictlyIncreasing([x] + rest)
  {
    var r := [x] + rest;
    forall i, j | 0 <= i < j < |r| ensures r[i] < r[j] {
      assert r[j] == rest[j - 1];
      if i > 0 {
        assert r[i] == rest[i - 1];
      }
    }
  }


  // ---------------------------------------------------------------------------
  // The invariant the engine keeps

  /** A clamped input: each axis is -1, 0 or 1. */
  predicate InputOk(p: Player)
  {
    -1 <= p.dx <= 1 && -1 <= p.dy <= 1
  }

  ghost predicate PlayerOk(k: int, p: Player)
  {
    && p.id == k
    && InBox(PlayerPos(p), GameWidth, GameHeight, PlayerRadius)
    && InputOk(p)
  }

  ghost predicate CoinOk(k: int, c: Coin, nextCoinId: int)
  {
    && c.id == k
    && 1 <= k < nextCoinId
    && InBox(CoinPos(c), GameWidth, GameHeight, CoinRadius + CoinMargin)
  }

  /**
   * Player keys are listed once each in `playerOrder`, every player is on the board with a
   * clamped input; coin keys are listed in strictly increasing order, every coin id is
   * below `nextCoinId`, and there are at most MaxCoins coins.
   */
  ghost predicate WellFormed(w: World)
  {
    && NoDup(w.playerOrder)
    && (forall k :: k in w.players <==> k in w.playerOrder)
    && (forall m :: 0 <= m < |w.playerOrder| ==> w.playerOrder[m] in w.players)
    && (forall k :: k in w.players ==> PlayerOk(k, w.players[k]))
    && StrictlyIncreasing(w.coinOrder)
    && (forall k :: k in w.coins <==> k in w.coinOrder)
    && (forall m :: 0 <= m < |w.coinOrder| ==> w.coinOrder[m] in w.coins)
    && (forall k :: k in w.coins ==> CoinOk(k, w.coins[k], w.nextCoinId))
    && |w.coins| <= MaxCoins
    && w.nextCoinId >= 1
  }

  /** The square root of 2, the magnitude of a diagonal input. */
  predicate IsSqrt2(s: real)
  {
    s > 0.0 && s * s == 2.0
  }

  /** `random.uniform(COIN_RADIUS + 10, dim - COIN_RADIUS - 10)` for both coordinates. */
  predicate InCoinSpawnBox(p: Point)
  {
    InBox(p, GameWidth, GameHeight, CoinRadius + CoinMargin)
  }

  /** `random.uniform(PLAYER_RADIUS + 50, dim - PLAYER_RADIUS - 50)` for both coordinates. */
  predicate InPlayerSpawnBox(x: real, y: real)
  {
    InBox(Point(x, y), GameWidth, GameHeight, PlayerRadius + SpawnMargin)
  }

  /** The random positions one spawn_coin call may draw: one per attempt, then the fallback. */
  predicate SpawnCandidates(cands: seq<Point>)
  {
    |cands| == MaxSpawnAttempts + 1 && forall i :: 0 <= i < |cands| ==> InCoinSpawnBox(cands[i])
  }

  function InitialWorld(): World
  {
    World(map[], [], map[], [], Waiting, 1, 0.0, None, None)
  }

  // ---------------------------------------------------------------------------
  // Players and inputs

  function AddPlayerW(w: World, id: int, x: real, y: real): World
  {
    var p := Player(id, x, y, 0, ColorFor(id), 0, 0);
    w.(players := w.players[id := p], playerOrder := Put(w.playerOrder, id))
  }

  function RemovePlayerW(w: World, id: int): World
  {
    if id in w.players then w.(players := w.players - {id}, playerOrder := Without(w.playerOrder, {id}))
    else w
  }

  /** `max(-1, min(1, d))` */
  function ClampInput(d: int): (r: int)
    ensures -1 <= r <= 1
    ensures -1 <= d <= 1 ==> r == d
    ensures d < -1 ==> r == -1
    ensures d > 1 ==> r == 1
  {
    var m := if 1 < d then 1 else d;
    if -1 > m then -1 else m
  }

  function SetInputW(w: World, id: int, dx: int, dy: int): World
  {
    if id in w.players then
      w.(players := w.players[id := w.players[id].(dx := ClampInput(dx), dy := ClampInput(dy))])
    else w
  }

  /** can_start_game */
  predicate CanStart(w: World)
  {
    |w.players| >= 2 && w.phase == Waiting
  }

  // ---------------------------------------------------------------------------
  // Ending the game

  datatype Best = Best(score: int, winner: Option<int>)

  /**
   * The scan in _end_game: starting from a best score of -1 and the current winner, each
   * player visited in order whose score is strictly above the best so far becomes the
   * winner. Defined on prefixes, as the loop computes it.
   */
  function ScanMax(players: map<int, Player>, order: seq<int>, current: Option<int>): Best
    requires forall i :: 0 <= i < |order| ==> order[i] in players
    decreases |order|
  {
    if order == [] then Best(-1, current)
    else
      var b := ScanMax(players, order[..|order| - 1], current);
      var p := players[order[|order| - 1]];
      if p.score > b.score then Best(p.score, Some(p.id)) else b
  }

  /** The winner _end_game records: the given id when it is truthy, else the scan's result. */
  function EndWinner(players: map<int, Player>, order: seq<int>, current: Option<int>,
                     winnerId: Option<int>): Option<int>
    requires forall i :: 0 <= i < |order| ==> order[i] in players
  {
    if TruthyInt(winnerId) then winnerId else ScanMax(players, order, current).winner
  }

  function EndGameW(w: World, winnerId: Option<int>): World
    requires forall i :: 0 <= i < |w.playerOrder| ==> w.playerOrder[i] in w.players
  {
    w.(phase := Ended, winner := EndWinner(w.players, w.playerOrder, w.winner, winnerId))
  }

  // ---------------------------------------------------------------------------
  // Coins

  /** The first of the drawn `attempts` that is clear of every player; else the `fallback` draw. */
  function PickFrom(players: map<int, Player>, order: seq<int>, attempts: seq<Point>, fallback: Point): Point
    requires forall m :: 0 <= m < |order| ==> order[m] in players
    decreases |attempts|
  {
    if attempts == [] then fallback
    else if ClearOfPlayers(players, order, attempts[0]) then attempts[0]
    else PickFrom(players, order, attempts[1..], fallback)
  }

  /** No player is closer than SpawnClearance to `p`. */
  predicate ClearOfPlayers(players: map<int, Player>, order: seq<int>, p: Point)
    requires forall m :: 0 <= m < |order| ==> order[m] in players
  {
    forall m :: 0 <= m < |order| ==> !WithinDistance(p, PlayerPos(players[order[m]]), SpawnClearance)
  }

  datatype Spawned = Spawned(world: World, coin: Option<Coin>)

  /** spawn_coin */
  function SpawnCoinW(w: World, cands: seq<Point>): Spawned
    requires forall m :: 0 <= m < |w.playerOrder| ==> w.playerOrder[m] in w.players
    requires |cands| == MaxSpawnAttempts + 1
  {
    if |w.coins| >= MaxCoins then Spawned(w, None)
    else
      var p := PickFrom(w.players, w.playerOrder, cands[..MaxSpawnAttempts], cands[MaxSpawnAttempts]);
      var c := Coin(w.nextCoinId, p.x, p.y);
      Spawned(w.(coins := w.coins[w.nextCoinId := c], coinOrder := Put(w.coinOrder, w.nextCoinId),
                 nextCoinId := w.nextCoinId + 1),
              Some(c))
  }

  /** The spawn_coin calls of start_game, one per candidate list, as a fold over prefixes. */
  function SpawnAll(w: World, spawns: seq<seq<Point>>): World
    requires forall m :: 0 <= m < |w.playerOrder| ==> w.playerOrder[m] in w.players
    requires forall k :: 0 <= k < |spawns| ==> |spawns[k]| == MaxSpawnAttempts + 1
    ensures SpawnAll(w, spawns).players == w.players
    ensures SpawnAll(w, spawns).playerOrder == w.playerOrder
    decreases |spawns|
  {
    if spawns == [] then w
    else SpawnCoinW(SpawnAll(w, spawns[..|spawns| - 1]), spawns[|spawns| - 1]).world
  }

  function StartGameW(w: World, now: real, spawns: seq<seq<Point>>): World
    requires forall m :: 0 <= m < |w.playerOrder| ==> w.playerOrder[m] in w.players
    requires forall k :: 0 <= k < |spawns| ==> |spawns[k]| == MaxSpawnAttempts + 1
  {
    SpawnAll(w.(phase := Playing, gameStartTime := Some(now), lastCoinSpawnTime := now), spawns)
  }

  // ---------------------------------------------------------------------------
  // The tick

  /** The magnitude of a clamped input, `math.sqrt(dx ** 2 + dy ** 2)`. */
  function Magnitude(dx: int, dy: int, sqrt2: real): (m: real)
    requires -1 <= dx <= 1 && -1 <= dy <= 1
    requires IsSqrt2(sqrt2)
    ensures IsMagnitude(dx, dy, m)
  {
    if dx != 0 && dy != 0 then sqrt2 else if dx == 0 && dy == 0 then 0.0 else 1.0
  }

  function MovePlayer(p: Player, dt: real, sqrt2: real): Player
    requires InputOk(p)
    requires IsSqrt2(sqrt2)
  {
    var q := Step(PlayerPos(p), p.dx, p.dy, Magnitude(p.dx, p.dy, sqrt2), PlayerSpeed, dt,
                  GameWidth, GameHeight, PlayerRadius);
    p.(x := q.x, y := q.y)
  }

  function MoveAll(players: map<int, Player>, dt: real, sqrt2: real): map<int, Player>
    requires forall k :: k in players ==> InputOk(players[k])
    requires IsSqrt2(sqrt2)
  {
    map k | k in players :: MovePlayer(players[k], dt, sqrt2)
  }

  /** _check_collision: `distance < r1 + r2`, decided on squares. */
  predicate CheckCollision(x1: real, y1: real, r1: real, x2: real, y2: real, r2: real)
  {
    WithinDistance(Point(x1, y1), Point(x2, y2), r1 + r2)
  }

  predicate Touches(p: Player, c: Coin)
  {
    CheckCollision(p.x, p.y, PlayerRadius, c.x, c.y, CoinRadius)
  }

  /** Index in `order` of the first player touching `c`, or |order| when none does. */
  function FirstHit(players: map<int, Player>, order: seq<int>, c: Coin): (i: nat)
    requires forall m :: 0 <= m < |order| ==> order[m] in players
    ensures i <= |order|
    ensures forall m :: 0 <= m < i ==> !Touches(players[order[m]], c)
    ensures i < |order| ==> Touches(players[order[i]], c)
    decreases |order|
  {
    if order == [] then 0
    else if Touches(players[order[0]], c) then 0
    else 1 + FirstHit(players, order[1..], c)
  }

  /** What the collision pass has done so far. */
  datatype Pass = Pass(players: map<int, Player>, events: seq<ServerMessage>, collected: set<int>,
                       phase: Phase, winner: Option<int>)

  /**
   * One coin of the collision pass: the first player touching it scores one, an event
   * records it, the coin is marked collected, and a score of WinningScore ends the game
   * with that player as winner.
   */
  function CollectCoin(p: Pass, order: seq<int>, coins: map<int, Coin>, cid: int): Pass
    requires cid in coins
    requires forall m :: 0 <= m < |order| ==> order[m] in p.players
  {
    if cid in p.collected then p
    else
      var i := FirstHit(p.players, order, coins[cid]);
      if i == |order| then p
      else
        var toucher := p.players[order[i]];
        var pl := toucher.(score := toucher.score + 1);
        var ps := p.players[order[i] := pl];
        var p1 := Pass(ps, p.events + [CoinCollected(pl.id, cid, pl.score)], p.collected + {cid},
                       p.phase, p.winner);
        if pl.score >= WinningScore then
          p1.(phase := Ended, winner := EndWinner(ps, order, p.winner, Some(pl.id)))
        else p1
  }

  /** The collision pass over the coins in `corder`, as a fold over prefixes. */
  function CollectAll(p0: Pass, order: seq<int>, coins: map<int, Coin>, corder: seq<int>): (r: Pass)
    requires forall m :: 0 <= m < |corder| ==> corder[m] in coins
    requires forall m :: 0 <= m < |order| ==> order[m] in p0.players
    ensures r.players.Keys == p0.players.Keys
    decreases |corder|
  {
    if corder == [] then p0
    else
      var prev := CollectAll(p0, order, coins, corder[..|corder| - 1]);
      CollectCoin(prev, order, coins, corder[|corder| - 1])
  }

  /** `GAME_DURATION and self.game_start_time` and the duration has elapsed. */
  predicate TimeUp(w: World, now: real)
  {
    TruthyReal(w.gameStartTime) && now - w.gameStartTime.value >= GameDuration
  }

  predicate SpawnDue(w: World, now: real)
  {
    now - w.lastCoinSpawnTime >= CoinSpawnInterval && |w.coins| < MaxCoins
  }

  datatype TickResult = TickResult(world: World, events: seq<ServerMessage>)

  /** The world after movement and the collision pass, before any spawn. */
  function AfterCollisions(w: World, dt: real, sqrt2: real): TickResult
    requires WellFormed(w) && IsSqrt2(sqrt2)
  {
    var moved := MoveAll(w.players, dt, sqrt2);
    var pass := CollectAll(Pass(moved, [], {}, w.phase, w.winner), w.playerOrder, w.coins, w.coinOrder);
    TickResult(w.(players := pass.players, phase := pass.phase, winner := pass.winner,
                  coins := w.coins - pass.collected, coinOrder := Without(w.coinOrder, pass.collected)),
               pass.events)
  }

  /** update(delta_time), with the clock reading `now` and the spawn candidates passed in. */
  function Tick(w: World, dt: real, now: real, sqrt2: real, cands: seq<Point>): TickResult
    requires WellFormed(w) && IsSqrt2(sqrt2) && |cands| == MaxSpawnAttempts + 1
  {
    if w.phase != Playing then TickResult(w, [])
    else if TimeUp(w, now) then TickResult(EndGameW(w, None), [])
    else
      var a := AfterCollisions(w, dt, sqrt2);
      TickResult(SpawnIfDue(a.world, now, cands), a.events)
  }

  /** The last step of update: a coin spawns when the interval has passed and there is room. */
  function SpawnIfDue(w: World, now: real, cands: seq<Point>): World
    requires forall m :: 0 <= m < |w.playerOrder| ==> w.playerOrder[m] in w.players
    requires |cands| == MaxSpawnAttempts + 1
  {
    if SpawnDue(w, now) then SpawnCoinW(w, cands).world.(lastCoinSpawnTime := now) else w
  }

  // ---------------------------------------------------------------------------
  // What the server broadcasts about the game

  /** Player.to_dict, without the rounding of the coordinates to two decimals. */
  function PlayerViewOf(p: Player): PlayerView
  {
    PlayerView(p.id, p.x, p.y, p.score, p.color)
  }

  /** Coin.to_dict, without the rounding of the coordinates to two decimals. */
  function CoinViewOf(c: Coin): CoinView
  {
    CoinView(c.id, c.x, c.y)
  }

  /** get_state_snapshot, with both of its clock readings `now`; dicts are listed in key order. */
  function Snapshot(w: World, now: real): ServerMessage
    requires forall m :: 0 <= m < |w.playerOrder| ==> w.playerOrder[m] in w.players
    requires forall m :: 0 <= m < |w.coinOrder| ==> w.coinOrder[m] in w.coins
  {
    var ps := seq(|w.playerOrder|, m requires 0 <= m < |w.playerOrder| => PlayerViewOf(w.players[w.playerOrder[m]]));
    var cs := seq(|w.coinOrder|, m requires 0 <= m < |w.coinOrder| => CoinViewOf(w.coins[w.coinOrder[m]]));
    State(Some(now), Some(w.phase), ps, cs,
          if TruthyReal(w.gameStartTime) then now - w.gameStartTime.value else 0.0, w.winner)
  }

  /**
   * A snapshot of a well-formed world lists every player once, with its position, score
   * and colour, and every coin once, in increasing id order; the game time is the time
   * since a truthy start and 0 otherwise.
   */
  lemma SnapshotFacts(w: World, now: real)
    requires WellFormed(w)
    ensures var s := Snapshot(w, now);
            && s.State? && s.stateTime == Some(now) && s.gameState == Some(w.phase) && s.winner == w.winner
            && (forall k :: k in w.players <==> exists m :: 0 <= m < |s.players| && s.players[m].id == k)
            && (forall m, n :: 0 <= m < n < |s.players| ==> s.players[m].id != s.players[n].id)
            && (forall m :: 0 <= m < |s.players| ==>
                  s.players[m].id in w.players && s.players[m] == PlayerViewOf(w.players[s.players[m].id]))
            && (forall k :: k in w.coins <==> exists m :: 0 <= m < |s.coins| && s.coins[m].id == k)
            && (forall m, n :: 0 <= m < n < |s.coins| ==> s.coins[m].id < s.coins[n].id)
            && (forall m :: 0 <= m < |s.coins| ==>
                  s.coins[m].id in w.coins && s.coins[m] == CoinViewOf(w.coins[s.coins[m].id]))
            && s.gameTime == (if TruthyReal(w.gameStartTime) then now - w.gameStartTime.value else 0.0)
  {
    var s := Snapshot(w, now);
    forall m | 0 <= m < |s.players| ensures s.players[m].id == w.playerOrder[m] {
      assert PlayerOk(w.playerOrder[m], w.players[w.playerOrder[m]]);
    }
    forall k | k in w.players ensures exists m :: 0 <= m < |s.players| && s.players[m].id == k {
      var m :| 0 <= m < |w.playerOrder| && w.playerOrder[m] == k;
      assert s.players[m].id == k;
    }
    forall m | 0 <= m < |s.coins| ensures s.coins[m].id == w.coinOrder[m] {
      assert CoinOk(w.coinOrder[m], w.coins[w.coinOrder[m]], w.nextCoinId);
    }
    forall k | k in w.coins ensures exists m :: 0 <= m < |s.coins| && s.coins[m].id == k {
      var m :| 0 <= m < |w.coinOrder| && w.coinOrder[m] == k;
      assert s.coins[m].id == k;
    }
  }

  /** The final_scores of the game over message: `{p.id: p.score for p in players.values()}`. */
  function FinalScores(players: map<int, Player>): (r: map<int, int>)
    requires forall k :: k in players ==> players[k].id == k
    ensures r.Keys == players.Keys
    ensures forall k :: k in r ==> r[k] == players[k].score
  {
    map k | k in players :: players[k].id := players[k].score
  }

  // ---------------------------------------------------------------------------
  // Properties of ending the game

  /**
   * The scan of _end_game over a non-empty player list picks the first player with the
   * strictly highest score: nobody scores more, and everybody before it scores less.
   */
  lemma {:induction false} ScanMaxPicksFirstHighest(players: map<int, Player>, order: seq<int>,
                                                    current: Option<int>) returns (i: nat)
    requires |order| > 0
    requires forall m :: 0 <= m < |order| ==> order[m] in players && players[order[m]].id == order[m]
    ensures i < |order|
    ensures ScanMax(players, order, current) == Best(players[order[i]].score, Some(order[i]))
    ensures forall m :: 0 <= m < |order| ==> players[order[m]].score <= players[order[i]].score
    ensures forall m :: 0 <= m < i ==> players[order[m]].score < players[order[i]].score
    decreases |order|
  {
    var last := |order| - 1;
    var prefix := order[..last];
    var p := players[order[last]];
    if last == 0 {
      assert ScanMax(players, prefix, current) == Best(-1, current);
      i := 0;
    } else {
      var j := ScanMaxPicksFirstHighest(players, prefix, current);
      if p.score > players[order[j]].score {
        i := last;
        forall m | 0 <= m < |order| ensures players[order[m]].score <= p.score {
          if m < last { assert order[m] == prefix[m]; }
        }
        forall m | 0 <= m < i ensures players[order[m]].score < p.score {
          assert order[m] == prefix[m];
        }
      } else {
        i := j;
        forall m | 0 <= m < |order| ensures players[order[m]].score <= players[order[i]].score {
          if m < last { assert order[m] == prefix[m]; }
        }
        forall m | 0 <= m < i ensures players[order[m]].score < players[order[i]].score {
          assert order[m] == prefix[m];
        }
      }
    }
  }

  /**
   * _end_game: the game is over; a truthy winner id wins; otherwise the first player with
   * the strictly highest score in iteration order wins, and with no players the previous
   * winner stays.
   */
  lemma EndGameDecidesWinner(w: World, winnerId: Option<int>)
    requires WellFormed(w)
    ensures var e := EndGameW(w, winnerId);
            && e.phase == Ended
            && e.players == w.players && e.coins == w.coins && e.nextCoinId == w.nextCoinId
            && (TruthyInt(winnerId) ==> e.winner == winnerId)
            && (!TruthyInt(winnerId) && w.playerOrder == [] ==> e.winner == w.winner)
            && (!TruthyInt(winnerId) && w.playerOrder != [] ==>
                  exists i :: 0 <= i < |w.playerOrder| && e.winner == Some(w.playerOrder[i])
                    && (forall m :: 0 <= m < |w.playerOrder| ==>
                          w.players[w.playerOrder[m]].score <= w.players[w.playerOrder[i]].score)
                    && (forall m :: 0 <= m < i ==>
                          w.players[w.playerOrder[m]].score < w.players[w.playerOrder[i]].score))
  {
    if !TruthyInt(winnerId) && w.playerOrder != [] {
      var i := ScanMaxPicksFirstHighest(w.players, w.playerOrder, w.winner);
      assert EndGameW(w, winnerId).winner == Some(w.playerOrder[i]);
    }
  }

  // ---------------------------------------------------------------------------
  // Properties of the collision pass

  /** How many of `events` credit player `k`. */
  function CreditsFor(events: seq<ServerMessage>, k: int): nat
    decreases |events|
  {
    if events == [] then 0
    else CreditsFor(events[..|events| - 1], k)
         + (if events[|events| - 1].CoinCollected? && events[|events| - 1].playerId == k then 1 else 0)
  }

  lemma CreditsForAppend(events: seq<ServerMessage>, e: ServerMessage, k: int)
    ensures CreditsFor(events + [e], k) == CreditsFor(events, k) + (if e.CoinCollected? && e.playerId == k then 1 else 0)
  {
    assert (events + [e])[..|events|] == events;
  }

  /**
   * One coin: an uncollected coin that some player touches produces exactly one event, for
   * the first toucher in iteration order, whose score rises by exactly one and is the
   * event's new score; score WinningScore ends the game with that player as winner.
   * Otherwise nothing changes.
   */
  lemma CoinGoesToFirstToucher(p: Pass, order: seq<int>, coins: map<int, Coin>, cid: int)
    requires cid in coins
    requires forall m :: 0 <= m < |order| ==> order[m] in p.players && p.players[order[m]].id == order[m]
    ensures var r := CollectCoin(p, order, coins, cid);
            var i := FirstHit(p.players, order, coins[cid]);
            && (cid in p.collected || i == |order| ==> r == p)
            && (cid !in p.collected && i == |order| ==>
                  forall m :: 0 <= m < |order| ==> !Touches(p.players[order[m]], coins[cid]))
            && (cid !in p.collected && i < |order| ==>
                  var k := order[i];
                  && Touches(p.players[k], coins[cid])
                  && (forall m :: 0 <= m < i ==> !Touches(p.players[order[m]], coins[cid]))
                  && r.players == p.players[k := p.players[k].(score := p.players[k].score + 1)]
                  && r.events == p.events + [CoinCollected(k, cid, r.players[k].score)]
                  && r.collected == p.collected + {cid}
                  && (r.players[k].score >= WinningScore ==>
                        r.phase == Ended && r.winner == EndWinner(r.players, order, p.winner, Some(k)))
                  && (r.players[k].score >= WinningScore && k != 0 ==> r.winner == Some(k))
                  && (r.players[k].score < WinningScore ==> r.phase == p.phase && r.winner == p.winner))
  {
  }

  /** Events of a pass that started from nothing: one per collected coin, for distinct coins. */
  ghost predicate EventsMatchCollected(events: seq<ServerMessage>, collected: set<int>)
  {
    && |events| == |collected|
    && (forall i :: 0 <= i < |events| ==> events[i].CoinCollected? && events[i].coinId in collected)
    && (forall i, j :: 0 <= i < j < |events| ==> events[i].coinId != events[j].coinId)
  }

  /**
   * Collision pass, players: each player keeps its position, input, id and colour, and its
   * score grows by exactly the number of events crediting it.
   */
  lemma {:induction false} CollectAllScores(p0: Pass, order: seq<int>, coins: map<int, Coin>, corder: seq<int>)
    requires forall m :: 0 <= m < |corder| ==> corder[m] in coins
    requires forall m :: 0 <= m < |order| ==> order[m] in p0.players && p0.players[order[m]].id == order[m]
    requires p0.events == []
    ensures var r := CollectAll(p0, order, coins, corder);
            forall k :: k in r.players ==>
              r.players[k] == p0.players[k].(score := p0.players[k].score + CreditsFor(r.events, k))
    decreases |corder|
  {
    if corder != [] {
      var prefix := corder[..|corder| - 1];
      var cid := corder[|corder| - 1];
      CollectAllScores(p0, order, coins, prefix);
      var prev := CollectAll(p0, order, coins, prefix);
      var r := CollectAll(p0, order, coins, corder);
      assert r == CollectCoin(prev, order, coins, cid);
      forall m | 0 <= m < |order| ensures order[m] in prev.players && prev.players[order[m]].id == order[m] {
        var k := order[m];
        assert k in p0.players;
      }
      CoinGoesToFirstToucher(prev, order, coins, cid);
      var i := FirstHit(prev.players, order, coins[cid]);
      if cid !in prev.collected && i < |order| {
        var k := order[i];
        var e := CoinCollected(k, cid, r.players[k].score);
        forall j | j in r.players
          ensures r.players[j] == p0.players[j].(score := p0.players[j].score + CreditsFor(r.events, j))
        {
          CreditsForAppend(prev.events, e, j);
        }
      }
    }
  }

  /**
   * Collision pass, events: one event per collected coin, no coin credited twice, and only
   * coins of the pass are collected.
   */
  lemma {:induction false} CollectAllEvents(p0: Pass, order: seq<int>, coins: map<int, Coin>, corder: seq<int>)
    requires forall m :: 0 <= m < |corder| ==> corder[m] in coins
    requires forall m :: 0 <= m < |order| ==> order[m] in p0.players
    requires p0.events == [] && p0.collected == {}
    ensures var r := CollectAll(p0, order, coins, corder);
            && EventsMatchCollected(r.events, r.collected)
            && (forall c :: c in r.collected ==> c in corder)
    decreases |corder|
  {
    if corder != [] {
      var prefix := corder[..|corder| - 1];
      var cid := corder[|corder| - 1];
      CollectAllEvents(p0, order, coins, prefix);
      var prev := CollectAll(p0, order, coins, prefix);
      var r := CollectAll(p0, order, coins, corder);
      assert r == CollectCoin(prev, order, coins, cid);
      if r != prev {
        assert cid !in prev.collected;
        assert r.events == prev.events + [r.events[|r.events| - 1]];
        assert r.collected == prev.collected + {cid};
        forall a, b | 0 <= a < b < |r.events| ensures r.events[a].coinId != r.events[b].coinId {
          if b == |r.events| - 1 {
            assert r.events[a] == prev.events[a];
          }
        }
        forall c | c in r.collected ensures c in corder {
          if c != cid { assert c in prefix; }
        }
      } else {
        forall c | c in r.collected ensures c in corder {
          assert c in prefix;
        }
      }
    }
  }

  /** Collision pass, phase: it either stays or becomes Ended. */
  lemma {:induction false} CollectAllPhase(p0: Pass, order: seq<int>, coins: map<int, Coin>, corder: seq<int>)
    requires forall m :: 0 <= m < |corder| ==> corder[m] in coins
    requires forall m :: 0 <= m < |order| ==> order[m] in p0.players
    ensures var r := CollectAll(p0, order, coins, corder);
            r.phase == p0.phase || r.phase == Ended
    decreases |corder|
  {
    if corder != [] {
      CollectAllPhase(p0, order, coins, corder[..|corder| - 1]);
    }
  }

  /** The player of the last coin event whose new score reaches WinningScore, if any. */
  function LastWinningScorer(events: seq<ServerMessage>): Option<int>
    decreases |events|
  {
    if events == [] then None
    else
      var e := events[|events| - 1];
      if e.CoinCollected? && e.newScore >= WinningScore then Some(e.playerId)
      else LastWinningScorer(events[..|events| - 1])
  }

  /**
   * Collision pass, ending on score: the pass leaves the game Ended exactly when it was
   * Ended already or some collection brought a score to WinningScore. Then the winner is
   * the last such player (a later winning score overwrites an earlier one). Otherwise the
   * phase and the winner are left as they were.
   */
  lemma {:induction false} CollectAllEndsOnScore(p0: Pass, order: seq<int>, coins: map<int, Coin>, corder: seq<int>)
    requires forall m :: 0 <= m < |corder| ==> corder[m] in coins
    requires forall m :: 0 <= m < |order| ==> order[m] in p0.players && p0.players[order[m]].id == order[m]
    requires p0.events == []
    ensures var r := CollectAll(p0, order, coins, corder);
            var last := LastWinningScorer(r.events);
            && (r.phase == Ended <==> p0.phase == Ended || last.Some?)
            && (last.None? ==> r.phase == p0.phase && r.winner == p0.winner)
            && (last.Some? && last.value != 0 ==> r.winner == last)
    decreases |corder|
  {
    if corder != [] {
      var prefix := corder[..|corder| - 1];
      var cid := corder[|corder| - 1];
      CollectAllEndsOnScore(p0, order, coins, prefix);
      var prev := CollectAll(p0, order, coins, prefix);
      var r := CollectAll(p0, order, coins, corder);
      assert r == CollectCoin(prev, order, coins, cid);
      forall m | 0 <= m < |order| ensures order[m] in prev.players && prev.players[order[m]].id == order[m] {
        CollectAllScores(p0, order, coins, prefix);
        var k := order[m];
        assert k in p0.players;
      }
      CoinGoesToFirstToucher(prev, order, coins, cid);
      var i := FirstHit(prev.players, order, coins[cid]);
      if cid !in prev.collected && i < |order| {
        assert r.events[..|r.events| - 1] == prev.events;
      }
    }
  }

  // ---------------------------------------------------------------------------
  // Spawning coins

  /**
   * The retry loop of spawn_coin takes the first drawn position that is clear of every
   * player, and the fallback draw only when none of them is.
   */
  lemma {:induction false} PickFromFirstClear(players: map<int, Player>, order: seq<int>, attempts: seq<Point>,
                                              fallback: Point) returns (j: nat)
    requires forall m :: 0 <= m < |order| ==> order[m] in players
    ensures j <= |attempts|
    ensures PickFrom(players, order, attempts, fallback) == if j < |attempts| then attempts[j] else fallback
    ensures j < |attempts| ==> ClearOfPlayers(players, order, attempts[j])
    ensures forall m :: 0 <= m < j ==> !ClearOfPlayers(players, order, attempts[m])
    decreases |attempts|
  {
    if attempts == [] || ClearOfPlayers(players, order, attempts[0]) {
      j := 0;
    } else {
      var k := PickFromFirstClear(players, order, attempts[1..], fallback);
      j := k + 1;
      forall m | 0 <= m < j ensures !ClearOfPlayers(players, order, attempts[m]) {
        if m > 0 { assert attempts[m] == attempts[1..][m - 1]; }
      }
    }
  }

  /** Every stored coin id is below nextCoinId, so the next id is free. */
  lemma NextIdFree(w: World)
    requires WellFormed(w)
    ensures forall k :: k in w.coins ==> k < w.nextCoinId
    ensures w.nextCoinId !in w.coins && w.nextCoinId !in w.coinOrder
  {
    forall k | k in w.coins ensures k < w.nextCoinId {
      assert CoinOk(k, w.coins[k], w.nextCoinId);
    }
  }

  /**
   * spawn_coin: with MaxCoins coins nothing happens; otherwise a coin with a fresh id, above
   * every id in use, appears at the first clear drawn position (or the fallback), and the
   * next id advances by one. Nothing else changes.
   */
  lemma SpawnCoinFacts(w: World, cands: seq<Point>)
    requires WellFormed(w) && SpawnCandidates(cands)
    ensures var s := SpawnCoinW(w, cands);
            && (|w.coins| >= MaxCoins ==> s == Spawned(w, None))
            && (|w.coins| < MaxCoins ==>
                  && s.coin.Some?
                  && var c := s.coin.value;
                  && c.id == w.nextCoinId
                  && (forall k :: k in w.coins ==> k < c.id)
                  && s.world == w.(coins := w.coins[c.id := c], coinOrder := w.coinOrder + [c.id],
                                   nextCoinId := w.nextCoinId + 1)
                  && exists j :: 0 <= j <= MaxSpawnAttempts && CoinPos(c) == cands[j]
                       && (j < MaxSpawnAttempts ==> ClearOfPlayers(w.players, w.playerOrder, cands[j]))
                       && (forall m :: 0 <= m < j ==> !ClearOfPlayers(w.players, w.playerOrder, cands[m])))
  {
    if |w.coins| < MaxCoins {
      var attempts, fallback := cands[..MaxSpawnAttempts], cands[MaxSpawnAttempts];
      var j := PickFromFirstClear(w.players, w.playerOrder, attempts, fallback);
      NextIdFree(w);
      var c := SpawnCoinW(w, cands).coin.value;
      assert CoinPos(c) == cands[j] by {
        if j == |attempts| {
          assert CoinPos(c) == fallback;
        } else {
          assert CoinPos(c) == attempts[j];
        }
      }
      forall m | 0 <= m < j ensures !ClearOfPlayers(w.players, w.playerOrder, cands[m]) {
        assert cands[m] == attempts[m];
      }
    }
  }

  lemma SpawnCoinKeepsWellFormed(w: World, cands: seq<Point>)
    requires WellFormed(w) && SpawnCandidates(cands)
    ensures WellFormed(SpawnCoinW(w, cands).world)
  {
    if |w.coins| < MaxCoins {
      var attempts, fallback := cands[..MaxSpawnAttempts], cands[MaxSpawnAttempts];
      var p := PickFrom(w.players, w.playerOrder, attempts, fallback);
      var j := PickFromFirstClear(w.players, w.playerOrder, attempts, fallback);
      assert InCoinSpawnBox(p) by {
        if j < |attempts| {
          assert p == cands[j];
        }
      }
      var c := Coin(w.nextCoinId, p.x, p.y);
      NextIdFree(w);
      assert SpawnCoinW(w, cands).world
          == w.(coins := w.coins[c.id := c], coinOrder := w.coinOrder + [c.id], nextCoinId := c.id + 1);
      AddCoinKeepsWellFormed(w, c);
    }
  }

  /** Storing a coin under the next id, at the back of the key order, keeps the invariant. */
  lemma AddCoinKeepsWellFormed(w: World, c: Coin)
    requires WellFormed(w) && |w.coins| < MaxCoins
    requires c.id == w.nextCoinId && InCoinSpawnBox(CoinPos(c))
    ensures WellFormed(w.(coins := w.coins[c.id := c], coinOrder := w.coinOrder + [c.id], nextCoinId := c.id + 1))
  {
    var order := w.coinOrder + [c.id];
    forall a, b | 0 <= a < b < |order| ensures order[a] < order[b] {
      assert w.coinOrder[a] in w.coins;
      if b < |w.coinOrder| {
        assert order[b] == w.coinOrder[b];
      }
    }
    NextIdFree(w);
    assert |w.coins[c.id := c]| == |w.coins| + 1;
  }

  /** start_game's spawns keep the invariant, and each adds at most one coin. */
  lemma {:induction false} SpawnAllKeepsWellFormed(w: World, spawns: seq<seq<Point>>)
    requires WellFormed(w)
    requires forall k :: 0 <= k < |spawns| ==> |spawns[k]| == MaxSpawnAttempts + 1 && SpawnCandidates(spawns[k])
    ensures WellFormed(SpawnAll(w, spawns))
    ensures SpawnAll(w, spawns).nextCoinId - w.nextCoinId == |SpawnAll(w, spawns).coins| - |w.coins|
    ensures |SpawnAll(w, spawns).coins| == if |w.coins| + |spawns| <= MaxCoins then |w.coins| + |spawns| else MaxCoins
    decreases |spawns|
  {
    if spawns != [] {
      var prev := SpawnAll(w, spawns[..|spawns| - 1]);
      SpawnAllKeepsWellFormed(w, spawns[..|spawns| - 1]);
      SpawnCoinKeepsWellFormed(prev, spawns[|spawns| - 1]);
      SpawnCoinFacts(prev, spawns[|spawns| - 1]);
      if |prev.coins| < MaxCoins {
        NextIdFree(prev);
      }
    }
  }

  /**
   * start_game: the game is playing from `now`, and there are min(MaxCoins, coins + 3)
   * coins, each new one with a fresh id.
   */
  lemma StartGameFacts(w: World, now: real, spawns: seq<seq<Point>>)
    requires WellFormed(w)
    requires |spawns| == InitialCoins
    requires forall k :: 0 <= k < |spawns| ==> |spawns[k]| == MaxSpawnAttempts + 1 && SpawnCandidates(spawns[k])
    ensures var s := StartGameW(w, now, spawns);
            && WellFormed(s)
            && s.phase == Playing && s.gameStartTime == Some(now) && s.lastCoinSpawnTime == now
            && s.players == w.players && s.winner == w.winner
            && |s.coins| == (if |w.coins| + InitialCoins <= MaxCoins then |w.coins| + InitialCoins else MaxCoins)
  {
    var w0 := w.(phase := Playing, gameStartTime := Some(now), lastCoinSpawnTime := now);
    SpawnAllKeepsWellFormed(w0, spawns);
    SpawnAllFixes(w0, spawns);
  }

  /** Spawning touches only the coins and the next coin id. */
  lemma {:induction false} SpawnAllFixes(w: World, spawns: seq<seq<Point>>)
    requires forall m :: 0 <= m < |w.playerOrder| ==> w.playerOrder[m] in w.players
    requires forall k :: 0 <= k < |spawns| ==> |spawns[k]| == MaxSpawnAttempts + 1
    ensures var s := SpawnAll(w, spawns);
            s.phase == w.phase && s.gameStartTime == w.gameStartTime
            && s.lastCoinSpawnTime == w.lastCoinSpawnTime && s.winner == w.winner
    decreases |spawns|
  {
    if spawns != [] {
      SpawnAllFixes(w, spawns[..|spawns| - 1]);
    }
  }

  // ---------------------------------------------------------------------------
  // The other operations keep the invariant

  /** The invariant does not depend on the phase or the clock fields. */
  lemma ClockIrrelevant(w: World, phase: Phase, start: Option<real>, last: real)
    requires WellFormed(w)
    ensures WellFormed(w.(phase := phase, gameStartTime := start, lastCoinSpawnTime := last))
  {
  }

  lemma AddPlayerKeepsWellFormed(w: World, id: int, x: real, y: real)
    requires WellFormed(w) && InPlayerSpawnBox(x, y)
    ensures WellFormed(AddPlayerW(w, id, x, y))
  {
  }

  lemma RemovePlayerKeepsWellFormed(w: World, id: int)
    requires WellFormed(w)
    ensures WellFormed(RemovePlayerW(w, id))
  {
  }

  lemma SetInputKeepsWellFormed(w: World, id: int, dx: int, dy: int)
    requires WellFormed(w)
    ensures WellFormed(SetInputW(w, id, dx, dy))
  {
  }

  lemma EndGameKeepsWellFormed(w: World, winnerId: Option<int>)
    requires WellFormed(w)
    ensures WellFormed(EndGameW(w, winnerId))
  {
  }

  // ---------------------------------------------------------------------------
  // Properties of the tick

  /** A moved player stays on the board and keeps everything but its position. */
  lemma MovePlayerFacts(k: int, p: Player, dt: real, sqrt2: real)
    requires PlayerOk(k, p) && IsSqrt2(sqrt2)
    ensures var q := MovePlayer(p, dt, sqrt2);
            && PlayerOk(k, q)
            && q == p.(x := q.x, y := q.y)
            && (p.dx == 0 && p.dy == 0 ==> q == p)
  {
  }

  /** The pass of one tick starts from the moved players, with nothing collected yet. */
  function StartPass(w: World, dt: real, sqrt2: real): Pass
    requires WellFormed(w) && IsSqrt2(sqrt2)
  {
    Pass(MoveAll(w.players, dt, sqrt2), [], {}, w.phase, w.winner)
  }

  lemma InputsOk(w: World)
    requires WellFormed(w)
    ensures forall k :: k in w.players ==> InputOk(w.players[k])
  {
    forall k | k in w.players ensures InputOk(w.players[k]) {
      assert PlayerOk(k, w.players[k]);
    }
  }

  /** The pass of one tick can run, and it collects only stored coins. */
  lemma StartPassCollects(w: World, dt: real, sqrt2: real)
    requires WellFormed(w) && IsSqrt2(sqrt2)
    ensures var p0 := StartPass(w, dt, sqrt2);
            && (forall m :: 0 <= m < |w.playerOrder| ==> w.playerOrder[m] in p0.players)
            && (forall m :: 0 <= m < |w.coinOrder| ==> w.coinOrder[m] in w.coins)
            && CollectAll(p0, w.playerOrder, w.coins, w.coinOrder).collected <= w.coins.Keys
  {
    var p0 := StartPass(w, dt, sqrt2);
    StartPassFacts(w, dt, sqrt2);
    CollectAllEvents(p0, w.playerOrder, w.coins, w.coinOrder);
    var pass := CollectAll(p0, w.playerOrder, w.coins, w.coinOrder);
    forall c | c in pass.collected ensures c in w.coins {
      assert c in w.coinOrder;
    }
  }

  lemma StartPassFacts(w: World, dt: real, sqrt2: real)
    requires WellFormed(w) && IsSqrt2(sqrt2)
    ensures var p0 := StartPass(w, dt, sqrt2);
            && p0.players.Keys == w.players.Keys
            && (forall m :: 0 <= m < |w.playerOrder| ==>
                  w.playerOrder[m] in p0.players && p0.players[w.playerOrder[m]].id == w.playerOrder[m])
            && (forall m :: 0 <= m < |w.coinOrder| ==> w.coinOrder[m] in w.coins)
            && (forall k :: k in p0.players ==> PlayerOk(k, p0.players[k]))
  {
    forall k | k in w.players ensures PlayerOk(k, MoveAll(w.players, dt, sqrt2)[k]) {
      MovePlayerFacts(k, w.players[k], dt, sqrt2);
    }
  }

  lemma MoveAllKeepsWellFormed(w: World, dt: real, sqrt2: real)
    requires WellFormed(w) && IsSqrt2(sqrt2)
    ensures WellFormed(w.(players := MoveAll(w.players, dt, sqrt2)))
  {
    StartPassFacts(w, dt, sqrt2);
  }

  lemma AfterCollisionsKeepsWellFormed(w: World, dt: real, sqrt2: real)
    requires WellFormed(w) && IsSqrt2(sqrt2)
    ensures WellFormed(AfterCollisions(w, dt, sqrt2).world)
  {
    var p0 := StartPass(w, dt, sqrt2);
    StartPassFacts(w, dt, sqrt2);
    CollectAllScores(p0, w.playerOrder, w.coins, w.coinOrder);
    var pass := CollectAll(p0, w.playerOrder, w.coins, w.coinOrder);
    forall k | k in pass.players ensures PlayerOk(k, pass.players[k]) {
      assert PlayerOk(k, p0.players[k]);
    }
    var w1 := w.(players := pass.players, phase := pass.phase, winner := pass.winner);
    ReplacePlayersKeepsWellFormed(w, pass.players, pass.phase, pass.winner);
    RemoveCoinsKeepsWellFormed(w1, pass.collected);
    assert AfterCollisions(w, dt, sqrt2).world
        == w1.(coins := w1.coins - pass.collected, coinOrder := Without(w1.coinOrder, pass.collected));
  }

  /** Players replaced by valid players under the same ids keep the invariant. */
  lemma ReplacePlayersKeepsWellFormed(w: World, ps: map<int, Player>, phase: Phase, winner: Option<int>)
    requires WellFormed(w) && ps.Keys == w.players.Keys
    requires forall k :: k in ps ==> PlayerOk(k, ps[k])
    ensures WellFormed(w.(players := ps, phase := phase, winner := winner))
  {
  }

  /** Deleting coins, from the map and from the key order, keeps the invariant. */
  lemma RemoveCoinsKeepsWellFormed(w: World, ks: set<int>)
    requires WellFormed(w)
    ensures WellFormed(w.(coins := w.coins - ks, coinOrder := Without(w.coinOrder, ks)))
  {
    WithoutIncreasing(w.coinOrder, ks);
    assert |w.coins - ks| <= |w.coins| by {
      assert (w.coins - ks).Keys <= w.coins.Keys;
    }
  }

  /** update keeps the invariant. */
  lemma TickKeepsWellFormed(w: World, dt: real, now: real, sqrt2: real, cands: seq<Point>)
    requires WellFormed(w) && IsSqrt2(sqrt2) && SpawnCandidates(cands)
    ensures WellFormed(Tick(w, dt, now, sqrt2, cands).world)
  {
    if w.phase == Playing && !TimeUp(w, now) {
      AfterCollisionsKeepsWellFormed(w, dt, sqrt2);
      SpawnIfDueKeepsWellFormed(AfterCollisions(w, dt, sqrt2).world, now, cands);
    }
  }

  /** update does nothing and reports nothing unless the game is playing. */
  lemma TickOnlyWhilePlaying(w: World, dt: real, now: real, sqrt2: real, cands: seq<Point>)
    requires WellFormed(w) && IsSqrt2(sqrt2) && SpawnCandidates(cands)
    requires w.phase != Playing
    ensures Tick(w, dt, now, sqrt2, cands) == TickResult(w, [])
  {
  }

  /**
   * Once GameDuration has passed since a truthy start time, update ends the game on the
   * scores alone: nobody moves, no coin is collected or spawned, and no event is reported.
   */
  lemma TickTimeUp(w: World, dt: real, now: real, sqrt2: real, cands: seq<Point>)
    requires WellFormed(w) && IsSqrt2(sqrt2) && SpawnCandidates(cands)
    requires w.phase == Playing && w.gameStartTime.Some? && w.gameStartTime.value != 0.0
    requires now >= w.gameStartTime.value + GameDuration
    ensures var r := Tick(w, dt, now, sqrt2, cands);
            && r.events == []
            && r.world == EndGameW(w, None)
            && r.world.phase == Ended
            && r.world.players == w.players && r.world.coins == w.coins
  {
  }

  /** Movement and the collision pass, players: each moves by its input and scores its credits. */
  lemma AfterCollisionsPlayers(w: World, dt: real, sqrt2: real)
    requires WellFormed(w) && IsSqrt2(sqrt2)
    ensures var a := AfterCollisions(w, dt, sqrt2);
            && a.world.players.Keys == w.players.Keys
            && (forall k :: k in w.players ==>
                  a.world.players[k] == MovePlayer(w.players[k], dt, sqrt2).(score := w.players[k].score + CreditsFor(a.events, k)))
  {
    var p0 := StartPass(w, dt, sqrt2);
    StartPassFacts(w, dt, sqrt2);
    CollectAllScores(p0, w.playerOrder, w.coins, w.coinOrder);
  }

  /**
   * Movement and the collision pass, coins: exactly the collected coins are removed, one
   * event each; the rest are untouched, and so are the players' keys and the clocks.
   */
  lemma AfterCollisionsCoins(w: World, dt: real, sqrt2: real)
    requires WellFormed(w) && IsSqrt2(sqrt2)
    ensures var a := AfterCollisions(w, dt, sqrt2);
            && a.world.players.Keys == w.players.Keys && a.world.playerOrder == w.playerOrder
            && EventsMatchCollected(a.events, w.coins.Keys - a.world.coins.Keys)
            && a.world.coins.Keys <= w.coins.Keys
            && (forall c :: c in a.world.coins ==> a.world.coins[c] == w.coins[c])
            && (a.world.phase == Playing || a.world.phase == Ended || a.world.phase == w.phase)
            && a.world.nextCoinId == w.nextCoinId && a.world.lastCoinSpawnTime == w.lastCoinSpawnTime
            && a.world.gameStartTime == w.gameStartTime
  {
    var p0 := StartPass(w, dt, sqrt2);
    StartPassFacts(w, dt, sqrt2);
    CollectAllEvents(p0, w.playerOrder, w.coins, w.coinOrder);
    CollectAllPhase(p0, w.playerOrder, w.coins, w.coinOrder);
    var pass := CollectAll(p0, w.playerOrder, w.coins, w.coinOrder);
    var a := AfterCollisions(w, dt, sqrt2);
    assert a.world.coins == w.coins - pass.collected;
    forall c | c in pass.collected ensures c in w.coins {
      assert c in w.coinOrder;
    }
    assert w.coins.Keys - a.world.coins.Keys == pass.collected;
  }

  /**
   * One playing tick before the time limit, players: every player moves by its input and
   * scores exactly the coins credited to it.
   */
  lemma TickMovesAndScores(w: World, dt: real, now: real, sqrt2: real, cands: seq<Point>)
    requires WellFormed(w) && IsSqrt2(sqrt2) && SpawnCandidates(cands)
    requires w.phase == Playing && !TimeUp(w, now)
    ensures var r := Tick(w, dt, now, sqrt2, cands);
            && r.world.players.Keys == w.players.Keys
            && (forall k :: k in w.players ==>
                  r.world.players[k] == MovePlayer(w.players[k], dt, sqrt2).(score := w.players[k].score + CreditsFor(r.events, k)))
  {
    AfterCollisionsPlayers(w, dt, sqrt2);
  }

  /**
   * One playing tick before the time limit, coins: exactly the coins named by the events
   * disappear, each named once; at most one coin appears, with id nextCoinId, and only when
   * the spawn interval has passed, which then restarts; the game stays Playing or ends.
   */
  lemma TickCoins(w: World, dt: real, now: real, sqrt2: real, cands: seq<Point>)
    requires WellFormed(w) && IsSqrt2(sqrt2) && SpawnCandidates(cands)
    requires w.phase == Playing && !TimeUp(w, now)
    ensures var r := Tick(w, dt, now, sqrt2, cands);
            var w' := r.world;
            && EventsMatchCollected(r.events, w.coins.Keys - w'.coins.Keys)
            && (forall c :: c in w'.coins && c in w.coins ==> w'.coins[c] == w.coins[c])
            && (forall c :: c in w'.coins && c !in w.coins ==>
                  c == w.nextCoinId && now - w.lastCoinSpawnTime >= CoinSpawnInterval && w'.lastCoinSpawnTime == now)
            && (w.nextCoinId in w'.coins ==> w'.nextCoinId == w.nextCoinId + 1)
            && (w.nextCoinId !in w'.coins ==> w'.nextCoinId == w.nextCoinId && w'.lastCoinSpawnTime == w.lastCoinSpawnTime)
            && (w'.phase == Playing || w'.phase == Ended)
            && w'.gameStartTime == w.gameStartTime
  {
    AfterCollisionsCoins(w, dt, sqrt2);
    var a := AfterCollisions(w, dt, sqrt2);
    NextIdFree(w);
    forall m | 0 <= m < |a.world.playerOrder| ensures a.world.playerOrder[m] in a.world.players {
      assert w.playerOrder[m] in w.players;
    }
    SpawnIfDueFacts(a.world, now, cands);
    var w' := SpawnIfDue(a.world, now, cands);
    assert Tick(w, dt, now, sqrt2, cands) == TickResult(w', a.events);
    ComposeTickCoins(w, a.world, w', a.events, now);
  }

  /**
   * One playing tick before the time limit, ending on score: the game ends exactly when
   * some reported collection brings a score to WinningScore, and then the last such
   * player (when its id is truthy) is the winner; otherwise the winner is unchanged.
   */
  lemma TickEndsOnScore(w: World, dt: real, now: real, sqrt2: real, cands: seq<Point>)
    requires WellFormed(w) && IsSqrt2(sqrt2) && SpawnCandidates(cands)
    requires w.phase == Playing && !TimeUp(w, now)
    ensures var r := Tick(w, dt, now, sqrt2, cands);
            var last := LastWinningScorer(r.events);
            && (r.world.phase == Ended <==> last.Some?)
            && (last.None? ==> r.world.phase == Playing && r.world.winner == w.winner)
            && (last.Some? && last.value != 0 ==> r.world.winner == last)
  {
    var p0 := StartPass(w, dt, sqrt2);
    StartPassFacts(w, dt, sqrt2);
    CollectAllEndsOnScore(p0, w.playerOrder, w.coins, w.coinOrder);
    var a := AfterCollisions(w, dt, sqrt2);
    NextIdFree(w);
    AfterCollisionsCoins(w, dt, sqrt2);
    forall m | 0 <= m < |a.world.playerOrder| ensures a.world.playerOrder[m] in a.world.players {
      assert w.playerOrder[m] in w.players;
    }
    SpawnIfDueFacts(a.world, now, cands);
    var w' := SpawnIfDue(a.world, now, cands);
    assert Tick(w, dt, now, sqrt2, cands) == TickResult(w', a.events);
  }

  /** The coin facts of the collision pass and of the spawn step, composed. */
  lemma ComposeTickCoins(w: World, a: World, w': World, events: seq<ServerMessage>, now: real)
    requires w.nextCoinId !in w.coins && w.phase == Playing
    requires EventsMatchCollected(events, w.coins.Keys - a.coins.Keys)
    requires a.coins.Keys <= w.coins.Keys
    requires forall c :: c in a.coins ==> a.coins[c] == w.coins[c]
    requires a.phase == Playing || a.phase == Ended
    requires a.nextCoinId == w.nextCoinId && a.lastCoinSpawnTime == w.lastCoinSpawnTime
    requires a.gameStartTime == w.gameStartTime
    requires a.coins.Keys <= w'.coins.Keys
    requires forall c :: c in a.coins ==> w'.coins[c] == a.coins[c]
    requires forall c :: c in w'.coins && c !in a.coins ==>
               c == a.nextCoinId && SpawnDue(a, now) && w'.lastCoinSpawnTime == now
    requires a.nextCoinId in w'.coins ==> w'.nextCoinId == a.nextCoinId + 1
    requires a.nextCoinId !in w'.coins ==> w' == a
    requires w'.phase == a.phase && w'.gameStartTime == a.gameStartTime
    ensures EventsMatchCollected(events, w.coins.Keys - w'.coins.Keys)
    ensures forall c :: c in w'.coins && c in w.coins ==> w'.coins[c] == w.coins[c]
    ensures forall c :: c in w'.coins && c !in w.coins ==>
              c == w.nextCoinId && now - w.lastCoinSpawnTime >= CoinSpawnInterval && w'.lastCoinSpawnTime == now
    ensures w.nextCoinId in w'.coins ==> w'.nextCoinId == w.nextCoinId + 1
    ensures w.nextCoinId !in w'.coins ==> w'.nextCoinId == w.nextCoinId && w'.lastCoinSpawnTime == w.lastCoinSpawnTime
    ensures w'.phase == Playing || w'.phase == Ended
    ensures w'.gameStartTime == w.gameStartTime
  {
    ComposeCoins(w.coins, a.coins, w'.coins, w.nextCoinId, events);
    forall c | c in w'.coins && c in w.coins ensures w'.coins[c] == w.coins[c] {
      assert c in a.coins;
    }
  }

  /** Removing some coins and then adding at most a coin with a new id removes the same coins. */
  lemma ComposeCoins(c0: map<int, Coin>, c1: map<int, Coin>, c2: map<int, Coin>, newId: int,
                     events: seq<ServerMessage>)
    requires newId !in c0
    requires c1.Keys <= c0.Keys && c1.Keys <= c2.Keys
    requires forall c :: c in c2 && c !in c1 ==> c == newId
    requires EventsMatchCollected(events, c0.Keys - c1.Keys)
    ensures EventsMatchCollected(events, c0.Keys - c2.Keys)
  {
    var s1, s2 := c0.Keys - c1.Keys, c0.Keys - c2.Keys;
    forall x ensures x in s1 <==> x in s2 {
      if x in c0 && x !in c1 {
        assert x != newId;
      }
    }
    assert s1 == s2;
  }

  /** The spawn step adds at most the coin nextCoinId, and only when it is due. */
  lemma SpawnIfDueFacts(w: World, now: real, cands: seq<Point>)
    requires forall m :: 0 <= m < |w.playerOrder| ==> w.playerOrder[m] in w.players
    requires |cands| == MaxSpawnAttempts + 1 && w.nextCoinId !in w.coins
    ensures var w' := SpawnIfDue(w, now, cands);
            && w.coins.Keys <= w'.coins.Keys
            && (forall c :: c in w.coins ==> w'.coins[c] == w.coins[c])
            && (forall c :: c in w'.coins && c !in w.coins ==>
                  c == w.nextCoinId && SpawnDue(w, now) && w'.lastCoinSpawnTime == now)
            && (w.nextCoinId in w'.coins ==> w'.nextCoinId == w.nextCoinId + 1)
            && (w.nextCoinId !in w'.coins ==> w' == w)
            && w'.players == w.players && w'.phase == w.phase && w'.gameStartTime == w.gameStartTime
  {
  }

  lemma SpawnIfDueKeepsWellFormed(w: World, now: real, cands: seq<Point>)
    requires WellFormed(w) && SpawnCandidates(cands)
    ensures WellFormed(SpawnIfDue(w, now, cands))
  {
    SpawnCoinKeepsWellFormed(w, cands);
  }

  /** update never moves the phase backwards. */
  lemma TickPhaseMonotone(w: World, dt: real, now: real, sqrt2: real, cands: seq<Point>)
    requires WellFormed(w) && IsSqrt2(sqrt2) && SpawnCandidates(cands)
    ensures PhaseRank(w.phase) <= PhaseRank(Tick(w, dt, now, sqrt2, cands).world.phase)
  {
    if w.phase == Playing && !TimeUp(w, now) {
      TickCoins(w, dt, now, sqrt2, cands);
    }
  }

  /**
   * The movement loop of update: each player, in order, takes one movement step
   * (MovePlayer models the loop body, including its zero-input test).
   */
  method MovePlayers(players: map<int, Player>, order: seq<int>, dt: real, sqrt2: real)
    returns (moved: map<int, Player>)
    requires IsSqrt2(sqrt2) && NoDup(order)
    requires forall k :: k in players <==> k in order
    requires forall k :: k in players ==> InputOk(players[k])
    ensures moved == MoveAll(players, dt, sqrt2)
  {
    moved := players;
    var i := 0;
    while i < |order|
      invariant 0 <= i <= |order|
      invariant moved.Keys == players.Keys
      invariant forall k :: k in players ==>
                  moved[k] == (if k in order[..i] then MovePlayer(players[k], dt, sqrt2) else players[k])
    {
      var k := order[i];
      assert k in players;
      var p := players[k];
      assert k !in order[..i];
      moved := moved[k := MovePlayer(p, dt, sqrt2)];
      assert order[..i+1] == order[..i] + [k];
      i := i + 1;
    }
    assert order[..i] == order;
    var target := MoveAll(players, dt, sqrt2);
    forall k | k in players ensures moved[k] == target[k] { }
    assert moved.Keys == target.Keys;
  }

  /** The removal loop of update: deletes the collected coins one at a time, in any order. */
  method RemoveCollected(coins: map<int, Coin>, order: seq<int>, collected: set<int>)
    returns (left: map<int, Coin>, leftOrder: seq<int>)
    requires collected <= coins.Keys
    ensures left == coins - collected && leftOrder == Without(order, collected)
    ensures forall k :: k in left <==> k in coins && k !in collected
  {
    left, leftOrder := coins, order;
    var rest := collected;
    ghost var done: set<int> := {};
    WithoutNothing(order);
    MinusNothing(coins);
    while rest != {}
      invariant done + rest == collected && done !! rest
      invariant left == coins - done
      invariant leftOrder == Without(order, done)
      decreases rest
    {
      NonEmptyHasMember(rest);
      var c :| c in rest;
      MinusTwice(coins, done, {c});
      WithoutTwice(order, done, {c});
      left := left - {c};
      leftOrder := Without(leftOrder, {c});
      done, rest := done + {c}, rest - {c};
    }
  }

  lemma MinusNothing(m: map<int, Coin>)
    ensures m - {} == m
  {
  }

  /** Deleting keys from a map one batch after another is deleting them all at once. */
  lemma MinusTwice(m: map<int, Coin>, a: set<int>, b: set<int>)
    ensures m - a - b == m - (a + b)
  {
  }

  // ---------------------------------------------------------------------------
  // The engine object

  /** The winner decision of _end_game: a truthy id, else the first player with the highest score. */
  method ChooseWinner(players: map<int, Player>, order: seq<int>, current: Option<int>, winnerId: Option<int>)
    returns (w: Option<int>)
    requires forall m :: 0 <= m < |order| ==> order[m] in players
    ensures w == EndWinner(players, order, current, winnerId)
  {
    if TruthyInt(winnerId) {
      return winnerId;
    }
    var maxScore: int := -1;
    w := current;
    var i := 0;
    while i < |order|
      invariant 0 <= i <= |order|
      invariant Best(maxScore, w) == ScanMax(players, order[..i], current)
    {
      assert order[..i + 1][..i] == order[..i];
      var p := players[order[i]];
      if p.score > maxScore {
        maxScore := p.score;
        w := Some(p.id);
      }
      i := i + 1;
    }
    assert order[..i] == order;
  }

  /** One coin of the pass: the scan for the first player touching it, as the inner loop does. */
  method CollectCoinStep(p: Pass, order: seq<int>, coins: map<int, Coin>, cid: int) returns (r: Pass)
    requires cid in coins
    requires forall m :: 0 <= m < |order| ==> order[m] in p.players
    ensures r == CollectCoin(p, order, coins, cid)
  {
    r := p;
    if cid !in p.collected {
      var coin := coins[cid];
      var j := 0;
      while j < |order| && !Touches(p.players[order[j]], coin)
        invariant 0 <= j <= |order|
        invariant forall m :: 0 <= m < j ==> !Touches(p.players[order[m]], coin)
      {
        j := j + 1;
      }
      assert j == FirstHit(p.players, order, coin);
      if j < |order| {
        var k := order[j];
        var pl := p.players[k].(score := p.players[k].score + 1);
        var ps := p.players[k := pl];
        var ph, win := p.phase, p.winner;
        if pl.score >= WinningScore {
          win := ChooseWinner(ps, order, p.winner, Some(pl.id));
          ph := Ended;
        }
        r := Pass(ps, p.events + [CoinCollected(pl.id, cid, pl.score)], p.collected + {cid}, ph, win);
      }
    }
  }

  /** The collision pass over the coins in insertion order. */
  method CollectPass(p0: Pass, order: seq<int>, coins: map<int, Coin>, corder: seq<int>)
    returns (r: Pass)
    requires forall m :: 0 <= m < |corder| ==> corder[m] in coins
    requires forall m :: 0 <= m < |order| ==> order[m] in p0.players
    ensures r == CollectAll(p0, order, coins, corder)
  {
    r := p0;
    var ci := 0;
    while ci < |corder|
      invariant 0 <= ci <= |corder|
      invariant r == CollectAll(p0, order, coins, corder[..ci])
      invariant r.players.Keys == p0.players.Keys
    {
      assert corder[..ci + 1][..ci] == corder[..ci];
      forall m | 0 <= m < |order| ensures order[m] in r.players {
        assert order[m] in p0.players;
      }
      r := CollectCoinStep(r, order, coins, corder[ci]);
      ci := ci + 1;
    }
    assert corder[..ci] == corder;
  }

  /** GameState: the authoritative state, updated in place by the server. */
  class GameState {
    var players: map<int, Player>
    var playerOrder: seq<int>
    var coins: map<int, Coin>
    var coinOrder: seq<int>
    var phase: Phase
    var nextCoinId: int
    var lastCoinSpawnTime: real
    var gameStartTime: Option<real>
    var winner: Option<int>

    /** The fields as one value. */
    function Model(): World
      reads this
    {
      World(players, playerOrder, coins, coinOrder, phase, nextCoinId, lastCoinSpawnTime,
            gameStartTime, winner)
    }

    ghost predicate Valid()
      reads this
    {
      WellFormed(Model())
    }

    constructor()
      ensures Valid() && Model() == InitialWorld()
    {
      players, playerOrder := map[], [];
      coins, coinOrder := map[], [];
      phase := Waiting;
      nextCoinId := 1;
      lastCoinSpawnTime := 0.0;
      gameStartTime := None;
      winner := None;
    }

    /** add_player, with the random spawn position passed in; an existing id is overwritten. */
    method AddPlayer(id: int, spawnX: real, spawnY: real) returns (p: Player)
      requires Valid() && InPlayerSpawnBox(spawnX, spawnY)
      modifies this
      ensures Valid() && Model() == AddPlayerW(old(Model()), id, spawnX, spawnY)
      ensures p == players[id] && p == Player(id, spawnX, spawnY, 0, ColorFor(id), 0, 0)
    {
      ghost var w := Model();
      p := Player(id, spawnX, spawnY, 0, ColorFor(id), 0, 0);
      if id !in players {
        playerOrder := playerOrder + [id];
      }
      players := players[id := p];
      assert Model() == AddPlayerW(w, id, spawnX, spawnY);
      AddPlayerKeepsWellFormed(w, id, spawnX, spawnY);
    }

    method RemovePlayer(id: int)
      requires Valid()
      modifies this
      ensures Valid() && Model() == RemovePlayerW(old(Model()), id)
    {
      ghost var w := Model();
      if id in players {
        players := players - {id};
        playerOrder := Without(playerOrder, {id});
      }
      assert Model() == RemovePlayerW(w, id);
      RemovePlayerKeepsWellFormed(w, id);
    }

    /** can_start_game, with get_connected_player_count as |players|. */
    function CanStartGame(): (b: bool)
      reads this
      ensures b <==> CanStart(Model())
    {
      |players| >= 2 && phase == Waiting
    }

    /** start_game: both clock reads of the source are `now`; three spawn_coin calls. */
    method StartGame(now: real, spawns: seq<seq<Point>>)
      requires Valid()
      requires |spawns| == InitialCoins
      requires forall k :: 0 <= k < |spawns| ==> |spawns[k]| == MaxSpawnAttempts + 1 && SpawnCandidates(spawns[k])
      modifies this
      ensures Valid() && Model() == StartGameW(old(Model()), now, spawns)
    {
      ghost var w := Model();
      phase := Playing;
      gameStartTime := Some(now);
      lastCoinSpawnTime := now;
      ghost var w0 := Model();
      assert w0 == w.(phase := Playing, gameStartTime := Some(now), lastCoinSpawnTime := now);
      SpawnInitialCoins(spawns);
      ClockIrrelevant(w, Playing, Some(now), now);
      SpawnAllKeepsWellFormed(w0, spawns);
    }

    /** The `for _ in range(3)` loop of start_game, one spawn_coin call per candidate list. */
    method SpawnInitialCoins(spawns: seq<seq<Point>>)
      requires forall m :: 0 <= m < |playerOrder| ==> playerOrder[m] in players
      requires |spawns| == InitialCoins
      requires forall k :: 0 <= k < |spawns| ==> |spawns[k]| == MaxSpawnAttempts + 1
      modifies this
      ensures Model() == SpawnAll(old(Model()), spawns)
    {
      ghost var w0 := Model();
      var i := 0;
      while i < InitialCoins
        invariant 0 <= i <= InitialCoins
        invariant Model() == SpawnAll(w0, spawns[..i])
        invariant players == w0.players && playerOrder == w0.playerOrder
      {
        var coin := SpawnCoin(spawns[i]);
        assert spawns[..i + 1][..i] == spawns[..i];
        i := i + 1;
      }
      assert spawns[..i] == spawns;
    }

    /** update_player_input: clamps and records the input of a known player. */
    method UpdatePlayerInput(id: int, dx: int, dy: int)
      requires Valid()
      modifies this
      ensures Valid() && Model() == SetInputW(old(Model()), id, dx, dy)
    {
      ghost var w := Model();
      if id in players {
        var p := players[id];
        players := players[id := p.(dx := ClampInput(dx), dy := ClampInput(dy))];
      }
      assert Model() == SetInputW(w, id, dx, dy);
      SetInputKeepsWellFormed(w, id, dx, dy);
    }

    /** _end_game */
    method EndGame(winnerId: Option<int>)
      requires forall m :: 0 <= m < |playerOrder| ==> playerOrder[m] in players
      modifies this
      ensures Model() == EndGameW(old(Model()), winnerId)
    {
      phase := Ended;
      winner := ChooseWinner(players, playerOrder, winner, winnerId);
    }

    /** The distance check of spawn_coin against every player, in iteration order. */
    method IsClearOfPlayers(x: Point) returns (clear: bool)
      requires forall m :: 0 <= m < |playerOrder| ==> playerOrder[m] in players
      ensures clear == ClearOfPlayers(players, playerOrder, x)
    {
      clear := true;
      var j := 0;
      while j < |playerOrder|
        invariant 0 <= j <= |playerOrder|
        invariant forall m :: 0 <= m < j ==> !WithinDistance(x, PlayerPos(players[playerOrder[m]]), SpawnClearance)
      {
        if WithinDistance(x, PlayerPos(players[playerOrder[j]]), SpawnClearance) {
          clear := false;
          return;
        }
        j := j + 1;
      }
    }

    /** The retry loop of spawn_coin: the first clear drawn position, else the fallback draw. */
    method FindSpawnPosition(cands: seq<Point>) returns (pos: Point)
      requires forall m :: 0 <= m < |playerOrder| ==> playerOrder[m] in players
      requires |cands| == MaxSpawnAttempts + 1
      ensures pos == PickFrom(players, playerOrder, cands[..MaxSpawnAttempts], cands[MaxSpawnAttempts])
    {
      var fallback := cands[MaxSpawnAttempts];
      ghost var attempts := cands[..MaxSpawnAttempts];
      var attempt := 0;
      while attempt < MaxSpawnAttempts
        invariant 0 <= attempt <= MaxSpawnAttempts
        invariant PickFrom(players, playerOrder, attempts[attempt..], fallback)
                  == PickFrom(players, playerOrder, attempts, fallback)
      {
        var x := cands[attempt];
        var clear := IsClearOfPlayers(x);
        assert x == attempts[attempt..][0];
        if clear {
          return x;
        }
        assert attempts[attempt..][1..] == attempts[attempt + 1..];
        attempt := attempt + 1;
      }
      pos := fallback;
    }

    /** spawn_coin, with the 50 attempts' positions and the fallback position passed in. */
    method SpawnCoin(cands: seq<Point>) returns (c: Option<Coin>)
      requires forall m :: 0 <= m < |playerOrder| ==> playerOrder[m] in players
      requires |cands| == MaxSpawnAttempts + 1
      modifies this
      ensures Model() == SpawnCoinW(old(Model()), cands).world
      ensures c == SpawnCoinW(old(Model()), cands).coin
      ensures old(Valid()) && SpawnCandidates(cands) ==> Valid()
    {
      ghost var w := Model();
      if |coins| >= MaxCoins {
        return None;
      }
      var pos := FindSpawnPosition(cands);
      var coin := Coin(nextCoinId, pos.x, pos.y);
      coins, coinOrder, nextCoinId := coins[nextCoinId := coin], Put(coinOrder, nextCoinId), nextCoinId + 1;
      c := Some(coin);
      assert Model() == SpawnCoinW(w, cands).world;
      if WellFormed(w) && SpawnCandidates(cands) {
        SpawnCoinKeepsWellFormed(w, cands);
      }
    }

    /** update(delta_time), with the clock reading and the spawn positions passed in. */
    method Update(dt: real, now: real, sqrt2: real, cands: seq<Point>) returns (events: seq<ServerMessage>)
      requires Valid() && IsSqrt2(sqrt2) && SpawnCandidates(cands)
      modifies this
      ensures Valid()
      ensures Model() == Tick(old(Model()), dt, now, sqrt2, cands).world
      ensures events == Tick(old(Model()), dt, now, sqrt2, cands).events
    {
      ghost var w := Model();
      if phase != Playing {
        return [];
      }
      if TruthyReal(gameStartTime) {
        var elapsed := now - gameStartTime.value;
        if elapsed >= GameDuration {
          EndGame(None);
          EndGameKeepsWellFormed(w, None);
          return [];
        }
      }
      assert !TimeUp(w, now);
      events := MoveAndCollect(dt, sqrt2);
      SpawnIfDueStep(now, cands);
    }

    /** The movement, collision and removal loops of update. */
    method MoveAndCollect(dt: real, sqrt2: real) returns (events: seq<ServerMessage>)
      requires Valid() && IsSqrt2(sqrt2)
      modifies this
      ensures Valid()
      ensures Model() == AfterCollisions(old(Model()), dt, sqrt2).world
      ensures events == AfterCollisions(old(Model()), dt, sqrt2).events
    {
      ghost var w := Model();
      InputsOk(w);
      var moved := MovePlayers(players, playerOrder, dt, sqrt2);
      StartPassCollects(w, dt, sqrt2);
      assert Pass(moved, [], {}, phase, winner) == StartPass(w, dt, sqrt2);
      var pass := CollectPass(Pass(moved, [], {}, phase, winner), playerOrder, coins, coinOrder);
      players, phase, winner, events := pass.players, pass.phase, pass.winner, pass.events;
      coins, coinOrder := RemoveCollected(coins, coinOrder, pass.collected);
      assert Model() == AfterCollisions(w, dt, sqrt2).world;
      AfterCollisionsKeepsWellFormed(w, dt, sqrt2);
    }

    /** The last block of update: spawn a coin when the interval has passed and there is room. */
    method SpawnIfDueStep(now: real, cands: seq<Point>)
      requires Valid() && SpawnCandidates(cands)
      modifies this
      ensures Valid()
      ensures Model() == SpawnIfDue(old(Model()), now, cands)
    {
      ghost var w := Model();
      if now - lastCoinSpawnTime >= CoinSpawnInterval && |coins| < MaxCoins {
        var coin := SpawnCoin(cands);
        lastCoinSpawnTime := now;
      }
      assert Model() == SpawnIfDue(w, now, cands);
      SpawnIfDueKeepsWellFormed(w, now, cands);
    }
  }
}
