/**
 * The client's session logic (client/network.py): the delayed incoming queue, the
 * throttled input sender with its outgoing queue, and GameNetworkState, the state machine
 * that folds server messages into what the client knows about the match. Sockets,
 * threads, the asyncio loop and the queue lock are not modelled; `now` is the value
 * `time.time()` returns at the call.
 */
module Network {
  import opened Wrappers
  import opened Constants
  import opened Messages
  import opened Latency

  /** `1 / INPUT_SEND_RATE` seconds. */
  const InputSendInterval: real := 1.0 / InputSendRate as real

  // ---------------------------------------------------------------------------
  // The input throttle

  /** send_input returns early: not forced, and less than the interval since the last send. */
  predicate Throttled(force: bool, now: real, last: real)
  {
    !force && now - last < InputSendInterval
  }

  /** The input message send_input enqueues. */
  function InputMessage(dx: int, dy: int): (m: ClientMessage)
    ensures m.Input? && m.dx == Some(dx) && m.dy == Some(dy)
  {
    Input(Some(dx), Some(dy))
  }

  /** One call of send_input, with the clock reading it makes. */
  datatype SendCall = SendCall(dx: int, dy: int, force: bool, now: real)

  /**
   * `last_input_send_time` just before call `k` of a run of calls that starts with
   * `last`: each call that is not throttled moves it to that call's clock reading.
   */
  function LastSendBefore(last: real, calls: seq<SendCall>, k: nat): real
    requires k <= |calls|
  {
    if k == 0 then last
    else
      var prev := LastSendBefore(last, calls, k - 1);
      var c := calls[k - 1];
      if Throttled(c.force, c.now, prev) then prev else c.now
  }

  /** Whether call `k` of the run enqueues an input. */
  predicate SentAt(last: real, calls: seq<SendCall>, k: nat)
    requires k < |calls|
  {
    !Throttled(calls[k].force, calls[k].now, LastSendBefore(last, calls, k))
  }

  /** Between sends the remembered send time stays that of the earlier send. */
  lemma {:induction false} LastSendHeld(last: real, calls: seq<SendCall>, i: nat, m: nat)
    requires i < m <= |calls|
    requires SentAt(last, calls, i)
    requires forall k :: i < k < m ==> !SentAt(last, calls, k)
    ensures LastSendBefore(last, calls, m) == calls[i].now
  {
    if m > i + 1 {
      LastSendHeld(last, calls, i, m - 1);
      assert !SentAt(last, calls, m - 1);
    }
  }

  /**
   * The throttle's promise over any run of calls: an unforced send comes at least
   * `1 / INPUT_SEND_RATE` seconds after the send before it.
   */
  lemma {:induction false} UnforcedSendsAreSpaced(last: real, calls: seq<SendCall>, i: nat, j: nat)
    requires i < j < |calls|
    requires SentAt(last, calls, i) && SentAt(last, calls, j) && !calls[j].force
    requires forall k :: i < k < j ==> !SentAt(last, calls, k)
    ensures calls[j].now - calls[i].now >= InputSendInterval
  {
    LastSendHeld(last, calls, i, j);
  }

  /** The first unforced send of a run is at least the interval after the starting time. */
  lemma {:induction false} FirstSendAfterStart(last: real, calls: seq<SendCall>, j: nat)
    requires j < |calls|
    requires SentAt(last, calls, j) && !calls[j].force
    requires forall k :: 0 <= k < j ==> !SentAt(last, calls, k)
    ensures calls[j].now - last >= InputSendInterval
  {
    var m := 0;
    while m < j
      invariant m <= j
      invariant LastSendBefore(last, calls, m) == last
    {
      assert !SentAt(last, calls, m);
      m := m + 1;
    }
  }

  /** The client end of the connection: its delayed inbox and its throttled outbox. */
  class NetworkClient {
    /** Server messages held back by the simulated latency. */
    const incoming: DelayQueue<ServerMessage>
    /** `outgoing_queue`: messages waiting for the sender task, oldest first. */
    var outgoing: seq<ClientMessage>
    var lastInputSendTime: real
    const inputSendInterval: real

    constructor ()
      ensures fresh(incoming)
      ensures incoming.delay == NetworkDelayMs as real / 1000.0 && incoming.entries == []
      ensures outgoing == [] && lastInputSendTime == 0.0
      ensures inputSendInterval == InputSendInterval
    {
      incoming := new DelayQueue(NetworkDelayMs);
      outgoing := [];
      lastInputSendTime := 0.0;
      inputSendInterval := InputSendInterval;
    }

    /**
     * send_input: a throttled call changes nothing; any other call records `now` as the
     * last send time and enqueues exactly one input message.
     */
    method SendInput(dx: int, dy: int, force: bool, now: real)
      requires inputSendInterval == InputSendInterval
      modifies this
      ensures Throttled(force, now, old(lastInputSendTime)) ==>
                outgoing == old(outgoing) && lastInputSendTime == old(lastInputSendTime)
      ensures !Throttled(force, now, old(lastInputSendTime)) ==>
                outgoing == old(outgoing) + [InputMessage(dx, dy)] && lastInputSendTime == now
    {
      if !force && now - lastInputSendTime < inputSendInterval {
        return;
      }
      lastInputSendTime := now;
      outgoing := outgoing + [InputMessage(dx, dy)];
    }

    /**
     * The receive path's add_message: stamp with `now + delay` and append; with a clock
     * that has not gone back, the release times stay in order.
     */
    method Receive(m: ServerMessage, now: real)
      modifies incoming
      ensures incoming.entries == old(incoming.entries) + [Envelope(now + incoming.delay, m)]
      ensures Sorted(old(incoming.entries))
              && (forall i :: 0 <= i < |old(incoming.entries)| ==>
                    old(incoming.entries)[i].time - incoming.delay <= now)
              ==> Sorted(incoming.entries)
    {
      if Sorted(incoming.entries)
         && (forall i :: 0 <= i < |incoming.entries| ==> incoming.entries[i].time - incoming.delay <= now) {
        StampKeepsSorted(incoming.entries, now, incoming.delay, m);
      }
      incoming.Add(m, now);
    }

    /**
     * get_messages: the messages of the due front prefix, in arrival order; the rest
     * stay queued.
     */
    method GetMessages(now: real) returns (msgs: seq<ServerMessage>)
      modifies incoming
      ensures msgs == Payloads(old(incoming.entries)[..ReadyCount(old(incoming.entries), now)])
      ensures incoming.entries == old(incoming.entries)[ReadyCount(old(incoming.entries), now)..]
    {
      var ready := incoming.GetReady(now);
      msgs := Payloads(ready);
    }
  }

  // ---------------------------------------------------------------------------
  // GameNetworkState

  /** The fields of GameNetworkState. */
  datatype ClientView = ClientView(
    playerId: Option<int>,
    playerColor: Color,
    waitingForPlayers: bool,
    gameStarted: bool,
    gameOver: bool,
    winner: Option<int>,
    finalScores: map<int, int>,
    lastServerState: Option<ServerMessage>,
    lastStateTimestamp: real)

  /** A fresh GameNetworkState. */
  function InitialView(): (v: ClientView)
    ensures v.playerId == None && v.playerColor == Gray
    ensures v.waitingForPlayers && !v.gameStarted && !v.gameOver
    ensures v.winner == None && v.finalScores == map[]
    ensures v.lastServerState == None && v.lastStateTimestamp == 0.0
  {
    ClientView(None, Gray, true, false, false, None, map[], None, 0.0)
  }

  /** Messages process_message only prints, or ignores. */
  predicate Inert(m: ServerMessage)
  {
    m.CoinCollected? || m.PlayerDisconnected? || m.Error? || m.Unrecognised?
  }

  /** process_message, at clock reading `now`. */
  function Process(v: ClientView, m: ServerMessage, now: real): ClientView
  {
    match m
    case Assign(id, color, _, _) => v.(playerId := id, playerColor := color.GetOr(Gray))
    case WaitingNotice(_) => v.(waitingForPlayers := true)
    case GameStart(_) => v.(waitingForPlayers := false, gameStarted := true)
    case State(stamp, phase, _, _, _, _) =>
      var v1 := v.(lastServerState := Some(m), lastStateTimestamp := stamp.GetOr(now));
      if phase == Some(Playing) then v1.(waitingForPlayers := false, gameStarted := true) else v1
    case GameOver(winner, scores) =>
      v.(gameOver := true, winner := winner, finalScores := scores.GetOr(map[]))
    case _ => v
  }

  /** What each kind of message does to the client's view, field by field. */
  lemma ProcessEffects(v: ClientView, m: ServerMessage, now: real)
    ensures var r := Process(v, m, now);
      && (m.Assign? ==> r.playerId == m.assignedId && r.playerColor == m.color.GetOr(Gray)
                        && r.(playerId := v.playerId, playerColor := v.playerColor) == v)
      && (m.WaitingNotice? ==> r == v.(waitingForPlayers := true))
      && (m.GameStart? ==> r == v.(waitingForPlayers := false, gameStarted := true))
      && (m.State? && m.gameState == Some(Playing) ==> !r.waitingForPlayers && r.gameStarted)
      && (m.State? ==> r.lastServerState == Some(m) && r.lastStateTimestamp == m.stateTime.GetOr(now)
                       && r.playerId == v.playerId && r.playerColor == v.playerColor && r.gameOver == v.gameOver
                       && r.finalScores == v.finalScores && r.winner == v.winner)
      && (m.State? && m.gameState != Some(Playing) ==>
            r.waitingForPlayers == v.waitingForPlayers && r.gameStarted == v.gameStarted)
      && (m.GameOver? ==> r.gameOver && r.winner == m.winner && r.finalScores == m.finalScores.GetOr(map[])
                          && r.(gameOver := v.gameOver, winner := v.winner, finalScores := v.finalScores) == v)
      && (Inert(m) ==> r == v)
      && (!m.State? ==> r.lastServerState == v.lastServerState)
  {
  }

  /** Processing the same message twice at the same time is the same as once. */
  lemma ProcessIdempotent(v: ClientView, m: ServerMessage, now: real)
    ensures Process(Process(v, m, now), m, now) == Process(v, m, now)
  {
  }

  /** Messages processed one after another, the `k`-th at clock reading `times[k]`. */
  function ProcessAll(v: ClientView, ms: seq<ServerMessage>, times: seq<real>): ClientView
    requires |ms| == |times|
  {
    if ms == [] then v
    else Process(ProcessAll(v, ms[..|ms| - 1], times[..|ms| - 1]), ms[|ms| - 1], times[|ms| - 1])
  }

  /**
   * Over any run of messages: "started" and "over" are never cleared, a game_start or
   * game_over in the run sets them, the identity changes only through assign, and a run of
   * messages that are only printed leaves everything as it was.
   */
  lemma {:induction false} ProcessAllLatches(v: ClientView, ms: seq<ServerMessage>, times: seq<real>)
    requires |ms| == |times|
    ensures var r := ProcessAll(v, ms, times);
      && (v.gameStarted ==> r.gameStarted)
      && (v.gameOver ==> r.gameOver)
      && ((exists i :: 0 <= i < |ms| && ms[i].GameStart?) ==> r.gameStarted)
      && ((exists i :: 0 <= i < |ms| && ms[i].GameOver?) ==> r.gameOver)
      && ((forall i :: 0 <= i < |ms| ==> !ms[i].Assign?) ==>
            r.playerId == v.playerId && r.playerColor == v.playerColor)
      && ((forall i :: 0 <= i < |ms| ==> Inert(ms[i])) ==> r == v)
  {
    if ms != [] {
      var n := |ms| - 1;
      var ms', ts' := ms[..n], times[..n];
      ProcessAllLatches(v, ms', ts');
      var r' := ProcessAll(v, ms', ts');
      ProcessEffects(r', ms[n], times[n]);
      if exists i :: 0 <= i < |ms| && ms[i].GameStart? {
        var i :| 0 <= i < |ms| && ms[i].GameStart?;
        if i < n { assert ms'[i].GameStart?; }
      }
      if exists i :: 0 <= i < |ms| && ms[i].GameOver? {
        var i :| 0 <= i < |ms| && ms[i].GameOver?;
        if i < n { assert ms'[i].GameOver?; }
      }
      if forall i :: 0 <= i < |ms| ==> !ms[i].Assign? {
        assert forall i :: 0 <= i < n ==> !ms'[i].Assign? by {
          forall i | 0 <= i < n ensures !ms'[i].Assign? { assert ms'[i] == ms[i]; }
        }
      }
      if forall i :: 0 <= i < |ms| ==> Inert(ms[i]) {
        assert forall i :: 0 <= i < n ==> Inert(ms'[i]) by {
          forall i | 0 <= i < n ensures Inert(ms'[i]) { assert ms'[i] == ms[i]; }
        }
      }
    }
  }

  /**
   * After any run containing a state message, `last_server_state` is the last state
   * message of the run, and `last_state_timestamp` its stamp (or the clock reading at
   * which it was processed, for a state message without one).
   */
  lemma {:induction false} LastStateKept(v: ClientView, ms: seq<ServerMessage>, times: seq<real>, j: nat)
    requires |ms| == |times| && j < |ms| && ms[j].State?
    requires forall k :: j < k < |ms| ==> !ms[k].State?
    ensures ProcessAll(v, ms, times).lastServerState == Some(ms[j])
    ensures ProcessAll(v, ms, times).lastStateTimestamp == ms[j].stateTime.GetOr(times[j])
  {
    var n := |ms| - 1;
    var r' := ProcessAll(v, ms[..n], times[..n]);
    ProcessEffects(r', ms[n], times[n]);
    if j < n {
      LastStateKept(v, ms[..n], times[..n], j);
      assert !ms[n].State?;
    }
  }

  /** The client's record of the match, updated by each server message. */
  class GameNetworkState {
    var playerId: Option<int>
    var playerColor: Color
    var waitingForPlayers: bool
    var gameStarted: bool
    var gameOver: bool
    var winner: Option<int>
    var finalScores: map<int, int>
    var lastServerState: Option<ServerMessage>
    var lastStateTimestamp: real

    function Model(): ClientView
      reads this
    {
      ClientView(playerId, playerColor, waitingForPlayers, gameStarted, gameOver, winner,
                 finalScores, lastServerState, lastStateTimestamp)
    }

    constructor ()
      ensures Model() == InitialView()
    {
      playerId := None;
      playerColor := Gray;
      waitingForPlayers := true;
      gameStarted := false;
      gameOver := false;
      winner := None;
      finalScores := map[];
      lastServerState := None;
      lastStateTimestamp := 0.0;
    }

    /** process_message: update the fields the message's type concerns. */
    method ProcessMessage(m: ServerMessage, now: real)
      modifies this
      ensures Model() == Process(old(Model()), m, now)
    {
      match m {
        case Assign(id, color, _, _) =>
          playerId := id;
          playerColor := color.GetOr(Gray);
        case WaitingNotice(_) =>
          waitingForPlayers := true;
        case GameStart(_) =>
          waitingForPlayers := false;
          gameStarted := true;
        case State(stamp, phase, _, _, _, _) =>
          lastServerState := Some(m);
          lastStateTimestamp := stamp.GetOr(now);
          if phase == Some(Playing) {
            waitingForPlayers := false;
            gameStarted := true;
          }
        case GameOver(w, scores) =>
          gameOver := true;
          winner := w;
          finalScores := scores.GetOr(map[]);
        case _ =>
      }
    }
  }
}
