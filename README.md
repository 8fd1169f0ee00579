# Coin Collector: a verified model of the game core

Coin Collector is a two-player game in which the server holds the authoritative state.
The server accepts at most two clients and gives each a player id from the pool {1, 2}.
Each tick it moves the players by their inputs and hands a coin to the first player
touching it. It spawns coins on a timer and ends the match on a time limit or a winning
score. Network latency is simulated with two delay queues: client inputs are held before
they are applied, and broadcasts are held before they are sent.

Each client holds three things:
- a delay queue of its own for incoming messages;
- a throttled input sender;
- a state machine that folds server messages into what the client knows about the match.

Remote players are drawn from a time-ordered buffer of position snapshots, interpolated a
fixed delay behind the clock. The local player is predicted with the server's own
movement rule and reconciled with server positions.

The project has nine modules:

- `Wrappers` (`wrappers.dfy`): `Option`, plus Python truthiness of optional numbers.
- `Constants` (`constants.dfy`): the shared configuration, player colours and the game phases.
- `Messages` (`messages.dfy`): the wire messages, one constructor per `"type"` tag.
- `Movement` (`movement.dfy`): the movement step shared by server and predictor, and the squared-distance collision test.
- `Latency` (`latency.dfy`): the delay queue, used three times, as a class over a sequence of stamped envelopes.
- `Engine` (`game_state.dfy`): the class `GameState`.
  - Its methods are proved to compute pure functions on the value `World`.
  - The engine's promises are lemmas about those functions.
- `Server` (`server.dfy`): the class `GameServer`. It covers:
  - the id pool and client registry;
  - the delivery of broadcasts;
  - the delayed application of inputs;
  - one iteration of the game loop.
  Each operation is proved against a function on the value `ServerState`.
- `Network` (`network.dfy`): the client's `NetworkClient` and `GameNetworkState`. Properties are proved over any run of calls:
  - the throttle spaces unforced sends;
  - the "started" and "over" flags latch;
  - the last state message is the one kept.
- `Interpolation` (`interpolation.dfy`): `InterpolatedEntity`, `LocalPlayerPredictor` and `EntityManager`, each a class, with their specifications on values.

How the source's effects are modelled:
- Clock readings are `now` parameters.
- The positions drawn by `random.uniform` are parameters constrained to the source's boxes.
- Square roots are parameters pinned down by a precondition (`r >= 0 && r * r == x`).
- Floats are exact reals.
- A Python dict whose iteration order matters is a map plus the sequence of its keys in insertion order. Its order decides who collects a coin and who wins a tie.

Where the code and its description differ, the model follows the code:
- `can_start_game` requires `>= 2` players and the Waiting phase, so a player who reconnects after the match ended does not restart it.
- `add_player` overwrites an existing id.
- `start_game` does not check the phase.
- Within one collision pass, a later winning score overwrites the winner.
- A coin can still spawn in the same tick that ended the match on score.
- The match goes on when a player leaves.
- Only the front prefix of a delay queue is released, even if a later entry is due.
- On the client, a `waiting` message after a start sets `waiting_for_players` again while `game_started` stays true.
- In `get_interpolated_position`:
  - the branch where neither snapshot is found cannot be reached on a non-empty buffer;
  - in the `time_diff <= 0` branch, the two snapshots bracket the render time strictly, so it cannot be reached either;
  - the model proves both.

## Model

| member | source | states |
|---|---|---|
| Constants.ColorFor | server/game_state.py:87 | id 1 is blue, id 2 is red, and every other id falls back to gray |
| Movement.Clamp | server/game_state.py:163-164 | the result lies in the interval when it is non-empty; a value inside is kept; values below or above go to the nearer bound |
| Movement.Step | server/game_state.py:150-164 | zero input leaves the position unchanged; any other input ends inside the board inset by the radius |
| Movement.UnitDirection | server/game_state.py:153-156 | the normalised input direction has length one, whether axis-aligned or diagonal |
| Movement.DisplacementLength | server/game_state.py:153-160 | with non-zero input, the unclamped displacement has length speed * delta_time (stated on squares) |
| Movement.StepUnclamped | server/game_state.py:159-164 | when the unclamped target is on the board, the step moves by exactly the displacement |
| Movement.WithinDistanceIffDistanceBelow | server/game_state.py:248-252 | the squared-distance test agrees with `sqrt(...) < r1 + r2` for every limit |
| Latency.ReadyCount | server/server.py:48-54 | counts the longest front prefix of due entries: all of them are due, and the next entry, if any, is not |
| Latency.StampKeepsSorted | server/server.py:43-46 | stamping with a fixed delay, under a clock that has not gone back, keeps release times in order |
| Latency.DueEntryIsReleased | server/server.py:52-53 | in a time-ordered queue, every due entry is released by the drain |
| Latency.DrainSplitsQueue | server/server.py:48-54 | released entries followed by kept entries are the old queue; nothing is released early; the kept part starts with an entry not yet due |
| Latency.DelayQueue.constructor | server/server.py:39-41 | the delay is delay_ms / 1000 and the queue is empty |
| Latency.DelayQueue.Add | server/server.py:43-46 | the payload is appended at the back, stamped now + delay |
| Latency.DelayQueue.GetReady | server/server.py:48-54 | returns the due front prefix in order; the rest stays queued and starts with an entry not yet due |
| Latency.DelayQueue.Clear | client/network.py:64-67 | every pending entry is discarded |
| Engine.Put | server/game_state.py:95 | after `d[k] = v`, the keys are the old keys plus k, still without duplicates; the old keys keep their order, and a new k comes last while an existing k keeps its place |
| Engine.Without | server/game_state.py:190-191 | after deletion, exactly the keys not deleted remain, without duplicates |
| Engine.WithoutAppend | server/game_state.py:190-191 | deleting keys from a concatenation deletes them from each part |
| Engine.WithoutKeepsOrder | server/game_state.py:190-191 | the keys that remain after deletion keep their relative order |
| Engine.WithoutIncreasing | server/game_state.py:190-191 | deleting coins keeps the coin ids in increasing order |
| Engine.ClampInput | server/game_state.py:128-129 | the result is in [-1, 1]; it is the input when that is in range, and the nearer bound otherwise |
| Engine.Magnitude | server/game_state.py:154 | is the square root of dx² + dy² for a clamped input |
| Engine.FirstHit | server/game_state.py:172-174 | the index of the first player touching the coin: nobody before it touches the coin, and the player at that index does |
| Engine.CollectAll | server/game_state.py:166-187 | the collision pass keeps the set of players |
| Engine.SpawnAll | server/game_state.py:116-118 | the initial spawns leave the players and their order unchanged |
| Engine.FinalScores | server/server.py:279-281 | holds one entry per player, its score |
| Engine.SnapshotFacts | server/game_state.py:254-267 | lists every player once with position, score and colour, and every coin once in increasing id order; game time is the time since a truthy start, else 0 |
| Engine.ScanMaxPicksFirstHighest | server/game_state.py:208-213 | over a non-empty player list the scan picks the first player with the strictly highest score: nobody scores more, and everybody before it scores less |
| Engine.EndGameDecidesWinner | server/game_state.py:201-213 | the game is Ended; a truthy winner id wins, else the first highest scorer; with no players the previous winner stays |
| Engine.CoinGoesToFirstToucher | server/game_state.py:169-187 | a touched uncollected coin gives exactly one event, for the first toucher, whose score rises by one and is the event's score; reaching WinningScore ends the game with the winner end_game picks (that player when its id is truthy); otherwise nothing changes |
| Engine.CollectAllScores | server/game_state.py:166-187 | every player keeps position, input, id and colour, and its score grows by exactly the number of events crediting it |
| Engine.CollectAllEvents | server/game_state.py:166-187 | one event per collected coin, no coin credited twice, and only coins of the pass are collected |
| Engine.CollectAllPhase | server/game_state.py:184-186 | the collision pass leaves the phase unchanged or makes it Ended |
| Engine.CollectAllEndsOnScore | server/game_state.py:166-187 | the collision pass ends the game exactly when it was over already or some event's new score reaches WinningScore, and then the winner is the last such player; with no such event the phase and winner are unchanged |
| Engine.PickFromFirstClear | server/game_state.py:220-246 | the spawn position is the first drawn position clear of every player, and the fallback is used only when none is clear |
| Engine.NextIdFree | server/game_state.py:235-237 | next_coin_id is above every stored coin id, so it is free |
| Engine.SpawnCoinFacts | server/game_state.py:215-246 | with MaxCoins coins nothing happens; otherwise a coin with a fresh, highest id appears at the chosen position and the next id advances by one; nothing else changes |
| Engine.SpawnCoinKeepsWellFormed | server/game_state.py:215-246 | spawn_coin keeps the engine invariant (keys, board, clamped inputs, increasing coin ids, at most MaxCoins) |
| Engine.SpawnAllKeepsWellFormed | server/game_state.py:116-118 | the spawns of start_game keep the invariant, and each adds at most one coin |
| Engine.StartGameFacts | server/game_state.py:111-118 | the game is Playing from now, and there are min(MaxCoins, coins + 3) coins, each new one with a fresh id |
| Engine.SpawnAllFixes | server/game_state.py:116-118 | spawning changes only the coins and the next coin id |
| Engine.AddPlayerKeepsWellFormed | server/game_state.py:77-96 | adding a player at a spawn-box position keeps the invariant |
| Engine.RemovePlayerKeepsWellFormed | server/game_state.py:98-101 | removing a player keeps the invariant |
| Engine.SetInputKeepsWellFormed | server/game_state.py:120-129 | recording an input keeps the invariant |
| Engine.EndGameKeepsWellFormed | server/game_state.py:201-213 | ending the game keeps the invariant |
| Engine.MovePlayerFacts | server/game_state.py:150-164 | a moved player stays on the board and keeps everything but its position |
| Engine.MoveAllKeepsWellFormed | server/game_state.py:149-164 | the movement loop keeps the invariant |
| Engine.AfterCollisionsKeepsWellFormed | server/game_state.py:149-191 | movement, collisions and coin removal keep the invariant |
| Engine.TickKeepsWellFormed | server/game_state.py:131-199 | update keeps the invariant |
| Engine.TickOnlyWhilePlaying | server/game_state.py:136-137 | outside Playing, update changes nothing and reports nothing |
| Engine.TickTimeUp | server/game_state.py:142-147 | once GameDuration has passed since a truthy start, update ends the game on scores alone: nothing moves, is collected or spawns, and no event is reported |
| Engine.AfterCollisionsPlayers | server/game_state.py:149-187 | each player moves by its input and scores exactly its credited coins |
| Engine.AfterCollisionsCoins | server/game_state.py:166-191 | exactly the collected coins are removed, one event each; the other coins, the player keys and the clocks stay |
| Engine.TickMovesAndScores | server/game_state.py:131-199 | in a playing tick before the time limit, every player moves by its input and scores exactly the coins credited to it |
| Engine.TickEndsOnScore | server/game_state.py:131-199 | in a playing tick before the time limit, the game ends exactly when a reported collection reaches WinningScore, and then the last such player is the winner when its id is truthy; otherwise phase and winner stay |
| Engine.TickCoins | server/game_state.py:131-199 | the coins named by the events disappear, each named once; at most one coin appears, with id next_coin_id, only when the interval has passed, which then restarts; the game stays Playing or ends |
| Engine.SpawnIfDueFacts | server/game_state.py:193-197 | the spawn step adds at most the coin next_coin_id, only when the interval has passed and there is room |
| Engine.SpawnIfDueKeepsWellFormed | server/game_state.py:193-197 | the spawn step keeps the invariant |
| Engine.TickPhaseMonotone | server/game_state.py:131-213 | update never moves the phase backwards |
| Engine.MovePlayers | server/game_state.py:150-164 | the movement loop moves every player by one step of its own input |
| Engine.RemoveCollected | server/game_state.py:190-191 | the removal loop leaves exactly the uncollected coins, and their key order |
| Engine.ChooseWinner | server/game_state.py:205-213 | the winner loop computes the winner _end_game records |
| Engine.CollectCoinStep | server/game_state.py:172-187 | the inner loop gives the coin to the first player touching it, as CoinGoesToFirstToucher describes |
| Engine.CollectPass | server/game_state.py:166-187 | the collision loop computes the pass whose scores, events and phase the CollectAll lemmas state |
| Engine.GameState.constructor | server/game_state.py:68-75 | no players and no coins, Waiting, next coin id 1, no start time, no winner |
| Engine.GameState.AddPlayer | server/game_state.py:77-96 | a player is stored under its id, at the spawn position, with score 0, its colour and no input; an existing id is replaced; the invariant holds |
| Engine.GameState.RemovePlayer | server/game_state.py:98-101 | a known id is removed and its key dropped from the order; an unknown id changes nothing |
| Engine.GameState.CanStartGame | server/game_state.py:103-109 | true exactly when at least two players are present and the game is Waiting |
| Engine.GameState.StartGame | server/game_state.py:111-118 | the game becomes Playing with both clocks at now, and three spawn_coin calls run; the invariant holds |
| Engine.GameState.SpawnInitialCoins | server/game_state.py:116-118 | one spawn_coin per candidate list, in order |
| Engine.GameState.UpdatePlayerInput | server/game_state.py:120-129 | a known player's input becomes the clamped direction; an unknown id changes nothing |
| Engine.GameState.EndGame | server/game_state.py:201-213 | the game is Ended with the winner EndGameDecidesWinner describes |
| Engine.GameState.IsClearOfPlayers | server/game_state.py:226-232 | true exactly when no player is within the spawn clearance of the point |
| Engine.GameState.FindSpawnPosition | server/game_state.py:220-242 | returns the first clear drawn position, else the fallback draw |
| Engine.GameState.SpawnCoin | server/game_state.py:215-246 | performs spawn_coin with the effects SpawnCoinFacts states; returns the coin spawned, or None when full |
| Engine.GameState.Update | server/game_state.py:131-199 | performs update, with the movement, scoring, coin and phase properties of the Tick lemmas; the invariant holds; returns the events |
| Engine.GameState.MoveAndCollect | server/game_state.py:149-191 | the movement, collision and removal blocks, returning the events |
| Engine.GameState.SpawnIfDueStep | server/game_state.py:193-197 | the spawn block of update |
| Server.Insert | server/server.py:153-155 | the pool gains exactly the returned id, as a multiset of ids |
| Server.InsertOrdered | server/server.py:153-155 | adds exactly the id and keeps a strictly ascending pool strictly ascending |
| Server.InsertIsSort | server/server.py:153-155 | on the pool, equals append-then-sort |
| Server.RegistryFull | server/server.py:111 | the two tests of register_client agree: two clients exactly when the pool is empty |
| Server.TakeSmallestId | server/server.py:119-121 | popping the front hands out the smallest free id and keeps each id either connected or pooled |
| Server.ReturnId | server/server.py:149-155 | returning a connected id to the pool keeps each id either connected or pooled |
| Server.RecipientsFacts | server/server.py:185-197 | a broadcast reaches exactly the clients the exclusion does not skip; with no truthy exclusion it reaches all of them, in order |
| Server.DeliveriesExact | server/server.py:179-197 | every send goes to a connected, non-excluded client, and every such client receives every released broadcast |
| Server.ApplyInputs | server/server.py:218-225 | applying released inputs keeps the engine invariant |
| Server.LatestInputWins | server/server.py:218-225 | each player's input is the clamped direction of its last input message, or unchanged when it sent none; positions, scores, other fields and the player set stay |
| Server.InitialServerOk | server/server.py:95-104 | a new server satisfies the server invariant |
| Server.EnqueueAll | server/server.py:271-272 | the old queue stays in front; each event follows in order, stamped now + delay and excluding nobody |
| Server.InputsStep | server/server.py:218-225 | only the world and the input queue change; the phase and the invariant are kept |
| Server.BroadcastStep | server/server.py:179-183 | only the broadcast queue changes, and the invariant is kept |
| Server.GameOverOf | server/server.py:276-282 | a game over message with the current winner and every player's final score |
| Server.LogicStep | server/server.py:266-282 | only the world and the broadcast queue change; the invariant is kept and the phase never goes back |
| Server.QueueOutcome | server/server.py:270-282 | the world becomes the update's result, and only the broadcast queue changes besides it |
| Server.StateStep | server/server.py:284-289 | only the broadcast queue and the broadcast time change, and the invariant is kept |
| Server.SleepTime | server/server.py:292-293 | is non-negative and at most the tick interval; it is exactly the tick interval minus the elapsed time while that is not negative, and zero once a tick has elapsed |
| Server.LoopStep | server/server.py:252-294 | keeps the invariant, never moves the phase back, keeps clients and pool, and records now as the update time |
| Server.AdmitKeepsOk | server/server.py:118-122 | admitting a player when there is room keeps the invariant, and the new id was free |
| Server.RegisterFacts | server/server.py:106-145 | a full server sends an error and changes nothing; otherwise an id is assigned; the invariant holds either way |
| Server.StartKeepsOk | server/server.py:164-173 | start_game keeps the invariant, and the game is then Playing |
| Server.RegisterAdmits | server/server.py:118-131 | with a free id, the smallest one is taken and assigned with its colour and position, and the client goes last in the clients |
| Server.RegisterStarts | server/server.py:135-143 | the game starts and a game start is queued exactly when it can start; otherwise the client is told to wait and nothing is queued |
| Server.UnregisterFacts | server/server.py:147-162 | a connected id leaves the clients and the game, returns to the pool in order, and a disconnect is queued; an unknown id changes nothing |
| Server.GameOverExactlyOnEnd | server/server.py:266-282 | a game over message is queued exactly when the update ended the game; it is then the last entry, goes to everybody, and carries the winner and all final scores |
| Server.QueueOutcomeFacts | server/server.py:270-282 | the same facts for any update result whose events are coin collections |
| Server.GameOverQueuedLast | server/server.py:270-282 | the old queue is a prefix, and among the new entries a game over appears exactly when the game ended, as the last |
| Server.LogicOnlyWhilePlaying | server/server.py:267 | without clients, or outside Playing, the logic block does nothing |
| Server.CollectAllEventsAreCoins | server/game_state.py:177-182 | every event an update reports is a coin collection |
| Server.StateThrottle | server/server.py:284-289 | a state message is queued and the broadcast time moved to now exactly when there are clients, the game is Playing and the interval has passed; the broadcast time never decreases |
| Server.SendToClients | server/server.py:185-200 | sends the message to the non-excluded clients, in dict order |
| Server.SendAll | server/server.py:179-183 | sends each released broadcast in turn, as Deliveries describes |
| Server.GameServer.constructor | server/server.py:95-104 | a fresh engine, no clients, pool [1, 2], both queues empty with delay 0.2 s, both clocks at now |
| Server.GameServer.RegisterClient | server/server.py:106-145 | register_client: returns the id (or none) and the messages sent on the socket, with the effects RegisterFacts, RegisterAdmits and RegisterStarts state |
| Server.GameServer.AdmitPlayer | server/server.py:118-122 | takes the pool's front id and adds its client and its player |
| Server.GameServer.StartGame | server/server.py:164-173 | starts the engine and queues a game start stamped now |
| Server.GameServer.QueueBroadcast | server/server.py:175-177 | the message is queued at the back, stamped now + delay |
| Server.GameServer.UnregisterClient | server/server.py:147-162 | unregister_client, with the effects UnregisterFacts states |
| Server.GameServer.ProcessInput | server/server.py:214-216 | the message waits in the input queue with its sender |
| Server.GameServer.ProcessDelayedInputs | server/server.py:218-225 | drains the due inputs and applies them, as LatestInputWins states |
| Server.GameServer.ApplyReady | server/server.py:220-225 | applies each released entry in order |
| Server.GameServer.ApplyEntry | server/server.py:222-225 | an input message sets its sender's clamped input, with a missing dx or dy counting as 0; any other object is ignored |
| Server.GameServer.SendDelayedBroadcasts | server/server.py:179-183 | drains the due broadcasts and returns what is sent to whom |
| Server.GameServer.QueueEvents | server/server.py:271-272 | queues each event in order |
| Server.GameServer.GameLogic | server/server.py:266-282 | performs the logic block, with the effects GameOverExactlyOnEnd states |
| Server.GameServer.BroadcastStateIfDue | server/server.py:284-289 | performs the state broadcast block, throttled as StateThrottle states |
| Server.GameServer.LoopIteration | server/server.py:252-294 | one iteration of the loop: returns what was sent and the sleep time, and keeps the invariant |
| Network.InputMessage | client/network.py:272-276 | an input message carrying exactly dx and dy |
| Network.LastSendHeld | client/network.py:268-271 | between sends, the remembered send time stays that of the earlier send |
| Network.UnforcedSendsAreSpaced | client/network.py:261-276 | over any run of calls, an unforced send comes at least 1 / INPUT_SEND_RATE seconds after the previous send |
| Network.FirstSendAfterStart | client/network.py:266-271 | the first unforced send of a run comes at least the interval after the starting send time |
| Network.NetworkClient.constructor | client/network.py:85-97 | an empty incoming queue with delay 0.2 s, an empty outgoing queue, last send time 0 and interval 1 / INPUT_SEND_RATE |
| Network.NetworkClient.SendInput | client/network.py:261-276 | a throttled call changes nothing; any other call records now and enqueues exactly one input message |
| Network.NetworkClient.Receive | client/network.py:49-53 | the message is appended, stamped now + delay; under a clock that has not gone back, the queue stays time-ordered |
| Network.NetworkClient.GetMessages | client/network.py:278-280 | returns the messages of the due front prefix, in arrival order; the rest stay queued |
| Network.InitialView | client/network.py:293-304 | no id, gray, waiting, not started, not over, no winner, no scores, no state, timestamp 0 |
| Network.ProcessEffects | client/network.py:306-347 | the effect of each type, field by field: assign sets id and colour (default gray); waiting sets waiting; game_start starts and changes nothing else; state is stored with its timestamp (default now), keeps id, colour and the game-over fields, and starts when playing; game_over ends with winner and scores; the rest change nothing |
| Network.ProcessIdempotent | client/network.py:306-347 | processing the same message twice at the same time is the same as once |
| Network.ProcessAllLatches | client/network.py:306-347 | over any run, started and over are never cleared; a game_start or game_over sets them; the identity changes only by assign; printed-only messages change nothing |
| Network.LastStateKept | client/network.py:324-326 | after a run containing a state message, the last one is kept, with its timestamp or the time it was processed |
| Network.GameNetworkState.constructor | client/network.py:293-304 | the fields are InitialView |
| Network.GameNetworkState.ProcessMessage | client/network.py:306-347 | updates the fields as ProcessEffects states |
| Interpolation.FirstLater | client/interpolation.py:82-87 | the index of the first snapshot strictly later than t: everything before it is at or before t |
| Interpolation.InsertedContents | client/interpolation.py:53-61 | insertion adds exactly the new snapshot (as a multiset) |
| Interpolation.InsertedInOrder | client/interpolation.py:53-61 | in a time-ordered buffer, the snapshot goes after every equal or earlier one and before every later one, and the buffer stays time-ordered |
| Interpolation.TrimmedFacts | client/interpolation.py:63-65 | eviction keeps min(length, max) snapshots, the newest ones as a suffix, in order |
| Interpolation.AddSnapshotFacts | client/interpolation.py:46-65 | the buffer ends with at most max snapshots, the newest of the old buffer with the new one inserted in time order; with room, exactly one snapshot is added; order is kept |
| Interpolation.InterpolationEdges | client/interpolation.py:72-105 | an empty buffer keeps the current position; a render time before every snapshot shows the first; one at or after every snapshot shows the last |
| Interpolation.InterpolationInterior | client/interpolation.py:107-121 | between two snapshots the result is the straight-line position: the bracket is strict, so the zero time difference never occurs; the clamp never acts; each coordinate lies between the two snapshots'; at the earlier snapshot's time the result is that snapshot |
| Interpolation.LerpBetween | client/interpolation.py:115-119 | a factor in [0, 1] gives a value between the two endpoints |
| Interpolation.InsertSnapshot | client/interpolation.py:53-61 | the insertion loop computes the in-order insertion |
| Interpolation.EvictOldest | client/interpolation.py:63-65 | the eviction loop computes the trimmed buffer |
| Interpolation.InterpolateBuffer | client/interpolation.py:76-121 | the scan and interpolation compute the interpolated position of a non-empty buffer |
| Interpolation.InterpolatedEntity.constructor | client/interpolation.py:32-44 | an empty buffer, the given render delay, bound POSITION_BUFFER_SIZE, position (0, 0), score 0, gray, id 0 |
| Interpolation.InterpolatedEntity.AddSnapshot | client/interpolation.py:46-65 | performs add_snapshot on the buffer, with the properties AddSnapshotFacts states, and keeps the buffer bounded and time-ordered |
| Interpolation.InterpolatedEntity.GetInterpolatedPosition | client/interpolation.py:67-121 | returns and stores the interpolated position for currentTime - render_delay |
| Interpolation.InterpolatedEntity.SetImmediatePosition | client/interpolation.py:123-126 | only the current position changes |
| Interpolation.InterpolatedEntity.ClearBuffer | client/interpolation.py:128-130 | only the buffer changes, and it becomes empty |
| Interpolation.CorrectionBands | client/interpolation.py:207-217 | beyond the snap threshold the prediction becomes the server position; within the allowance it is untouched; in between it moves along the line, ending at distance dist - factor * (dist - allowance), closer but still beyond the allowance |
| Interpolation.LocalPlayerPredictor.constructor | client/interpolation.py:139-159 | the given speed, everything at zero, drift 100, snap 150, factor 0.05 |
| Interpolation.LocalPlayerPredictor.SetInput | client/interpolation.py:161-164 | only the input changes |
| Interpolation.LocalPlayerPredictor.Update | client/interpolation.py:166-188 | the prediction takes the server's own movement step and is returned; the input and the server position stay |
| Interpolation.LocalPlayerPredictor.ApplyServerCorrection | client/interpolation.py:190-217 | the server position is recorded and the prediction corrected in the three bands CorrectionBands states |
| Interpolation.LocalPlayerPredictor.SetPosition | client/interpolation.py:219-224 | the prediction and the server position both become the point |
| Interpolation.FreshEntity | client/interpolation.py:237-240 | a new entity has an empty buffer and the given id |
| Interpolation.GetOrCreateFacts | client/interpolation.py:235-241 | an existing entity is untouched; a missing one is added with an empty buffer; one entity per id, each under its own id |
| Interpolation.UpdateEntityFacts | client/interpolation.py:243-249 | the entity with that id, created if missing, gets one more snapshot and the new score and colour, keeping its id; every other entity stays |
| Interpolation.UpdateEntityKeepsBuffers | client/interpolation.py:243-249 | every entity stays under its own id, and the updated buffer stays bounded, and time-ordered if it was |
| Interpolation.EntityManager.constructor | client/interpolation.py:232-233 | no entities |
| Interpolation.EntityManager.GetOrCreateEntity | client/interpolation.py:235-241 | returns the entity of that id, creating a fresh one only when missing, as GetOrCreateFacts states |
| Interpolation.EntityManager.UpdateEntity | client/interpolation.py:243-249 | update_entity on the entities, as UpdateEntityFacts states |
| Interpolation.EntityManager.RemoveEntity | client/interpolation.py:251-254 | the id is removed; an unknown id changes nothing |
| Interpolation.EntityManager.GetInterpolatedPositions | client/interpolation.py:256-267 | one entry per entity with its interpolated position, score and colour, each entity having stored that position |
| Interpolation.EntityManager.RenderOne | client/interpolation.py:259-266 | renders one entity and returns its entry; the others stay |

## Left out

- Sockets, websockets, asyncio tasks and `asyncio.gather`, threads, locks and `print` are not modelled. A send never fails, so the `ConnectionClosed` handlers have no counterpart.
- JSON encoding is not modelled, and neither is the invalid-JSON path of `handle_client` and `_receive_messages`. Messages are datatypes, and a broadcast holds the message value rather than its `json.dumps` string.
- Server.ApplyInputs: an input's `dx` and `dy` are integers or absent (then 0), and every client message is an object, so three source behaviours are not captured. A float such as 0.5 survives `max(-1, min(1, dx))` and moves the player at full speed off the eight grid directions. A null, string or list raises TypeError in `process_delayed_inputs`, which ends `game_loop`. Likewise a peer may send valid JSON that is not an object (`5`, `"x"`, `[1]`): `handle_client` queues it, and `message.get("type")` then raises AttributeError in `process_delayed_inputs`, ending `game_loop`; client messages here are always objects.
- Network.Process: final_scores keeps integer keys, although a JSON round trip would turn them into strings.
- Colours are the `Color` datatype: a client given a colour name outside blue, red and gray cannot be expressed.
- Clocks are parameters. The model reads the server clock once per operation below, where the source may read it several times; the readings are taken to be equal:
  - `LoopIteration`'s `now` stands for `loop_start` and `current_time` (server/server.py:253 and 256), the reads in both queue drains (server/server.py:51 and 84), the stamp of every `add_broadcast` during the iteration (server/server.py:77), `update`'s `current_time` (server/game_state.py:140) and both reads of `get_state_snapshot` (server/game_state.py:261 and 265). Its `finish` is the read before the sleep (server/server.py:292).
  - `RegisterClient`'s `now` (and that of the `StartGame` it may call) stands for both reads of `start_game` (server/game_state.py:114-115), the `game_start` timestamp (server/server.py:172) and the stamp of its broadcast (server/server.py:77).
  - The server constructor's `now` stands for both reads of `__init__` (server/server.py:102-103).
  - `UnregisterClient` and `ProcessInput` each take one `now`, for the stamp at server/server.py:77 and server/server.py:45.
  - On the client, each operation that stamps or drains a queue, or renders, takes its own `now`.
- Engine.TickEndsOnScore: like CollectAllEndsOnScore, it does not name the winner when the last winning scorer has id 0.
- Engine.CollectAllEndsOnScore: it does not name the winner when the last winning scorer has id 0 (then end_game's score scan decides, as CoinGoesToFirstToucher states for one coin); `add_player` accepts id 0 but the server only assigns ids 1 and 2.
- `random.uniform` draws are parameters limited to the source's boxes.
- `math.sqrt` and `** 0.5` results are parameters pinned down by their defining equation.
- Floating-point rounding is not modelled: floats are reals.
- Engine.SnapshotFacts: Player.to_dict and Coin.to_dict round coordinates to two decimals; the model keeps them exact.
- `game_loop` is modelled as one iteration (`LoopIteration`): the `running` flag, the outer loop and the actual `asyncio.sleep` are not. `start`, `handle_client` and the server entry point are connection plumbing and are not modelled.
- `broadcast` (server/server.py:202-207) is the same as `queue_broadcast`, so it is covered by `QueueBroadcast`. `broadcast_state` is covered by `BroadcastStateIfDue`.
- `get_remaining_time` is not modelled: it is a read-only projection of the clock that nothing in the core uses.
- `get_connected_player_count` is folded into `CanStartGame` as the number of players.
- Not modelled in NetworkClient:
  - connection lifecycle (`start`, `stop`, `connect`, `_run_thread`, callbacks);
  - the sender task `_send_messages`, which drains the outgoing queue onto the socket;
  - `is_connected`.
  The outgoing `Queue` is a sequence that `SendInput` appends to.
- The client's receive path is modelled only as its `add_message` call (`Receive`); `DelayedMessageQueue.clear` is `Latency.DelayQueue.Clear`.
- Interpolation.EntityManager.GetInterpolatedPositions: the result is a map, so the insertion order of the returned dict is not modelled. Each entity is rendered independently, so the values do not depend on it.
- client/client.py, client/renderer.py and shared/constants.py beyond the constants and colour names are not part of this model. The first two are the pygame front end and the input glue.
