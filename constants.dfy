/** The fixed configuration shared by server and client (shared/constants.py). */
module Constants {

  // Game area dimensions
  const GameWidth: real := 800.0
  const GameHeight: real := 600.0

  // Player configuration
  const PlayerRadius: real := 15.0
  const PlayerSpeed: real := 200.0

  // Coin configuration
  const CoinRadius: real := 10.0
  const CoinSpawnInterval: real := 3.0
  const MaxCoins: nat := 5

  // Network configuration
  const NetworkDelayMs: nat := 200
  const StateBroadcastRate: nat := 20
  const InputSendRate: nat := 20

  // Interpolation configuration
  const InterpolationDelay: real := 0.1
  const PositionBufferSize: nat := 20

  // Game rules
  const GameDuration: real := 60.0
  const WinningScore: nat := 10

  /** Player colours by name; `Gray` is the fallback used for unknown ids and by clients. */
  datatype Color = Blue | Red | Gray

  /** PLAYER_COLOR_NAMES.get(player_id, "gray") */
  function ColorFor(playerId: int): (c: Color)
    ensures playerId == 1 <==> c == Blue
    ensures playerId == 2 <==> c == Red
    ensures c == Gray <==> playerId != 1 && playerId != 2
  {
    if playerId == 1 then Blue else if playerId == 2 then Red else Gray
  }

  /** GameStates */
  datatype Phase = Waiting | Playing | Ended

  /** Position of a phase in the only order the game moves through, Waiting, Playing, Ended. */
  function PhaseRank(p: Phase): nat
  {
    match p
    case Waiting => 0
    case Playing => 1
    case Ended => 2
  }
}
