/**
 * The records exchanged between server and clients. On the wire they are JSON
 * objects with a "type" tag; here each tag is one constructor. A field a client reads
 * with `message.get(key)` or `message.get(key, default)` is an `Option`, so that a
 * message lacking it can be expressed; the server always fills such fields in.
 * A client payload that is valid JSON but not an object is not expressible.
 */
module Messages {
  import opened Wrappers
  import opened Constants

  /** One entry of the "players" list of a state message (Player.to_dict). */
  datatype PlayerView = PlayerView(id: int, x: real, y: real, score: int, color: Color)

  /** One entry of the "coins" list of a state message (Coin.to_dict). */
  datatype CoinView = CoinView(id: int, x: real, y: real)

  /** Messages sent by the server. */
  datatype ServerMessage =
    | Assign(assignedId: Option<int>, color: Option<Color>, x: real, y: real)
    | WaitingNotice(text: string)
    | GameStart(timestamp: real)
    | State(stateTime: Option<real>, gameState: Option<Phase>, players: seq<PlayerView>,
            coins: seq<CoinView>, gameTime: real, winner: Option<int>)
    | CoinCollected(playerId: int, coinId: int, newScore: int)
    | PlayerDisconnected(playerId: int)
    | GameOver(winner: Option<int>, finalScores: Option<map<int, int>>)
    | Error(text: string)
      /** any other "type" tag */
    | Unrecognised(tag: string)

  /** Messages sent by a client: an input update, or any other JSON object a peer might send. */
  datatype ClientMessage =
    | Input(dx: Option<int>, dy: Option<int>)
    | OtherRequest(tag: string)
}
