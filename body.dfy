/** The response bodies of the API (api/src/body.rs), as values. */
module Body {
  import opened Types

  /** One cell of a board as the client sees it. */
  datatype FieldOut = FieldOut(id: Uuid, text: string, position: nat, checked: bool, bingo: bool)

  /** One player of a game with the checked flags of their board. */
  datatype PlayerOut = PlayerOut(userId: Uuid, username: string, bingos: int, hits: seq<bool>, isMe: bool)

  /** The answer to starting or joining a game. */
  datatype GameOut = GameOut(
    id: Uuid,
    open: bool,
    continued: bool,
    accessCode: string,
    fields: seq<seq<FieldOut>>,
    players: seq<PlayerOut>,
    username: string)

  /** A message pushed over the game's websocket. */
  datatype MessageOut =
    | Game(id: Uuid, open: bool, accessCode: string)
    | Fields(rows: seq<seq<FieldOut>>)
    | Players(players: seq<PlayerOut>)

  /** A template submitted by a user: a title and the captions of its fields. */
  datatype TemplateIn = TemplateIn(title: string, fields: seq<string>)
}
