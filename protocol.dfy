/** The vocabulary shared by the host and its clients in src/main.ts: players,
    word pairs, and the tagged messages sent over the peer connections. */
module Protocol {

  datatype Option<T> = None | Some(value: T)

  datatype Role = Normal | Undercover

  /** PlayerInfo: `id` is the address the transport assigned to the device. */
  datatype Player = Player(id: string, name: string, role: Role)

  /** The `{id, name}` pair of a roster update; the host also keeps one per
      connection (the data channel handle itself is not modelled). */
  datatype Entry = Entry(id: string, name: string)

  datatype WordPair = WordPair(common: string, undercover: string)

  /** A message envelope, one constructor per `type` tag the program sends:
      'request-intro', 'intro', 'player-list', 'start', 'vote-start', 'vote',
      'elimination', 'game-end'. `Other` stands for an object whose `type`
      is none of these. */
  datatype Message =
    | RequestIntro
    | Intro(name: string)
    | PlayerList(roster: seq<Entry>)
    | Start(players: seq<Player>, pair: WordPair)
    | VoteStart
    | Vote(voterId: string, targetId: string)
    | Elimination(targetId: string)
    | GameEnd(message: string)
    | Other(tag: string)

  /** One message placed on the wire, addressed to the peer with id `to`. */
  datatype Outgoing = Outgoing(to: string, msg: Message)

  /** Anything a data channel can deliver. An object either has a `type`
      property, and then decodes to a Message, or it has none. */
  datatype Datum =
    | Undefined
    | Null
    | Boolean(b: bool)
    | Number(n: int)
    | Text(s: string)
    | Object(tagged: Option<Message>)

  /** JavaScript's `typeof`, which answers "object" for null as well. */
  function TypeOf(d: Datum): string
  {
    match d
    case Undefined => "undefined"
    case Null => "object"
    case Boolean(_) => "boolean"
    case Number(_) => "number"
    case Text(_) => "string"
    case Object(_) => "object"
  }

  /** isMessage: a non-null object that has a `type` property. The explicit
      null test matters because `typeof null` is "object" too. */
  function IsMessage(d: Datum): (r: bool)
    ensures r <==> d.Object? && d.tagged.Some?
    ensures d.Null? ==> TypeOf(d) == "object" && !r
  {
    TypeOf(d) == "object" && !d.Null? && d.tagged.Some?
  }
}
