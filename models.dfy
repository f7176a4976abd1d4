/** The normalised result of a query and the error kinds that reach the
    caller. `ServerEntry`, `PlayerEntry`, `MakeServerEntry` and the
    `MalformedPacket` error are declared outside the modelled files; they are
    given here at the level of detail the decoder and `main` need. */
module Models {

  /** One player; the OpenTTD server-info reply lists none. */
  datatype PlayerEntry = PlayerEntry(name: string, score: int)

  /** What a protocol's decoder returns for one server. */
  datatype ServerEntry = ServerEntry(
    name: string,
    maxClients: int,
    numClients: int,
    needPass: bool,
    terrain: string,
    rules: map<string, string>,
    players: seq<PlayerEntry>)

  /** `MakeServerEntry()`: the fresh, zero-valued entry returned beside an error. */
  function MakeServerEntry(): ServerEntry
  {
    ServerEntry("", 0, 0, false, "", map[], [])
  }

  /** The errors that can reach the JSON response. `Foreign` carries the text
      of an error produced by code outside the model (the JSON decoder, the
      socket layer, another protocol's decoder). */
  datatype Error =
    | MalformedPacket
    | NoResponse
    | NoHosts
    | InvalidIP
    | NoProtocol
    | InvalidProtocol
    | DefaultConfigMissing
    | CustomConfigUnreadable
    | Foreign(text: string)

  /** `err.Error()`. */
  function Message(e: Error): string
  {
    match e
    case MalformedPacket => "Malformed packet"
    case NoResponse => "No response from server"
    case NoHosts => "No hosts specified."
    case InvalidIP => "Please specify a valid IP."
    case NoProtocol => "Please specify the protocol."
    case InvalidProtocol => "Invalid protocol specified."
    case DefaultConfigMissing => "Default config file not found."
    case CustomConfigUnreadable => "Error loading custom config file."
    case Foreign(text) => text
  }
}
