/** The decision logic of the command-line front end (`main.go`): the JSON
    response record, the default-port rule of `ParseIPAddr`, what
    `QueryServer` makes of a reply once it has been read, and the order in
    which `main` validates its input, loads a configuration, looks up the
    protocol, queries the server and files the decoded result.
    Everything the program does through a library or the operating system
    (reading standard input, decoding JSON and TOML, `url.Parse`, sockets,
    `json.Marshal`, printing) is a parameter. */
module Grokstat {
  import opened GoBytes
  import opened GoStrings
  import opened Models
  import OpenTTD
  import OpenTTDEncoding
  import OpenTTDTruncation

  /** A value that succeeded or the error it failed with. */
  datatype Result<+T> = Ok(value: T) | Err(error: Error)

  // ---------------------------------------------------------------------
  // The JSON response

  /** The values `main` places under `output`. The protocol listing is keyed
      by protocol id; the JSON array built from it has no fixed order. */
  datatype Payload =
    | Servers(addresses: seq<string>)
    | ServerInfo(entry: ServerEntry)
    | Protocols(infos: map<string, map<string, string>>)

  /** `output`: a bare string, or an object of named payloads. */
  datatype Output = Text(text: string) | Object(fields: map<string, Payload>)

  /** The `JsonResponse` record before it is marshalled. */
  datatype JsonResponse = JsonResponse(version: string, status: int, message: string, output: Output)

  /** `FormJsonResponse(output, err)`, where `version` is the program's
      `VERSION`: an error gives status 500, its text and the output `{}`;
      no error gives status 200, "OK" and the output as given. */
  function FormJsonResponse(version: string, output: Output, err: Option<Error>): (r: JsonResponse)
    ensures r.version == version
    ensures r.status == 200 <==> err.None?
    ensures r.status == 500 <==> err.Some?
    ensures err.Some? ==> r.message == Message(err.value) && r.output == Text("{}")
    ensures err.None? ==> r.message == "OK" && r.output == output
  {
    if err.Some? then JsonResponse(version, 500, Message(err.value), Text("{}"))
    else JsonResponse(version, 200, "OK", output)
  }

  /** An error response carries nothing of the output it was given, and a
      success response carries exactly that output. */
  lemma ErrorHidesOutput(version: string, o1: Output, o2: Output, err: Option<Error>)
    ensures err.Some? ==> FormJsonResponse(version, o1, err) == FormJsonResponse(version, o2, err)
    ensures err.None? ==> (FormJsonResponse(version, o1, err) == FormJsonResponse(version, o2, err) <==> o1 == o2)
  {
  }

  // ---------------------------------------------------------------------
  // ParseIPAddr

  /** What `url.Parse` yields for a well-formed URL. */
  datatype Url = Url(scheme: string, host: string)

  const SCHEME_MARK: string := "://"
  const PLACEHOLDER: string := "placeholder://"

  /** The input given a scheme when it has none, so that `url.Parse` reads
      what follows as the host. */
  function WithScheme(ip: string): (s: string)
    ensures !Contains(ip, SCHEME_MARK) ==> s == PLACEHOLDER + ip
    ensures Contains(ip, SCHEME_MARK) ==> s == ip
  {
    SplitSingle(ip, SCHEME_MARK);
    if |Split(ip, SCHEME_MARK)| == 1 then PLACEHOLDER + ip else ip
  }

  /** The host given the default port when it names no port: it gains
      `":" + defaultPort` exactly when it holds no colon. */
  function WithPort(host: string, defaultPort: string): (h: string)
    ensures !Contains(host, ":") ==> h == host + ":" + defaultPort
    ensures Contains(host, ":") ==> h == host
  {
    SplitSingle(host, ":");
    if |Split(host, ":")| == 1 then host + ":" + defaultPort else host
  }

  /** After the rule the host always names a port, so applying it again
      changes nothing. */
  lemma WithPortIdempotent(host: string, p: string, q: string)
    ensures Contains(WithPort(host, p), ":")
    ensures WithPort(WithPort(host, p), q) == WithPort(host, p)
  {
    if !Contains(host, ":") {
      var h := host + ":" + p;
      assert OccursAt(h, ":", |host|) by {
        assert h[|host|..|host| + 1] == [':'];
      }
    }
  }

  /** Likewise the input always has a scheme after `WithScheme`. */
  lemma WithSchemeIdempotent(ip: string)
    ensures Contains(WithScheme(ip), SCHEME_MARK)
    ensures WithScheme(WithScheme(ip)) == WithScheme(ip)
  {
    if !Contains(ip, SCHEME_MARK) {
      var s := PLACEHOLDER + ip;
      assert OccursAt(s, SCHEME_MARK, 11) by {
        assert s[11..14] == PLACEHOLDER[11..14];
      }
    }
  }

  /** `ParseIPAddr(ipString, defaultPort)` with `url.Parse` as `parse`. When
      the parse fails its error is discarded and reading the nil URL panics. */
  function ParseIPAddr(ip: string, defaultPort: string, parse: string -> Option<Url>): (r: Outcome<map<string, string>>)
    ensures r.Panicked? <==> parse(WithScheme(ip)).None?
    ensures r.Returned? ==>
      r.value.Keys == {"http_protocol", "host"} &&
      r.value["http_protocol"] == parse(WithScheme(ip)).value.scheme &&
      r.value["host"] == WithPort(parse(WithScheme(ip)).value.host, defaultPort)
  {
    match parse(WithScheme(ip))
    case None => Panicked
    case Some(url) =>
      var result := map["http_protocol" := url.scheme, "host" := url.host];
      Returned(result["host" := WithPort(result["host"], defaultPort)])
  }

  /** The port OpenTTD servers listen on unless told otherwise. */
  const OPENTTD_DEFAULT_PORT: string := "3979"

  /** A bare address gets the placeholder scheme and, when the parser reads it
      back as the host, the OpenTTD port. */
  lemma BareAddressGetsPort(ip: string, parse: string -> Option<Url>)
    requires !Contains(ip, SCHEME_MARK) && !Contains(ip, ":")
    requires parse(PLACEHOLDER + ip) == Some(Url("placeholder", ip))
    ensures ParseIPAddr(ip, OPENTTD_DEFAULT_PORT, parse) ==
      Returned(map["http_protocol" := "placeholder", "host" := ip + ":3979"])
  {
    assert WithScheme(ip) == PLACEHOLDER + ip;
    assert WithPort(ip, OPENTTD_DEFAULT_PORT) == ip + ":3979";
    var r := ParseIPAddr(ip, OPENTTD_DEFAULT_PORT, parse);
    var expected := map["http_protocol" := "placeholder", "host" := ip + ":3979"];
    assert r.value.Keys == expected.Keys;
    assert r.value == expected;
  }

  // ---------------------------------------------------------------------
  // QueryServer, after the read

  /** What `QueryServer` returns: the reply bytes and an error. */
  datatype Reply = Reply(status: seq<byte>, err: Option<Error>)

  /** The size of the UDP receive buffer. */
  const BUFFER_SIZE: nat := 16777215

  function Zeros(n: nat): (z: seq<byte>)
    ensures |z| == n && forall k :: 0 <= k < n ==> z[k] == 0
  {
    seq(n, _ => 0)
  }

  /** The receive buffer after `ReadFromUDP`: the datagram, cut to the
      buffer's size, followed by the zeros `make` filled it with. */
  function Received(datagram: seq<byte>): (buf: seq<byte>)
    ensures |buf| == BUFFER_SIZE
    ensures buf[..|Take(datagram, BUFFER_SIZE)|] == Take(datagram, BUFFER_SIZE)
    ensures forall k :: |Take(datagram, BUFFER_SIZE)| <= k < BUFFER_SIZE ==> buf[k] == 0
  {
    var d := Take(datagram, BUFFER_SIZE);
    d + Zeros(BUFFER_SIZE - |d|)
  }

  /** The post-read step as written: trailing zero bytes are trimmed from the
      whole buffer, and nothing left is "No response from server". The status
      is the buffer up to its last nonzero byte. */
  function TrimmedStatus(buf: seq<byte>): (r: Reply)
    ensures r.err.None? || r.err == Some(NoResponse)
    ensures r.err == Some(NoResponse) <==> forall k :: 0 <= k < |buf| ==> buf[k] == 0
    ensures r.err.None? <==> |r.status| > 0
    ensures |r.status| <= |buf| && r.status == buf[..|r.status|]
    ensures forall k :: |r.status| <= k < |buf| ==> buf[k] == 0
    ensures |r.status| > 0 ==> r.status[|r.status| - 1] != 0
  {
    var status := TrimRight(buf, {0});
    if |status| == 0 then Reply(status, Some(NoResponse)) else Reply(status, None)
  }

  /** The post-read step with the received length `n`: the status is what was
      received, and nothing received is "No response from server". */
  function CountedStatus(buf: seq<byte>, n: nat): (r: Reply)
    requires n <= |buf|
    ensures r.status == buf[..n]
    ensures r.err == Some(NoResponse) <==> n == 0
    ensures r.err.None? <==> n > 0
  {
    if n == 0 then Reply([], Some(NoResponse)) else Reply(buf[..n], None)
  }

  /** The UDP exchange after the read, as written: of what was received, the
      status keeps everything up to the last nonzero byte, and an empty status
      is "No response from server". */
  function UdpReplyAsWritten(datagram: seq<byte>): (r: Reply)
    ensures var sent := Take(datagram, BUFFER_SIZE);
      |r.status| <= |sent| && r.status == sent[..|r.status|] &&
      (forall k :: |r.status| <= k < |sent| ==> sent[k] == 0) &&
      (|r.status| > 0 ==> r.status[|r.status| - 1] != 0)
    ensures r.err == Some(NoResponse) <==> |r.status| == 0
    ensures r.err.None? <==> |r.status| > 0
  {
    var buf := Received(datagram);
    var r := TrimmedStatus(buf);
    var sent := Take(datagram, BUFFER_SIZE);
    assert |r.status| <= |sent|;
    assert r.status == sent[..|r.status|] by {
      assert r.status == buf[..|r.status|];
      assert buf[..|sent|][..|r.status|] == buf[..|r.status|];
    }
    assert forall k :: |r.status| <= k < |sent| ==> sent[k] == buf[k];
    r
  }

  /** The UDP exchange after the read, cut at the received length. */
  function UdpReply(datagram: seq<byte>): (r: Reply)
    ensures r.status == Take(datagram, BUFFER_SIZE)
    ensures r.err.None? <==> |datagram| > 0
    ensures r.err.Some? ==> r.err == Some(NoResponse)
  {
    var buf := Received(datagram);
    assert buf[..|Take(datagram, BUFFER_SIZE)|] == Take(datagram, BUFFER_SIZE);
    CountedStatus(buf, |Take(datagram, BUFFER_SIZE)|)
  }

  /** The two agree on every datagram that fits the buffer and does not end
      in a zero byte. */
  lemma UdpRepliesAgree(datagram: seq<byte>)
    requires 0 < |datagram| <= BUFFER_SIZE && datagram[|datagram| - 1] != 0
    ensures UdpReplyAsWritten(datagram) == UdpReply(datagram)
  {
    var buf := Received(datagram);
    var r := TrimmedStatus(buf);
    assert Take(datagram, BUFFER_SIZE) == datagram;
    assert buf[|datagram| - 1] == datagram[|datagram| - 1];
    assert |r.status| >= |datagram|;
    assert r.status == datagram;
  }

  /** As written, a datagram that ends in a zero byte or more reaches the
      decoder shorter than it was sent. */
  lemma TrimmedStatusLosesZeros(datagram: seq<byte>)
    requires 0 < |datagram| <= BUFFER_SIZE && datagram[|datagram| - 1] == 0
    ensures |UdpReplyAsWritten(datagram).status| < |datagram|
    ensures UdpReplyAsWritten(datagram).status == datagram[..|UdpReplyAsWritten(datagram).status|]
  {
    var buf := Received(datagram);
    var r := TrimmedStatus(buf);
    assert Take(datagram, BUFFER_SIZE) == datagram;
    assert buf[..|datagram|] == datagram;
  }

  /** The last byte of an OpenTTD server-info reply is its dedicated flag. */
  lemma EncodedEndsWithDedicated(header: seq<byte>, info: OpenTTD.GameInfo)
    ensures var d := header + OpenTTDEncoding.Encode(info);
      |d| > 0 && d[|d| - 1] == info.mapInfo.dedicated
  {
  }

  /** As written, the reply of a server that is not dedicated (its last byte
      is 0) never decodes: the trim takes its dedicated flag, and the decoder
      reports a malformed packet. */
  lemma ListenServerReplyIsMalformed(header: seq<byte>, info: OpenTTD.GameInfo, render: seq<byte> -> string)
    requires |header| == 3 && OpenTTDEncoding.WellFormed(info) && info.mapInfo.dedicated == 0
    requires |header + OpenTTDEncoding.Encode(info)| <= BUFFER_SIZE
    ensures var reply := UdpReplyAsWritten(header + OpenTTDEncoding.Encode(info));
      reply.err.None? ==> OpenTTD.Decode(reply.status, render) == Panicked
  {
    var d := header + OpenTTDEncoding.Encode(info);
    EncodedEndsWithDedicated(header, info);
    TrimmedStatusLosesZeros(d);
    var t := |UdpReplyAsWritten(d).status|;
    OpenTTDTruncation.EncodedPrefixPanics(header, info, t, render);
  }

  /** The "Alpha" reply of a server that is not dedicated. */
  const LISTEN_INFO: OpenTTD.GameInfo :=
    OpenTTDEncoding.ALPHA_INFO.(mapInfo := OpenTTDEncoding.ALPHA_INFO.mapInfo.(dedicated := 0))

  /** As written, that reply arrives without error and is still reported as
      a malformed packet. */
  lemma ListenAlphaIsMalformed(header: seq<byte>, render: seq<byte> -> string)
    requires |header| == 3
    ensures var reply := UdpReplyAsWritten(header + OpenTTDEncoding.Encode(LISTEN_INFO));
      reply.err.None? && OpenTTD.Decode(reply.status, render) == Panicked
  {
    var d := header + OpenTTDEncoding.Encode(LISTEN_INFO);
    assert OpenTTDEncoding.WellFormed(LISTEN_INFO) by {
      assert Pow256(2) == 65536;
    }
    assert d[3] == 2;
    assert Received(d)[3] == 2;
    ListenServerReplyIsMalformed(header, LISTEN_INFO, render);
  }

  /** Cut at the received length, every well-formed reply reaches the
      decoder whole and decodes to the entry it carries. */
  lemma CountedReplyDecodes(header: seq<byte>, info: OpenTTD.GameInfo, render: seq<byte> -> string)
    requires |header| == 3 && OpenTTDEncoding.WellFormed(info)
    requires |header + OpenTTDEncoding.Encode(info)| <= BUFFER_SIZE
    ensures var reply := UdpReply(header + OpenTTDEncoding.Encode(info));
      reply.err.None? && OpenTTD.Decode(reply.status, render) == Returned(OpenTTD.Assemble(info, render))
  {
    var d := header + OpenTTDEncoding.Encode(info);
    assert Take(d, BUFFER_SIZE) == d;
    assert UdpReply(d).status == d;
    OpenTTDEncoding.DecodeEncoded(header, info, [], render);
    assert header + OpenTTDEncoding.Encode(info) + [] == d;
  }

  /** The operating system's side of a query: connection errors, the line a
      TCP server sends (with the error `ReadString` reports beside it), and
      the datagram a UDP server answers a request with (empty when none
      arrives before the deadline). */
  datatype Network = Network(
    dialTcp: string -> Option<Error>,
    readLine: string -> (seq<byte>, Option<Error>),
    dialUdp: string -> Option<Error>,
    receive: (string, seq<byte>) -> seq<byte>)

  /** `QueryServer(httpProtocol, addr, request)`. A transport other than
      "tcp" or "udp" returns no bytes and no error. Over UDP the received
      bytes lose their trailing zeros, as the code is written. */
  function QueryServer(httpProtocol: string, addr: string, request: seq<byte>, net: Network): (r: Reply)
    ensures httpProtocol != "tcp" && httpProtocol != "udp" ==> r == Reply([], None)
    ensures httpProtocol == "tcp" && net.dialTcp(addr).Some? ==> r == Reply([], net.dialTcp(addr))
    ensures httpProtocol == "tcp" && net.dialTcp(addr).None? ==>
      r == Reply(net.readLine(addr).0, net.readLine(addr).1)
    ensures httpProtocol == "udp" && net.dialUdp(addr).Some? ==> r == Reply([], net.dialUdp(addr))
    ensures httpProtocol == "udp" && net.dialUdp(addr).None? ==>
      r == UdpReplyAsWritten(net.receive(addr, request))
  {
    if httpProtocol == "tcp" then
      match net.dialTcp(addr)
      case Some(e) => Reply([], Some(e))
      case None =>
        var (line, err) := net.readLine(addr);
        Reply(line, err)
    else if httpProtocol == "udp" then
      match net.dialUdp(addr)
      case Some(e) => Reply([], Some(e))
      case None => UdpReplyAsWritten(net.receive(addr, request))
    else Reply([], None)
  }

  /** Through `QueryServer` as written, the reply of a server that is not
      dedicated reaches the OpenTTD decoder shortened, and it panics. */
  lemma ListenServerQueryIsMalformed(addr: string, request: seq<byte>, net: Network,
                                     header: seq<byte>, info: OpenTTD.GameInfo, render: seq<byte> -> string)
    requires net.dialUdp(addr).None? && net.receive(addr, request) == header + OpenTTDEncoding.Encode(info)
    requires |header| == 3 && OpenTTDEncoding.WellFormed(info) && info.mapInfo.dedicated == 0
    requires |header + OpenTTDEncoding.Encode(info)| <= BUFFER_SIZE
    ensures var reply := QueryServer("udp", addr, request, net);
      reply.err.None? ==> OpenTTD.Decode(reply.status, render) == Panicked
  {
    ListenServerReplyIsMalformed(header, info, render);
  }

  // ---------------------------------------------------------------------
  // main

  /** The JSON input. */
  datatype InputData = InputData(hosts: seq<string>, protocol: string, showProtocols: bool, customConfigPath: string)

  /** What a protocol's decoder hands back, by its dynamic type. */
  datatype Parsed = ServerList(addresses: seq<string>) | Entry(entry: ServerEntry) | Unexpected

  /** A protocol as `main` uses it: its information strings, its transport,
      whether it queries a master server, and its request builder and
      decoder (defined outside the modelled files). */
  datatype ProtocolEntry = ProtocolEntry(
    information: map<string, string>,
    httpProtocol: string,
    isMaster: bool,
    makeRequest: map<string, string> -> seq<byte>,
    parse: (seq<byte>, map<string, string>) -> (Parsed, Option<Error>))

  /** Everything `main` gets from outside: the program version, the protocol
      map built from the embedded default configuration (none when the asset
      is missing) or from a custom file (none when it cannot be read),
      `url.Parse`, and the network. */
  datatype Environment = Environment(
    version: string,
    defaultProtocols: Option<map<string, ProtocolEntry>>,
    customProtocols: string -> Option<map<string, ProtocolEntry>>,
    urlParse: string -> Option<Url>,
    net: Network)

  /** What `main` prints: the output and error given to `FormJsonResponse`. */
  datatype Report = Report(output: Output, err: Option<Error>)

  /** `PrintError(err)`: the output is an empty string (and `err` may be nil). */
  function ErrorReport(err: Option<Error>): Report
  {
    Report(Text(""), err)
  }

  /** The protocol map of the configuration `main` loads. */
  function LoadProtocols(customConfigPath: string, env: Environment): (r: Result<map<string, ProtocolEntry>>)
    ensures customConfigPath == "" ==>
      (r == Err(DefaultConfigMissing) <==> env.defaultProtocols.None?) &&
      (r.Ok? ==> r.value == env.defaultProtocols.value)
    ensures customConfigPath != "" ==>
      (r == Err(CustomConfigUnreadable) <==> env.customProtocols(customConfigPath).None?) &&
      (r.Ok? ==> r.value == env.customProtocols(customConfigPath).value)
  {
    if customConfigPath == "" then
      match env.defaultProtocols
      case None => Err(DefaultConfigMissing)
      case Some(m) => Ok(m)
    else
      match env.customProtocols(customConfigPath)
      case None => Err(CustomConfigUnreadable)
      case Some(m) => Ok(m)
  }

  /** The checks on the input, in order. */
  function Validate(flags: InputData): (r: Option<Error>)
    ensures r == Some(NoHosts) <==> |flags.hosts| == 0
    ensures r == Some(InvalidIP) <==> |flags.hosts| > 0 && flags.hosts[0] == ""
    ensures r == Some(NoProtocol) <==> |flags.hosts| > 0 && flags.hosts[0] != "" && flags.protocol == ""
    ensures r.None? <==> |flags.hosts| > 0 && flags.hosts[0] != "" && flags.protocol != ""
  {
    if |flags.hosts| == 0 then Some(NoHosts)
    else if flags.hosts[0] == "" then Some(InvalidIP)
    else if flags.protocol == "" then Some(NoProtocol)
    else None
  }

  /** `protocol.Information["DefaultRequestPort"]`, empty when missing. */
  function DefaultPort(information: map<string, string>): string
  {
    if "DefaultRequestPort" in information then information["DefaultRequestPort"] else ""
  }

  /** Filing the decoded result: a master protocol must yield a server list,
      stored under "servers", any other a server entry, stored under
      "server_info". A decoder error, or a value of the wrong type, prints
      the decoder's error; when that error is nil the response is a success
      with an empty output. */
  function Dispatch(isMaster: bool, data: Parsed, parseErr: Option<Error>): (r: Report)
    ensures r.err == parseErr
    ensures isMaster && parseErr.None? && data.ServerList? ==>
      r.output == Object(map["servers" := Servers(data.addresses)])
    ensures !isMaster && parseErr.None? && data.Entry? ==>
      r.output == Object(map["server_info" := ServerInfo(data.entry)])
    ensures (if isMaster then !data.ServerList? else !data.Entry?) ==> r == ErrorReport(parseErr)
  {
    if isMaster then
      if parseErr.Some? || !data.ServerList? then ErrorReport(parseErr)
      else Report(Object(map["servers" := Servers(data.addresses)]), None)
    else
      if parseErr.Some? || !data.Entry? then ErrorReport(parseErr)
      else Report(Object(map["server_info" := ServerInfo(data.entry)]), None)
  }

  /** The protocol listing printed for `show-protocols`. */
  function ProtocolListing(protocols: map<string, ProtocolEntry>): (o: Output)
    ensures o.Object? && o.fields.Keys == {"protocols"}
    ensures o.fields["protocols"].Protocols? && o.fields["protocols"].infos.Keys == protocols.Keys
    ensures forall id :: id in protocols ==> o.fields["protocols"].infos[id] == protocols[id].information
  {
    Object(map["protocols" := Protocols(map id | id in protocols :: protocols[id].information)])
  }

  /** The query of the first host with the selected protocol, and what is
      filed from its reply; the run panics when `url.Parse` fails. */
  function Query(remoteIp: string, protocol: ProtocolEntry, env: Environment): Outcome<Report>
  {
    match ParseIPAddr(remoteIp, DefaultPort(protocol.information), env.urlParse)
    case Panicked => Panicked
    case Returned(ipMap) =>
      var reply := QueryServer(protocol.httpProtocol, ipMap["host"],
                               protocol.makeRequest(protocol.information), env.net);
      if reply.err.Some? then Returned(ErrorReport(reply.err))
      else
        var (data, parseErr) := protocol.parse(reply.status, protocol.information);
        Returned(Dispatch(protocol.isMaster, data, parseErr))
  }

  /** `main` as a decision: undecodable input, then the configuration, then
      the protocol listing, then the input checks, then the protocol lookup,
      then the query. */
  function Main(input: Result<InputData>, env: Environment): Outcome<Report>
  {
    match input
    case Err(e) => Returned(ErrorReport(Some(e)))
    case Ok(flags) =>
      match LoadProtocols(flags.customConfigPath, env)
      case Err(e) => Returned(ErrorReport(Some(e)))
      case Ok(protocols) =>
        if flags.showProtocols then Returned(Report(ProtocolListing(protocols), None))
        else if Validate(flags).Some? then Returned(ErrorReport(Validate(flags)))
        else if flags.protocol !in protocols then Returned(ErrorReport(Some(InvalidProtocol)))
        else Query(flags.hosts[0], protocols[flags.protocol], env)
  }

  /** The printed response of a run that did not panic. */
  function Respond(version: string, r: Outcome<Report>): Outcome<JsonResponse>
  {
    match r
    case Panicked => Panicked
    case Returned(report) => Returned(FormJsonResponse(version, report.output, report.err))
  }

  /** `main`, step by step with its early returns; it returns what it prints,
      or `Panicked` when it dies. */
  method Run(input: Result<InputData>, env: Environment) returns (r: Outcome<JsonResponse>)
    ensures r == Respond(env.version, Main(input, env))
  {
    if input.Err? {
      return Returned(FormJsonResponse(env.version, Text(""), Some(input.error)));
    }
    var flags := input.value;
    var hosts := flags.hosts;
    var showProtocols := flags.showProtocols;
    var customConfigPath := flags.customConfigPath;
    var selectedProtocol := flags.protocol;

    var protocolCmdMap: map<string, ProtocolEntry>;
    if customConfigPath == "" {
      if env.defaultProtocols.None? {
        return Returned(FormJsonResponse(env.version, Text(""), Some(DefaultConfigMissing)));
      }
      protocolCmdMap := env.defaultProtocols.value;
    } else {
      var loaded := env.customProtocols(customConfigPath);
      if loaded.None? {
        return Returned(FormJsonResponse(env.version, Text(""), Some(CustomConfigUnreadable)));
      }
      protocolCmdMap := loaded.value;
    }

    if showProtocols {
      return Returned(FormJsonResponse(env.version, ProtocolListing(protocolCmdMap), None));
    }
    if |hosts| == 0 {
      return Returned(FormJsonResponse(env.version, Text(""), Some(NoHosts)));
    }
    var remoteIp := hosts[0];
    if remoteIp == "" {
      return Returned(FormJsonResponse(env.version, Text(""), Some(InvalidIP)));
    }
    if selectedProtocol == "" {
      return Returned(FormJsonResponse(env.version, Text(""), Some(NoProtocol)));
    }
    if selectedProtocol !in protocolCmdMap {
      return Returned(FormJsonResponse(env.version, Text(""), Some(InvalidProtocol)));
    }
    var protocol := protocolCmdMap[selectedProtocol];

    var ipMap := ParseIPAddr(remoteIp, DefaultPort(protocol.information), env.urlParse);
    if ipMap.Panicked? {
      return Panicked;
    }
    var hostname := ipMap.value["host"];
    var response := QueryServer(protocol.httpProtocol, hostname, protocol.makeRequest(protocol.information), env.net);
    if response.err.Some? {
      return Returned(FormJsonResponse(env.version, Text(""), response.err));
    }

    var (serverData, responseParseErr) := protocol.parse(response.status, protocol.information);
    var output: Output;
    if protocol.isMaster {
      if responseParseErr.Some? || !serverData.ServerList? {
        return Returned(FormJsonResponse(env.version, Text(""), responseParseErr));
      }
      output := Object(map["servers" := Servers(serverData.addresses)]);
    } else {
      if responseParseErr.Some? || !serverData.Entry? {
        return Returned(FormJsonResponse(env.version, Text(""), responseParseErr));
      }
      output := Object(map["server_info" := ServerInfo(serverData.entry)]);
    }
    r := Returned(FormJsonResponse(env.version, output, None));
  }

  // ---------------------------------------------------------------------
  // Properties of main

  /** With the configuration loaded and no listing asked for, a failed input
      check is reported with its own message, the first failing check wins,
      and neither the protocol map nor `url.Parse` nor the network is
      consulted. */
  lemma ValidationFirst(flags: InputData, env: Environment, other: Environment)
    requires LoadProtocols(flags.customConfigPath, env).Ok? && !flags.showProtocols
    requires LoadProtocols(flags.customConfigPath, other).Ok?
    requires Validate(flags).Some?
    ensures Main(Ok(flags), env) == Returned(ErrorReport(Validate(flags)))
    ensures Main(Ok(flags), env) == Main(Ok(flags), other)
  {
  }

  /** An unknown protocol id is reported before any query: the answer does not
      depend on `url.Parse` or on the network. */
  lemma UnknownProtocolNoQuery(flags: InputData, env: Environment, parse: string -> Option<Url>, net: Network)
    requires LoadProtocols(flags.customConfigPath, env).Ok? && !flags.showProtocols
    requires Validate(flags).None? && flags.protocol !in LoadProtocols(flags.customConfigPath, env).value
    ensures Main(Ok(flags), env) == Returned(ErrorReport(Some(InvalidProtocol)))
    ensures Main(Ok(flags), env) == Main(Ok(flags), env.(urlParse := parse, net := net))
  {
    var env2 := env.(urlParse := parse, net := net);
    assert LoadProtocols(flags.customConfigPath, env2) == LoadProtocols(flags.customConfigPath, env);
  }

  /** Only the first host is ever queried. */
  lemma FirstHostOnly(flags: InputData, env: Environment)
    requires |flags.hosts| > 0
    ensures Main(Ok(flags), env) == Main(Ok(flags.(hosts := flags.hosts[..1])), env)
  {
    var short := flags.(hosts := flags.hosts[..1]);
    assert short.hosts[0] == flags.hosts[0];
    assert Validate(short) == Validate(flags);
  }

  /** A run that reaches the protocol's decoder reports success exactly when
      the decoder returns no error and a value of the type its kind demands,
      stored under that kind's key. */
  lemma DecodedResultFiled(flags: InputData, env: Environment)
    requires LoadProtocols(flags.customConfigPath, env).Ok? && !flags.showProtocols
    requires Validate(flags).None? && flags.protocol in LoadProtocols(flags.customConfigPath, env).value
    ensures var protocol := LoadProtocols(flags.customConfigPath, env).value[flags.protocol];
      match ParseIPAddr(flags.hosts[0], DefaultPort(protocol.information), env.urlParse)
      case Panicked => Main(Ok(flags), env) == Panicked
      case Returned(ipMap) =>
        var reply := QueryServer(protocol.httpProtocol, ipMap["host"], protocol.makeRequest(protocol.information), env.net);
        var (data, parseErr) := protocol.parse(reply.status, protocol.information);
        Main(Ok(flags), env).Returned? &&
        (reply.err.Some? ==> Main(Ok(flags), env).value == ErrorReport(reply.err)) &&
        (reply.err.None? ==> Main(Ok(flags), env).value.err == parseErr) &&
        (reply.err.None? && parseErr.None? && protocol.isMaster && data.ServerList? ==>
          Main(Ok(flags), env).value.output == Object(map["servers" := Servers(data.addresses)])) &&
        (reply.err.None? && parseErr.None? && !protocol.isMaster && data.Entry? ==>
          Main(Ok(flags), env).value.output == Object(map["server_info" := ServerInfo(data.entry)]))
  {
  }

  /** A way an error report reaches status 200: a decoder that returns a
      value of the wrong type and no error. */
  lemma WrongTypeLooksLikeSuccess(version: string, isMaster: bool, data: Parsed)
    requires if isMaster then !data.ServerList? else !data.Entry?
    ensures FormJsonResponse(version, Dispatch(isMaster, data, None).output, Dispatch(isMaster, data, None).err) ==
      JsonResponse(version, 200, "OK", Text(""))
  {
  }

  /** Conversely, status 200 with an empty output comes only from that case:
      a filed result is never empty, and an error gives status 500. */
  lemma EmptySuccessIsWrongType(version: string, isMaster: bool, data: Parsed, parseErr: Option<Error>)
    requires var report := Dispatch(isMaster, data, parseErr);
      var response := FormJsonResponse(version, report.output, report.err);
      response.status == 200 && response.output == Text("")
    ensures parseErr.None?
    ensures if isMaster then !data.ServerList? else !data.Entry?
  {
  }
}
