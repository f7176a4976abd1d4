/** The OpenTTD server-info decoder (`PACKET_UDP_SERVER_RESPONSE`, network
    game-info versions 1 to 4 and later).

    The reply is read left to right through a `bytes.Buffer` cursor. After a
    3-byte header comes the version byte `v`, and `v` decides which fields
    follow: the NewGRF list when `v >= 4`, two big-endian 32-bit dates when
    `v >= 3`, three company/spectator counters when `v >= 2`, two reserved
    2-byte fields when `v < 3`. Only indexing the empty slice that `Next(1)`
    returns on an exhausted buffer can panic (and `p[3:]` on a payload shorter
    than 3 bytes); every other read hands back fewer bytes, or zero, and goes
    on.

    The specification reads the unread input as a sequence: each reader
    returns what it read and the input it leaves; `None` is a panic. */
module OpenTTD {
  import opened GoBytes
  import opened GoStrings
  import opened Models

  /** One active NewGRF: its 4-byte id and 16-byte MD5 (shorter when the
      payload ran out). */
  datatype NewGrf = NewGrf(id: seq<byte>, md5: seq<byte>)

  /** The counters present from version 2 on. */
  datatype Companies = Companies(max: byte, current: byte, maxSpectators: byte)

  /** The version-gated fields, in wire order. */
  datatype Head = Head(
    version: byte,
    grfCount: byte,
    grfs: seq<NewGrf>,
    timeCurrent: nat,
    timeStart: nat,
    companies: Option<Companies>)

  /** The server fields every version carries, up to the reserved skip. */
  datatype Server = Server(
    name: seq<byte>,
    version: seq<byte>,
    languageId: byte,
    passwordFlag: byte,
    maxClients: byte,
    currentClients: byte,
    currentSpectators: byte)

  /** The map fields that end the reply. */
  datatype MapInfo = MapInfo(
    name: seq<byte>,
    width: nat,
    height: nat,
    mapSet: byte,
    dedicated: byte)

  /** Everything the decoder reads from one reply. */
  datatype GameInfo = GameInfo(head: Head, server: Server, mapInfo: MapInfo)

  /** The packet handed to the decoder. */
  datatype Packet = Packet(data: seq<byte>)

  // ---------------------------------------------------------------------
  // Readers over the unread input

  /** `Next(1)[0]`: the next byte, or a panic on an exhausted buffer. */
  function ReadByte(s: seq<byte>): Option<(byte, seq<byte>)>
  {
    if |s| == 0 then None else Some((s[0], s[1..]))
  }

  /** A NUL-terminated text field: `ReadBytes(0)` (the error is ignored)
      followed by `bytes.Trim(_, "\x00")`. */
  function ReadText(s: seq<byte>): (seq<byte>, seq<byte>)
  {
    var n := LineLength(s, 0);
    (Trim(s[..n], {0}), s[n..])
  }

  /** A big-endian unsigned field of `width` bytes: `binary.Read` over
      `Next(width)`, 0 when fewer bytes are left. */
  function ReadUint(s: seq<byte>, width: nat): (nat, seq<byte>)
  {
    (BinaryRead(Take(s, width), width), Drop(s, width))
  }

  /** The first `k` NewGRF entries: `Next(4)` for the id, `Next(16)` for the MD5. */
  function ReadGrfs(k: nat, s: seq<byte>): (seq<NewGrf>, seq<byte>)
  {
    if k == 0 then ([], s)
    else
      var (grfs, rest) := ReadGrfs(k - 1, s);
      var id := Take(rest, 4);
      var md5 := Take(Drop(rest, 4), 16);
      (grfs + [NewGrf(id, md5)], Drop(Drop(rest, 4), 16))
  }

  /** The NewGRF section: a count byte and the entries, present from version 4 on. */
  function ReadGrfSection(v: byte, s: seq<byte>): Option<(byte, seq<NewGrf>, seq<byte>)>
  {
    if v < 4 then Some((0, [], s))
    else
      var c :- ReadByte(s);
      var (grfs, rest) := ReadGrfs(c.0, c.1);
      Some((c.0, grfs, rest))
  }

  /** The two dates, present from version 3 on; 0 and 0 before. */
  function ReadDates(v: byte, s: seq<byte>): (nat, nat, seq<byte>)
  {
    if v < 3 then (0, 0, s)
    else
      var (current, s1) := ReadUint(s, 4);
      var (start, s2) := ReadUint(s1, 4);
      (current, start, s2)
  }

  /** The three counters, present from version 2 on. */
  function ReadCompanies(v: byte, s: seq<byte>): Option<(Option<Companies>, seq<byte>)>
  {
    if v < 2 then Some((None, s))
    else
      var max :- ReadByte(s);
      var current :- ReadByte(max.1);
      var spectators :- ReadByte(current.1);
      Some((Some(Companies(max.0, current.0, spectators.0)), spectators.1))
  }

  /** The two reserved 2-byte fields of versions below 3, read and dropped. */
  function SkipReserved(v: byte, s: seq<byte>): seq<byte>
  {
    if v < 3 then Drop(Drop(s, 2), 2) else s
  }

  /** Version byte and the version-gated head. */
  function ReadHead(s: seq<byte>): Option<(Head, seq<byte>)>
  {
    var v :- ReadByte(s);
    var g :- ReadGrfSection(v.0, v.1);
    var (count, grfs, s2) := g;
    var (current, start, s3) := ReadDates(v.0, s2);
    var c :- ReadCompanies(v.0, s3);
    Some((Head(v.0, count, grfs, current, start, c.0), c.1))
  }

  /** The two text fields and five single bytes every version carries, then
      the reserved skip of versions below 3. */
  function ReadServer(v: byte, s: seq<byte>): Option<(Server, seq<byte>)>
  {
    var (name, s1) := ReadText(s);
    var (version, s2) := ReadText(s1);
    var language :- ReadByte(s2);
    var pass :- ReadByte(language.1);
    var maxClients :- ReadByte(pass.1);
    var clients :- ReadByte(maxClients.1);
    var spectators :- ReadByte(clients.1);
    Some((Server(name, version, language.0, pass.0, maxClients.0, clients.0, spectators.0),
          SkipReserved(v, spectators.1)))
  }

  /** The map name, width, height, map set and dedicated flag. */
  function ReadMap(s: seq<byte>): Option<(MapInfo, seq<byte>)>
  {
    var (name, s1) := ReadText(s);
    var (width, s2) := ReadUint(s1, 2);
    var (height, s3) := ReadUint(s2, 2);
    var mapSet :- ReadByte(s3);
    var dedicated :- ReadByte(mapSet.1);
    Some((MapInfo(name, width, height, mapSet.0, dedicated.0), dedicated.1))
  }

  /** The whole reply after its 3-byte header, and what is left unread. */
  function ReadInfo(s: seq<byte>): Option<(GameInfo, seq<byte>)>
  {
    var h :- ReadHead(s);
    var sv :- ReadServer(h.0.version, h.1);
    var m :- ReadMap(sv.1);
    Some((GameInfo(h.0, sv.0, m.0), m.1))
  }

  // ---------------------------------------------------------------------
  // From the fields read to the ServerEntry

  /** One NewGRF as `fmt.Sprintf("ID:%s/MD5:%s; ", ...)` renders it, with
      `render` standing for `GetByteString`. */
  function GrfLine(g: NewGrf, render: seq<byte> -> string): string
  {
    "ID:" + render(g.id) + "/MD5:" + render(g.md5) + "; "
  }

  /** The NewGRF text accumulated before the trim. */
  function GrfLines(grfs: seq<NewGrf>, render: seq<byte> -> string): string
  {
    if grfs == [] then ""
    else GrfLines(grfs[..|grfs| - 1], render) + GrfLine(grfs[|grfs| - 1], render)
  }

  /** The characters `strings.Trim(_, " ;")` cuts. */
  const SEPARATOR: set<char> := {' ', ';'}

  /** The `active-newgrfs` value. */
  function GrfSummary(grfs: seq<NewGrf>, render: seq<byte> -> string): string
  {
    Trim(GrfLines(grfs, render), SEPARATOR)
  }

  /** The first five `rules` keys, from the version-gated head. */
  function FillHead(version: string, grfNum: string, grfs: string, current: string, start: string)
    : map<string, string>
  {
    map[]["protocol-version" := version]
      ["active-newgrfs-num" := grfNum]
      ["active-newgrfs" := grfs]
      ["time-current" := current]
      ["time-start" := start]
  }

  /** The three counter keys, added only when the counters were read. */
  function FillCounters(counters: Option<(string, string, string)>, base: map<string, string>)
    : map<string, string>
  {
    match counters
    case None => base
    case Some((max, current, spectators)) =>
      base["max-companies" := max]["current-companies" := current]["max-spectators" := spectators]
  }

  /** The ten server and map keys. */
  function FillServer(name: string, version: string, language: string, pass: string, maxClients: string,
                      clients: string, spectators: string, mapName: string, mapSet: string, dedicated: string,
                      base: map<string, string>): map<string, string>
  {
    base["server-name" := name]
      ["server-version" := version]
      ["language-id" := language]
      ["need-pass" := pass]
      ["max-clients" := maxClients]
      ["current-clients" := clients]
      ["current-spectators" := spectators]
      ["map-name" := mapName]
      ["map-set" := mapSet]
      ["dedicated" := dedicated]
  }

  /** The counters as `fmt.Sprint` renders them, when they were read. */
  function CounterTexts(companies: Option<Companies>): Option<(string, string, string)>
  {
    match companies
    case None => None
    case Some(c) => Some((Decimal(c.max), Decimal(c.current), Decimal(c.maxSpectators)))
  }

  /** The `rules` map, filled one key at a time in the decoder's order: the
      five head keys, the three counters when they were read, then the ten
      server and map keys. */
  function Rules(info: GameInfo, render: seq<byte> -> string): map<string, string>
  {
    var h, sv, m := info.head, info.server, info.mapInfo;
    FillServer(
      ByteText(sv.name), ByteText(sv.version), Decimal(sv.languageId), BoolText(sv.passwordFlag != 0),
      Decimal(sv.maxClients), Decimal(sv.currentClients), Decimal(sv.currentSpectators),
      ByteText(m.name), Decimal(m.mapSet), Decimal(m.dedicated),
      FillCounters(CounterTexts(h.companies),
        FillHead(Decimal(h.version), Decimal(h.grfCount), GrfSummary(h.grfs, render),
                 Decimal(h.timeCurrent), Decimal(h.timeStart))))
  }

  /** The `ServerEntry` built from the fields read. */
  function Assemble(info: GameInfo, render: seq<byte> -> string): ServerEntry
  {
    ServerEntry(
      ByteText(info.server.name),
      info.server.maxClients,
      info.server.currentClients,
      info.server.passwordFlag != 0,
      ByteText(info.mapInfo.name),
      Rules(info, render),
      [])
  }

  /** The decoder's specification: slicing off the header panics below 3
      bytes, a panicking read anywhere panics, and otherwise the entry is
      assembled from the fields read (trailing bytes are ignored). */
  function Decode(p: seq<byte>, render: seq<byte> -> string): Outcome<ServerEntry>
  {
    if |p| < 3 then Panicked
    else
      match ReadInfo(p[3..])
      case None => Panicked
      case Some((info, _)) => Returned(Assemble(info, render))
  }

  /** `Decode` once `ReadInfo` has succeeded. */
  lemma DecodeRead(p: seq<byte>, render: seq<byte> -> string, info: GameInfo, rest: seq<byte>)
    requires |p| >= 3 && ReadInfo(p[3..]) == Some((info, rest))
    ensures Decode(p, render) == Returned(Assemble(info, render))
  {
  }

  /** `Decode` once `ReadInfo` has panicked. */
  lemma DecodeUnread(p: seq<byte>, render: seq<byte> -> string)
    requires |p| >= 3 && ReadInfo(p[3..]).None?
    ensures Decode(p, render) == Panicked
  {
  }

  // ---------------------------------------------------------------------
  // The decoder as the source runs it

  /** `buf.Next(1)[0]`; `None` stands for the index panic on an exhausted buffer. */
  method NextFirst(buf: Buffer) returns (b: Option<byte>)
    requires buf.Valid()
    modifies buf
    ensures buf.Valid()
    ensures b.None? <==> ReadByte(old(buf.Unread())).None?
    ensures b.Some? ==> ReadByte(old(buf.Unread())) == Some((b.value, buf.Unread()))
  {
    var data := buf.Next(1);
    if |data| == 0 {
      return None;
    }
    b := Some(data[0]);
  }

  /** `buf.ReadBytes(0)` with its error dropped, then `bytes.Trim(_, "\x00")`. */
  method NextText(buf: Buffer) returns (text: seq<byte>)
    requires buf.Valid()
    modifies buf
    ensures buf.Valid()
    ensures ReadText(old(buf.Unread())) == (text, buf.Unread())
  {
    ghost var before := buf.Unread();
    var line, _ := buf.ReadBytes(0);
    ReadBytesIsLine(before, line, buf.Unread(), 0 !in before, 0);
    text := Trim(line, {0});
  }

  /** `binary.Read(bytes.NewReader(buf.Next(width)), binary.BigEndian, &x)`
      with its error dropped. */
  method NextUint(buf: Buffer, width: nat) returns (x: nat)
    requires buf.Valid()
    modifies buf
    ensures buf.Valid()
    ensures ReadUint(old(buf.Unread()), width) == (x, buf.Unread())
  {
    ghost var before := buf.Unread();
    var data := buf.Next(width);
    NextIsTake(before, data, buf.Unread(), width);
    x := BinaryRead(data, width);
  }

  /** The loop over the NewGRF count: `count` entries, each rendered with
      `ID:%s/MD5:%s; ` and appended to the text accumulated so far. */
  method NewGrfLoop(infoData: Buffer, count: byte, render: seq<byte> -> string)
    returns (activeNewGRFsInfo: string, ghost grfs: seq<NewGrf>)
    requires infoData.Valid()
    modifies infoData
    ensures infoData.Valid()
    ensures ReadGrfs(count, old(infoData.Unread())) == (grfs, infoData.Unread())
    ensures activeNewGRFsInfo == GrfLines(grfs, render)
  {
    activeNewGRFsInfo := "";
    grfs := [];
    ghost var start := infoData.Unread();
    var n := 0;
    while n < count
      invariant infoData.Valid()
      invariant 0 <= n <= count
      invariant ReadGrfs(n, start) == (grfs, infoData.Unread())
      invariant activeNewGRFsInfo == GrfLines(grfs, render)
    {
      ghost var before := infoData.Unread();
      var newGrfId := infoData.Next(4);
      NextIsTake(before, newGrfId, infoData.Unread(), 4);
      ghost var middle := infoData.Unread();
      var newGrfMd5 := infoData.Next(16);
      NextIsTake(middle, newGrfMd5, infoData.Unread(), 16);
      activeNewGRFsInfo := activeNewGRFsInfo + ("ID:" + render(newGrfId) + "/MD5:" + render(newGrfMd5) + "; ");
      grfs := grfs + [NewGrf(newGrfId, newGrfMd5)];
      n := n + 1;
    }
  }

  /** The NewGRF block: from version 4 on, the NewGRF count byte and that many
      entries, the accumulated text trimmed of `" ;"`. Returns the count and
      the summary (0 and "" below version 4). */
  method NewGrfBlock(infoData: Buffer, protocolVer: byte, render: seq<byte> -> string)
    returns (r: Outcome<(byte, string)>, ghost grfs: seq<NewGrf>)
    requires infoData.Valid()
    modifies infoData
    ensures infoData.Valid()
    ensures r.Panicked? <==> ReadGrfSection(protocolVer, old(infoData.Unread())).None?
    ensures r.Returned? ==>
      ReadGrfSection(protocolVer, old(infoData.Unread())) == Some((r.value.0, grfs, infoData.Unread())) &&
      r.value.1 == GrfSummary(grfs, render)
  {
    var activeNewGRFsNum: byte := 0;
    var activeNewGRFsInfo := "";
    grfs := [];
    if protocolVer >= 4 {
      var b := NextFirst(infoData);
      if b.None? {
        return Panicked, [];
      }
      activeNewGRFsNum := b.value;
      activeNewGRFsInfo, grfs := NewGrfLoop(infoData, activeNewGRFsNum, render);
      activeNewGRFsInfo := Trim(activeNewGRFsInfo, SEPARATOR);
    }
    r := Returned((activeNewGRFsNum, activeNewGRFsInfo));
  }

  /** The dates block: from version 3 on, two big-endian `uint32` dates; both stay
      0 before. */
  method DatesBlock(infoData: Buffer, protocolVer: byte) returns (timeCurrent: nat, timeStart: nat)
    requires infoData.Valid()
    modifies infoData
    ensures infoData.Valid()
    ensures ReadDates(protocolVer, old(infoData.Unread())) == (timeCurrent, timeStart, infoData.Unread())
  {
    timeCurrent, timeStart := 0, 0;
    if protocolVer >= 3 {
      timeCurrent := NextUint(infoData, 4);
      timeStart := NextUint(infoData, 4);
    }
  }

  /** The companies block: from version 2 on, the three counters; before, all three
      stay absent (nil). */
  method CompaniesBlock(infoData: Buffer, protocolVer: byte)
    returns (r: Outcome<(Option<byte>, Option<byte>, Option<byte>)>)
    requires infoData.Valid()
    modifies infoData
    ensures infoData.Valid()
    ensures r.Panicked? <==> ReadCompanies(protocolVer, old(infoData.Unread())).None?
    ensures r.Returned? ==>
      var (maxCompanies, currentCompanies, maxSpectators) := r.value;
      (maxCompanies.Some? <==> protocolVer >= 2) &&
      currentCompanies.Some? == maxCompanies.Some? && maxSpectators.Some? == maxCompanies.Some? &&
      ReadCompanies(protocolVer, old(infoData.Unread())) ==
        Some((if maxCompanies.Some?
              then Some(Companies(maxCompanies.value, currentCompanies.value, maxSpectators.value))
              else None,
              infoData.Unread()))
  {
    var maxCompanies: Option<byte> := None;
    var currentCompanies: Option<byte> := None;
    var maxSpectators: Option<byte> := None;
    if protocolVer >= 2 {
      maxCompanies := NextFirst(infoData);
      if maxCompanies.None? {
        return Panicked;
      }
      currentCompanies := NextFirst(infoData);
      if currentCompanies.None? {
        return Panicked;
      }
      maxSpectators := NextFirst(infoData);
      if maxSpectators.None? {
        return Panicked;
      }
    }
    r := Returned((maxCompanies, currentCompanies, maxSpectators));
  }

  /** The head: the version byte and the version-gated fields, left in
      the decoder's own variables; `ok` is false where the source panics.
      `head` is what the specification reads from the same bytes. */
  method HeadBlock(infoData: Buffer, render: seq<byte> -> string)
    returns (ok: bool, protocolVer: byte, activeNewGRFsNum: byte, activeNewGRFsInfo: string,
             timeCurrent: nat, timeStart: nat,
             maxCompanies: Option<byte>, currentCompanies: Option<byte>, maxSpectators: Option<byte>,
             ghost head: Head)
    requires infoData.Valid()
    modifies infoData
    ensures infoData.Valid()
    ensures !ok <==> ReadHead(old(infoData.Unread())).None?
    ensures ok ==>
      ReadHead(old(infoData.Unread())) == Some((head, infoData.Unread())) &&
      head.version == protocolVer && head.grfCount == activeNewGRFsNum &&
      GrfSummary(head.grfs, render) == activeNewGRFsInfo &&
      head.timeCurrent == timeCurrent && head.timeStart == timeStart &&
      currentCompanies.Some? == maxCompanies.Some? && maxSpectators.Some? == maxCompanies.Some? &&
      head.companies ==
        if maxCompanies.Some? then Some(Companies(maxCompanies.value, currentCompanies.value, maxSpectators.value)) else None
  {
    ok, protocolVer, activeNewGRFsNum, activeNewGRFsInfo, timeCurrent, timeStart := false, 0, 0, "", 0, 0;
    maxCompanies, currentCompanies, maxSpectators := None, None, None;
    head := Head(0, 0, [], 0, 0, None);

    var version := NextFirst(infoData);
    if version.None? {
      return;
    }
    protocolVer := version.value;

    var grfBlock, grfs := NewGrfBlock(infoData, protocolVer, render);
    if grfBlock.Panicked? {
      return;
    }
    activeNewGRFsNum, activeNewGRFsInfo := grfBlock.value.0, grfBlock.value.1;

    timeCurrent, timeStart := DatesBlock(infoData, protocolVer);

    var companiesBlock := CompaniesBlock(infoData, protocolVer);
    if companiesBlock.Panicked? {
      return;
    }
    maxCompanies, currentCompanies, maxSpectators := companiesBlock.value.0, companiesBlock.value.1, companiesBlock.value.2;
    ghost var companies :=
      if maxCompanies.Some? then Some(Companies(maxCompanies.value, currentCompanies.value, maxSpectators.value)) else None;
    head := Head(protocolVer, activeNewGRFsNum, grfs, timeCurrent, timeStart, companies);
    ok := true;
  }

  /** The server block: server name and version, the five single-byte fields, and
      the reserved skip below version 3. */
  method ServerBlock(infoData: Buffer, protocolVer: byte) returns (r: Outcome<Server>)
    requires infoData.Valid()
    modifies infoData
    ensures infoData.Valid()
    ensures r.Panicked? <==> ReadServer(protocolVer, old(infoData.Unread())).None?
    ensures r.Returned? ==> ReadServer(protocolVer, old(infoData.Unread())) == Some((r.value, infoData.Unread()))
  {
    var serverName := NextText(infoData);
    var serverVersion := NextText(infoData);
    var languageId := NextFirst(infoData);
    if languageId.None? {
      return Panicked;
    }
    var needPass := NextFirst(infoData);
    if needPass.None? {
      return Panicked;
    }
    var maxClients := NextFirst(infoData);
    if maxClients.None? {
      return Panicked;
    }
    var currentClients := NextFirst(infoData);
    if currentClients.None? {
      return Panicked;
    }
    var currentSpectators := NextFirst(infoData);
    if currentSpectators.None? {
      return Panicked;
    }
    if protocolVer < 3 {
      ghost var before := infoData.Unread();
      var skipped := infoData.Next(2);
      NextIsTake(before, skipped, infoData.Unread(), 2);
      ghost var middle := infoData.Unread();
      skipped := infoData.Next(2);
      NextIsTake(middle, skipped, infoData.Unread(), 2);
    }
    r := Returned(Server(serverName, serverVersion, languageId.value, needPass.value, maxClients.value,
                         currentClients.value, currentSpectators.value));
  }

  /** The map block: map name, width, height, map set and dedicated flag. */
  method MapBlock(infoData: Buffer) returns (r: Outcome<MapInfo>)
    requires infoData.Valid()
    modifies infoData
    ensures infoData.Valid()
    ensures r.Panicked? <==> ReadMap(old(infoData.Unread())).None?
    ensures r.Returned? ==> ReadMap(old(infoData.Unread())) == Some((r.value, infoData.Unread()))
  {
    var mapName := NextText(infoData);
    var mapWidth := NextUint(infoData, 2);
    var mapHeight := NextUint(infoData, 2);
    var mapSet := NextFirst(infoData);
    if mapSet.None? {
      return Panicked;
    }
    var dedicatedServer := NextFirst(infoData);
    if dedicatedServer.None? {
      return Panicked;
    }
    r := Returned(MapInfo(mapName, mapWidth, mapHeight, mapSet.value, dedicatedServer.value));
  }

  /** The `rules` map filled key by key from the values read;
      `info` is what the specification reads from the same bytes. */
  method FillRules(protocolVer: byte, activeNewGRFsNum: byte, activeNewGRFsInfo: string,
                   timeCurrent: nat, timeStart: nat,
                   maxCompanies: Option<byte>, currentCompanies: Option<byte>, maxSpectators: Option<byte>,
                   sv: Server, m: MapInfo, ghost info: GameInfo, render: seq<byte> -> string)
    returns (rules: map<string, string>)
    requires info.head.version == protocolVer && info.head.grfCount == activeNewGRFsNum
    requires GrfSummary(info.head.grfs, render) == activeNewGRFsInfo
    requires info.head.timeCurrent == timeCurrent && info.head.timeStart == timeStart
    requires currentCompanies.Some? == maxCompanies.Some? && maxSpectators.Some? == maxCompanies.Some?
    requires info.head.companies ==
      if maxCompanies.Some? then Some(Companies(maxCompanies.value, currentCompanies.value, maxSpectators.value)) else None
    requires info.server == sv && info.mapInfo == m
    ensures rules == Rules(info, render)
  {
    rules := map[];
    rules := rules["protocol-version" := Decimal(protocolVer)];
    rules := rules["active-newgrfs-num" := Decimal(activeNewGRFsNum)];
    rules := rules["active-newgrfs" := activeNewGRFsInfo];
    rules := rules["time-current" := Decimal(timeCurrent)];
    rules := rules["time-start" := Decimal(timeStart)];
    if maxCompanies.Some? {
      rules := rules["max-companies" := Decimal(maxCompanies.value)];
    }
    if currentCompanies.Some? {
      rules := rules["current-companies" := Decimal(currentCompanies.value)];
    }
    if maxSpectators.Some? {
      rules := rules["max-spectators" := Decimal(maxSpectators.value)];
    }
    var needPass := sv.passwordFlag != 0;
    rules := rules["server-name" := ByteText(sv.name)];
    rules := rules["server-version" := ByteText(sv.version)];
    rules := rules["language-id" := Decimal(sv.languageId)];
    rules := rules["need-pass" := BoolText(needPass)];
    rules := rules["max-clients" := Decimal(sv.maxClients)];
    rules := rules["current-clients" := Decimal(sv.currentClients)];
    rules := rules["current-spectators" := Decimal(sv.currentSpectators)];
    rules := rules["map-name" := ByteText(m.name)];
    rules := rules["map-set" := Decimal(m.mapSet)];
    rules := rules["dedicated" := Decimal(m.dedicated)];
  }

  /** `OPENTTDSparseData`: the cursor decode, block by block, then the rules
      map filled key by key and the entry built from it. A panic is reported as
      `Panicked`. */
  method ParseData(p: seq<byte>, render: seq<byte> -> string) returns (r: Outcome<ServerEntry>)
    ensures r == Decode(p, render)
  {
    if |p| < 3 {
      return Panicked;
    }
    var infoData := new Buffer(p[3..]);
    ghost var s0 := p[3..];

    var ok, protocolVer, activeNewGRFsNum, activeNewGRFsInfo, timeCurrent, timeStart,
        maxCompanies, currentCompanies, maxSpectators, head := HeadBlock(infoData, render);
    if !ok {
      return Panicked;
    }

    var server := ServerBlock(infoData, protocolVer);
    if server.Panicked? {
      return Panicked;
    }

    var mapInfo := MapBlock(infoData);
    if mapInfo.Panicked? {
      return Panicked;
    }
    ghost var info := GameInfo(head, server.value, mapInfo.value);
    assert ReadInfo(s0) == Some((info, infoData.Unread()));
    DecodeRead(p, render, info, infoData.Unread());

    var sv, m := server.value, mapInfo.value;
    var rules := FillRules(protocolVer, activeNewGRFsNum, activeNewGRFsInfo, timeCurrent, timeStart,
                           maxCompanies, currentCompanies, maxSpectators, sv, m, info, render);
    var needPass := sv.passwordFlag != 0;
    r := Returned(ServerEntry(ByteText(sv.name), sv.maxClients, sv.currentClients, needPass, ByteText(m.name), rules, []));
  }

  /** `OPENTTDSparsePacket`: the decoder behind a recover. A panic becomes a
      fresh `MakeServerEntry()` and `MalformedPacket`, never a partial entry.
      `protocolInfo` is not consulted. */
  method ParsePacket(packet: Packet, protocolInfo: map<string, string>, render: seq<byte> -> string)
    returns (entry: ServerEntry, err: Option<Error>)
    ensures err.None? <==> Decode(packet.data, render).Returned?
    ensures err.None? ==> entry == Decode(packet.data, render).value
    ensures err.Some? ==> err == Some(MalformedPacket) && entry == MakeServerEntry()
  {
    var r := ParseData(packet.data, render);
    match r
    case Returned(e) =>
      entry, err := e, None;
    case Panicked =>
      entry, err := MakeServerEntry(), Some(MalformedPacket);
  }
}
