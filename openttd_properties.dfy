/** What the OpenTTD decoder promises, stated over its specification
    `Decode` / `ReadInfo` and the readers it is built from. */
module OpenTTDProperties {
  import opened GoBytes
  import opened GoStrings
  import opened Models
  import opened OpenTTD

  /** The keys every successful decode fills. */
  const HEAD_KEYS: set<string> :=
    {"protocol-version", "active-newgrfs-num", "active-newgrfs", "time-current", "time-start"}
  const SERVER_KEYS: set<string> :=
    {"server-name", "server-version", "language-id", "need-pass", "max-clients", "current-clients",
     "current-spectators", "map-name", "map-set", "dedicated"}
  /** The keys present only when the counters were read. */
  const COUNTER_KEYS: set<string> := {"max-companies", "current-companies", "max-spectators"}

  // ---------------------------------------------------------------------
  // The header and the version byte

  /** A payload of at most 3 bytes has no version byte: slicing off the
      header panics below 3 bytes, and `Next(1)[0]` panics at exactly 3. */
  lemma ShortPayloadPanics(p: seq<byte>, render: seq<byte> -> string)
    requires |p| <= 3
    ensures Decode(p, render) == Panicked
  {
    if |p| == 3 {
      assert p[3..] == [];
    }
  }

  /** What the version-gated head looks like, whatever the input: the
      counters are there exactly from version 2 on, the dates are zero below
      version 3, and below version 4 there is no NewGRF section. Reading the
      head takes the version from the first byte. */
  lemma ReadHeadShape(s: seq<byte>)
    requires ReadHead(s).Some?
    ensures var h := ReadHead(s).value.0;
      |s| > 0 && h.version == s[0] &&
      (h.companies.Some? <==> h.version >= 2) &&
      (h.version < 3 ==> h.timeCurrent == 0 && h.timeStart == 0) &&
      (h.version < 4 ==> h.grfCount == 0 && h.grfs == []) &&
      (h.version >= 4 ==> |s| > 1 && h.grfCount == s[1]) &&
      |h.grfs| == h.grfCount
  {
    var v := s[0];
    var g := ReadGrfSection(v, s[1..]).value;
    var d := ReadDates(v, g.2);
    var c := ReadCompanies(v, d.2).value;
    assert ReadHead(s).value.0 == Head(v, g.0, g.1, d.0, d.1, c.0);
    if v >= 4 {
      ReadGrfsCount(s[1], s[2..]);
    }
  }

  /** `ReadGrfs(k, s)` yields `k` entries, whatever is left of `s`. */
  lemma {:induction false} ReadGrfsCount(k: nat, s: seq<byte>)
    ensures |ReadGrfs(k, s).0| == k
  {
    if k > 0 {
      ReadGrfsCount(k - 1, s);
    }
  }

  // ---------------------------------------------------------------------
  // The rules map

  lemma FillHeadValues(version: string, grfNum: string, grfs: string, current: string, start: string)
    ensures var r := FillHead(version, grfNum, grfs, current, start);
      r.Keys == HEAD_KEYS &&
      r["protocol-version"] == version && r["active-newgrfs-num"] == grfNum &&
      r["active-newgrfs"] == grfs && r["time-current"] == current && r["time-start"] == start
  {
  }

  lemma FillCountersValues(counters: Option<(string, string, string)>, base: map<string, string>)
    ensures var r := FillCounters(counters, base);
      r.Keys == base.Keys + (if counters.Some? then COUNTER_KEYS else {}) &&
      (forall k :: k in base && k !in COUNTER_KEYS ==> r[k] == base[k]) &&
      (counters.Some? ==>
        r["max-companies"] == counters.value.0 && r["current-companies"] == counters.value.1 &&
        r["max-spectators"] == counters.value.2)
  {
  }

  lemma FillServerValues(name: string, version: string, language: string, pass: string, maxClients: string,
                         clients: string, spectators: string, mapName: string, mapSet: string, dedicated: string,
                         base: map<string, string>)
    ensures var r := FillServer(name, version, language, pass, maxClients, clients, spectators,
                                mapName, mapSet, dedicated, base);
      r.Keys == base.Keys + SERVER_KEYS &&
      (forall k :: k in base && k !in SERVER_KEYS ==> r[k] == base[k]) &&
      r["server-name"] == name && r["server-version"] == version && r["language-id"] == language &&
      r["need-pass"] == pass && r["max-clients"] == maxClients && r["current-clients"] == clients &&
      r["current-spectators"] == spectators && r["map-name"] == mapName && r["map-set"] == mapSet &&
      r["dedicated"] == dedicated
  {
  }

  /** The three groups of keys are disjoint. */
  lemma KeyGroupsDisjoint()
    ensures forall k :: k in HEAD_KEYS ==> k !in COUNTER_KEYS && k !in SERVER_KEYS
    ensures forall k :: k in COUNTER_KEYS ==> k !in SERVER_KEYS
  {
  }

  /** The keys of `rules`: the fifteen always, the three counters exactly
      when they were read. */
  lemma RulesKeys(info: GameInfo, render: seq<byte> -> string)
    ensures Rules(info, render).Keys ==
      HEAD_KEYS + SERVER_KEYS + (if info.head.companies.Some? then COUNTER_KEYS else {})
  {
    var h, sv, m := info.head, info.server, info.mapInfo;
    var head := FillHead(Decimal(h.version), Decimal(h.grfCount), GrfSummary(h.grfs, render),
                         Decimal(h.timeCurrent), Decimal(h.timeStart));
    var counted := FillCounters(CounterTexts(h.companies), head);
    FillHeadValues(Decimal(h.version), Decimal(h.grfCount), GrfSummary(h.grfs, render),
                   Decimal(h.timeCurrent), Decimal(h.timeStart));
    FillCountersValues(CounterTexts(h.companies), head);
    FillServerValues(ByteText(sv.name), ByteText(sv.version), Decimal(sv.languageId), BoolText(sv.passwordFlag != 0),
                     Decimal(sv.maxClients), Decimal(sv.currentClients), Decimal(sv.currentSpectators),
                     ByteText(m.name), Decimal(m.mapSet), Decimal(m.dedicated), counted);
  }

  /** The server and map keys hold the server and map fields as read. */
  lemma RulesServerValues(info: GameInfo, render: seq<byte> -> string)
    ensures var rules, sv, m := Rules(info, render), info.server, info.mapInfo;
      SERVER_KEYS <= rules.Keys &&
      rules["server-name"] == ByteText(sv.name) &&
      rules["server-version"] == ByteText(sv.version) &&
      rules["language-id"] == Decimal(sv.languageId) &&
      rules["need-pass"] == BoolText(sv.passwordFlag != 0) &&
      rules["max-clients"] == Decimal(sv.maxClients) &&
      rules["current-clients"] == Decimal(sv.currentClients) &&
      rules["current-spectators"] == Decimal(sv.currentSpectators) &&
      rules["map-name"] == ByteText(m.name) &&
      rules["map-set"] == Decimal(m.mapSet) &&
      rules["dedicated"] == Decimal(m.dedicated)
  {
    var h, sv, m := info.head, info.server, info.mapInfo;
    var counted := FillCounters(CounterTexts(h.companies),
      FillHead(Decimal(h.version), Decimal(h.grfCount), GrfSummary(h.grfs, render),
               Decimal(h.timeCurrent), Decimal(h.timeStart)));
    FillServerValues(ByteText(sv.name), ByteText(sv.version), Decimal(sv.languageId), BoolText(sv.passwordFlag != 0),
                     Decimal(sv.maxClients), Decimal(sv.currentClients), Decimal(sv.currentSpectators),
                     ByteText(m.name), Decimal(m.mapSet), Decimal(m.dedicated), counted);
  }

  /** The head keys hold the version, the NewGRF count and summary and the
      two dates as read. */
  lemma RulesHeadValues(info: GameInfo, render: seq<byte> -> string)
    ensures var rules, h := Rules(info, render), info.head;
      HEAD_KEYS <= rules.Keys &&
      rules["protocol-version"] == Decimal(h.version) &&
      rules["active-newgrfs-num"] == Decimal(h.grfCount) &&
      rules["active-newgrfs"] == GrfSummary(h.grfs, render) &&
      rules["time-current"] == Decimal(h.timeCurrent) &&
      rules["time-start"] == Decimal(h.timeStart)
  {
    var h, sv, m := info.head, info.server, info.mapInfo;
    var head := FillHead(Decimal(h.version), Decimal(h.grfCount), GrfSummary(h.grfs, render),
                         Decimal(h.timeCurrent), Decimal(h.timeStart));
    var counted := FillCounters(CounterTexts(h.companies), head);
    FillHeadValues(Decimal(h.version), Decimal(h.grfCount), GrfSummary(h.grfs, render),
                   Decimal(h.timeCurrent), Decimal(h.timeStart));
    FillCountersValues(CounterTexts(h.companies), head);
    FillServerValues(ByteText(sv.name), ByteText(sv.version), Decimal(sv.languageId), BoolText(sv.passwordFlag != 0),
                     Decimal(sv.maxClients), Decimal(sv.currentClients), Decimal(sv.currentSpectators),
                     ByteText(m.name), Decimal(m.mapSet), Decimal(m.dedicated), counted);
    KeyGroupsDisjoint();
  }

  /** When the counters were read, their keys hold them. */
  lemma RulesCounterValues(info: GameInfo, render: seq<byte> -> string)
    requires info.head.companies.Some?
    ensures var rules, c := Rules(info, render), info.head.companies.value;
      COUNTER_KEYS <= rules.Keys &&
      rules["max-companies"] == Decimal(c.max) &&
      rules["current-companies"] == Decimal(c.current) &&
      rules["max-spectators"] == Decimal(c.maxSpectators)
  {
    var h, sv, m := info.head, info.server, info.mapInfo;
    var head := FillHead(Decimal(h.version), Decimal(h.grfCount), GrfSummary(h.grfs, render),
                         Decimal(h.timeCurrent), Decimal(h.timeStart));
    var counted := FillCounters(CounterTexts(h.companies), head);
    FillCountersValues(CounterTexts(h.companies), head);
    FillServerValues(ByteText(sv.name), ByteText(sv.version), Decimal(sv.languageId), BoolText(sv.passwordFlag != 0),
                     Decimal(sv.maxClients), Decimal(sv.currentClients), Decimal(sv.currentSpectators),
                     ByteText(m.name), Decimal(m.mapSet), Decimal(m.dedicated), counted);
    KeyGroupsDisjoint();
  }

  /** The head of a successful `ReadInfo` is what `ReadHead` reads. */
  lemma ReadInfoHead(s: seq<byte>)
    requires ReadInfo(s).Some?
    ensures ReadHead(s).Some? && ReadInfo(s).value.0.head == ReadHead(s).value.0
  {
  }

  /** Which keys a successful decode fills, stated on the payload: the
      counter keys are present exactly when the byte at offset 3, the
      version, is at least 2. */
  lemma DecodeKeys(p: seq<byte>, render: seq<byte> -> string)
    requires Decode(p, render).Returned?
    ensures |p| > 3
    ensures Decode(p, render).value.rules.Keys ==
      HEAD_KEYS + SERVER_KEYS + (if p[3] >= 2 then COUNTER_KEYS else {})
  {
    DecodedPayloadIsLong(p, render);
    var info := ReadInfo(p[3..]).value.0;
    ReadInfoHead(p[3..]);
    ReadHeadShape(p[3..]);
    RulesKeys(info, render);
  }

  /** The version-gated values of a successful decode, stated on the
      payload: the version is the byte at offset 3, the dates read "0"
      below version 3, the NewGRF fields read "0" and "" below version 4,
      and from version 4 on the NewGRF count is the byte at offset 4. */
  lemma DecodeVersionGates(p: seq<byte>, render: seq<byte> -> string)
    requires Decode(p, render).Returned?
    ensures |p| > 3
    ensures var rules := Decode(p, render).value.rules;
      rules.Keys >= HEAD_KEYS &&
      rules["protocol-version"] == Decimal(p[3]) &&
      (p[3] < 3 ==> rules["time-current"] == "0" && rules["time-start"] == "0") &&
      (p[3] < 4 ==> rules["active-newgrfs-num"] == "0" && rules["active-newgrfs"] == "") &&
      (p[3] >= 4 ==> |p| > 4 && rules["active-newgrfs-num"] == Decimal(p[4]))
  {
    DecodedPayloadIsLong(p, render);
    var info := ReadInfo(p[3..]).value.0;
    ReadInfoHead(p[3..]);
    ReadHeadShape(p[3..]);
    RulesHeadValues(info, render);
    if p[3] >= 4 {
      assert p[3..][1] == p[4];
    } else {
      GrfSummaryShape([], render);
    }
  }

  lemma DecodedPayloadIsLong(p: seq<byte>, render: seq<byte> -> string)
    requires Decode(p, render).Returned?
    ensures |p| > 3 && ReadInfo(p[3..]).Some?
    ensures Decode(p, render).value == Assemble(ReadInfo(p[3..]).value.0, render)
  {
    if |p| <= 3 {
      ShortPayloadPanics(p, render);
    }
  }

  /** The typed fields of a decoded entry agree with its rules map: `Name` is
      the server name, `Terrain` the map name, `MaxClients` and `NumClients`
      the client counters, `NeedPass` the password flag; `Players` is empty. */
  lemma DecodedEntryAgrees(p: seq<byte>, render: seq<byte> -> string)
    requires Decode(p, render).Returned?
    ensures var e := Decode(p, render).value;
      e.name == e.rules["server-name"] && e.terrain == e.rules["map-name"] &&
      e.rules["max-clients"] == Decimal(e.maxClients) &&
      e.rules["current-clients"] == Decimal(e.numClients) &&
      e.rules["need-pass"] == BoolText(e.needPass) &&
      e.players == []
  {
    DecodedPayloadIsLong(p, render);
    RulesServerValues(ReadInfo(p[3..]).value.0, render);
  }

  /** `need-pass` and `NeedPass` are true exactly when the password byte read
      is nonzero. */
  lemma NeedPassIffNonzero(p: seq<byte>, render: seq<byte> -> string)
    requires |p| >= 3 && ReadInfo(p[3..]).Some?
    ensures Decode(p, render).Returned?
    ensures var e, info := Decode(p, render).value, ReadInfo(p[3..]).value.0;
      (e.needPass <==> info.server.passwordFlag != 0) &&
      e.rules["need-pass"] == (if info.server.passwordFlag != 0 then "true" else "false")
  {
    var (info, rest) := ReadInfo(p[3..]).value;
    DecodeRead(p, render, info, rest);
    RulesServerValues(info, render);
  }

  // ---------------------------------------------------------------------
  // The field readers

  /** The entry read at offset `j` of a buffer with 20 bytes there. */
  lemma ReadGrfAt(s: seq<byte>, j: nat)
    requires |s| >= j + 20
    ensures var rest := s[j..];
      Take(rest, 4) == s[j..j + 4] && Take(Drop(rest, 4), 16) == s[j + 4..j + 20] &&
      Drop(Drop(rest, 4), 16) == s[j + 20..]
  {
    var rest := s[j..];
    assert Drop(rest, 4) == s[j + 4..];
  }

  /** Each NewGRF entry takes exactly 4 + 16 bytes: with enough input, entry
      `i` is the id at `20 * i` and the MD5 right after it, and the reader
      leaves everything past `20 * k`. */
  lemma {:induction false} ReadGrfsLayout(k: nat, s: seq<byte>)
    requires |s| >= 20 * k
    ensures var (grfs, rest) := ReadGrfs(k, s);
      |grfs| == k && rest == s[20 * k..] &&
      forall i :: 0 <= i < k ==> grfs[i] == NewGrf(s[20 * i..20 * i + 4], s[20 * i + 4..20 * i + 20])
  {
    if k > 0 {
      ReadGrfsLayout(k - 1, s);
      var (grfs, rest) := ReadGrfs(k - 1, s);
      ReadGrfAt(s, 20 * (k - 1));
      var g := NewGrf(s[20 * (k - 1)..20 * (k - 1) + 4], s[20 * (k - 1) + 4..20 * (k - 1) + 20]);
      assert ReadGrfs(k, s) == (grfs + [g], s[20 * k..]);
    }
  }


  /** From version 3 on the dates are the two big-endian words that follow. */
  lemma ReadDatesLayout(v: byte, s: seq<byte>)
    requires v >= 3 && |s| >= 8
    ensures ReadDates(v, s) == (BigEndian(s[..4]), BigEndian(s[4..8]), s[8..])
  {
    assert Take(s, 4) == s[..4] && Take(s, 4)[..4] == s[..4];
    assert Take(Drop(s, 4), 4)[..4] == s[4..8];
    assert Take(Drop(s, 4), 4) == s[4..8];
    assert Drop(Drop(s, 4), 4) == s[8..];
  }

  /** Below version 3 no date is read: nothing is consumed and both are 0. */
  lemma ReadDatesAbsent(v: byte, s: seq<byte>)
    requires v < 3
    ensures ReadDates(v, s) == (0, 0, s)
  {
  }

  /** The reserved fields: four bytes are skipped exactly when the version
      is below 3. */
  lemma SkipReservedIffOld(v: byte, s: seq<byte>)
    requires |s| >= 4
    ensures SkipReserved(v, s) == s[4..] <==> v < 3
    ensures v >= 3 ==> SkipReserved(v, s) == s
  {
    if v >= 3 {
      assert |SkipReserved(v, s)| != |s[4..]|;
    }
  }

  /** A text field is read up to and including its first NUL; the NUL is
      trimmed away and the reader resumes right after it. */
  lemma ReadTextTerminated(t: seq<byte>, rest: seq<byte>)
    requires 0 !in t
    ensures ReadText(t + [0] + rest) == (t, rest)
  {
    var s := t + [0] + rest;
    assert s[..|t|] == t;
    IndexByteIsFirst(s, 0, |t|);
    assert s[..|t| + 1] == t + [0];
    assert s[|t| + 1..] == rest;
    TrimTerminated(t, 0, {0});
  }

  /** With no NUL left, the field is the rest of the input (the `io.EOF` of
      `ReadBytes` is ignored). */
  lemma ReadTextUnterminated(t: seq<byte>)
    requires 0 !in t
    ensures ReadText(t) == (t, [])
  {
    assert IndexByte(t, 0) == -1;
    assert t[..|t|] == t;
    if |t| > 0 {
      assert t[0] in t && t[|t| - 1] in t;
      assert TrimLeft(t, {0}) == t;
      assert TrimRight(t, {0}) == t;
    }
    assert LineLength(t, 0) == |t|;
    assert Trim(t, {0}) == t;
    assert t[|t|..] == [];
    assert ReadText(t) == (Trim(t[..|t|], {0}), t[|t|..]);
  }

  /** `"Test Server"` as bytes. */
  const TEST_SERVER: seq<byte> := [84, 101, 115, 116, 32, 83, 101, 114, 118, 101, 114]

  /** `"Test Server\x00"` reads as the bytes of `"Test Server"`. */
  lemma TestServerExample(rest: seq<byte>)
    ensures ReadText(TEST_SERVER + [0] + rest) == (TEST_SERVER, rest)
  {
    ReadTextTerminated(TEST_SERVER, rest);
  }

  /** Those bytes are the text "Test Server". */
  lemma TestServerText()
    ensures ByteText(TEST_SERVER) == "Test Server"
  {
  }


  // ---------------------------------------------------------------------
  // The NewGRF summary

  /** The accumulated NewGRF text starts with the first entry's `ID:`. */
  lemma {:induction false} GrfLinesStart(grfs: seq<NewGrf>, render: seq<byte> -> string)
    requires grfs != []
    ensures |GrfLines(grfs, render)| >= 3 && GrfLines(grfs, render)[..3] == "ID:"
  {
    var init := grfs[..|grfs| - 1];
    if init == [] {
      assert GrfLines(grfs, render) == GrfLine(grfs[0], render);
    } else {
      GrfLinesStart(init, render);
      assert GrfLines(grfs, render)[..3] == GrfLines(init, render)[..3];
    }
  }

  /** The summary is empty exactly when there are no NewGRF entries, and it
      neither starts nor ends with a space or a semicolon. */
  lemma GrfSummaryShape(grfs: seq<NewGrf>, render: seq<byte> -> string)
    ensures GrfSummary(grfs, render) == "" <==> grfs == []
    ensures var g := GrfSummary(grfs, render);
      |g| > 0 ==> g[0] !in SEPARATOR && g[|g| - 1] !in SEPARATOR
  {
    var i := TrimKeepsMiddle(GrfLines(grfs, render), SEPARATOR);
    if grfs != [] {
      GrfLinesStart(grfs, render);
      var lines := GrfLines(grfs, render);
      assert lines[0] == 'I';
      assert TrimLeft(lines, SEPARATOR) == lines;
      assert lines[..3] == "ID:";
      assert lines[2] == ':';
      assert TrimRight(lines, SEPARATOR) != [] by {
        var r := TrimRight(lines, SEPARATOR);
        assert forall k :: |r| <= k < |lines| ==> lines[k] in SEPARATOR;
      }
    }
  }

  /** Trimming `" ;"` from a text that ends in `"; "` and whose last
      character before that is neither leaves exactly the text before it. */
  lemma TrimFinalSeparator(body: string)
    requires |body| > 0 && body[0] !in SEPARATOR && body[|body| - 1] !in SEPARATOR
    ensures Trim(body + "; ", SEPARATOR) == body
  {
    var lines := body + "; ";
    assert TrimLeft(lines, SEPARATOR) == lines;
    assert lines[..|lines| - 1] == body + ";";
    assert (body + ";")[..|body|] == body;
    assert TrimRight(body + ";", SEPARATOR) == TrimRight(body, SEPARATOR);
  }

  /** The trim removes exactly the final `"; "` when the last MD5's text does
      not itself end in a space or a semicolon: the summary is the entries
      joined by `"; "`. */
  lemma GrfSummaryDropsFinalSeparator(grfs: seq<NewGrf>, render: seq<byte> -> string)
    requires grfs != []
    requires var md5 := render(grfs[|grfs| - 1].md5); md5 == [] || md5[|md5| - 1] !in SEPARATOR
    ensures var lines := GrfLines(grfs, render);
      |lines| >= 2 && GrfSummary(grfs, render) == lines[..|lines| - 2]
  {
    var lines := GrfLines(grfs, render);
    GrfLinesStart(grfs, render);
    var last := grfs[|grfs| - 1];
    var body := GrfLines(grfs[..|grfs| - 1], render) + "ID:" + render(last.id) + "/MD5:" + render(last.md5);
    assert lines == body + "; ";
    assert body[0] == lines[0] == 'I';
    TrimFinalSeparator(body);
    assert lines[..|lines| - 2] == body;
  }
}
