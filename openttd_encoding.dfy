/** The writer's side of the OpenTTD server-info reply, used to state what
    the decoder does with a correctly shaped payload: it reads back every
    field (a round trip), and it panics on every strict prefix of one. */
module OpenTTDEncoding {
  import opened GoBytes
  import opened GoStrings
  import opened Models
  import opened OpenTTD
  import opened OpenTTDProperties

  // ---------------------------------------------------------------------
  // Correctly shaped replies

  /** A NewGRF entry of full width: a 4-byte id and a 16-byte MD5. */
  predicate FullGrf(g: NewGrf)
  {
    |g.id| == 4 && |g.md5| == 16
  }

  /** A head the wire format can carry at its version. */
  predicate WellFormedHead(h: Head)
  {
    |h.grfs| == h.grfCount &&
    (forall i :: 0 <= i < |h.grfs| ==> FullGrf(h.grfs[i])) &&
    (h.version < 4 ==> h.grfCount == 0) &&
    (h.version < 3 ==> h.timeCurrent == 0 && h.timeStart == 0) &&
    h.timeCurrent < Pow256(4) && h.timeStart < Pow256(4) &&
    (h.companies.Some? <==> h.version >= 2)
  }

  /** A reply the wire format can carry: a well-formed head, text fields
      without NUL bytes, and map sizes that fit 16 bits. */
  predicate WellFormed(info: GameInfo)
  {
    WellFormedHead(info.head) &&
    0 !in info.server.name && 0 !in info.server.version && 0 !in info.mapInfo.name &&
    info.mapInfo.width < Pow256(2) && info.mapInfo.height < Pow256(2)
  }

  // ---------------------------------------------------------------------
  // The encoder

  function GrfBytes(grfs: seq<NewGrf>): seq<byte>
  {
    if grfs == [] then []
    else GrfBytes(grfs[..|grfs| - 1]) + grfs[|grfs| - 1].id + grfs[|grfs| - 1].md5
  }

  function EncodeHead(h: Head): seq<byte>
  {
    [h.version]
    + (if h.version >= 4 then [h.grfCount] + GrfBytes(h.grfs) else [])
    + (if h.version >= 3 then BigEndianBytes(h.timeCurrent, 4) + BigEndianBytes(h.timeStart, 4) else [])
    + (match h.companies case None => [] case Some(c) => [c.max, c.current, c.maxSpectators])
  }

  /** The server fields; the reserved bytes of versions below 3 are written
      as zeros (the decoder skips them whatever they hold). */
  function EncodeServer(v: byte, sv: Server): seq<byte>
  {
    sv.name + [0] + sv.version + [0]
    + [sv.languageId, sv.passwordFlag, sv.maxClients, sv.currentClients, sv.currentSpectators]
    + (if v < 3 then [0, 0, 0, 0] else [])
  }

  function EncodeMap(m: MapInfo): seq<byte>
  {
    m.name + [0] + BigEndianBytes(m.width, 2) + BigEndianBytes(m.height, 2) + [m.mapSet, m.dedicated]
  }

  /** The reply after its 3-byte header. */
  function Encode(info: GameInfo): seq<byte>
  {
    EncodeHead(info.head) + EncodeServer(info.head.version, info.server) + EncodeMap(info.mapInfo)
  }

  // ---------------------------------------------------------------------
  // Round trip

  /** `Next(n)` from a buffer that starts with at least `n` known bytes. */
  lemma DropPrefix(a: seq<byte>, b: seq<byte>, n: nat)
    requires n <= |a|
    ensures Drop(a + b, n) == a[n..] + b
  {
  }

  lemma ReadUintEncoded(n: nat, width: nat, rest: seq<byte>)
    requires n < Pow256(width)
    ensures ReadUint(BigEndianBytes(n, width) + rest, width) == (n, rest)
  {
    var b := BigEndianBytes(n, width);
    assert Take(b + rest, width) == b;
    assert Take(b + rest, width)[..width] == b;
    assert Drop(b + rest, width) == rest;
    BigEndianRoundTrip(n, width);
  }

  /** One encoded NewGRF entry is read back by the two `Next` calls. */
  lemma ReadOneGrf(g: NewGrf, rest: seq<byte>)
    requires FullGrf(g)
    ensures var after := g.id + g.md5 + rest;
      Take(after, 4) == g.id && Take(Drop(after, 4), 16) == g.md5 && Drop(Drop(after, 4), 16) == rest
  {
    var after := g.id + g.md5 + rest;
    assert after[..4] == g.id;
    assert Drop(after, 4) == g.md5 + rest;
    assert (g.md5 + rest)[..16] == g.md5;
  }

  lemma {:induction false} ReadGrfsEncoded(grfs: seq<NewGrf>, rest: seq<byte>)
    requires forall i :: 0 <= i < |grfs| ==> FullGrf(grfs[i])
    ensures ReadGrfs(|grfs|, GrfBytes(grfs) + rest) == (grfs, rest)
  {
    if grfs != [] {
      var init, last := grfs[..|grfs| - 1], grfs[|grfs| - 1];
      var after := last.id + last.md5 + rest;
      assert GrfBytes(grfs) + rest == GrfBytes(init) + after;
      ReadGrfsEncoded(init, after);
      ReadOneGrf(last, rest);
      assert init + [last] == grfs;
    } else {
      assert GrfBytes(grfs) + rest == rest;
    }
  }

  lemma ReadGrfSectionEncoded(h: Head, rest: seq<byte>)
    requires WellFormedHead(h)
    ensures var part := if h.version >= 4 then [h.grfCount] + GrfBytes(h.grfs) else [];
      ReadGrfSection(h.version, part + rest) == Some((h.grfCount, h.grfs, rest))
  {
    if h.version >= 4 {
      assert [h.grfCount] + GrfBytes(h.grfs) + rest == [h.grfCount] + (GrfBytes(h.grfs) + rest);
      ReadGrfsEncoded(h.grfs, rest);
    } else {
      assert [] + rest == rest;
    }
  }

  lemma ReadDatesEncoded(h: Head, rest: seq<byte>)
    requires WellFormedHead(h)
    ensures var part := if h.version >= 3 then BigEndianBytes(h.timeCurrent, 4) + BigEndianBytes(h.timeStart, 4) else [];
      ReadDates(h.version, part + rest) == (h.timeCurrent, h.timeStart, rest)
  {
    if h.version >= 3 {
      var current := BigEndianBytes(h.timeCurrent, 4);
      var start := BigEndianBytes(h.timeStart, 4);
      assert current + start + rest == current + (start + rest);
      ReadUintEncoded(h.timeCurrent, 4, start + rest);
      ReadUintEncoded(h.timeStart, 4, rest);
    } else {
      assert [] + rest == rest;
    }
  }

  lemma ReadCompaniesEncoded(h: Head, rest: seq<byte>)
    requires WellFormedHead(h)
    ensures var part := match h.companies case None => [] case Some(c) => [c.max, c.current, c.maxSpectators];
      ReadCompanies(h.version, part + rest) == Some((h.companies, rest))
  {
    match h.companies
    case None =>
      assert [] + rest == rest;
    case Some(c) =>
      assert [c.max, c.current, c.maxSpectators] + rest == [c.max] + ([c.current] + ([c.maxSpectators] + rest));
  }

  lemma ReadHeadEncoded(h: Head, rest: seq<byte>)
    requires WellFormedHead(h)
    ensures ReadHead(EncodeHead(h) + rest) == Some((h, rest))
  {
    var v := h.version;
    var grfPart := if v >= 4 then [h.grfCount] + GrfBytes(h.grfs) else [];
    var datePart := if v >= 3 then BigEndianBytes(h.timeCurrent, 4) + BigEndianBytes(h.timeStart, 4) else [];
    var counterPart := match h.companies case None => [] case Some(c) => [c.max, c.current, c.maxSpectators];
    var s3 := counterPart + rest;
    var s2 := datePart + s3;
    var s1 := grfPart + s2;
    assert EncodeHead(h) + rest == [v] + s1;
    ReadGrfSectionEncoded(h, s2);
    ReadDatesEncoded(h, s3);
    ReadCompaniesEncoded(h, rest);
  }

  /** `ReadServer` once its two text fields are known and five bytes follow. */
  lemma ReadServerSteps(v: byte, s: seq<byte>, name: seq<byte>, version: seq<byte>, s1: seq<byte>, s2: seq<byte>)
    requires ReadText(s) == (name, s1) && ReadText(s1) == (version, s2) && |s2| >= 5
    ensures ReadServer(v, s) == Some((Server(name, version, s2[0], s2[1], s2[2], s2[3], s2[4]), SkipReserved(v, s2[5..])))
  {
    assert s2[1..][1..][1..][1..][1..] == s2[5..];
  }

  lemma ReadServerEncoded(v: byte, sv: Server, rest: seq<byte>)
    requires 0 !in sv.name && 0 !in sv.version
    ensures ReadServer(v, EncodeServer(v, sv) + rest) == Some((sv, rest))
  {
    var reserved: seq<byte> := if v < 3 then [0, 0, 0, 0] else [];
    var s3 := reserved + rest;
    var five := [sv.languageId, sv.passwordFlag, sv.maxClients, sv.currentClients, sv.currentSpectators];
    var s2 := five + s3;
    var s1 := sv.version + [0] + s2;
    assert EncodeServer(v, sv) + rest == sv.name + [0] + s1;
    ReadTextTerminated(sv.name, s1);
    ReadTextTerminated(sv.version, s2);
    ReadServerSteps(v, EncodeServer(v, sv) + rest, sv.name, sv.version, s1, s2);
    assert s2[5..] == s3;
    if v < 3 {
      DropPrefix([0, 0, 0, 0], rest, 2);
      DropPrefix([0, 0], rest, 2);
    }
    assert SkipReserved(v, s3) == rest;
  }

  lemma ReadMapEncoded(m: MapInfo, rest: seq<byte>)
    requires 0 !in m.name && m.width < Pow256(2) && m.height < Pow256(2)
    ensures ReadMap(EncodeMap(m) + rest) == Some((m, rest))
  {
    var tail := [m.mapSet, m.dedicated] + rest;
    var s2 := BigEndianBytes(m.height, 2) + tail;
    var s1 := BigEndianBytes(m.width, 2) + s2;
    assert EncodeMap(m) + rest == m.name + [0] + s1;
    ReadTextTerminated(m.name, s1);
    ReadUintEncoded(m.width, 2, s2);
    ReadUintEncoded(m.height, 2, tail);
  }

  /** A well-formed reply reads back as itself, leaving exactly what
      follows it. */
  lemma ReadInfoEncoded(info: GameInfo, rest: seq<byte>)
    requires WellFormed(info)
    ensures ReadInfo(Encode(info) + rest) == Some((info, rest))
  {
    var h, sv, m := info.head, info.server, info.mapInfo;
    var mapPart := EncodeMap(m) + rest;
    var serverPart := EncodeServer(h.version, sv) + mapPart;
    assert Encode(info) + rest == EncodeHead(h) + serverPart;
    ReadHeadEncoded(h, serverPart);
    ReadServerEncoded(h.version, sv, mapPart);
    ReadMapEncoded(m, rest);
  }

  /** Decoding a well-formed reply behind any 3-byte header succeeds with
      the entry assembled from its fields, whatever trails it. */
  lemma DecodeEncoded(header: seq<byte>, info: GameInfo, rest: seq<byte>, render: seq<byte> -> string)
    requires |header| == 3 && WellFormed(info)
    ensures Decode(header + Encode(info) + rest, render) == Returned(Assemble(info, render))
  {
    var p := header + Encode(info) + rest;
    assert p[3..] == Encode(info) + rest;
    ReadInfoEncoded(info, rest);
    DecodeRead(p, render, info, rest);
  }

  /** Where the password byte sits in an encoded reply. */
  function PasswordOffset(info: GameInfo): nat
  {
    |EncodeHead(info.head)| + |info.server.name| + 1 + |info.server.version| + 1 + 1
  }

  /** The password byte of an encoded reply sits at `PasswordOffset`. */
  lemma PasswordByteAt(info: GameInfo)
    ensures PasswordOffset(info) < |Encode(info)| &&
      Encode(info)[PasswordOffset(info)] == info.server.passwordFlag
  {
    var h, sv := info.head, info.server;
    var pre := EncodeHead(h) + sv.name + [0] + sv.version + [0] + [sv.languageId];
    var post := [sv.passwordFlag, sv.maxClients, sv.currentClients, sv.currentSpectators]
      + (if h.version < 3 then [0, 0, 0, 0] else []) + EncodeMap(info.mapInfo);
    assert Encode(info) == pre + post;
  }

  /** Any nonzero byte at the password position decodes to `NeedPass` and a
      `need-pass` of "true", and 0 to "false". */
  lemma NeedPassFromByte(header: seq<byte>, info: GameInfo, render: seq<byte> -> string)
    requires |header| == 3 && WellFormed(info)
    ensures PasswordOffset(info) < |Encode(info)|
    ensures var r := Decode(header + Encode(info), render);
      r.Returned? &&
      (r.value.needPass <==> Encode(info)[PasswordOffset(info)] != 0) &&
      r.value.rules["need-pass"] == BoolText(Encode(info)[PasswordOffset(info)] != 0)
  {
    PasswordByteAt(info);
    DecodeEncoded(header, info, [], render);
    assert header + Encode(info) + [] == header + Encode(info);
    RulesServerValues(info, render);
  }

  // ---------------------------------------------------------------------
  // A version-2 reply

  /** A version-2 server named "Alpha" (server version "1.0"), 4 client
      slots with 2 taken, a password set, 8 company slots with 3 taken and
      10 spectator slots, on a 256 x 256 unnamed map of a dedicated server. */
  const ALPHA_INFO: GameInfo := GameInfo(
    Head(2, 0, [], 0, 0, Some(Companies(8, 3, 10))),
    Server([65, 108, 112, 104, 97], [49, 46, 48], 0, 1, 4, 2, 0),
    MapInfo([], 256, 256, 0, 1))

  /** The reply on the wire, after its header: the head (version 2 and the
      three company counters), the server block with its four reserved zero
      bytes, and the map block (an empty name, 256 by 256, dedicated). */
  lemma AlphaBytes()
    ensures Encode(ALPHA_INFO) ==
      [2, 8, 3, 10]
      + [65, 108, 112, 104, 97, 0,  49, 46, 48, 0,  0, 1, 4, 2, 0,  0, 0, 0, 0]
      + [0,  1, 0,  1, 0,  0, 1]
  {
    assert EncodeHead(ALPHA_INFO.head) == [2, 8, 3, 10];
    assert EncodeServer(2, ALPHA_INFO.server) == [65, 108, 112, 104, 97, 0,  49, 46, 48, 0,  0, 1, 4, 2, 0,  0, 0, 0, 0];
    assert BigEndianBytes(256, 2) == [1, 0];
    assert EncodeMap(ALPHA_INFO.mapInfo) == [0,  1, 0,  1, 0,  0, 1];
  }

  /** The entry assembled from it has `Name` "Alpha", `MaxClients` 4,
      `NumClients` 2 and `NeedPass` true, and no players. */
  lemma AlphaEntry(render: seq<byte> -> string)
    ensures var e := Assemble(ALPHA_INFO, render);
      e.name == "Alpha" && e.maxClients == 4 && e.numClients == 2 && e.needPass && e.players == []
  {
    assert ByteText([65, 108, 112, 104, 97]) == "Alpha";
  }

  /** Its company counters reach `rules` as "8", "3" and "10". */
  lemma AlphaCounters(render: seq<byte> -> string)
    ensures var rules := Rules(ALPHA_INFO, render);
      "max-companies" in rules && rules["max-companies"] == "8" &&
      "current-companies" in rules && rules["current-companies"] == "3" &&
      "max-spectators" in rules && rules["max-spectators"] == "10"
  {
    RulesCounterValues(ALPHA_INFO, render);
    assert Decimal(8) == "8" && Decimal(3) == "3";
    assert Decimal(10) == "10";
  }

  /** Decoding the version-2 reply behind any header yields that entry. */
  lemma AlphaExample(header: seq<byte>, render: seq<byte> -> string)
    requires |header| == 3
    ensures Decode(header + Encode(ALPHA_INFO), render) == Returned(Assemble(ALPHA_INFO, render))
  {
    assert WellFormed(ALPHA_INFO) by {
      assert Pow256(2) == 65536;
    }
    DecodeEncoded(header, ALPHA_INFO, [], render);
    assert header + Encode(ALPHA_INFO) + [] == header + Encode(ALPHA_INFO);
  }
}
