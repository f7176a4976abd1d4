# grokstat: the OpenTTD server-info codec and the front end's decisions

grokstat queries a game server and prints what it learns as one JSON
response. This project models two of its parts in Dafny and proves
properties of the model.

1. **The OpenTTD server-info decoder** (`OPENTTDSparseData`,
   `OPENTTDSparsePacket`). The decoder walks a `bytes.Buffer` cursor over
   the reply to `PACKET_UDP_SERVER_RESPONSE`:
   - it skips the 3-byte header and reads the game-info version byte;
   - it reads the version-gated sections: the NewGRF list from version 4,
     the two dates from version 3, the company counters from version 2, and
     two reserved 2-byte fields below version 3;
   - it reads the NUL-terminated texts and the single-byte fields;
   - it fills the `rules` map key by key and builds a `ServerEntry`.

   Only two reads can panic: `p[3:]` on a payload shorter than 3 bytes, and
   `Next(1)[0]` on an exhausted buffer. The other reads go on with less:
   `Next(4)`, `Next(16)` and `Next(2)` return short slices, `ReadBytes(0)`
   returns the rest, and `binary.Read` leaves 0. `OPENTTDSparsePacket`
   recovers a panic as `MalformedPacket` and returns a fresh
   `MakeServerEntry()`.
2. **The decision logic of `main.go`**:
   - how `FormJsonResponse` chooses status, message and output;
   - the scheme and default-port rules of `ParseIPAddr`;
   - what `QueryServer` does with a TCP line or a UDP reply once it is read;
   - the order in which `main` loads a configuration, validates its input,
     looks up the protocol, queries, and files the decoded result.

Files and modules:

- `go_bytes.dfy` (`GoBytes`) models the Go byte primitives the decoder
  relies on:
  - `bytes.Buffer.Next` returns at most `n` bytes and never fails;
  - `ReadBytes(0)` reads up to and including the first NUL, or to the end
    of the buffer;
  - `bytes.Trim` / `TrimRight` with a cutset;
  - `binary.Read` of a big-endian unsigned value leaves 0 when too few
    bytes remain.
- `go_strings.dfy` (`GoStrings`) covers:
  - `string(b)`;
  - `fmt.Sprint` of non-negative integers and booleans;
  - `strings.Index`, `strings.Split` and `strings.Join`.
- `models.dfy` (`Models`) defines `ServerEntry`, `MakeServerEntry` and the
  error kinds with their texts.
- `openttd.dfy` (`OpenTTD`) holds both forms of the decoder:
  - a specification of the decoder as readers over the unread bytes
    (`ReadHead`, `ReadServer`, `ReadMap`, `ReadInfo`, `Rules`, `Decode`);
  - the imperative decoder `ParseData`, which works on a `Buffer` object,
    with the NewGRF loop and the `rules` map filled key by key. It is
    proved equal to `Decode`;
  - `ParsePacket`, the recovering wrapper.
- `openttd_properties.dfy` proves the version gates, the rule keys and
  values, the password flag, the text fields and the NewGRF summary.
- `openttd_encoding.dfy` defines an encoder for well-formed replies and
  proves the round trip (decoding an encoded reply gives back its fields).
  It also works one example, a version-2 reply named "Alpha".
- `openttd_truncation.dfy` proves that a payload cut short before the last
  byte the decoder reads panics, so it is reported as `MalformedPacket`.
  In particular every proper prefix of a header followed by an encoded
  reply panics. A cut that removes only trailing bytes the decoder never
  reads is not covered, and such a payload still decodes.
- `grokstat.dfy` (`Grokstat`) models `main.go`:
  - `FormJsonResponse`, `ParseIPAddr` and `QueryServer`;
  - `main`, both as the decision function `Main` and as the method `Run`
    with its early returns;
  - the trailing-zero finding below.

Calls the model cannot see become parameters:

- `GetByteString` is an uninterpreted `render: seq<byte> -> string`;
- `url.Parse` is a function from the text to an optional scheme and host;
- the configuration loaders, the protocol's request builder and decoder,
  and the network (dial errors, the TCP line, the UDP datagram) are fields
  of the `Environment`, `ProtocolEntry` and `Network` values.

A Go string is a Dafny `string` whose characters carry the byte values.

Three behaviours of the code a caller may not expect. The model follows the
code in each:

- A failing `url.Parse` is not recovered. Its error is discarded, reading
  the nil URL panics, and the run dies. The model gives `Panicked`.
- When a decoder returns a value of the wrong type with a nil error, `main`
  calls `PrintError(nil)`. That prints a status-200 "OK" response with an
  empty output (`WrongTypeLooksLikeSuccess`).
- `QueryServer` trims every trailing zero byte of the receive buffer, not
  just its padding, and the model's `QueryServer` does the same. A reply that
  ends in a zero byte therefore reaches the decoder shortened (see
  Findings).

## Model

| member | source | states |
|---|---|---|
| GoBytes.IndexByte | protocol_openttds.go:60 | the result is the index of the first NUL (or other delimiter), and -1 exactly when there is none |
| GoBytes.IndexByteIsFirst | protocol_openttds.go:60 | the first occurrence is the only index `IndexByte` can return |
| GoBytes.LineLength | protocol_openttds.go:60 | `ReadBytes` consumes up to and including the first delimiter, or everything when there is none |
| GoBytes.TrimLeft | protocol_openttds.go:61 | the result is a suffix, only cutset elements are removed, and the first remaining element is outside the cutset |
| GoBytes.TrimRight | main.go:126 | the result is a prefix, only cutset elements are removed, and the last remaining element is outside the cutset |
| GoBytes.TrimKeepsMiddle | protocol_openttds.go:61 | `Trim` keeps one contiguous run that starts and ends outside the cutset and cuts only cutset elements on either side |
| GoBytes.TrimTerminated | protocol_openttds.go:61 | trimming NUL from a NUL-free text plus its terminator gives back the text |
| GoBytes.BigEndianBound | protocol_openttds.go:48 | a `w`-byte big-endian value is below 256^w, so a 4-byte read fits a `uint32` and a 2-byte read fits a `uint16` |
| GoBytes.BigEndianRoundTrip | protocol_openttds.go:48 | reading the big-endian bytes of a value that fits gives the value back |
| GoBytes.Buffer.constructor | protocol_openttds.go:29 | a new buffer has all of `p[3:]` unread |
| GoBytes.Buffer.Next | protocol_openttds.go:31 | `Next(n)` returns at most n bytes, the unread bytes are exactly what it returned followed by what remains, and it never fails |
| GoBytes.Buffer.ReadBytes | protocol_openttds.go:60 | returns up to and including the first delimiter; with no delimiter it returns the rest and reports end of input |
| GoBytes.NextIsTake | protocol_openttds.go:31 | what `Next` returns and leaves are exactly `Take` and `Drop` |
| GoBytes.ReadBytesIsLine | protocol_openttds.go:60 | what `ReadBytes` returns and leaves are split at `LineLength` |
| GoStrings.ByteText | protocol_openttds.go:61 | `string(b)` has one character per byte, carrying its value |
| GoStrings.Decimal | protocol_openttds.go:90 | `fmt.Sprint` of a number is a non-empty string of digits with no leading zero |
| GoStrings.DecimalRoundTrip | protocol_openttds.go:90 | the decimal text of a number reads back as that number |
| GoStrings.DecimalInjective | protocol_openttds.go:90 | different numbers have different decimal texts, so the rules lose nothing |
| GoStrings.OccursAtTail | main.go:138 | an occurrence in the text after its first character is an occurrence one place later in the whole text |
| GoStrings.Index | main.go:138 | `strings.Index` is -1 or a place where the separator occurs |
| GoStrings.IndexIsFirst | main.go:138 | `strings.Index` is -1 exactly when the text does not contain the separator, and no occurrence comes before it |
| GoStrings.Split | main.go:138 | `strings.Split` gives at least one piece |
| GoStrings.SplitSingle | main.go:138 | `strings.Split` gives a single piece exactly when the text does not contain the separator |
| GoStrings.SplitStep | main.go:138 | a split is the text before the first separator followed by the split of the text after it |
| GoStrings.JoinCons | main.go:138 | joining a first piece onto further pieces puts the separator between them |
| GoStrings.AroundOccurrence | main.go:138 | the text is what precedes an occurrence of the separator, the separator, and what follows it |
| GoStrings.JoinSplit | main.go:138 | joining the pieces of a split with the separator gives back the text |
| OpenTTD.NextFirst | protocol_openttds.go:31 | `Next(1)[0]` fails exactly when the buffer is empty, and otherwise yields the first unread byte and consumes it |
| OpenTTD.NextText | protocol_openttds.go:60-61 | reading a text field consumes through the first NUL and yields the bytes with NULs trimmed |
| OpenTTD.NextUint | protocol_openttds.go:48 | a big-endian read consumes `width` bytes (or what is left) and is 0 when fewer remain |
| OpenTTD.NewGrfLoop | protocol_openttds.go:37-41 | the loop consumes `count` NewGRF entries of 4 + 16 bytes and accumulates one "ID:%s/MD5:%s; " line per entry, in order |
| OpenTTD.NewGrfBlock | protocol_openttds.go:35-43 | from version 4 the count and the entries are read and the summary is trimmed of " ;"; below version 4 nothing is read |
| OpenTTD.DatesBlock | protocol_openttds.go:45-50 | from version 3 two 4-byte big-endian dates are read; below version 3 both are 0 and nothing is read |
| OpenTTD.CompaniesBlock | protocol_openttds.go:52-59 | the three counters are all present exactly from version 2, and a missing byte panics |
| OpenTTD.HeadBlock | protocol_openttds.go:31-59 | the version byte and the version-gated sections match `ReadHead`, and it fails exactly when `ReadHead` panics |
| OpenTTD.ServerBlock | protocol_openttds.go:60-75 | the two texts, the five bytes and the reserved skip below version 3 match `ReadServer`, and it fails exactly when `ReadServer` does |
| OpenTTD.MapBlock | protocol_openttds.go:77-87 | map name, 16-bit width and height, map set and dedicated flag match `ReadMap`, and it fails exactly when `ReadMap` does |
| OpenTTD.FillRules | protocol_openttds.go:89-113 | filling the 18 keys one by one, with the counters only when read, gives `Rules` of the decoded fields |
| OpenTTD.ParseData | protocol_openttds.go:28-117 | the imperative decoder returns exactly what `Decode` specifies: it panics when the header slice or any read fails, and otherwise assembles the entry |
| OpenTTD.ParsePacket | protocol_openttds.go:18-26 | errors exactly when decoding panics; then it returns `MalformedPacket` and a fresh `MakeServerEntry()`, and otherwise the decoded entry with no error |
| OpenTTD.ReadHead | protocol_openttds.go:31-59 | defines the version byte and the version-gated NewGRF, date and counter sections |
| OpenTTD.ReadServer | protocol_openttds.go:60-75 | defines the two server texts, the five single bytes and the reserved skip below version 3 |
| OpenTTD.ReadMap | protocol_openttds.go:77-87 | defines the map name, width, height, map set and dedicated flag |
| OpenTTD.ReadInfo | protocol_openttds.go:31-87 | defines the whole read after the header: head, server fields, map fields |
| OpenTTD.Rules | protocol_openttds.go:89-113 | defines the `rules` map: five head keys, the counters when read, then ten server and map keys |
| OpenTTD.Assemble | protocol_openttds.go:115 | defines the `ServerEntry` built from the fields read and the rules |
| OpenTTD.Decode | protocol_openttds.go:28-117 | defines the decoder: a panic below 3 bytes or on any panicking read, otherwise the assembled entry |
| OpenTTD.DecodeRead | protocol_openttds.go:28-116 | a payload whose fields all read decodes to the entry assembled from them, whatever follows |
| OpenTTD.DecodeUnread | protocol_openttds.go:28-116 | a payload whose fields do not all read panics |
| OpenTTDProperties.ShortPayloadPanics | protocol_openttds.go:29-31 | a payload of at most 3 bytes panics: below 3 at the slice, at exactly 3 at the version byte |
| OpenTTDProperties.DecodedPayloadIsLong | protocol_openttds.go:29-31 | a payload that decodes is longer than 3 bytes, and its entry is assembled from the fields read after the header |
| OpenTTDProperties.ReadHeadShape | protocol_openttds.go:31-59 | the version is the first byte; counters exactly from version 2; zero dates below 3; no NewGRFs below 4; from 4 the count is the second byte and that many entries are read |
| OpenTTDProperties.ReadGrfsCount | protocol_openttds.go:37-41 | the loop always yields exactly `count` entries |
| OpenTTDProperties.ReadGrfAt | protocol_openttds.go:37-41 | one NewGRF entry read at offset j takes the 4 identifier bytes and the 16 MD5 bytes there and leaves the bytes from j+20 |
| OpenTTDProperties.ReadGrfsLayout | protocol_openttds.go:37-41 | with enough bytes, entry i is bytes 20i..20i+4 (id) and 20i+4..20i+20 (MD5), and exactly 20·count bytes are consumed |
| OpenTTDProperties.ReadDatesLayout | protocol_openttds.go:45-50 | from version 3 the dates are the big-endian values of the next 4 + 4 bytes, and those 8 bytes are consumed |
| OpenTTDProperties.ReadDatesAbsent | protocol_openttds.go:45-47 | below version 3 both dates are 0 and no bytes are consumed |
| OpenTTDProperties.SkipReservedIffOld | protocol_openttds.go:72-75 | the two reserved 2-byte fields are skipped exactly when the version is below 3 |
| OpenTTDProperties.ReadTextTerminated | protocol_openttds.go:60-61 | a NUL-free text followed by NUL reads back as the text and leaves what follows |
| OpenTTDProperties.ReadTextUnterminated | protocol_openttds.go:60-61 | a NUL-free text at the end of the buffer reads whole and leaves nothing |
| OpenTTDProperties.TestServerExample | protocol_openttds.go:60-64 | the bytes of "Test Server" followed by NUL read back as those bytes, with nothing left over |
| OpenTTDProperties.TestServerText | protocol_openttds.go:61 | those bytes are the text "Test Server" |
| OpenTTDProperties.GrfLinesStart | protocol_openttds.go:40 | a non-empty NewGRF listing starts with "ID:" |
| OpenTTDProperties.GrfSummaryShape | protocol_openttds.go:35-43 | the summary is empty exactly when there are no entries, and it neither starts nor ends with a space or ';' |
| OpenTTDProperties.TrimFinalSeparator | protocol_openttds.go:42 | trimming " ;" removes exactly the final "; " from a body that does not begin or end with them |
| OpenTTDProperties.GrfSummaryDropsFinalSeparator | protocol_openttds.go:40-42 | when the last MD5 text does not end in a separator, the summary is the accumulated lines without the final "; " |
| OpenTTDProperties.FillHeadValues | protocol_openttds.go:90-94 | the first five keys hold the version, NewGRF count, summary and the two dates |
| OpenTTDProperties.FillCountersValues | protocol_openttds.go:95-103 | the counter keys are added exactly when the counters were read, with their values, and nothing else changes |
| OpenTTDProperties.FillServerValues | protocol_openttds.go:104-113 | the ten server and map keys hold their values, and earlier keys are untouched |
| OpenTTDProperties.KeyGroupsDisjoint | protocol_openttds.go:89-113 | the head, counter and server key groups do not overlap, so no assignment overwrites another |
| OpenTTDProperties.RulesKeys | protocol_openttds.go:89-113 | the rules hold the 15 unconditional keys, plus the three counter keys exactly when the counters were read |
| OpenTTDProperties.RulesHeadValues | protocol_openttds.go:90-94 | each head rule is the decimal text (or the NewGRF summary) of its field |
| OpenTTDProperties.RulesCounterValues | protocol_openttds.go:95-103 | each counter rule is the decimal text of its byte |
| OpenTTDProperties.RulesServerValues | protocol_openttds.go:104-113 | each server and map rule is the text, decimal or "true"/"false" of its field |
| OpenTTDProperties.ReadInfoHead | protocol_openttds.go:31-59 | a reply that reads whole has the head of `ReadHead` |
| OpenTTDProperties.DecodeKeys | protocol_openttds.go:52-103 | in a decoded entry, the counter keys are present exactly when the byte at offset 3 is at least 2 |
| OpenTTDProperties.DecodeVersionGates | protocol_openttds.go:31-94 | protocol-version is the byte at offset 3; below 3 both dates are "0"; below 4 the NewGRF count is "0" and the summary ""; from 4 the count is the byte at offset 4 |
| OpenTTDProperties.DecodedEntryAgrees | protocol_openttds.go:104-115 | the entry's name, terrain, clients and password flag agree with their rules, and Players is empty |
| OpenTTDProperties.NeedPassIffNonzero | protocol_openttds.go:67 | NeedPass is true exactly when the password byte is nonzero, and need-pass is "true" or "false" accordingly |
| OpenTTDEncoding.ReadUintEncoded | protocol_openttds.go:48 | a big-endian field reads back as its value |
| OpenTTDEncoding.ReadOneGrf | protocol_openttds.go:37-41 | one encoded NewGRF entry reads back as its identifier and MD5, leaving what follows |
| OpenTTDEncoding.ReadGrfsEncoded | protocol_openttds.go:37-41 | encoded NewGRF entries read back as themselves |
| OpenTTDEncoding.ReadGrfSectionEncoded | protocol_openttds.go:35-43 | the version-gated NewGRF section reads back as its count and entries |
| OpenTTDEncoding.ReadDatesEncoded | protocol_openttds.go:45-50 | the version-gated dates read back as themselves |
| OpenTTDEncoding.ReadCompaniesEncoded | protocol_openttds.go:52-59 | the version-gated counters read back as themselves |
| OpenTTDEncoding.ReadHeadEncoded | protocol_openttds.go:31-59 | a well-formed head reads back as itself |
| OpenTTDEncoding.ReadServerSteps | protocol_openttds.go:60-75 | after the two texts, the five bytes are read in order and the reserved skip follows |
| OpenTTDEncoding.ReadServerEncoded | protocol_openttds.go:60-75 | server fields with NUL-free texts read back as themselves at every version |
| OpenTTDEncoding.ReadMapEncoded | protocol_openttds.go:77-87 | map fields with a NUL-free name and 16-bit sizes read back as themselves |
| OpenTTDEncoding.ReadInfoEncoded | protocol_openttds.go:29-87 | a well-formed reply reads back as its fields and leaves what follows |
| OpenTTDEncoding.DecodeEncoded | protocol_openttds.go:28-117 | a well-formed reply behind any 3-byte header decodes to the entry assembled from its fields |
| OpenTTDEncoding.PasswordByteAt | protocol_openttds.go:67 | the password byte sits at a fixed offset of the encoded reply |
| OpenTTDEncoding.NeedPassFromByte | protocol_openttds.go:67 | NeedPass of a decoded reply is true exactly when the byte at that offset is nonzero |
| OpenTTDEncoding.AlphaBytes | protocol_openttds.go:28-87 | the bytes of a version-2 reply with company counters 8, 3, 10 and reserved zeros |
| OpenTTDEncoding.AlphaExample | protocol_openttds.go:28-117 | those bytes behind any header decode to the "Alpha" entry |
| OpenTTDEncoding.AlphaEntry | protocol_openttds.go:115 | that entry has Name "Alpha", MaxClients 4, NumClients 2, NeedPass true and no players |
| OpenTTDEncoding.AlphaCounters | protocol_openttds.go:95-103 | its rules hold max-companies "8", current-companies "3" and max-spectators "10" |
| OpenTTDTruncation.CutDrop | protocol_openttds.go:31 | `Next` on a buffer missing its last d bytes leaves the shortened remainder |
| OpenTTDTruncation.CutReadByte | protocol_openttds.go:31 | on a shortened buffer a byte read fails, or yields the same byte and leaves the shortened remainder |
| OpenTTDTruncation.CutReadText | protocol_openttds.go:60 | a text read on a shortened buffer leaves the shortened remainder |
| OpenTTDTruncation.CutReadUint | protocol_openttds.go:48 | a big-endian read on a shortened buffer leaves the shortened remainder |
| OpenTTDTruncation.ReadGrfsRest | protocol_openttds.go:37-41 | on any input, count NewGRF entries leave the bytes past 20·count, or nothing when fewer remain, since `Next(4)` and `Next(16)` never fail |
| OpenTTDTruncation.CutReadGrfs | protocol_openttds.go:37-41 | the NewGRF loop on a shortened buffer leaves the shortened remainder |
| OpenTTDTruncation.CutReadGrfSection | protocol_openttds.go:35-43 | the NewGRF section on a shortened buffer fails, or leaves the shortened remainder |
| OpenTTDTruncation.CutReadDates | protocol_openttds.go:45-50 | the dates on a shortened buffer leave the shortened remainder |
| OpenTTDTruncation.CutReadCompanies | protocol_openttds.go:52-59 | the counters on a shortened buffer fail, or leave the shortened remainder |
| OpenTTDTruncation.CutReadHead | protocol_openttds.go:31-59 | the head on a shortened buffer fails, or has the same version and leaves the shortened remainder |
| OpenTTDTruncation.CutReadServer | protocol_openttds.go:60-75 | the server block on a shortened buffer fails, or leaves the shortened remainder |
| OpenTTDTruncation.CutReadMap | protocol_openttds.go:77-87 | cutting into the map block makes it fail |
| OpenTTDTruncation.CutReadInfo | protocol_openttds.go:29-87 | cutting into any field of a reply makes the read fail |
| OpenTTDTruncation.DecodePrefixPanics | protocol_openttds.go:28-117 | every prefix of a decodable payload that ends before its last field panics, so it is never a partial success |
| OpenTTDTruncation.EncodedPrefixPanics | protocol_openttds.go:28-117 | every proper prefix of a 3-byte header followed by the encoding of a well-formed reply, with nothing after it, panics |
| Grokstat.FormJsonResponse | main.go:52-63 | status is 200 exactly with no error and 500 exactly with one; an error gives its text and output "{}", no error gives "OK" and the output unchanged |
| Grokstat.ErrorHidesOutput | main.go:55-63 | an error response does not depend on the output, and a success response determines it |
| Grokstat.WithScheme | main.go:138-142 | "placeholder://" is prefixed exactly when the input contains no "://" |
| Grokstat.WithSchemeIdempotent | main.go:138-142 | the result always contains "://", so applying the rule again changes nothing |
| Grokstat.WithPort | main.go:150-152 | ":" + the default port is appended exactly when the host contains no ":", and otherwise the host is unchanged |
| Grokstat.WithPortIdempotent | main.go:150-152 | the result always contains ":", so applying the rule again changes nothing |
| Grokstat.ParseIPAddr | main.go:135-155 | panics exactly when `url.Parse` fails; otherwise the map has the keys http_protocol and host, holding the parsed scheme and the host under the default-port rule |
| Grokstat.BareAddressGetsPort | main.go:135-155 | a bare address without a colon, parsed back as the host, becomes host ":3979" under the OpenTTD default port |
| Grokstat.Zeros | main.go:120 | `make` gives a buffer of n zero bytes |
| Grokstat.Received | main.go:119-122 | after the read, the buffer has 16777215 bytes, starts with the datagram (cut to that size) and is zero everywhere after it |
| Grokstat.TrimmedStatus | main.go:126-129 | as written: the status is the buffer up to its last nonzero byte; the error is "No response from server" exactly when the buffer is all zeros, and otherwise there is none |
| Grokstat.UdpReplyAsWritten | main.go:119-129 | as written: the status is what was received up to its last nonzero byte, with only zeros cut away after it; "No response from server" is reported exactly when that status is empty |
| Grokstat.CountedStatus | main.go:119-129 | corrected: the status is the first n bytes, and "No response from server" is reported exactly when n is 0 |
| Grokstat.UdpReply | main.go:119-129 | corrected: the status is the received datagram, and the error is reported exactly when nothing was received |
| Grokstat.UdpRepliesAgree | main.go:126-129 | the two forms agree on every datagram that does not end in zero |
| Grokstat.TrimmedStatusLosesZeros | main.go:126 | as written, a datagram ending in zero reaches the decoder as a proper prefix of itself |
| Grokstat.EncodedEndsWithDedicated | protocol_openttds.go:87 | the last byte of an OpenTTD reply is its dedicated flag |
| Grokstat.ListenServerReplyIsMalformed | main.go:126-129 | as written, the reply of a server that is not dedicated, once trimmed, decodes as a malformed packet |
| Grokstat.ListenAlphaIsMalformed | main.go:126-129 | the "Alpha" reply with dedicated 0 arrives without error and decodes as a malformed packet |
| Grokstat.CountedReplyDecodes | main.go:119-129 | corrected, every well-formed reply arrives whole and decodes to its entry |
| Grokstat.QueryServer | main.go:98-133 | an unknown transport gives no bytes and no error; a dial error is returned with no bytes; over TCP the status and error are the line `ReadString` returns and its error; over UDP the reply is the as-written post-read step, with trailing zeros trimmed and "No response from server" when nothing is left |
| Grokstat.ListenServerQueryIsMalformed | main.go:98-133 | over UDP, `QueryServer` hands on the reply of a server that is not dedicated shortened, and the OpenTTD decoder panics on it |
| Grokstat.LoadProtocols | main.go:200-213 | an empty custom path uses the embedded config and fails with "Default config file not found." exactly when it is missing; otherwise the custom file is used and fails with "Error loading custom config file." exactly when unreadable |
| Grokstat.Validate | main.go:222-234 | no hosts, an empty first host and an empty protocol each give their own error, in that order, and the input passes exactly when none applies |
| Grokstat.Dispatch | main.go:254-271 | a master protocol's server list is filed under "servers" and a server entry under "server_info"; a decoder error or a wrong type reports the decoder's error |
| Grokstat.ProtocolListing | main.go:157-169 | the listing is an object with the single key "protocols", holding every protocol's information |
| Grokstat.Query | main.go:244-271 | defines the query of the first host and the filing of its decoded reply |
| Grokstat.Main | main.go:178-276 | defines main's order of decisions: input decoding, configuration, listing, input checks, protocol lookup, query |
| Grokstat.Run | main.go:178-276 | main with its early returns prints exactly the response the decision `Main` prescribes, or panics exactly where it does; its UDP replies are trimmed as the code is written |
| Grokstat.ValidationFirst | main.go:222-234 | an input check that fails is reported with its own message, and the protocol map, `url.Parse` and the network are not consulted |
| Grokstat.UnknownProtocolNoQuery | main.go:238-242 | an unknown protocol is reported as "Invalid protocol specified." and the result is the same whatever `url.Parse` and the network would do |
| Grokstat.FirstHostOnly | main.go:226 | only the first host matters: dropping the others changes nothing |
| Grokstat.DecodedResultFiled | main.go:244-271 | a query error is printed as is; otherwise the decoder's error is printed, and a decoded value of the right type is filed under its key |
| Grokstat.WrongTypeLooksLikeSuccess | main.go:254-271 | a value of the wrong type with no decoder error produces status 200, "OK" and an empty output |
| Grokstat.EmptySuccessIsWrongType | main.go:254-271 | status 200 with an empty output happens only when the decoder gave no error and a value of the wrong type |

## Left out

- Sockets, dialing, deadlines, `Write`/`ReadFromUDP` and the TCP
  `ReadString('\n')` are I/O. They are the `Network` parameter: dial
  errors, the line with its read error, and the datagram received.
  A timeout is an empty datagram.
- JSON decoding of the input, `json.Marshal` of the response and its
  failure path, TOML decoding, `bindata.Asset` are foreign libraries.
  The input is given already decoded or as its error. Each configuration is
  given as the protocol map `MakeProtocolMap` builds from it.
- `url.Parse` is not visible. It is a parameter from the text to an
  optional scheme and host.
- `OPENTTDSMakeProtocolTemplate`, its handler closure with channels, and
  the request template (the `\x03\x00\x00` packet built by `MakePayload`)
  are concurrency and template plumbing outside the model. The default
  port "3979" appears as `OPENTTD_DEFAULT_PORT`.
- `GetByteString` is not visible. It is the uninterpreted parameter
  `render`.
- `MakeServerEntry` and `MalformedPacket` are declared elsewhere. The
  former is given its zero value; the latter is given a stand-in text.
- Printing and `PrintError`'s output to standard out: `Run` returns the
  response instead.
- Map iteration order in `PrintProtocols`. The listing is kept as a map from
  protocol id to its information, not as an ordered JSON array.
- The exact text `fmt.Sprint` gives for integers and booleans is modelled as
  plain decimal digits and "true"/"false".
- Integer types are unbounded here. The `uint32` dates and `uint16` map
  sizes cannot overflow: `BigEndianBound` shows each read fits its width.
  `WellFormed` bounds the values the encoder accepts.
- `main.go` and `protocol_openttds.go` come from different revisions: one
  declares a `ResponseParseFunc` per protocol, the other a `HandlerFunc`. The
  entry point therefore takes each protocol's decoder as a parameter. The
  OpenTTD decoder is linked to the UDP post-read steps directly, in the
  finding lemmas, not through `Run`.
- The dead branch `if err != nil` after `ReadFromUDP` (the read error is
  discarded, so `err` is still nil there) has no counterpart.

## Findings

| source | as written | input that shows it | evidently intended | confidence | as-written member | corrected member |
|---|---|---|---|---|---|---|
| main.go:126 | `bytes.TrimRight(buf, "\x00")` trims every trailing zero of the 16 MiB receive buffer, including zero bytes the server sent | an OpenTTD reply from a server that is not dedicated, whose last byte (the dedicated flag) is 0, e.g. the "Alpha" reply with dedicated 0: the trimmed reply lacks its last bytes and decodes as `MalformedPacket` | keep the n bytes `ReadFromUDP` reports received, and report "No response from server" when n is 0 | not executed | Grokstat.ListenServerReplyIsMalformed | Grokstat.CountedReplyDecodes |

`QueryServer`, and so `Main` and `Run`, use the as-written step
`UdpReplyAsWritten`, which applies `TrimmedStatus` to the receive buffer.
The corrected step is `UdpReply`, which applies `CountedStatus` with the
received length; `CountedReplyDecodes` proves it delivers every
well-formed reply whole. `UdpRepliesAgree` shows the two steps differ only
on datagrams that end in a zero byte.
