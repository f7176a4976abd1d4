/** Truncation: a reply cut short anywhere before the end of what the
    decoder consumes always panics (and so is reported as a malformed
    packet), never decodes to a partial entry.

    The argument follows the cursor. Every reader, run on the input with its
    last `d` bytes cut off, either panics or leaves the cut-down version of
    what it leaves on the full input; the byte that ends the reply then lies
    in the part cut off, and `Next(1)[0]` finds nothing to read. */
module OpenTTDTruncation {
  import opened GoBytes
  import opened GoStrings
  import opened Models
  import opened OpenTTD
  import opened OpenTTDEncoding

  /** `s` without its last `d` bytes. */
  function Cut(s: seq<byte>, d: nat): (r: seq<byte>)
    ensures |r| == if d <= |s| then |s| - d else 0
  {
    if d <= |s| then s[..|s| - d] else []
  }

  /** A reader run on the cut input succeeds only where it succeeds on the
      full input, and then leaves the cut version of what it leaves there. */
  ghost predicate Follows<A, B>(full: Option<(A, seq<byte>)>, cut: Option<(B, seq<byte>)>, d: nat)
  {
    cut.Some? ==> full.Some? && cut.value.1 == Cut(full.value.1, d)
  }

  lemma CutDrop(s: seq<byte>, n: nat, d: nat)
    ensures Drop(Cut(s, d), n) == Cut(Drop(s, n), d)
  {
  }

  lemma CutReadByte(s: seq<byte>, d: nat)
    ensures Follows(ReadByte(s), ReadByte(Cut(s, d)), d)
    ensures ReadByte(Cut(s, d)).Some? ==> ReadByte(Cut(s, d)).value.0 == ReadByte(s).value.0
    ensures ReadByte(Cut(s, d)).Some? <==> d < |s|
  {
    if d < |s| {
      assert Cut(s, d)[1..] == Cut(s[1..], d);
    }
  }

  lemma CutReadText(s: seq<byte>, d: nat)
    ensures ReadText(Cut(s, d)).1 == Cut(ReadText(s).1, d)
  {
    var c := Cut(s, d);
    var n := LineLength(s, 0);
    if 0 in s[..n] {
      var i := n - 1;
      assert s[i] == 0 && 0 !in s[..i];
      if i < |c| {
        assert c[..i] == s[..i];
        IndexByteIsFirst(c, 0, i);
        assert c[n..] == Cut(s[n..], d);
      } else {
        assert 0 !in c by {
          assert c == s[..|c|];
          assert forall k :: 0 <= k < |c| ==> c[k] == s[..i][k];
        }
      }
    } else {
      assert n == |s|;
      assert c == s[..|c|];
      assert 0 !in c by {
        assert forall k :: 0 <= k < |c| ==> c[k] == s[..n][k];
      }
    }
  }

  lemma CutReadUint(s: seq<byte>, width: nat, d: nat)
    ensures ReadUint(Cut(s, d), width).1 == Cut(ReadUint(s, width).1, d)
  {
    CutDrop(s, width, d);
  }

  /** Whatever the input, `k` NewGRF entries consume `20 * k` bytes, or all
      of them when fewer remain: `Next(4)` and `Next(16)` never fail. */
  lemma {:induction false} ReadGrfsRest(k: nat, s: seq<byte>)
    ensures ReadGrfs(k, s).1 == Drop(s, 20 * k)
  {
    if k > 0 {
      ReadGrfsRest(k - 1, s);
    }
  }

  lemma CutReadGrfs(k: nat, s: seq<byte>, d: nat)
    ensures ReadGrfs(k, Cut(s, d)).1 == Cut(ReadGrfs(k, s).1, d)
  {
    ReadGrfsRest(k, s);
    ReadGrfsRest(k, Cut(s, d));
    CutDrop(s, 20 * k, d);
  }

  lemma CutReadGrfSection(v: byte, s: seq<byte>, d: nat)
    ensures var full, cut := ReadGrfSection(v, s), ReadGrfSection(v, Cut(s, d));
      cut.Some? ==> full.Some? && cut.value.2 == Cut(full.value.2, d)
  {
    if v >= 4 {
      CutReadByte(s, d);
      if d < |s| {
        CutReadGrfs(s[0], s[1..], d);
        assert Cut(s, d)[0] == s[0];
      }
    }
  }

  lemma CutReadDates(v: byte, s: seq<byte>, d: nat)
    ensures ReadDates(v, Cut(s, d)).2 == Cut(ReadDates(v, s).2, d)
  {
    if v >= 3 {
      CutReadUint(s, 4, d);
      CutReadUint(ReadUint(s, 4).1, 4, d);
    }
  }

  lemma CutReadCompanies(v: byte, s: seq<byte>, d: nat)
    ensures Follows(ReadCompanies(v, s), ReadCompanies(v, Cut(s, d)), d)
  {
    if v >= 2 {
      CutReadByte(s, d);
      if d < |s| {
        CutReadByte(s[1..], d);
        if d < |s| - 1 {
          CutReadByte(s[2..], d);
          assert s[1..][1..] == s[2..];
        }
      }
    }
  }

  /** The head: the same version, and the same progress on the cut input. */
  lemma CutReadHead(s: seq<byte>, d: nat)
    ensures Follows(ReadHead(s), ReadHead(Cut(s, d)), d)
    ensures ReadHead(Cut(s, d)).Some? ==> ReadHead(Cut(s, d)).value.0.version == ReadHead(s).value.0.version
  {
    CutReadByte(s, d);
    if d < |s| {
      var v := s[0];
      CutReadGrfSection(v, s[1..], d);
      var g := ReadGrfSection(v, s[1..]);
      if g.Some? {
        CutReadDates(v, g.value.2, d);
        CutReadCompanies(v, ReadDates(v, g.value.2).2, d);
      }
    }
  }

  lemma CutReadServer(v: byte, s: seq<byte>, d: nat)
    ensures Follows(ReadServer(v, s), ReadServer(v, Cut(s, d)), d)
  {
    var s1 := ReadText(s).1;
    var s2 := ReadText(s1).1;
    CutReadText(s, d);
    CutReadText(s1, d);
    CutReadByte(s2, d);
    if d < |s2| {
      var s3 := s2[1..];
      CutReadByte(s3, d);
      if d < |s3| {
        var s4 := s3[1..];
        CutReadByte(s4, d);
        if d < |s4| {
          var s5 := s4[1..];
          CutReadByte(s5, d);
          if d < |s5| {
            var s6 := s5[1..];
            CutReadByte(s6, d);
            if d < |s6| {
              CutDrop(s6[1..], 2, d);
              CutDrop(Drop(s6[1..], 2), 2, d);
            }
          }
        }
      }
    }
  }

  /** The map fields end the reply: cutting off at least one byte more than
      what follows them makes reading them panic. */
  lemma CutReadMap(s: seq<byte>, d: nat)
    requires ReadMap(s).Some? && d > |ReadMap(s).value.1|
    ensures ReadMap(Cut(s, d)).None?
  {
    var s1 := ReadText(s).1;
    var s2 := ReadUint(s1, 2).1;
    var s3 := ReadUint(s2, 2).1;
    CutReadText(s, d);
    CutReadUint(s1, 2, d);
    CutReadUint(s2, 2, d);
    CutReadByte(s3, d);
    if d < |s3| {
      CutReadByte(s3[1..], d);
    }
  }

  /** Cutting a reply anywhere before the end of what `ReadInfo` consumes
      makes it panic. */
  lemma CutReadInfo(s: seq<byte>, d: nat)
    requires ReadInfo(s).Some? && d > |ReadInfo(s).value.1|
    ensures ReadInfo(Cut(s, d)).None?
  {
    var h := ReadHead(s).value;
    var sv := ReadServer(h.0.version, h.1).value;
    CutReadHead(s, d);
    CutReadServer(h.0.version, h.1, d);
    CutReadMap(sv.1, d);
  }

  /** Every prefix of a payload that stops before the end of the bytes the
      decoder consumes decodes to a panic, never to a partial entry. */
  lemma DecodePrefixPanics(p: seq<byte>, t: nat, render: seq<byte> -> string)
    requires |p| >= 3 && ReadInfo(p[3..]).Some?
    requires t < |p| - |ReadInfo(p[3..]).value.1|
    ensures Decode(p[..t], render) == Panicked
  {
    if t >= 3 {
      var q := p[..t];
      assert q[3..] == Cut(p[3..], |p| - t);
      CutReadInfo(p[3..], |p| - t);
      DecodeUnread(q, render);
    }
  }

  /** Truncating a well-formed reply at any offset short of its end makes
      it a malformed packet. */
  lemma EncodedPrefixPanics(header: seq<byte>, info: GameInfo, t: nat, render: seq<byte> -> string)
    requires |header| == 3 && WellFormed(info)
    requires t < |header + Encode(info)|
    ensures Decode((header + Encode(info))[..t], render) == Panicked
  {
    var p := header + Encode(info);
    assert p[3..] == Encode(info) + [];
    ReadInfoEncoded(info, []);
    DecodePrefixPanics(p, t, render);
  }
}
