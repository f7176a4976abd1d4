/** The parts of Go's byte handling that the server-info decoder relies on:
    the `bytes.Buffer` read cursor (`Next`, `ReadBytes`), `bytes.IndexByte`,
    `bytes.Trim` / `bytes.TrimRight` / `strings.Trim` with a cutset, and
    `binary.Read` of a big-endian unsigned integer. */
module GoBytes {

  /** A Go `byte`. */
  type byte = b: int | 0 <= b < 256

  /** A failure-compatible optional value. */
  datatype Option<+T> = None | Some(value: T) {
    predicate IsFailure() { None? }
    function PropagateFailure<U>(): Option<U> requires None? { None }
    function Extract(): T requires Some? { value }
  }

  /** How a Go function call ends: it returns a value, or it panics. */
  datatype Outcome<+T> = Returned(value: T) | Panicked

  function Min(a: int, b: int): int { if a <= b then a else b }

  /** The bytes `Next(n)` returns from unread input `s`: at most `n` of them. */
  function Take(s: seq<byte>, n: nat): seq<byte> { s[..Min(n, |s|)] }

  /** The input that `Next(n)` leaves unread. */
  function Drop(s: seq<byte>, n: nat): seq<byte> { s[Min(n, |s|)..] }

  /** `bytes.IndexByte`: the index of the first `c` in `s`, or -1. */
  function IndexByte(s: seq<byte>, c: byte): (i: int)
    ensures -1 <= i < |s|
    ensures 0 <= i ==> s[i] == c && c !in s[..i]
    ensures i == -1 ==> c !in s
  {
    if |s| == 0 then -1
    else if s[0] == c then 0
    else
      var j := IndexByte(s[1..], c);
      assert s == [s[0]] + s[1..];
      if j == -1 then -1
      else
        assert s[..j + 1] == [s[0]] + s[1..][..j];
        j + 1
  }

  /** The first occurrence is the only index that `IndexByte` can return. */
  lemma IndexByteIsFirst(s: seq<byte>, c: byte, k: nat)
    requires k < |s| && s[k] == c && c !in s[..k]
    ensures IndexByte(s, c) == k
  {
    assert s[k] in s;
  }

  /** How many bytes `ReadBytes(c)` consumes from `s`: up to and including the
      first `c`, or all of `s` when there is none (the `io.EOF` case). */
  function LineLength(s: seq<byte>, c: byte): (n: nat)
    ensures n <= |s|
    ensures n < |s| ==> n > 0 && s[n - 1] == c
    ensures 0 < n ==> c !in s[..n - 1]
    ensures n == |s| ==> c !in s || s[|s| - 1] == c
  {
    var i := IndexByte(s, c);
    if i == -1 then |s| else i + 1
  }

  /** `TrimLeft` with a cutset: drop leading elements that are in `cut`. */
  function TrimLeft<T(==)>(s: seq<T>, cut: set<T>): (r: seq<T>)
    ensures |r| <= |s| && r == s[|s| - |r|..]
    ensures |r| > 0 ==> r[0] !in cut
    ensures forall k :: 0 <= k < |s| - |r| ==> s[k] in cut
  {
    if |s| > 0 && s[0] in cut then
      var r := TrimLeft(s[1..], cut);
      assert forall k :: 1 <= k < |s| - |r| ==> s[k] == s[1..][k - 1];
      r
    else s
  }

  /** `TrimRight` with a cutset: drop trailing elements that are in `cut`. */
  function TrimRight<T(==)>(s: seq<T>, cut: set<T>): (r: seq<T>)
    ensures |r| <= |s| && r == s[..|r|]
    ensures |r| > 0 ==> r[|r| - 1] !in cut
    ensures forall k :: |r| <= k < |s| ==> s[k] in cut
  {
    if |s| > 0 && s[|s| - 1] in cut then TrimRight(s[..|s| - 1], cut) else s
  }

  /** `Trim` with a cutset: both ends. */
  function Trim<T(==)>(s: seq<T>, cut: set<T>): seq<T>
  {
    TrimRight(TrimLeft(s, cut), cut)
  }

  /** What `Trim` keeps: a contiguous run of `s` that starts and ends outside
      `cut`, with only `cut` elements cut away on either side. */
  lemma TrimKeepsMiddle<T>(s: seq<T>, cut: set<T>) returns (i: nat)
    ensures i + |Trim(s, cut)| <= |s| && Trim(s, cut) == s[i..i + |Trim(s, cut)|]
    ensures |Trim(s, cut)| > 0 ==> Trim(s, cut)[0] !in cut && Trim(s, cut)[|Trim(s, cut)| - 1] !in cut
    ensures forall k :: 0 <= k < i ==> s[k] in cut
    ensures forall k :: i + |Trim(s, cut)| <= k < |s| ==> s[k] in cut
  {
    var l := TrimLeft(s, cut);
    var r := TrimRight(l, cut);
    i := |s| - |l|;
    assert r == l[..|r|];
    assert forall k :: i + |r| <= k < |s| ==> s[k] == l[k - i];
  }

  /** Trimming a run that does not meet the cutset, followed by one element of
      it, gives back the run: this is how a NUL-terminated text field loses
      its terminator and nothing else. */
  lemma TrimTerminated<T>(t: seq<T>, c: T, cut: set<T>)
    requires c in cut
    requires forall k :: 0 <= k < |t| ==> t[k] !in cut
    ensures Trim(t + [c], cut) == t
  {
    if |t| == 0 {
      assert TrimLeft([c], cut) == TrimLeft([c][1..], cut);
    } else {
      assert (t + [c])[0] == t[0];
      assert TrimLeft(t + [c], cut) == t + [c];
      assert (t + [c])[..|t|] == t;
      assert TrimRight(t + [c], cut) == TrimRight(t, cut);
      assert t[|t| - 1] !in cut;
    }
  }

  /** The unsigned big-endian value of `s`. */
  function BigEndian(s: seq<byte>): nat
  {
    if |s| == 0 then 0 else BigEndian(s[..|s| - 1]) * 256 + s[|s| - 1]
  }

  function Pow256(w: nat): (r: nat)
    ensures r > 0
  {
    if w == 0 then 1 else 256 * Pow256(w - 1)
  }

  /** A `width`-byte big-endian value is below 256^width. */
  lemma {:induction false} BigEndianBound(s: seq<byte>)
    ensures BigEndian(s) < Pow256(|s|)
  {
    if |s| > 0 {
      var init := s[..|s| - 1];
      BigEndianBound(init);
      assert BigEndian(s) <= (Pow256(|init|) - 1) * 256 + 255;
    }
  }

  /** `binary.Read(bytes.NewReader(s), binary.BigEndian, &x)` for a `width`-byte
      unsigned `x` that starts at 0: when `s` is shorter than `width` the read
      fails (the error is discarded by the callers) and `x` stays 0. */
  function BinaryRead(s: seq<byte>, width: nat): nat
  {
    if |s| < width then 0 else BigEndian(s[..width])
  }

  /** The `width`-byte big-endian encoding of `n` (the writer's side, used to
      state round trips). */
  function BigEndianBytes(n: nat, width: nat): (r: seq<byte>)
    ensures |r| == width
  {
    if width == 0 then [] else BigEndianBytes(n / 256, width - 1) + [n % 256]
  }

  lemma {:induction false} BigEndianRoundTrip(n: nat, width: nat)
    requires n < Pow256(width)
    ensures BigEndian(BigEndianBytes(n, width)) == n
  {
    if width > 0 {
      var r := BigEndianBytes(n, width);
      assert r[..width - 1] == BigEndianBytes(n / 256, width - 1);
      assert n / 256 < Pow256(width - 1);
      BigEndianRoundTrip(n / 256, width - 1);
    }
  }

  /** A model of Go's `bytes.Buffer` as a read cursor: the byte slice and the
      read offset `off`; `buf[off..]` is what has not been read yet. */
  class Buffer {
    var buf: seq<byte>
    var off: nat

    ghost predicate Valid()
      reads this
    {
      off <= |buf|
    }

    /** The unread portion, `b.buf[b.off:]`. */
    function Unread(): seq<byte>
      reads this
      requires Valid()
    {
      buf[off..]
    }

    /** `bytes.NewBuffer(p)`. */
    constructor (p: seq<byte>)
      ensures Valid() && Unread() == p
    {
      buf := p;
      off := 0;
    }

    /** `Next(n)`: returns the next `n` bytes, or fewer when the buffer runs
        out, and advances past them; it never fails. */
    method Next(n: nat) returns (data: seq<byte>)
      requires Valid()
      modifies this
      ensures Valid() && buf == old(buf)
      ensures |data| == Min(n, |old(Unread())|)
      ensures old(Unread()) == data + Unread()
    {
      var m := |buf| - off;
      var k := if n > m then m else n;
      data := buf[off..off + k];
      off := off + k;
    }

    /** `ReadBytes(delim)`: returns the bytes up to and including the first
        `delim` and advances past them; with no `delim` left it returns the
        rest of the buffer and reports end of input (`eof`). */
    method ReadBytes(delim: byte) returns (line: seq<byte>, eof: bool)
      requires Valid()
      modifies this
      ensures Valid() && buf == old(buf)
      ensures old(Unread()) == line + Unread()
      ensures eof <==> delim !in old(Unread())
      ensures !eof ==> |line| > 0 && line[|line| - 1] == delim && delim !in line[..|line| - 1]
      ensures eof ==> Unread() == []
    {
      var i := IndexByte(buf[off..], delim);
      var end := off + i + 1;
      eof := i == -1;
      if eof {
        end := |buf|;
      }
      line := buf[off..end];
      off := end;
    }
  }

  /** `Next(n)` hands out exactly `Take` and leaves exactly `Drop`. */
  lemma NextIsTake(before: seq<byte>, data: seq<byte>, after: seq<byte>, n: nat)
    requires |data| == Min(n, |before|) && before == data + after
    ensures data == Take(before, n) && after == Drop(before, n)
  {
    assert before[..|data|] == data;
  }

  /** `ReadBytes` hands out exactly `LineLength` bytes. */
  lemma ReadBytesIsLine(before: seq<byte>, line: seq<byte>, after: seq<byte>, eof: bool, c: byte)
    requires before == line + after
    requires eof <==> c !in before
    requires !eof ==> |line| > 0 && line[|line| - 1] == c && c !in line[..|line| - 1]
    requires eof ==> after == []
    ensures line == before[..LineLength(before, c)] && after == before[LineLength(before, c)..]
  {
    if !eof {
      assert before[..|line| - 1] == line[..|line| - 1];
      IndexByteIsFirst(before, c, |line| - 1);
    }
    assert before[..|line|] == line;
  }
}
