/** The parts of Go's text handling the core relies on: `string(b)` on a byte
    slice, `fmt.Sprint` of non-negative integers and booleans, and
    `strings.Split` / `strings.Join` with a non-empty separator.
    A Go string is a sequence of bytes; here it is a Dafny `string` whose
    characters carry the byte values. */
module GoStrings {
  import opened GoBytes

  /** `string(b)`: the bytes of `b`, one character each. */
  function ByteText(b: seq<byte>): (s: string)
    ensures |s| == |b|
    ensures forall k :: 0 <= k < |b| ==> s[k] as int == b[k]
  {
    if |b| == 0 then "" else ByteText(b[..|b| - 1]) + [b[|b| - 1] as char]
  }

  predicate IsDigit(c: char) { '0' <= c <= '9' }

  function DigitChar(d: nat): (c: char)
    requires d < 10
    ensures IsDigit(c) && c as int - '0' as int == d
  {
    ('0' as int + d) as char
  }

  /** `fmt.Sprint(n)` for a non-negative integer: its decimal digits. */
  function Decimal(n: nat): (s: string)
    ensures |s| > 0
    ensures forall k :: 0 <= k < |s| ==> IsDigit(s[k])
    ensures s[0] == '0' ==> n == 0 && s == "0"
  {
    if n < 10 then [DigitChar(n)] else Decimal(n / 10) + [DigitChar(n % 10)]
  }

  function DigitValue(c: char): nat
    requires IsDigit(c)
  {
    c as int - '0' as int
  }

  /** The number a string of decimal digits denotes (the reader's side of
      `Decimal`). */
  function DecimalValue(s: string): nat
    requires forall k :: 0 <= k < |s| ==> IsDigit(s[k])
  {
    if |s| == 0 then 0
    else DecimalValue(s[..|s| - 1]) * 10 + DigitValue(s[|s| - 1])
  }

  /** The text `fmt.Sprint` gives a number reads back as that number, so the
      decimal rendering in the rules map loses nothing. */
  lemma {:induction false} DecimalRoundTrip(n: nat)
    ensures DecimalValue(Decimal(n)) == n
  {
    if n >= 10 {
      var s := Decimal(n);
      assert s[..|s| - 1] == Decimal(n / 10);
      DecimalRoundTrip(n / 10);
    }
  }

  /** Different numbers render differently. */
  lemma DecimalInjective(m: nat, n: nat)
    requires Decimal(m) == Decimal(n)
    ensures m == n
  {
    DecimalRoundTrip(m);
    DecimalRoundTrip(n);
  }

  /** `fmt.Sprint(b)` for a boolean. */
  function BoolText(b: bool): string
  {
    if b then "true" else "false"
  }

  /** `sub` occurs in `s` at index `i`. */
  ghost predicate OccursAt(s: string, sub: string, i: int)
  {
    0 <= i && i + |sub| <= |s| && s[i..i + |sub|] == sub
  }

  /** `strings.Contains(s, sub)`. */
  ghost predicate Contains(s: string, sub: string)
  {
    exists i :: OccursAt(s, sub, i)
  }

  lemma OccursAtTail(s: string, sub: string, i: int)
    requires |s| > 0 && i >= 0
    ensures OccursAt(s[1..], sub, i) <==> OccursAt(s, sub, i + 1)
  {
    if 0 <= i && i + 1 + |sub| <= |s| {
      assert s[1..][i..i + |sub|] == s[i + 1..i + 1 + |sub|];
    }
  }

  /** `strings.Index(s, sep)`: where `sep` first occurs in `s`, or -1. */
  function Index(s: string, sep: string): (i: int)
    requires |sep| > 0
    ensures i == -1 || OccursAt(s, sep, i)
  {
    if |s| < |sep| then -1
    else if s[..|sep|] == sep then 0
    else
      var j := Index(s[1..], sep);
      if j == -1 then -1
      else
        OccursAtTail(s, sep, j);
        j + 1
  }

  /** `Index` finds the first occurrence, and -1 means there is none. */
  lemma {:induction false} IndexIsFirst(s: string, sep: string)
    requires |sep| > 0
    ensures Index(s, sep) == -1 <==> !Contains(s, sep)
    ensures forall j :: 0 <= j < Index(s, sep) ==> !OccursAt(s, sep, j)
    decreases |s|
  {
    if |s| < |sep| {
      assert forall k :: !OccursAt(s, sep, k);
    } else if s[..|sep|] == sep {
      assert OccursAt(s, sep, 0);
    } else {
      IndexIsFirst(s[1..], sep);
      assert !OccursAt(s, sep, 0);
      forall k | 0 <= k
        ensures OccursAt(s[1..], sep, k) <==> OccursAt(s, sep, k + 1)
      {
        OccursAtTail(s, sep, k);
      }
      var j := Index(s[1..], sep);
      if j == -1 {
        assert forall k :: OccursAt(s, sep, k) ==> k >= 1 && OccursAt(s[1..], sep, k - 1);
      } else {
        assert Index(s, sep) == j + 1;
        assert OccursAt(s, sep, j + 1);
        forall k | 0 <= k < j + 1
          ensures !OccursAt(s, sep, k)
        {
          if k > 0 {
            assert !OccursAt(s[1..], sep, k - 1);
          }
        }
      }
    }
  }

  /** `strings.Split(s, sep)` for a non-empty separator. */
  function Split(s: string, sep: string): (parts: seq<string>)
    requires |sep| > 0
    ensures |parts| >= 1
    decreases |s|
  {
    var i := Index(s, sep);
    if i == -1 then [s] else [s[..i]] + Split(s[i + |sep|..], sep)
  }

  /** The source asks whether `s` holds no `sep` by
      `len(strings.Split(s, sep)) == 1`: the two are the same question. */
  lemma SplitSingle(s: string, sep: string)
    requires |sep| > 0
    ensures |Split(s, sep)| == 1 <==> !Contains(s, sep)
  {
    IndexIsFirst(s, sep);
  }

  /** `strings.Join(parts, sep)`. */
  function Join(parts: seq<string>, sep: string): string
  {
    if |parts| == 0 then ""
    else if |parts| == 1 then parts[0]
    else parts[0] + sep + Join(parts[1..], sep)
  }

  /** One step of a split: the text up to the first separator, then the
      split of what follows it. */
  lemma SplitStep(s: string, sep: string, i: int)
    requires |sep| > 0 && i == Index(s, sep) && i != -1
    ensures Split(s, sep) == [s[..i]] + Split(s[i + |sep|..], sep)
  {
  }

  /** Joining a first piece onto a non-empty rest puts the separator between. */
  lemma JoinCons(head: string, tail: seq<string>, sep: string)
    requires |tail| > 0
    ensures Join([head] + tail, sep) == head + sep + Join(tail, sep)
  {
    var parts := [head] + tail;
    assert parts[0] == head && parts[1..] == tail;
  }

  /** The text around an occurrence of the separator. */
  lemma AroundOccurrence(s: string, sep: string, i: int)
    requires OccursAt(s, sep, i)
    ensures s == s[..i] + sep + s[i + |sep|..]
  {
    assert s == s[..i] + s[i..i + |sep|] + s[i + |sep|..];
  }

  /** Joining the pieces of a split restores the original string. */
  lemma {:induction false} JoinSplit(s: string, sep: string)
    requires |sep| > 0
    ensures Join(Split(s, sep), sep) == s
    decreases |s|
  {
    var i := Index(s, sep);
    if i != -1 {
      var rest := s[i + |sep|..];
      SplitStep(s, sep, i);
      assert OccursAt(s, sep, i);
      AroundOccurrence(s, sep, i);
      JoinSplit(rest, sep);
      JoinCons(s[..i], Split(rest, sep), sep);
    }
  }
}
