// Parsing byte buffers piece by piece, and little-endian numbers.

module Combinators {
  import opened Types

  // Each combinator splits the buffer into what it consumed and the rest.

  function Tag(buf: seq<byte>, tag: seq<byte>): Option<(seq<byte>, seq<byte>)> {
    if |buf| >= |tag| && buf[..|tag|] == tag then Some((buf[|tag|..], buf[..|tag|])) else None
  }

  function U8(buf: seq<byte>): Option<(seq<byte>, byte)> {
    if |buf| > 0 then Some((buf[1..], buf[0])) else None
  }

  const U64_SIZE := 8

  function U64Le(buf: seq<byte>): Option<(seq<byte>, u64)> {
    if |buf| >= U64_SIZE then Some((buf[U64_SIZE..], FromLeBytes(buf[..U64_SIZE]))) else None
  }

  function Take(buf: seq<byte>, n: nat): Option<(seq<byte>, seq<byte>)> {
    if |buf| >= n then Some((buf[n..], buf[..n])) else None
  }

  // Little-endian numbers of k bytes.

  function Power256(k: nat): (r: nat)
    ensures r > 0
  {
    if k == 0 then 1 else 0x100 * Power256(k - 1)
  }

  function LeValue(bytes: seq<byte>): nat {
    if bytes == [] then 0 else bytes[0] + 0x100 * LeValue(bytes[1..])
  }

  function LeDigits(n: nat, k: nat): (r: seq<byte>)
    ensures |r| == k
  {
    if k == 0 then [] else [n % 0x100] + LeDigits(n / 0x100, k - 1)
  }

  lemma {:induction false} LeValueBound(bytes: seq<byte>)
    ensures LeValue(bytes) < Power256(|bytes|)
  {
    if bytes != [] {
      LeValueBound(bytes[1..]);
    }
  }

  lemma {:induction false} LeInverse(n: nat, k: nat)
    requires n < Power256(k)
    ensures LeValue(LeDigits(n, k)) == n
  {
    if k > 0 {
      LeInverse(n / 0x100, k - 1);
      assert LeDigits(n, k)[1..] == LeDigits(n / 0x100, k - 1);
    }
  }

  lemma {:induction false} LeInverseBytes(bytes: seq<byte>)
    ensures LeDigits(LeValue(bytes), |bytes|) == bytes
  {
    if bytes != [] {
      LeInverseBytes(bytes[1..]);
      DigitSplit(bytes[0], LeValue(bytes[1..]));
      assert bytes == [bytes[0]] + bytes[1..];
    }
  }

  lemma DigitSplit(digit: byte, rest: nat)
    ensures (digit + 0x100 * rest) % 0x100 == digit
    ensures (digit + 0x100 * rest) / 0x100 == rest
  {
  }

  function FromLeBytes(bytes: seq<byte>): u64
    requires |bytes| == U64_SIZE
  {
    LeValueBound(bytes);
    LeValue(bytes)
  }

  function ToLeBytes(n: u64): seq<byte> {
    LeDigits(n, U64_SIZE)
  }

  // Reading the eight bytes of any 64-bit number gives that number back, and
  // whatever is read was written by that number.
  lemma U64LeRoundTrip(n: u64, rest: seq<byte>)
    ensures U64Le(ToLeBytes(n) + rest) == Some((rest, n))
  {
    LeInverse(n, U64_SIZE);
    assert (ToLeBytes(n) + rest)[..U64_SIZE] == ToLeBytes(n);
  }

  lemma U64LeDeterminesBytes(buf: seq<byte>)
    requires |buf| >= U64_SIZE
    ensures buf == ToLeBytes(U64Le(buf).value.1) + U64Le(buf).value.0
  {
    LeInverseBytes(buf[..U64_SIZE]);
  }

  // The first byte counts ones, the next one multiples of 256, and so on.
  lemma U64LittleEndian(buf: seq<byte>)
    requires |buf| >= 8
    ensures U64Le(buf).Some? && U64Le(buf).value.0 == buf[8..]
    ensures U64Le(buf).value.1 as int ==
            buf[0] as int
            + 0x100 * (buf[1] as int)
            + 0x1_0000 * (buf[2] as int)
            + 0x100_0000 * (buf[3] as int)
            + 0x1_0000_0000 * (buf[4] as int)
            + 0x100_0000_0000 * (buf[5] as int)
            + 0x1_0000_0000_0000 * (buf[6] as int)
            + 0x100_0000_0000_0000 * (buf[7] as int)
  {
    LeValueOfEight(buf[..8]);
  }

  lemma LeValueOfEight(bytes: seq<byte>)
    requires |bytes| == 8
    ensures LeValue(bytes) ==
            bytes[0] as int
            + 0x100 * (bytes[1] as int)
            + 0x1_0000 * (bytes[2] as int)
            + 0x100_0000 * (bytes[3] as int)
            + 0x1_0000_0000 * LeValue(bytes[4..])
    ensures LeValue(bytes[4..]) ==
            bytes[4] as int
            + 0x100 * (bytes[5] as int)
            + 0x1_0000 * (bytes[6] as int)
            + 0x100_0000 * (bytes[7] as int)
  {
    assert bytes[0..] == bytes;
    LeValueStep(bytes, 0);
    LeValueStep(bytes, 1);
    LeValueStep(bytes, 2);
    LeValueStep(bytes, 3);
    LeValueStep(bytes, 4);
    LeValueStep(bytes, 5);
    LeValueStep(bytes, 6);
    LeValueStep(bytes, 7);
  }

  lemma LeValueStep(bytes: seq<byte>, k: nat)
    requires k < |bytes|
    ensures LeValue(bytes[k..]) == bytes[k] as int + 0x100 * LeValue(bytes[k + 1..])
  {
    assert bytes[k..][1..] == bytes[k + 1..];
  }
}
