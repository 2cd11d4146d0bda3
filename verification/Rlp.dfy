/**
 Recursive Length Prefix encoding (Appendix B of the Ethereum Yellow Paper): the encoding rule as
 the Python scripts write it, the primitive encoders of the Rust code, and the strict decoders.
 */
module Rlp {
  import opened MachineInts

  type Byte = b: nat | b < 256
  type Bytes = seq<Byte>

  // ----- Big-endian integers ----------------------------------------------------------------

  /** The shortest big-endian form; zero is the empty string. */
  function BigEndian(n: nat): (b: Bytes) {
    if n == 0 then [] else BigEndian(n / 256) + [n % 256]
  }

  function FromBigEndian(b: Bytes): nat {
    if b == [] then 0 else FromBigEndian(b[..|b| - 1]) * 256 + b[|b| - 1]
  }

  function Pow256(k: nat): nat { if k == 0 then 1 else 256 * Pow256(k - 1) }

  lemma {:induction false} FromToBigEndian(n: nat)
    ensures FromBigEndian(BigEndian(n)) == n
  {
    if n > 0 {
      FromToBigEndian(n / 256);
      assert BigEndian(n)[..|BigEndian(n)| - 1] == BigEndian(n / 256);
    }
  }

  /** Only strings without a leading zero are somebody's shortest form. */
  lemma {:induction false} ToFromBigEndian(b: Bytes)
    requires b != [] ==> b[0] != 0
    ensures BigEndian(FromBigEndian(b)) == b
    ensures b != [] ==> FromBigEndian(b) > 0
  {
    if b != [] {
      var head := b[..|b| - 1];
      ToFromBigEndian(head);
      assert b == head + [b[|b| - 1]];
      assert FromBigEndian(b) / 256 == FromBigEndian(head) && FromBigEndian(b) % 256 == b[|b| - 1];
    }
  }

  lemma {:induction false} BigEndianShape(n: nat)
    ensures BigEndian(n) == [] <==> n == 0
    ensures n > 0 ==> BigEndian(n)[0] != 0
    ensures 0 < n < 256 ==> BigEndian(n) == [n]
  {
    if n > 0 { BigEndianShape(n / 256); }
  }

  lemma {:induction false} BigEndianLength(n: nat, k: nat)
    ensures |BigEndian(n)| <= k <==> n < Pow256(k)
  {
    if k == 0 {
      BigEndianShape(n);
    } else if n > 0 {
      BigEndianLength(n / 256, k - 1);
    } else {
      Pow256Positive(k);
    }
  }

  lemma {:induction false} Pow256Positive(k: nat)
    ensures Pow256(k) > 0
  {
    if k > 0 { Pow256Positive(k - 1); }
  }

  lemma {:induction false} FromBigEndianBound(b: Bytes)
    ensures FromBigEndian(b) < Pow256(|b|)
  {
    if b != [] { FromBigEndianBound(b[..|b| - 1]); }
  }

  lemma Pow256Of8()
    ensures Pow256(8) == TWO_64
  {
    assert Pow256(4) == 0x1_0000_0000;
    assert Pow256(5) == 256 * Pow256(4);
    assert Pow256(6) == 256 * Pow256(5);
    assert Pow256(7) == 256 * Pow256(6);
    assert Pow256(8) == 256 * Pow256(7);
  }

  lemma {:induction false} Pow256Add(a: nat, b: nat)
    ensures Pow256(a + b) == Pow256(a) * Pow256(b)
  {
    if a > 0 {
      Pow256Add(a - 1, b);
      assert Pow256(a + b) == 256 * Pow256(a - 1 + b);
      assert Pow256(a) * Pow256(b) == 256 * (Pow256(a - 1) * Pow256(b));
    }
  }

  lemma Pow256Of32()
    ensures Pow256(32) == U256_MAX + 1
  {
    Pow256Of8();
    Pow256Add(8, 8);
    Pow256Add(16, 16);
  }

  /** A length below 2^64 has at most eight digits. */
  lemma LengthDigits(n: nat)
    requires n < TWO_64
    ensures |BigEndian(n)| <= 8
  {
    Pow256Of8();
    BigEndianLength(n, 8);
  }

  // ----- The encoding rule (scripts) --------------------------------------------------------

  function LengthPrefix(length: nat, offset: nat): Bytes
    requires length < TWO_64 && offset <= 0xC0
  {
    LengthDigits(length);
    if length < 56 then [offset + length]
    else [offset + 55 + |BigEndian(length)|] + BigEndian(length)
  }

  function RlpString(item: Bytes): Bytes
    requires |item| < TWO_64
  {
    if |item| == 1 && item[0] < 0x80 then item else LengthPrefix(|item|, 0x80) + item
  }

  function JoinStrings(items: seq<Bytes>): Bytes
    requires forall item <- items :: |item| < TWO_64
  {
    if items == [] then [] else RlpString(items[0]) + JoinStrings(items[1..])
  }

  function RlpList(items: seq<Bytes>): Bytes
    requires forall item <- items :: |item| < TWO_64
    requires |JoinStrings(items)| < TWO_64
  {
    LengthPrefix(|JoinStrings(items)|, 0xC0) + JoinStrings(items)
  }

  // ----- Encoders of the Rust code ----------------------------------------------------------

  datatype Header = Header(list: bool, payloadLength: nat)

  function EncodeHeader(h: Header): Bytes
    requires h.payloadLength < TWO_64
  {
    LengthDigits(h.payloadLength);
    if h.payloadLength < 56 then [(if h.list then 0xC0 else 0x80) + h.payloadLength]
    else [(if h.list then 0xF7 else 0xB7) + |BigEndian(h.payloadLength)|] + BigEndian(h.payloadLength)
  }

  /** `u64::encode` and `U256::encode`: zero, one small byte, or a short string of digits. */
  function EncodeUint(n: nat): Bytes
    requires |BigEndian(n)| <= 32
  {
    if n == 0 then [0x80]
    else if n < 0x80 then [n]
    else [0x80 + |BigEndian(n)|] + BigEndian(n)
  }

  /** `[u8]::encode`, which byte strings and addresses share. */
  function EncodeBytes(b: Bytes): Bytes
    requires |b| < TWO_64
  {
    if |b| != 1 || b[0] >= 0x80 then EncodeHeader(Header(false, |b|)) + b else b
  }

  function HeaderLength(payloadLength: nat): nat {
    if payloadLength < 56 then 1 else 1 + |BigEndian(payloadLength)|
  }

  function UintLength(n: nat): nat { if n < 0x80 then 1 else 1 + |BigEndian(n)| }

  function BytesLength(b: Bytes): nat {
    if |b| == 1 && b[0] < 0x80 then 1 else HeaderLength(|b|) + |b|
  }

  /** The Rust encoders produce what the rule says, and the length functions count it. */
  lemma EncodersFollowTheRule(n: nat, b: Bytes)
    requires |BigEndian(n)| <= 32 && |b| < TWO_64
    ensures EncodeUint(n) == RlpString(BigEndian(n)) == EncodeBytes(BigEndian(n))
    ensures EncodeBytes(b) == RlpString(b)
    ensures |EncodeUint(n)| == UintLength(n) && |EncodeBytes(b)| == BytesLength(b)
    ensures |EncodeHeader(Header(true, |b|))| == HeaderLength(|b|)
  {
    BigEndianShape(n);
    if n >= 256 {
      BigEndianLength(n, 1);
    }
  }

  // ----- Strict decoders --------------------------------------------------------------------

  datatype Error =
    | InputTooShort | NonCanonicalSingleByte | NonCanonicalSize | LeadingZero | Overflow
    | UnexpectedString | UnexpectedList | UnexpectedLength | ListLengthMismatch(expected: nat, got: int)
    | UnexpectedType(ty: Byte)

  /** A decoded value and the input it leaves. */
  type Decoded<T> = Result<(T, Bytes), Error>

  function WithPayload(h: Header, rest: Bytes): Decoded<Header> {
    if |rest| < h.payloadLength then Err(InputTooShort) else Ok((h, rest))
  }

  function DecodeLongHeader(list: bool, digits: nat, rest: Bytes): Decoded<Header>
    requires 0 < digits
  {
    if |rest| < digits then Err(InputTooShort)
    else if rest[0] == 0 then Err(LeadingZero)
    else
      var length := FromBigEndian(rest[..digits]);
      if length < 56 then Err(NonCanonicalSize)
      else WithPayload(Header(list, length), rest[digits..])
  }

  /** A single byte below 0x80 is its own payload and is not consumed here. */
  function DecodeHeader(buf: Bytes): Decoded<Header> {
    if buf == [] then Err(InputTooShort)
    else
      var b, rest := buf[0], buf[1..];
      if b < 0x80 then Ok((Header(false, 1), buf))
      else if b < 0xB8 then
        if b == 0x81 && rest == [] then Err(InputTooShort)
        else if b == 0x81 && rest[0] < 0x80 then Err(NonCanonicalSingleByte)
        else WithPayload(Header(false, b - 0x80), rest)
      else if b < 0xC0 then DecodeLongHeader(false, b - 0xB7, rest)
      else if b < 0xF8 then WithPayload(Header(true, b - 0xC0), rest)
      else DecodeLongHeader(true, b - 0xF7, rest)
  }

  function DecodeBytes(buf: Bytes): Decoded<Bytes> {
    match DecodeHeader(buf)
    case Err(e) => Err(e)
    case Ok((h, rest)) =>
      if h.list then Err(UnexpectedList)
      else
        DecodedHeaderFits(buf);
        Ok((rest[..h.payloadLength], rest[h.payloadLength..]))
  }

  function DecodeUint(buf: Bytes, width: nat): Decoded<nat> {
    match DecodeBytes(buf)
    case Err(e) => Err(e)
    case Ok((digits, rest)) =>
      if |digits| > width then Err(Overflow)
      else if digits != [] && digits[0] == 0 then Err(LeadingZero)
      else Ok((FromBigEndian(digits), rest))
  }

  function DecodeFixed(buf: Bytes, width: nat): Decoded<Bytes> {
    match DecodeBytes(buf)
    case Err(e) => Err(e)
    case Ok((b, rest)) => if |b| != width then Err(UnexpectedLength) else Ok((b, rest))
  }

  lemma DecodedHeaderFits(buf: Bytes)
    ensures DecodeHeader(buf).Ok? ==> DecodeHeader(buf).value.0.payloadLength <= |DecodeHeader(buf).value.1|
  {
  }

  // ----- Decoding inverts encoding, and nothing else decodes ---------------------------------

  lemma LongHeaderRoundTrip(list: bool, length: nat, rest: Bytes)
    requires 56 <= length < TWO_64 && length <= |rest|
    ensures 0 < |BigEndian(length)| <= 8
    ensures DecodeLongHeader(list, |BigEndian(length)|, BigEndian(length) + rest) == Ok((Header(list, length), rest))
  {
    var digits := BigEndian(length);
    LengthDigits(length);
    BigEndianShape(length);
    FromToBigEndian(length);
    assert (digits + rest)[..|digits|] == digits && (digits + rest)[|digits|..] == rest;
  }

  lemma TailOf(first: Byte, middle: Bytes, rest: Bytes)
    ensures ([first] + middle + rest)[0] == first && ([first] + middle + rest)[1..] == middle + rest
  {
  }

  lemma ShortHeaderRoundTrip(h: Header, rest: Bytes)
    requires h.payloadLength < 56 && h.payloadLength <= |rest|
    requires !h.list && h.payloadLength == 1 ==> rest[0] >= 0x80
    ensures DecodeHeader(EncodeHeader(h) + rest) == Ok((h, rest))
  {
    var buf := EncodeHeader(h) + rest;
    assert buf[1..] == rest;
  }

  /** Every header but that of a single small byte is read back, when its payload is there. */
  lemma HeaderRoundTrip(h: Header, rest: Bytes)
    requires h.payloadLength < TWO_64 && h.payloadLength <= |rest|
    requires !h.list && h.payloadLength == 1 ==> rest[0] >= 0x80
    ensures DecodeHeader(EncodeHeader(h) + rest) == Ok((h, rest))
  {
    if h.payloadLength < 56 {
      ShortHeaderRoundTrip(h, rest);
    } else {
      LongHeaderRoundTrip(h.list, h.payloadLength, rest);
      LengthDigits(h.payloadLength);
      var digits := BigEndian(h.payloadLength);
      var first := (if h.list then 0xF7 else 0xB7) + |digits|;
      assert EncodeHeader(h) == [first] + digits;
      TailOf(first, digits, rest);
    }
  }

  lemma LongHeaderCanonical(list: bool, digits: nat, rest: Bytes)
    requires 0 < digits <= 8 && DecodeLongHeader(list, digits, rest).Ok?
    ensures var (h, rest') := DecodeLongHeader(list, digits, rest).value;
            && h.list == list && 56 <= h.payloadLength < TWO_64
            && rest == BigEndian(h.payloadLength) + rest' && |BigEndian(h.payloadLength)| == digits
  {
    var d := rest[..digits];
    ToFromBigEndian(d);
    FromBigEndianBound(d);
    assert BigEndian(FromBigEndian(d)) == d;
    BigEndianLength(FromBigEndian(d), 8);
    Pow256Of8();
    assert rest == d + rest[digits..];
  }

  lemma LongCanonical(buf: Bytes)
    requires DecodeHeader(buf).Ok? && (0xB8 <= buf[0] < 0xC0 || 0xF8 <= buf[0])
    ensures var (h, rest) := DecodeHeader(buf).value;
            && 56 <= h.payloadLength < TWO_64 && h.payloadLength <= |rest| && buf == EncodeHeader(h) + rest
  {
    var b, tail := buf[0], buf[1..];
    assert buf == [b] + tail;
    var (h, rest) := DecodeHeader(buf).value;
    LongHeaderCanonical(0xF8 <= b, if b < 0xC0 then b - 0xB7 else b - 0xF7, tail);
    LengthDigits(h.payloadLength);
    Grouped([b], BigEndian(h.payloadLength), rest);
    assert EncodeHeader(h) == [b] + BigEndian(h.payloadLength);
  }

  lemma ShortCanonical(buf: Bytes)
    requires DecodeHeader(buf).Ok? && 0x80 <= buf[0] && !(0xB8 <= buf[0] < 0xC0 || 0xF8 <= buf[0])
    ensures var (h, rest) := DecodeHeader(buf).value;
            && h.payloadLength < 56 && h.payloadLength <= |rest| && buf == EncodeHeader(h) + rest
            && (h == Header(false, 1) ==> rest[0] >= 0x80)
  {
    assert buf == [buf[0]] + buf[1..];
  }

  /** A header that decodes is the one encoding of itself, or a single small byte. */
  lemma HeaderCanonical(buf: Bytes)
    requires DecodeHeader(buf).Ok?
    ensures var (h, rest) := DecodeHeader(buf).value;
            && h.payloadLength < TWO_64 && h.payloadLength <= |rest|
            && if buf[0] < 0x80 then h == Header(false, 1) && rest == buf
               else buf == EncodeHeader(h) + rest && (h == Header(false, 1) ==> rest[0] >= 0x80)
  {
    if 0xB8 <= buf[0] < 0xC0 || 0xF8 <= buf[0] {
      LongCanonical(buf);
    } else if 0x80 <= buf[0] {
      ShortCanonical(buf);
    }
  }

  lemma SplitAt(b: Bytes, suffix: Bytes)
    ensures (b + suffix)[..|b|] == b && (b + suffix)[|b|..] == suffix
  {
  }

  lemma BytesRoundTrip(b: Bytes, suffix: Bytes)
    requires |b| < TWO_64
    ensures DecodeBytes(EncodeBytes(b) + suffix) == Ok((b, suffix))
  {
    SplitAt(b, suffix);
    if |b| == 1 && b[0] < 0x80 {
      assert EncodeBytes(b) == b;
    } else {
      var header := EncodeHeader(Header(false, |b|));
      HeaderRoundTrip(Header(false, |b|), b + suffix);
      Grouped(header, b, suffix);
      assert EncodeBytes(b) == header + b;
    }
  }

  lemma Grouped(a: Bytes, b: Bytes, c: Bytes)
    ensures a + b + c == a + (b + c)
  {
  }

  lemma BytesCanonical(buf: Bytes)
    requires DecodeBytes(buf).Ok?
    ensures var (b, suffix) := DecodeBytes(buf).value;
            |b| < TWO_64 && buf == EncodeBytes(b) + suffix
  {
    HeaderCanonical(buf);
    var (h, rest) := DecodeHeader(buf).value;
    var b, suffix := rest[..h.payloadLength], rest[h.payloadLength..];
    assert rest == b + suffix;
    if buf[0] >= 0x80 {
      assert buf == (EncodeHeader(h) + b) + suffix;
      if |b| == 1 { assert b[0] == rest[0] >= 0x80; }
    }
  }

  lemma UintRoundTrip(n: nat, width: nat, suffix: Bytes)
    requires width <= 32 && n < Pow256(width)
    ensures |BigEndian(n)| <= width
    ensures DecodeUint(EncodeUint(n) + suffix, width) == Ok((n, suffix))
  {
    BigEndianLength(n, width);
    EncodersFollowTheRule(n, []);
    BytesRoundTrip(BigEndian(n), suffix);
    BigEndianShape(n);
    FromToBigEndian(n);
  }

  lemma UintCanonical(buf: Bytes, width: nat)
    requires width <= 32 && DecodeUint(buf, width).Ok?
    ensures var (n, suffix) := DecodeUint(buf, width).value;
            n < Pow256(width) && |BigEndian(n)| <= width && buf == EncodeUint(n) + suffix
  {
    BytesCanonical(buf);
    var (digits, suffix) := DecodeBytes(buf).value;
    ToFromBigEndian(digits);
    BigEndianLength(FromBigEndian(digits), width);
    EncodersFollowTheRule(FromBigEndian(digits), []);
  }
}
