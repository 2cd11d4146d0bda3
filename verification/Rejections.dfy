/** What the strict decoders answer to input that is not an encoding: which error, for which defect. */
module Rejections {
  import opened MachineInts
  import opened Rlp
  import opened L1Message

  // ----- Headers ----------------------------------------------------------------------------------

  /** A single small byte must stand for itself. */
  lemma SmallByteInLongForm(x: Byte, rest: Bytes)
    requires x < 0x80
    ensures DecodeHeader([0x81, x] + rest) == Err(NonCanonicalSingleByte)
  {
  }

  /** A length in digits must have no leading zero, and must need its digits. */
  lemma LengthInLongForm(list: bool, digits: Bytes, rest: Bytes)
    requires 0 < |digits| <= 8
    ensures var buf := [(if list then 0xF7 else 0xB7) + |digits|] + digits + rest;
            && (digits[0] == 0 ==> DecodeHeader(buf) == Err(LeadingZero))
            && (digits[0] != 0 && FromBigEndian(digits) < 56 ==> DecodeHeader(buf) == Err(NonCanonicalSize))
  {
    var first := (if list then 0xF7 else 0xB7) + |digits|;
    TailOf(first, digits, rest);
    SplitAt(digits, rest);
  }

  lemma PrefixOf(a: Bytes, b: Bytes, k: nat)
    requires k <= |a| + |b|
    ensures (a + b)[..k] == if k <= |a| then a[..k] else a + b[..k - |a|]
  {
  }

  /** A header whose payload is not all there is too short, and so is a part of a header. */
  lemma TruncatedHeader(h: Header, payload: Bytes, k: nat)
    requires h.payloadLength == |payload| < TWO_64 && k < |EncodeHeader(h)| + |payload|
    requires !h.list && |payload| == 1 ==> payload[0] >= 0x80
    ensures DecodeHeader((EncodeHeader(h) + payload)[..k]) == Err(InputTooShort)
  {
    var header := EncodeHeader(h);
    LengthDigits(|payload|);
    PrefixOf(header, payload, k);
    if |payload| < 56 {
      if k > 0 { assert (header + payload)[..k][1..] == payload[..k - 1]; }
    } else {
      TruncatedLongHeader(h, payload, k);
    }
  }

  lemma TruncatedLongHeader(h: Header, payload: Bytes, k: nat)
    requires h.payloadLength == |payload| && 56 <= |payload| < TWO_64 && k < |EncodeHeader(h)| + |payload|
    ensures DecodeHeader((EncodeHeader(h) + payload)[..k]) == Err(InputTooShort)
  {
    var digits := BigEndian(|payload|);
    LengthDigits(|payload|);
    var first := (if h.list then 0xF7 else 0xB7) + |digits|;
    assert EncodeHeader(h) == [first] + digits;
    if k > 0 {
      Grouped([first], digits, payload);
      PrefixOf([first], digits + payload, k);
      FirstOf(first, (digits + payload)[..k - 1]);
      TruncatedDigits(h.list, payload, k - 1);
    }
  }

  lemma FirstOf(first: Byte, rest: Bytes)
    ensures ([first] + rest)[0] == first && ([first] + rest)[1..] == rest
  {
  }

  lemma TruncatedDigits(list: bool, payload: Bytes, k: nat)
    requires 56 <= |payload| < TWO_64 && k < |BigEndian(|payload|)| + |payload|
    ensures 0 < |BigEndian(|payload|)| <= 8
    ensures DecodeLongHeader(list, |BigEndian(|payload|)|, (BigEndian(|payload|) + payload)[..k]) == Err(InputTooShort)
  {
    var digits := BigEndian(|payload|);
    LengthDigits(|payload|);
    BigEndianShape(|payload|);
    FromToBigEndian(|payload|);
    PrefixOf(digits, payload, k);
    if k >= |digits| { SplitAt(digits, payload[..k - |digits|]); }
  }

  // ----- Fields ------------------------------------------------------------------------------------

  /** An integer field with too many digits overflows; one with a leading zero is refused. */
  lemma BadInteger(b: Bytes, width: nat, suffix: Bytes)
    requires |b| < TWO_64
    ensures |b| > width ==> DecodeUint(EncodeBytes(b) + suffix, width) == Err(Overflow)
    ensures |b| <= width && b != [] && b[0] == 0 ==> DecodeUint(EncodeBytes(b) + suffix, width) == Err(LeadingZero)
  {
    BytesRoundTrip(b, suffix);
  }

  /** An address must have its length. */
  lemma BadAddress(b: Bytes, suffix: Bytes)
    requires |b| < TWO_64 && |b| != 20
    ensures DecodeFixed(EncodeBytes(b) + suffix, 20) == Err(UnexpectedLength)
  {
    BytesRoundTrip(b, suffix);
  }

  /** A list where a string is expected. */
  lemma ListForString(payload: Bytes, suffix: Bytes)
    requires |payload| < TWO_64
    ensures DecodeBytes(EncodeHeader(Header(true, |payload|)) + payload + suffix) == Err(UnexpectedList)
  {
    HeaderRoundTrip(Header(true, |payload|), payload + suffix);
    Grouped(EncodeHeader(Header(true, |payload|)), payload, suffix);
  }

  /** The error is that of the first field that does not decode: the fields before it do not hide it. */
  lemma FirstBadFieldIsReported(m: TxL1Message, rest: Bytes)
    requires m.Valid()
    ensures DecodeUint(rest, 8).Err? ==> DecodeFields(rest) == Err(DecodeUint(rest, 8).error)
    ensures |BigEndian(m.queueIndex)| <= 8 && |BigEndian(m.gasLimit)| <= 8
    ensures DecodeUint(rest, 8).Err? ==>
              DecodeFields(EncodeUint(m.queueIndex) + rest) == Err(DecodeUint(rest, 8).error)
    ensures DecodeFixed(rest, 20).Err? ==>
              DecodeFields(EncodeUint(m.queueIndex) + (EncodeUint(m.gasLimit) + rest))
              == Err(DecodeFixed(rest, 20).error)
    ensures DecodeTail(rest).Err? ==>
              DecodeFields(EncodeUint(m.queueIndex) + (EncodeUint(m.gasLimit) + (EncodeBytes(m.to) + rest)))
              == Err(DecodeTail(rest).error)
  {
    FieldDigits(m);
    Pow256Of8();
    UintRoundTrip(m.queueIndex, 8, rest);
    UintRoundTrip(m.gasLimit, 8, rest);
    UintRoundTrip(m.queueIndex, 8, EncodeUint(m.gasLimit) + rest);
    BytesRoundTrip(m.to, rest);
    UintRoundTrip(m.gasLimit, 8, EncodeBytes(m.to) + rest);
    UintRoundTrip(m.queueIndex, 8, EncodeUint(m.gasLimit) + (EncodeBytes(m.to) + rest));
  }

  lemma FirstBadFieldOfTail(m: TxL1Message, rest: Bytes)
    requires m.Valid()
    ensures |BigEndian(m.value)| <= 32
    ensures DecodeUint(rest, 32).Err? ==> DecodeTail(rest) == Err(DecodeUint(rest, 32).error)
    ensures DecodeBytes(rest).Err? ==> DecodeTail(EncodeUint(m.value) + rest) == Err(DecodeBytes(rest).error)
    ensures DecodeFixed(rest, 20).Err? ==>
              DecodeTail(EncodeUint(m.value) + (EncodeBytes(m.input) + rest)) == Err(DecodeFixed(rest, 20).error)
  {
    FieldDigits(m);
    Pow256Of32();
    UintRoundTrip(m.value, 32, rest);
    BytesRoundTrip(m.input, rest);
    UintRoundTrip(m.value, 32, EncodeBytes(m.input) + rest);
  }

  // ----- Messages ---------------------------------------------------------------------------------

  /** Every proper prefix of an encoded message is reported as too short. */
  lemma TruncatedMessage(m: TxL1Message, k: nat)
    requires m.Valid() && k < |Encode(m)|
    ensures Decode(Encode(m)[..k]) == Err(InputTooShort)
  {
    FieldsLengthIsExact(m);
    TruncatedHeader(Header(true, FieldsLength(m)), EncodeFields(m), k);
  }

  lemma Mismatch(m: TxL1Message, suffix: Bytes, announced: nat, length: nat)
    requires announced != length
    ensures ExactPayload(Ok((m, suffix)), announced, length + |suffix|) == Err(ListLengthMismatch(announced, length))
  {
  }

  lemma WrongLengthOf(buf: Bytes, m: TxL1Message, suffix: Bytes, announced: nat, body: Bytes, length: nat)
    requires DecodeHeader(buf) == Ok((Header(true, announced), body))
    requires DecodeFields(body) == Ok((m, suffix)) && |body| == length + |suffix| && announced != length
    ensures Decode(buf) == Err(ListLengthMismatch(announced, length))
  {
    Mismatch(m, suffix, announced, length);
  }

  lemma LengthOfJoined(a: Bytes, b: Bytes)
    ensures |a + b| == |a| + |b|
  {
  }

  /** Well-formed fields under a header that announces another length are reported with both lengths. */
  lemma WrongLengthIsReported(m: TxL1Message, announced: nat, suffix: Bytes)
    requires m.Valid() && announced != |EncodeFields(m)| && announced < TWO_64
    requires announced <= |EncodeFields(m)| + |suffix|
    ensures Decode(EncodeHeader(Header(true, announced)) + (EncodeFields(m) + suffix))
            == Err(ListLengthMismatch(announced, |EncodeFields(m)|))
  {
    var body := EncodeFields(m) + suffix;
    FieldsRoundTrip(m, suffix);
    LengthOfJoined(EncodeFields(m), suffix);
    HeaderRoundTrip(Header(true, announced), body);
    WrongLengthOf(EncodeHeader(Header(true, announced)) + body, m, suffix, announced, body, |EncodeFields(m)|);
  }

  /** Fields that do not decode are reported with their own error. */
  lemma BadFieldsAreReported(announced: nat, body: Bytes)
    requires announced <= |body| && announced < TWO_64 && DecodeFields(body).Err?
    ensures Decode(EncodeHeader(Header(true, announced)) + body) == Err(DecodeFields(body).error)
  {
    HeaderRoundTrip(Header(true, announced), body);
  }

  /** A string is no message, whatever follows it. */
  lemma StringIsReported(b: Bytes, suffix: Bytes)
    requires |b| < TWO_64
    ensures Decode(EncodeBytes(b) + suffix) == Err(UnexpectedString)
  {
    BytesRoundTrip(b, suffix);
    if |b| == 1 && b[0] < 0x80 {
      assert (EncodeBytes(b) + suffix)[0] == b[0];
    } else {
      HeaderRoundTrip(Header(false, |b|), b + suffix);
      Grouped(EncodeHeader(Header(false, |b|)), b, suffix);
    }
  }

  /** A first byte up to 0x7f is a type, and every type but the L1 message's is reported. */
  lemma OtherTypeIsReported(ty: Byte, rest: Bytes)
    requires ty <= 0x7F && ty != 0x7E
    ensures Decode2718([ty] + rest) == Err(UnexpectedType(ty))
  {
  }

  lemma NothingIsTooShort()
    ensures Decode([]) == Err(InputTooShort) && Decode2718([]) == Err(InputTooShort)
  {
  }
}
