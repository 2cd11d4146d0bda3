/** The L1 message transaction and its RLP and EIP-2718 forms. */
module L1Message {
  import opened MachineInts
  import opened Rlp

  const L1_MESSAGE_TRANSACTION_TYPE: Byte := 126

  type Address = a: Bytes | |a| == 20 witness seq(20, _ => 0)

  /** The fields in the order of the struct; the encoded order is another. */
  datatype TxL1Message = TxL1Message(
    queueIndex: U64, gasLimit: U64, to: Address, value: U256, sender: Address, input: Bytes)
  {
    /** A byte string in memory is shorter than 2^63. */
    predicate Valid() { |input| < 0x8000_0000_0000_0000 }
  }

  lemma FieldDigits(m: TxL1Message)
    ensures |BigEndian(m.queueIndex)| <= 8 && |BigEndian(m.gasLimit)| <= 8 && |BigEndian(m.value)| <= 32
  {
    LengthDigits(m.queueIndex);
    LengthDigits(m.gasLimit);
    Pow256Of32();
    BigEndianLength(m.value, 32);
  }

  // ----- Encoders ---------------------------------------------------------------------------

  function EncodeFields(m: TxL1Message): Bytes
    requires m.Valid()
  {
    FieldDigits(m);
    EncodeUint(m.queueIndex) + (EncodeUint(m.gasLimit) + (EncodeBytes(m.to) + EncodeTail(m)))
  }

  /** The fields from `value` on. */
  function EncodeTail(m: TxL1Message): Bytes
    requires m.Valid()
  {
    FieldDigits(m);
    EncodeUint(m.value) + (EncodeBytes(m.input) + EncodeBytes(m.sender))
  }

  /** `rlp_encoded_fields_length`. */
  function FieldsLength(m: TxL1Message): nat {
    UintLength(m.queueIndex) + UintLength(m.gasLimit) + BytesLength(m.to)
    + UintLength(m.value) + BytesLength(m.input) + BytesLength(m.sender)
  }

  /** The fields are as long as the length function says, and fit a 64-bit payload length. */
  lemma FieldsLengthIsExact(m: TxL1Message)
    requires m.Valid()
    ensures |EncodeFields(m)| == FieldsLength(m) < TWO_64
  {
    FieldDigits(m);
    EncodersFollowTheRule(m.queueIndex, m.to);
    EncodersFollowTheRule(m.gasLimit, m.input);
    EncodersFollowTheRule(m.value, m.sender);
    LengthDigits(|m.input|);
  }

  function Encode(m: TxL1Message): Bytes
    requires m.Valid()
  {
    FieldsLengthIsExact(m);
    EncodeHeader(Header(true, FieldsLength(m))) + EncodeFields(m)
  }

  /** `rlp_encoded_length`: the header and its payload. */
  function EncodedLength(m: TxL1Message): nat {
    HeaderLength(FieldsLength(m)) + FieldsLength(m)
  }

  function Encode2718(m: TxL1Message): Bytes
    requires m.Valid()
  {
    [L1_MESSAGE_TRANSACTION_TYPE] + Encode(m)
  }

  /** Both length functions count the bytes their encoder writes. */
  lemma LengthsAreExact(m: TxL1Message)
    requires m.Valid()
    ensures |Encode(m)| == EncodedLength(m) && |Encode2718(m)| == EncodedLength(m) + 1
  {
    FieldsLengthIsExact(m);
    LengthDigits(FieldsLength(m));
  }

  /** The field list of the script's encoder. */
  function ScriptFields(m: TxL1Message): seq<Bytes> {
    [BigEndian(m.queueIndex), BigEndian(m.gasLimit), m.to, BigEndian(m.value), m.input, m.sender]
  }

  lemma JoinSix(a: Bytes, b: Bytes, c: Bytes, d: Bytes, e: Bytes, f: Bytes)
    requires forall x <- [a, b, c, d, e, f] :: |x| < TWO_64
    ensures |a| < TWO_64 && |b| < TWO_64 && |c| < TWO_64 && |d| < TWO_64 && |e| < TWO_64 && |f| < TWO_64
    ensures JoinStrings([a, b, c, d, e, f])
            == RlpString(a) + (RlpString(b) + (RlpString(c) + (RlpString(d) + (RlpString(e) + RlpString(f)))))
  {
    var all := [a, b, c, d, e, f];
    assert all[0] == a && all[1] == b && all[2] == c && all[3] == d && all[4] == e && all[5] == f;
    assert all[1..] == [b, c, d, e, f];
    assert [b, c, d, e, f][1..] == [c, d, e, f];
    assert [c, d, e, f][1..] == [d, e, f];
    assert [d, e, f][1..] == [e, f];
    assert [e, f][1..] == [f];
    assert JoinStrings([f]) == RlpString(f);
    assert JoinStrings([e, f]) == RlpString(e) + RlpString(f);
    assert JoinStrings([d, e, f]) == RlpString(d) + (RlpString(e) + RlpString(f));
    assert JoinStrings([c, d, e, f]) == RlpString(c) + (RlpString(d) + (RlpString(e) + RlpString(f)));
    assert JoinStrings([b, c, d, e, f])
        == RlpString(b) + (RlpString(c) + (RlpString(d) + (RlpString(e) + RlpString(f))));
  }

  lemma ScriptFieldsAgree(m: TxL1Message)
    requires m.Valid()
    ensures |BigEndian(m.queueIndex)| <= 8 && |BigEndian(m.gasLimit)| <= 8 && |BigEndian(m.value)| <= 32
    ensures EncodeUint(m.queueIndex) == RlpString(BigEndian(m.queueIndex)) && EncodeBytes(m.to) == RlpString(m.to)
    ensures EncodeUint(m.gasLimit) == RlpString(BigEndian(m.gasLimit)) && EncodeBytes(m.input) == RlpString(m.input)
    ensures EncodeUint(m.value) == RlpString(BigEndian(m.value)) && EncodeBytes(m.sender) == RlpString(m.sender)
  {
    FieldDigits(m);
    EncodersFollowTheRule(m.queueIndex, m.to);
    EncodersFollowTheRule(m.gasLimit, m.input);
    EncodersFollowTheRule(m.value, m.sender);
  }

  /** The script and the Rust code write the same bytes for every message. */
  lemma ScriptAgrees(m: TxL1Message)
    requires m.Valid()
    ensures forall item <- ScriptFields(m) :: |item| < TWO_64
    ensures JoinStrings(ScriptFields(m)) == EncodeFields(m) && |EncodeFields(m)| < TWO_64
    ensures [L1_MESSAGE_TRANSACTION_TYPE] + RlpList(ScriptFields(m)) == Encode2718(m)
  {
    ScriptFieldsAgree(m);
    FieldsLengthIsExact(m);
    JoinSix(BigEndian(m.queueIndex), BigEndian(m.gasLimit), m.to, BigEndian(m.value), m.input, m.sender);
  }

  // ----- Decoders ---------------------------------------------------------------------------

  /** The fields from `value` on. */
  function DecodeTail(buf: Bytes): Decoded<(U256, Bytes, Address)> {
    match DecodeUint(buf, 32) case Err(e) => Err(e) case Ok((value, b1)) =>
    match DecodeBytes(b1) case Err(e) => Err(e) case Ok((input, b2)) =>
    match DecodeFixed(b2, 20) case Err(e) => Err(e) case Ok((sender, b3)) =>
    UintCanonical(buf, 32);
    Pow256Of32();
    Ok(((value, input, sender), b3))
  }

  function DecodeFields(buf: Bytes): Decoded<TxL1Message> {
    match DecodeUint(buf, 8) case Err(e) => Err(e) case Ok((queueIndex, b1)) =>
    match DecodeUint(b1, 8) case Err(e) => Err(e) case Ok((gasLimit, b2)) =>
    match DecodeFixed(b2, 20) case Err(e) => Err(e) case Ok((to, b3)) =>
    match DecodeTail(b3) case Err(e) => Err(e) case Ok(((value, input, sender), b4)) =>
    DecodedU64(buf);
    DecodedU64(b1);
    Ok((TxL1Message(queueIndex, gasLimit, to, value, sender, input), b4))
  }

  lemma DecodedU64(buf: Bytes)
    ensures DecodeUint(buf, 8).Ok? ==> DecodeUint(buf, 8).value.0 < TWO_64
  {
    Pow256Of8();
    if DecodeUint(buf, 8).Ok? { UintCanonical(buf, 8); }
  }

  /** `rlp_decode`: the fields must use up exactly the payload the header announced. */
  function Decode(buf: Bytes): Decoded<TxL1Message> {
    match DecodeHeader(buf)
    case Err(e) => Err(e)
    case Ok((h, body)) =>
      if !h.list then Err(UnexpectedString)
      else ExactPayload(DecodeFields(body), h.payloadLength, |body|)
  }

  function ExactPayload(fields: Decoded<TxL1Message>, payloadLength: nat, remaining: nat): Decoded<TxL1Message> {
    match fields
    case Err(e) => Err(e)
    case Ok((m, rest)) =>
      if |rest| + payloadLength != remaining then Err(ListLengthMismatch(payloadLength, remaining - |rest|))
      else Ok((m, rest))
  }

  /** `typed_decode`, after the type byte was taken off. */
  function TypedDecode(ty: Byte, buf: Bytes): Decoded<TxL1Message> {
    if ty != L1_MESSAGE_TRANSACTION_TYPE then Err(UnexpectedType(ty)) else Decode(buf)
  }

  /** `decode_2718`: a first byte up to 0x7f is a type, anything else is left to the untyped decoder. */
  function Decode2718(buf: Bytes): Decoded<TxL1Message> {
    if buf != [] && buf[0] <= 0x7F then TypedDecode(buf[0], buf[1..]) else Decode(buf)
  }

  // ----- Round trips ------------------------------------------------------------------------

  lemma TailRoundTrip(m: TxL1Message, suffix: Bytes)
    requires m.Valid()
    ensures DecodeTail(EncodeTail(m) + suffix) == Ok(((m.value, m.input, m.sender), suffix))
  {
    FieldDigits(m);
    var s2 := EncodeBytes(m.sender) + suffix;
    var s1 := EncodeBytes(m.input) + s2;
    assert EncodeTail(m) + suffix == EncodeUint(m.value) + s1;
    Pow256Of32();
    UintRoundTrip(m.value, 32, s1);
    BytesRoundTrip(m.input, s2);
    BytesRoundTrip(m.sender, suffix);
  }

  lemma FieldsRoundTrip(m: TxL1Message, suffix: Bytes)
    requires m.Valid()
    ensures DecodeFields(EncodeFields(m) + suffix) == Ok((m, suffix))
  {
    FieldDigits(m);
    Pow256Of8();
    var s3 := EncodeTail(m) + suffix;
    var s2 := EncodeBytes(m.to) + s3;
    var s1 := EncodeUint(m.gasLimit) + s2;
    FourGrouped(EncodeUint(m.queueIndex), EncodeUint(m.gasLimit), EncodeBytes(m.to), EncodeTail(m), suffix);
    UintRoundTrip(m.queueIndex, 8, s1);
    UintRoundTrip(m.gasLimit, 8, s2);
    BytesRoundTrip(m.to, s3);
    TailRoundTrip(m, suffix);
  }

  lemma FourGrouped(a: Bytes, b: Bytes, c: Bytes, d: Bytes, e: Bytes)
    ensures a + (b + (c + d)) + e == a + (b + (c + (d + e)))
  {
    assert a + (b + (c + d)) + e == a + b + c + d + e;
    assert a + (b + (c + (d + e))) == a + b + c + d + e;
  }

  /** Decoding an encoding followed by anything gives the message back and leaves exactly the rest. */
  lemma RoundTrip(m: TxL1Message, suffix: Bytes)
    requires m.Valid()
    ensures Decode(Encode(m) + suffix) == Ok((m, suffix))
  {
    FieldsLengthIsExact(m);
    FieldsRoundTrip(m, suffix);
    HeaderRoundTrip(Header(true, FieldsLength(m)), EncodeFields(m) + suffix);
    assert Encode(m) + suffix == EncodeHeader(Header(true, FieldsLength(m))) + (EncodeFields(m) + suffix);
  }

  lemma TailCanonical(buf: Bytes, m: TxL1Message, rest: Bytes)
    requires m.Valid() && DecodeTail(buf) == Ok(((m.value, m.input, m.sender), rest))
    ensures buf == EncodeTail(m) + rest
  {
    FieldDigits(m);
    var b1 := DecodeUint(buf, 32).value.1;
    var b2 := DecodeBytes(b1).value.1;
    UintCanonical(buf, 32);
    BytesCanonical(b1);
    BytesCanonical(b2);
    Joined(buf, EncodeUint(m.value), EncodeBytes(m.input), EncodeBytes(m.sender), b1, b2, rest);
  }

  lemma Joined(buf: Bytes, x: Bytes, y: Bytes, z: Bytes, b1: Bytes, b2: Bytes, rest: Bytes)
    requires buf == x + b1 && b1 == y + b2 && b2 == z + rest
    ensures buf == x + (y + z) + rest
  {
  }

  lemma Regrouped(a: Bytes, b: Bytes, c: Bytes)
    ensures a + (b + c) == a + b + c
  {
  }

  lemma DecodedInputFits(buf: Bytes)
    requires DecodeTail(buf).Ok?
    ensures |DecodeTail(buf).value.0.1| <= |buf|
  {
    UintCanonical(buf, 32);
    BytesCanonical(DecodeUint(buf, 32).value.1);
  }

  lemma FieldsCanonical(buf: Bytes)
    requires DecodeFields(buf).Ok? && |buf| < 0x8000_0000_0000_0000
    ensures var (m, rest) := DecodeFields(buf).value;
            m.Valid() && buf == EncodeFields(m) + rest
  {
    var (m, rest) := DecodeFields(buf).value;
    var b1 := DecodeUint(buf, 8).value.1;
    var b2 := DecodeUint(b1, 8).value.1;
    var b3 := DecodeFixed(b2, 20).value.1;
    UintCanonical(buf, 8);
    UintCanonical(b1, 8);
    BytesCanonical(b2);
    DecodedInputFits(b3);
    FieldDigits(m);
    TailCanonical(b3, m, rest);
    Joined(b1, EncodeUint(m.gasLimit), EncodeBytes(m.to), EncodeTail(m), b2, b3, rest);
    Regrouped(EncodeUint(m.queueIndex), EncodeUint(m.gasLimit) + (EncodeBytes(m.to) + EncodeTail(m)), rest);
  }

  /** The decoder is strict: what it accepts is the one encoding of what it returns. */
  lemma Canonical(buf: Bytes)
    requires Decode(buf).Ok? && |buf| < 0x8000_0000_0000_0000
    ensures var (m, rest) := Decode(buf).value;
            m.Valid() && buf == Encode(m) + rest
  {
    HeaderCanonical(buf);
    var (h, body) := DecodeHeader(buf).value;
    FieldsCanonical(body);
    var (m, rest) := DecodeFields(body).value;
    FieldsLengthIsExact(m);
    assert h == Header(true, FieldsLength(m));
    Regrouped(EncodeHeader(h), EncodeFields(m), rest);
  }

  /** Decoding succeeds with (m, rest) exactly on the encoding of m followed by rest. */
  lemma DecodeIff(buf: Bytes, m: TxL1Message, rest: Bytes)
    requires m.Valid() && |buf| < 0x8000_0000_0000_0000
    ensures Decode(buf) == Ok((m, rest)) <==> buf == Encode(m) + rest
  {
    RoundTrip(m, rest);
    if Decode(buf) == Ok((m, rest)) { Canonical(buf); }
  }

  lemma EncodeStartsAsList(m: TxL1Message)
    requires m.Valid()
    ensures Encode(m) != [] && Encode(m)[0] >= 0xC0
  {
    FieldsLengthIsExact(m);
  }

  lemma TypedForm(m: TxL1Message, rest: Bytes, buf: Bytes)
    requires m.Valid() && buf != []
    ensures buf == Encode2718(m) + rest <==> buf[0] == L1_MESSAGE_TRANSACTION_TYPE && buf[1..] == Encode(m) + rest
  {
    assert buf == [buf[0]] + buf[1..];
    assert Encode2718(m) + rest == [L1_MESSAGE_TRANSACTION_TYPE] + (Encode(m) + rest);
  }

  lemma BareForm(m: TxL1Message, rest: Bytes, buf: Bytes)
    requires m.Valid() && buf == Encode(m) + rest
    ensures buf != [] && buf[0] >= 0xC0
  {
    EncodeStartsAsList(m);
  }

  /** The EIP-2718 decoder accepts the typed form and, through its fallback, the bare list; nothing else. */
  lemma Decode2718Iff(buf: Bytes, m: TxL1Message, rest: Bytes)
    requires m.Valid() && |buf| < 0x8000_0000_0000_0000
    ensures Decode2718(buf) == Ok((m, rest))
            <==> buf == Encode2718(m) + rest || buf == Encode(m) + rest
  {
    DecodeIff(buf, m, rest);
    if buf == Encode(m) + rest { BareForm(m, rest, buf); }
    if buf != [] {
      TypedForm(m, rest, buf);
      DecodeIff(buf[1..], m, rest);
    }
  }

  lemma BareEncodingsArePrefixFree(a: TxL1Message, b: TxL1Message, s: Bytes, t: Bytes)
    requires a.Valid() && b.Valid() && Encode(a) + s == Encode(b) + t
    ensures a == b && s == t
  {
    RoundTrip(a, s);
    RoundTrip(b, t);
  }

  /** No encoding is a prefix of another message's: equal streams start with the same message. */
  lemma EncodingsArePrefixFree(a: TxL1Message, b: TxL1Message, s: Bytes, t: Bytes)
    requires a.Valid() && b.Valid() && Encode2718(a) + s == Encode2718(b) + t
    ensures a == b && s == t
  {
    AfterTypeByte(Encode(a), s);
    AfterTypeByte(Encode(b), t);
    BareEncodingsArePrefixFree(a, b, s, t);
  }

  lemma AfterTypeByte(body: Bytes, suffix: Bytes)
    ensures ([L1_MESSAGE_TRANSACTION_TYPE] + body + suffix)[1..] == body + suffix
  {
  }

  // ----- Writing to and reading from a buffer -----------------------------------------------

  /** The growing output of the encoders, or the shrinking input of the decoders. */
  class Buffer {
    var bytes: Bytes

    constructor (initial: Bytes)
      ensures bytes == initial
    {
      bytes := initial;
    }

    method PutU8(b: Byte)
      modifies this
      ensures bytes == old(bytes) + [b]
    {
      bytes := bytes + [b];
    }

    method PutSlice(b: Bytes)
      modifies this
      ensures bytes == old(bytes) + b
    {
      bytes := bytes + b;
    }
  }

  method RlpEncodeFields(m: TxL1Message, out: Buffer)
    requires m.Valid()
    modifies out
    ensures out.bytes == old(out.bytes) + EncodeFields(m)
  {
    FieldDigits(m);
    var queueIndex, gasLimit, value := EncodeUint(m.queueIndex), EncodeUint(m.gasLimit), EncodeUint(m.value);
    var to, input, sender := EncodeBytes(m.to), EncodeBytes(m.input), EncodeBytes(m.sender);
    out.PutSlice(queueIndex);
    out.PutSlice(gasLimit);
    out.PutSlice(to);
    out.PutSlice(value);
    out.PutSlice(input);
    out.PutSlice(sender);
    AppendedSix(old(out.bytes), queueIndex, gasLimit, to, value, input, sender);
  }

  lemma AppendedSix(o: Bytes, a: Bytes, b: Bytes, c: Bytes, d: Bytes, e: Bytes, f: Bytes)
    ensures o + a + b + c + d + e + f == o + (a + (b + (c + (d + (e + f)))))
  {
    assert o + a + b + c + d + e + f == o + a + b + c + (d + (e + f));
    assert o + a + b + c + (d + (e + f)) == o + (a + (b + (c + (d + (e + f)))));
  }

  method RlpEncode(m: TxL1Message, out: Buffer)
    requires m.Valid()
    modifies out
    ensures out.bytes == old(out.bytes) + Encode(m)
  {
    FieldsLengthIsExact(m);
    var header := EncodeHeader(Header(true, FieldsLength(m)));
    ghost var fields := EncodeFields(m);
    out.PutSlice(header);
    RlpEncodeFields(m, out);
    Regrouped(old(out.bytes), header, fields);
    assert Encode(m) == header + fields;
  }

  method Eip2718Encode(m: TxL1Message, out: Buffer)
    requires m.Valid()
    modifies out
    ensures out.bytes == old(out.bytes) + Encode2718(m)
  {
    out.PutU8(L1_MESSAGE_TRANSACTION_TYPE);
    RlpEncode(m, out);
    Regrouped(old(out.bytes), [L1_MESSAGE_TRANSACTION_TYPE], Encode(m));
  }

  /** Reads one value with `decode`, advancing past it when it is there. */
  method Take<T>(buf: Buffer, decoded: Decoded<T>) returns (r: Result<T, Error>)
    modifies buf
    ensures decoded.Ok? ==> r == Ok(decoded.value.0) && buf.bytes == decoded.value.1
    ensures decoded.Err? ==> r == Err(decoded.error) && buf.bytes == old(buf.bytes)
  {
    match decoded
    case Err(e) => r := Err(e);
    case Ok((v, rest)) =>
      buf.bytes := rest;
      r := Ok(v);
  }

  method RlpDecodeFields(buf: Buffer) returns (r: Result<TxL1Message, Error>)
    modifies buf
    ensures var spec := DecodeFields(old(buf.bytes));
            if spec.Ok? then r == Ok(spec.value.0) && buf.bytes == spec.value.1 else r == Err(spec.error)
  {
    DecodedU64(buf.bytes);
    var queueIndex := Take(buf, DecodeUint(buf.bytes, 8));
    if queueIndex.Err? { return Err(queueIndex.error); }
    DecodedU64(buf.bytes);
    var gasLimit := Take(buf, DecodeUint(buf.bytes, 8));
    if gasLimit.Err? { return Err(gasLimit.error); }
    var to := Take(buf, DecodeFixed(buf.bytes, 20));
    if to.Err? { return Err(to.error); }
    var tail := RlpDecodeTail(buf);
    if tail.Err? { return Err(tail.error); }
    var (value, input, sender) := tail.value;
    r := Ok(TxL1Message(queueIndex.value, gasLimit.value, to.value, value, sender, input));
  }

  method RlpDecodeTail(buf: Buffer) returns (r: Result<(U256, Bytes, Address), Error>)
    modifies buf
    ensures var spec := DecodeTail(old(buf.bytes));
            if spec.Ok? then r == Ok(spec.value.0) && buf.bytes == spec.value.1 else r == Err(spec.error)
  {
    if DecodeUint(buf.bytes, 32).Ok? { UintCanonical(buf.bytes, 32); }
    Pow256Of32();
    var value := Take(buf, DecodeUint(buf.bytes, 32));
    if value.Err? { return Err(value.error); }
    var input := Take(buf, DecodeBytes(buf.bytes));
    if input.Err? { return Err(input.error); }
    var sender := Take(buf, DecodeFixed(buf.bytes, 20));
    if sender.Err? { return Err(sender.error); }
    r := Ok((value.value, input.value, sender.value));
  }

  /** The payload check that follows the fields; `spec` is what the fields decoded to. */
  method CheckPayload(buf: Buffer, fields: Result<TxL1Message, Error>, ghost spec: Decoded<TxL1Message>,
                      payloadLength: nat, remaining: nat)
    returns (r: Result<TxL1Message, Error>)
    requires if spec.Ok? then fields == Ok(spec.value.0) && buf.bytes == spec.value.1 else fields == Err(spec.error)
    ensures var exact := ExactPayload(spec, payloadLength, remaining);
            if exact.Ok? then r == Ok(exact.value.0) && buf.bytes == exact.value.1 else r == Err(exact.error)
  {
    if fields.Err? { return Err(fields.error); }
    if |buf.bytes| + payloadLength != remaining {
      return Err(ListLengthMismatch(payloadLength, remaining - |buf.bytes|));
    }
    return fields;
  }

  method RlpDecode(buf: Buffer) returns (r: Result<TxL1Message, Error>)
    modifies buf
    ensures var spec := Decode(old(buf.bytes));
            if spec.Ok? then r == Ok(spec.value.0) && buf.bytes == spec.value.1 else r == Err(spec.error)
  {
    var header := Take(buf, DecodeHeader(buf.bytes));
    if header.Err? { return Err(header.error); }
    if !header.value.list { return Err(UnexpectedString); }
    var remaining := |buf.bytes|;
    ghost var spec := DecodeFields(buf.bytes);
    var fields := RlpDecodeFields(buf);
    r := CheckPayload(buf, fields, spec, header.value.payloadLength, remaining);
  }
}
