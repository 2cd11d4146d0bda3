/** Decoding the forced transactions at the payload boundary: in order, whole, and with their original bytes. */
module Forced {
  import opened MachineInts
  import opened Rlp
  import opened L1Message

  /**
   `ScrollTransactionSigned::decode_2718`: the type byte of an L1 message leads to its decoder, and
   everything else to `others`, the rest of the envelope.
   */
  datatype Envelope<T> = L1(message: TxL1Message) | Other(tx: T)

  function DecodeEnvelope<T>(buf: Bytes, others: Bytes -> Decoded<T>): Decoded<Envelope<T>> {
    if buf != [] && buf[0] == L1_MESSAGE_TRANSACTION_TYPE then
      match TypedDecode(buf[0], buf[1..])
      case Ok((m, rest)) => Ok((L1(m), rest))
      case Err(e) => Err(e)
    else
      match others(buf)
      case Ok((tx, rest)) => Ok((Other(tx), rest))
      case Err(e) => Err(e)
  }

  /** One entry: it must be used up. */
  function DecodeEntry<T>(encoded: Bytes, others: Bytes -> Decoded<T>): Result<(Bytes, Envelope<T>), Error> {
    match DecodeEnvelope(encoded, others)
    case Err(e) => Err(e)
    case Ok((tx, rest)) => if rest != [] then Err(UnexpectedLength) else Ok((encoded, tx))
  }

  /** `decode_forced_transactions`: collects, or stops at the first error. */
  function DecodeForced<T>(list: seq<Bytes>, others: Bytes -> Decoded<T>): Result<seq<(Bytes, Envelope<T>)>, Error> {
    if list == [] then Ok([])
    else
      match DecodeEntry(list[0], others)
      case Err(e) => Err(e)
      case Ok(first) =>
        match DecodeForced(list[1..], others)
        case Err(e) => Err(e)
        case Ok(rest) => Ok([first] + rest)
  }

  /** Success means one transaction per entry, in order, decoded from all of its bytes, which are kept. */
  lemma {:induction false} DecodeForcedIff<T>(list: seq<Bytes>, others: Bytes -> Decoded<T>,
                                              out: seq<(Bytes, Envelope<T>)>)
    ensures DecodeForced(list, others) == Ok(out)
            <==> && |out| == |list|
                 && forall i :: 0 <= i < |list| ==>
                                  out[i].0 == list[i] && DecodeEnvelope(list[i], others) == Ok((out[i].1, []))
  {
    if list == [] {
    } else {
      var rest := if out == [] then [] else out[1..];
      DecodeForcedIff(list[1..], others, rest);
      assert forall i :: 0 < i < |list| ==> list[i] == list[1..][i - 1];
      assert forall i :: 0 < i < |out| ==> out[i] == rest[i - 1];
      if out != [] { assert out == [out[0]] + rest; }
      if |out| == |list| && forall i :: 0 <= i < |list| ==>
                                          out[i].0 == list[i] && DecodeEnvelope(list[i], others) == Ok((out[i].1, [])) {
        assert forall i :: 0 <= i < |rest| ==> rest[i] == out[i + 1] && list[1..][i] == list[i + 1];
      }
    }
  }

  /**
   What is wrong with an entry: its message does not decode, or the rest of the envelope refuses it, with
   that error, or bytes are left over.
   */
  lemma EntryNamesItsDefect<T>(encoded: Bytes, others: Bytes -> Decoded<T>)
    ensures var message, other := Decode(if encoded == [] then [] else encoded[1..]), others(encoded);
            var isMessage := encoded != [] && encoded[0] == 0x7E;
            var failed := if isMessage then message.Err? else other.Err?;
            var rest := if failed then [] else if isMessage then message.value.1 else other.value.1;
            DecodeEntry(encoded, others)
            == if failed then Err(if isMessage then message.error else other.error)
               else if rest != [] then Err(UnexpectedLength)
               else Ok((encoded, if isMessage then L1(message.value.0) else Other(other.value.0)))
  {
  }

  /** The error reported is that of the first entry that does not decode whole. */
  lemma {:induction false} FirstErrorWins<T>(list: seq<Bytes>, others: Bytes -> Decoded<T>) returns (i: nat)
    requires DecodeForced(list, others).Err?
    ensures i < |list| && DecodeEntry(list[i], others) == Err(DecodeForced(list, others).error)
    ensures forall j :: 0 <= j < i ==> DecodeEntry(list[j], others).Ok?
  {
    if DecodeEntry(list[0], others).Err? {
      i := 0;
    } else {
      var k := FirstErrorWins(list[1..], others);
      i := k + 1;
      forall j | 0 <= j < i ensures DecodeEntry(list[j], others).Ok? {
        if j > 0 { assert list[j] == list[1..][j - 1]; }
      }
    }
  }

  lemma EnvelopeOfL1Message<T>(m: TxL1Message, others: Bytes -> Decoded<T>)
    requires m.Valid()
    ensures DecodeEnvelope(Encode2718(m), others) == Ok((L1(m), []))
    ensures |Encode2718(m)| == EncodedLength(m) + 1
  {
    RoundTrip(m, []);
    assert Encode2718(m)[1..] == Encode(m) + [];
    LengthsAreExact(m);
  }

  /** A list of encoded L1 messages decodes to exactly those messages. */
  lemma ForcedL1MessagesRoundTrip<T>(messages: seq<TxL1Message>, list: seq<Bytes>, others: Bytes -> Decoded<T>,
                                     out: seq<(Bytes, Envelope<T>)>)
    requires |list| == |messages| && |out| == |messages|
    requires forall i :: 0 <= i < |messages| ==> messages[i].Valid() && list[i] == Encode2718(messages[i])
    requires forall i :: 0 <= i < |messages| ==> out[i] == (list[i], L1(messages[i]))
    ensures DecodeForced(list, others) == Ok(out)
    ensures forall i :: 0 <= i < |list| ==> |out[i].0| == EncodedLength(messages[i]) + 1
  {
    forall i | 0 <= i < |list|
      ensures DecodeEnvelope(list[i], others) == Ok((L1(messages[i]), []))
      ensures |list[i]| == EncodedLength(messages[i]) + 1
    {
      EnvelopeOfL1Message(messages[i], others);
    }
    DecodeForcedIff(list, others, out);
  }
}
