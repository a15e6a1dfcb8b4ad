/** The plaintext message exchanged between client and exit server. */
module Frames {
  import opened Prelude

  const FLAG_SYN: Byte := 1
  const FLAG_FIN: Byte := 2
  const FLAG_RST: Byte := 8

  const SESSION_ID_LEN: nat := 16

  type SessionId = s: Bytes | |s| == SESSION_ID_LEN witness [0, 0, 0, 0, 0, 0, 0, 0, 0, 0, 0, 0, 0, 0, 0, 0]

  type ClientId = s: Bytes | |s| == SESSION_ID_LEN witness [0, 0, 0, 0, 0, 0, 0, 0, 0, 0, 0, 0, 0, 0, 0, 0]

  datatype Frame = Frame(sessionId: SessionId, seqNo: nat, flags: Byte, target: Bytes, payload: Bytes) {

    /** `flags & flag != 0` for a one-bit flag. */
    predicate HasFlag(flag: Byte)
      requires flag > 0
    {
      (flags / flag) % 2 == 1
    }
  }

  /** The flags are the bits 0, 1 and 3. */
  lemma FlagBits(f: Frame)
    ensures f.HasFlag(FLAG_SYN) <==> f.flags % 2 == 1
    ensures f.HasFlag(FLAG_FIN) <==> f.flags % 4 >= 2
    ensures f.HasFlag(FLAG_RST) <==> f.flags % 16 >= 8
  {
  }

  /** The payloads of a list of frames, in order. */
  function PayloadList(fs: seq<Frame>): seq<Bytes> {
    seq(|fs|, i requires 0 <= i < |fs| => fs[i].payload)
  }

  function Payloads(fs: seq<Frame>): Bytes {
    Flatten(PayloadList(fs))
  }

  lemma PayloadsAppend(a: seq<Frame>, b: seq<Frame>)
    ensures Payloads(a + b) == Payloads(a) + Payloads(b)
  {
    assert PayloadList(a + b) == PayloadList(a) + PayloadList(b);
    FlattenAppend(PayloadList(a), PayloadList(b));
  }

  lemma PayloadsSingle(f: Frame)
    ensures Payloads([f]) == f.payload
  {
    assert PayloadList([f]) == [f.payload];
    assert Flatten([f.payload]) == f.payload + Flatten<Byte>([]);
  }
}
