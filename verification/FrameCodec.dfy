/** The wire form of one frame: an offset-cursor writer into a byte buffer and the parser
    that undoes it. */
module FrameCodec {
  import opened Prelude
  import opened Frames

  const MAX_TARGET_LEN: nat := 255
  const MAX_PAYLOAD_SIZE: nat := 10 * 1024 * 1024
  const HEADER_LEN: nat := SESSION_ID_LEN + 8 + 1 + 1 + 4

  // ---- Big-endian integers ----------------------------------------------------------

  function Pow256(w: nat): nat {
    if w == 0 then 1 else 256 * Pow256(w - 1)
  }

  /** The low `w` bytes of `n`, most significant first. */
  function Be(n: nat, w: nat): (b: Bytes)
    ensures |b| == w
  {
    if w == 0 then [] else Be(n / 256, w - 1) + [n % 256]
  }

  function UnBe(b: Bytes): nat {
    if |b| == 0 then 0 else UnBe(b[..|b| - 1]) * 256 + b[|b| - 1]
  }

  lemma {:induction false} UnBeBe(n: nat, w: nat)
    requires n < Pow256(w)
    ensures UnBe(Be(n, w)) == n
  {
    if w > 0 {
      UnBeBe(n / 256, w - 1);
      assert Be(n, w)[..w - 1] == Be(n / 256, w - 1);
    }
  }

  lemma {:induction false} BeUnBe(b: Bytes)
    ensures UnBe(b) < Pow256(|b|) && Be(UnBe(b), |b|) == b
  {
    if |b| > 0 {
      BeUnBe(b[..|b| - 1]);
      assert b == b[..|b| - 1] + [b[|b| - 1]];
    }
  }

  /** The digits in base 256, for the widths in use. */
  lemma BeDigits(n: nat, a: nat, b: nat, c: nat)
    requires a == n / 256 && b == a / 256 && c == b / 256
    ensures Be(n, 2) == [a % 256, n % 256] && Be(n, 4) == [c % 256, b % 256, a % 256, n % 256]
    ensures Be(n, 8) == Be(c / 256, 4) + [c % 256, b % 256, a % 256, n % 256]
  {
    hide Be;
    BeLast(n, 1);
    BeLast(a, 0);
    BeLast(n, 3);
    BeLast(a, 2);
    BeLast(b, 1);
    BeLast(c, 0);
    BeLast(n, 7);
    BeLast(a, 6);
    BeLast(b, 5);
    BeLast(c, 4);
  }

  lemma BeLast(n: nat, w: nat)
    ensures Be(n, w + 1) == Be(n / 256, w) + [n % 256]
    ensures Be(n, 0) == []
  {
  }

  lemma UnBeDigits(d: Bytes)
    requires |d| == 4
    ensures var b0: int, b1: int, b2: int, b3: int := d[0], d[1], d[2], d[3];
            UnBe(d) == b0 * 0x100_0000 + b1 * 0x1_0000 + b2 * 0x100 + b3
  {
    assert d[..3][..2] == d[..2] && d[..2][..1] == d[..1] && d[..1][..0] == [];
    assert UnBe(d) == UnBe(d[..3]) * 256 + d[3];
    assert UnBe(d[..3]) == UnBe(d[..2]) * 256 + d[2];
    assert UnBe(d[..2]) == UnBe(d[..1]) * 256 + d[1];
    assert UnBe(d[..1]) == d[0];
  }

  lemma Widths()
    ensures Pow256(2) == 0x1_0000 && Pow256(4) == 0x1_0000_0000 && Pow256(8) == 0x1_0000_0000_0000_0000
  {
    assert Pow256(3) == 256 * Pow256(2) && Pow256(2) == 256 * Pow256(1) && Pow256(1) == 256;
    assert Pow256(5) == 256 * Pow256(4) && Pow256(4) == 256 * Pow256(3);
    assert Pow256(7) == 256 * Pow256(6) && Pow256(6) == 256 * Pow256(5);
  }

  // ---- One frame ----------------------------------------------------------------------

  function EncodedLen(f: Frame): nat {
    SESSION_ID_LEN + 8 + 1 + 1 + |f.target| + 4 + |f.payload|
  }

  function Head(f: Frame): Bytes {
    f.sessionId + Be(f.seqNo, 8) + [f.flags] + [|f.target| % 256]
  }

  function Wire(f: Frame): (b: Bytes)
    ensures |b| == EncodedLen(f)
  {
    Head(f) + f.target + Be(|f.payload|, 4) + f.payload
  }

  predicate Marshals(f: Frame) {
    |f.target| <= MAX_TARGET_LEN && |f.payload| <= MAX_PAYLOAD_SIZE
  }

  /** A frame the sender's types and limits allow; the sequence number is a 64-bit word. */
  predicate Legal(f: Frame) {
    Marshals(f) && f.seqNo < 0x1_0000_0000_0000_0000
  }

  datatype FrameError = TargetTooLong | PayloadTooLarge | ShortHeader | ShortTarget | ShortPayload

  datatype Parsed = Frm(f: Frame, used: nat) | Bad(e: FrameError)

  function Parse(data: Bytes): Parsed {
    if |data| < HEADER_LEN then Bad(ShortHeader) else
    var tlen := data[25];
    if |data| < 26 + tlen + 4 then Bad(ShortTarget) else
    var plen := UnBe(data[26 + tlen..30 + tlen]);
    if plen > MAX_PAYLOAD_SIZE then Bad(PayloadTooLarge)
    else if |data| < 30 + tlen + plen then Bad(ShortPayload)
    else Frm(Frame(data[..16], UnBe(data[16..24]), data[24], data[26..26 + tlen],
                   data[30 + tlen..30 + tlen + plen]),
             30 + tlen + plen)
  }

  /** Where the fields of a wire frame lie. */
  lemma WireFields(f: Frame, rest: Bytes)
    requires |f.target| <= 255
    ensures var d, t, p := Wire(f) + rest, |f.target|, |f.payload|;
            && d[..16] == f.sessionId && d[16..24] == Be(f.seqNo, 8)
            && d[24] == f.flags && d[25] == t
            && d[26..26 + t] == f.target && d[26 + t..30 + t] == Be(p, 4)
            && d[30 + t..30 + t + p] == f.payload
  {
  }

  /** Parsing undoes marshalling, whatever follows the frame. */
  lemma ParseUndoesWire(f: Frame, rest: Bytes)
    requires Legal(f)
    ensures Parse(Wire(f) + rest) == Frm(f, |Wire(f)|)
  {
    Widths();
    WireFields(f, rest);
    UnBeBe(f.seqNo, 8);
    UnBeBe(|f.payload|, 4);
  }

  /** Whatever parses is a legal frame, and marshalling it gives back the bytes consumed. */
  lemma WireUndoesParse(data: Bytes)
    requires Parse(data).Frm?
    ensures var r := Parse(data);
            Legal(r.f) && r.used <= |data| && Wire(r.f) == data[..r.used]
  {
    hide Be, UnBe;
    var r := Parse(data);
    var t := |r.f.target|;
    Widths();
    BeUnBe(data[16..24]);
    BeUnBe(data[26 + t..30 + t]);
    Pieces(data, t, r.used);
  }

  /** A buffer cut where the fields of a frame meet. */
  lemma Pieces(data: Bytes, t: nat, end: nat)
    requires 30 + t <= end <= |data|
    ensures data[..end] == (data[..16] + data[16..24] + [data[24]] + [data[25]]) + data[26..26 + t]
                           + data[26 + t..30 + t] + data[30 + t..end]
  {
    assert data[..26] == data[..16] + data[16..24] + [data[24]] + [data[25]];
    assert data[..end] == data[..26] + data[26..26 + t] + data[26 + t..30 + t] + data[30 + t..end];
  }

  /** So data parses if and only if it begins with the wire form of a legal frame, and then
      it parses as that frame. */
  lemma ParsesIffWirePrefix(data: Bytes, f: Frame)
    ensures Legal(f) && Wire(f) <= data <==> Parse(data) == Frm(f, |Wire(f)|)
  {
    if Legal(f) && Wire(f) <= data {
      ParseUndoesWire(f, data[|Wire(f)|..]);
      assert data == Wire(f) + data[|Wire(f)|..];
    }
    if Parse(data) == Frm(f, |Wire(f)|) {
      WireUndoesParse(data);
    }
  }

  // ---- In place ------------------------------------------------------------------------

  /** `copy(out[at:], bytes)`, extending the region written since `base`. */
  method Put(out: array<Byte>, base: nat, at: nat, bytes: Bytes)
    requires base <= at && at + |bytes| <= out.Length
    modifies out
    ensures out[base..at + |bytes|] == old(out[base..at]) + bytes
    ensures forall i :: 0 <= i < base || at + |bytes| <= i < out.Length ==> out[i] == old(out[i])
  {
    var i := 0;
    while i < |bytes|
      invariant i <= |bytes|
      invariant out[base..at + i] == old(out[base..at]) + bytes[..i]
      invariant forall j :: 0 <= j < base || at + i <= j < out.Length ==> out[j] == old(out[j])
    {
      out[at + i] := bytes[i];
      i := i + 1;
      assert out[base..at + i] == out[base..at + i - 1] + [bytes[i - 1]];
    }
  }

  datatype AppendResult = Appended(buf: array<Byte>, len: nat) | Failed(e: FrameError)

  /** Appends the frame to the first `base` bytes of `dst`, in its spare capacity when that
      is enough and in a fresh buffer otherwise. */
  method AppendMarshal(f: Frame, dst: array<Byte>, base: nat) returns (r: AppendResult)
    requires base <= dst.Length
    modifies dst
    ensures r.Appended? <==> Marshals(f)
    ensures r == Failed(TargetTooLong) <==> |f.target| > 255
    ensures r == Failed(PayloadTooLarge) <==> |f.target| <= 255 && |f.payload| > 10 * 1024 * 1024
    ensures r.Appended? <==> |f.target| <= 255 && |f.payload| <= 10 * 1024 * 1024
    ensures r.Appended? ==> r.len == base + EncodedLen(f) == base + 30 + |f.target| + |f.payload| <= r.buf.Length
    ensures r.Appended? ==> r.buf[..r.len] == old(dst[..base]) + Wire(f)
    ensures r.Appended? ==> if dst.Length - base >= EncodedLen(f)
                            then r.buf == dst && dst[r.len..] == old(dst[r.len..])
                            else fresh(r.buf) && r.buf.Length == r.len && dst[..] == old(dst[..])
    ensures r.Failed? ==> dst[..] == old(dst[..])
  {
    if |f.target| > MAX_TARGET_LEN {
      return Failed(TargetTooLong);
    }
    if |f.payload| > MAX_PAYLOAD_SIZE {
      return Failed(PayloadTooLarge);
    }
    var size := EncodedLen(f);
    var out := dst;
    if dst.Length - base < size {
      out := new Byte[base + size];
      Put(out, 0, 0, dst[..base]);
    }
    assert out[..base] == old(dst[..base]);
    WriteFields(f, out, base);
    assert out[..base + size] == out[..base] + out[base..base + size];
    assert out[..base] == old(dst[..base]);
    return Appended(out, base + size);
  }

  lemma HeadLength(f: Frame)
    ensures |Head(f)| == SESSION_ID_LEN + 8 + 1 + 1
  {
  }

  /** The fixed part, the target's length last. */
  method WriteHead(f: Frame, out: array<Byte>, base: nat) returns (off: nat)
    requires Marshals(f) && base + EncodedLen(f) <= out.Length
    modifies out
    ensures off == base + |Head(f)| && out[base..off] == Head(f)
    ensures forall i :: 0 <= i < base || off <= i < out.Length ==> out[i] == old(out[i])
  {
    hide Be;
    off := base;
    Put(out, base, off, f.sessionId);
    off := off + SESSION_ID_LEN;
    Put(out, base, off, Be(f.seqNo, 8));
    off := off + 8;
    Put(out, base, off, [f.flags]);
    off := off + 1;
    Put(out, base, off, [|f.target| % 256]);
    off := off + 1;
  }

  /** The field-by-field copy, an offset moving through the reserved space. */
  method WriteFields(f: Frame, out: array<Byte>, base: nat)
    requires Marshals(f) && base + EncodedLen(f) <= out.Length
    modifies out
    ensures out[base..base + EncodedLen(f)] == Wire(f)
    ensures forall i :: 0 <= i < base || base + EncodedLen(f) <= i < out.Length ==> out[i] == old(out[i])
  {
    hide Be, Head;
    HeadLength(f);
    var off := WriteHead(f, out, base);
    Put(out, base, off, f.target);
    off := off + |f.target|;
    Put(out, base, off, Be(|f.payload|, 4));
    off := off + 4;
    Put(out, base, off, f.payload);
  }

  /** The parser as a cursor over the buffer. */
  method Unmarshal(data: Bytes) returns (r: Parsed)
    ensures r == Parse(data)
    ensures r == Bad(ShortHeader) <==> |data| < 30
    ensures |data| >= 30 ==> var t: int := data[25]; r == Bad(ShortTarget) <==> |data| < 30 + t
    ensures |data| >= 30 ==>
              var t: int := data[25];
              |data| >= 30 + t ==>
                var b0: int, b1: int, b2: int, b3: int := data[26 + t], data[27 + t], data[28 + t], data[29 + t];
                var plen := b0 * 0x100_0000 + b1 * 0x1_0000 + b2 * 0x100 + b3;
                && (r == Bad(PayloadTooLarge) <==> plen > 10 * 1024 * 1024)
                && (r == Bad(ShortPayload) <==> |data| - 30 - t < plen <= 10 * 1024 * 1024)
                && (r.Frm? ==> r.used == 30 + t + plen)
  {
    hide UnBe;
    if |data| < SESSION_ID_LEN + 8 + 1 + 1 + 4 {
      return Bad(ShortHeader);
    }
    var off := 0;
    var id := data[off..off + SESSION_ID_LEN];
    off := off + SESSION_ID_LEN;
    var seqNo := UnBe(data[off..off + 8]);
    off := off + 8;
    var flags := data[off];
    off := off + 1;
    var tlen := data[off];
    off := off + 1;
    if |data| < off + tlen + 4 {
      return Bad(ShortTarget);
    }
    var target: Bytes := [];
    if tlen > 0 {
      target := data[off..off + tlen];
    }
    off := off + tlen;
    var plen := UnBe(data[off..off + 4]);
    UnBeDigits(data[off..off + 4]);
    off := off + 4;
    if plen > MAX_PAYLOAD_SIZE {
      return Bad(PayloadTooLarge);
    }
    if |data| < off + plen {
      return Bad(ShortPayload);
    }
    var payload: Bytes := [];
    if plen > 0 {
      payload := data[off..off + plen];
    }
    off := off + plen;
    return Frm(Frame(id, seqNo, flags, target, payload), off);
  }
}
