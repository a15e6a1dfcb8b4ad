/** Packing frames into one sealed HTTP body and back. Compression, sealing and base64 are
    library code: they are parameters, and their inverse laws hypotheses. */
module BatchCodec {
  import opened Prelude
  import opened Frames
  import opened FrameCodec

  const MAX_BATCH: nat := 0xFFFF
  const CLIENT_ID_LEN: nat := 16
  const COMPRESS_MIN_SIZE: nat := 512
  const BATCH_RAW: Byte := 0
  const BATCH_FLATE: Byte := 1
  const BATCH_ZSTD: Byte := 2

  /** `unbase64` includes the trimming of white space and padding. */
  datatype Primitives = Primitives(
    zstd: Bytes -> Bytes,
    unzstd: Bytes -> Option<Bytes>,
    inflate: Bytes -> Option<Bytes>,
    seal: (Bytes, Bytes) -> Bytes,
    open: Bytes -> Option<Bytes>,
    base64: Bytes -> Bytes,
    unbase64: Bytes -> Option<Bytes>)

  ghost predicate Lawful(c: Primitives) {
    && (forall x :: c.unzstd(c.zstd(x)) == Some(x))
    && (forall nonce, x :: c.open(c.seal(nonce, x)) == Some(x))
    && (forall nonce, x :: c.seal(nonce, x) != [])
    && (forall x :: c.unbase64(c.base64(x)) == Some(x))
    && (forall x :: c.base64(x) == [] ==> x == [])
  }

  datatype BatchError =
    | TooManyFrames | MarshalFrame
    | BadBase64 | BadSeal | EmptyPlaintext | BadFlate | BadZstd | UnknownFlags
    | ShortBatchHeader | ShortFrameLength | ShortFrameBody | BadFrame(e: FrameError)

  datatype Decoded = Batch(client: ClientId, frames: seq<Frame>) | Empty | Rejected(e: BatchError)

  datatype Slotted = Unpacked(frames: seq<Frame>) | BadSlots(e: BatchError)

  // ---- The plaintext ------------------------------------------------------------------

  function Slot(f: Frame): Bytes {
    Be(EncodedLen(f), 4) + Wire(f)
  }

  function Slots(fs: seq<Frame>): Bytes {
    if |fs| == 0 then [] else Slot(fs[0]) + Slots(fs[1..])
  }

  function Body(client: ClientId, fs: seq<Frame>): Bytes {
    client + Be(|fs|, 2) + Slots(fs)
  }

  function Prepend(fs: seq<Frame>, r: Slotted): Slotted {
    match r case BadSlots(e) => r case Unpacked(rest) => Unpacked(fs + rest)
  }

  datatype OneSlot = Slot1(f: Frame, end: nat) | NoSlot(e: BatchError)

  /** The slot at `off`: a length prefix, and a frame at the start of that many bytes. */
  function SlotOf(plain: Bytes, off: nat): (r: OneSlot)
    requires off <= |plain|
    ensures r.Slot1? ==> off < r.end <= |plain|
  {
    if |plain| < off + 4 then NoSlot(ShortFrameLength)
    else
      var flen := UnBe(plain[off..off + 4]);
      if |plain| < off + 4 + flen then NoSlot(ShortFrameBody)
      else match Parse(plain[off + 4..off + 4 + flen])
        case Bad(e) => NoSlot(BadFrame(e))
        case Frm(f, _) => Slot1(f, off + 4 + flen)
  }

  /** The `count` slots that begin at `off`. */
  function Unslot(plain: Bytes, off: nat, count: nat): Slotted
    requires off <= |plain|
    decreases count
  {
    if count == 0 then Unpacked([])
    else match SlotOf(plain, off)
      case NoSlot(e) => BadSlots(e)
      case Slot1(f, end) => Prepend([f], Unslot(plain, end, count - 1))
  }

  function DecodeBody(plain: Bytes): Decoded {
    if |plain| < CLIENT_ID_LEN + 2 then Rejected(ShortBatchHeader)
    else match Unslot(plain, 18, UnBe(plain[16..18]))
      case BadSlots(e) => Rejected(e)
      case Unpacked(fs) => Batch(plain[..16], fs)
  }

  ghost predicate AllLegal(fs: seq<Frame>) {
    forall i :: 0 <= i < |fs| ==> Legal(fs[i])
  }

  lemma SlotOfWire(before: Bytes, f: Frame, after: Bytes)
    requires Legal(f)
    ensures SlotOf(before + Slot(f) + after, |before|) == Slot1(f, |before + Slot(f)|)
  {
    var plain, off, n := before + Slot(f) + after, |before|, EncodedLen(f);
    Widths();
    UnBeBe(n, 4);
    assert plain[off..off + 4] == Be(n, 4);
    assert plain[off + 4..off + 4 + n] == Wire(f);
    ParseUndoesWire(f, []);
    assert Wire(f) + [] == Wire(f);
  }

  lemma {:induction false} UnslotSlots(before: Bytes, fs: seq<Frame>, after: Bytes)
    requires AllLegal(fs)
    ensures Unslot(before + Slots(fs) + after, |before|, |fs|) == Unpacked(fs)
    decreases |fs|
  {
    if |fs| > 0 {
      var f, rest := fs[0], fs[1..];
      var here := before + Slot(f);
      Assoc(before, Slot(f), Slots(rest));
      Assoc(here, Slots(rest), after);
      SlotOfWire(before, f, Slots(rest) + after);
      UnslotSlots(here, rest, after);
      assert [f] + rest == fs;
    }
  }

  /** Decoding a packed plaintext gives the client and the frames back, junk or not. */
  lemma DecodeUndoesBody(client: ClientId, fs: seq<Frame>, junk: Bytes)
    requires AllLegal(fs) && |fs| <= 0xFFFF
    ensures DecodeBody(Body(client, fs) + junk) == Batch(client, fs)
  {
    var plain := Body(client, fs) + junk;
    Widths();
    UnBeBe(|fs|, 2);
    assert plain[..16] == client && plain[16..18] == Be(|fs|, 2);
    UnslotSlots(client + Be(|fs|, 2), fs, junk);
  }

  lemma {:induction false} UnslotLegal(plain: Bytes, off: nat, count: nat)
    requires off <= |plain| && Unslot(plain, off, count).Unpacked?
    ensures var fs := Unslot(plain, off, count).frames; |fs| == count && AllLegal(fs)
    decreases count
  {
    if count > 0 {
      var s := SlotOf(plain, off);
      WireUndoesParse(plain[off + 4..s.end]);
      UnslotLegal(plain, s.end, count - 1);
    }
  }

  /** Whatever plaintext is accepted, packing the result again decodes to the same batch:
      no accepted batch is outside what the encoder can say. */
  lemma AcceptedIsEncodable(plain: Bytes)
    requires DecodeBody(plain).Batch?
    ensures var d := DecodeBody(plain);
            && |d.frames| <= 0xFFFF && AllLegal(d.frames)
            && DecodeBody(Body(d.client, d.frames)) == d
  {
    var d := DecodeBody(plain);
    Widths();
    BeUnBe(plain[16..18]);
    UnslotLegal(plain, 18, UnBe(plain[16..18]));
    DecodeUndoesBody(d.client, d.frames, []);
    assert Body(d.client, d.frames) + [] == Body(d.client, d.frames);
  }

  /** A slot whose declared length leaves room behind the frame. */
  function LooseSlot(f: Frame, slack: Bytes): Bytes {
    Be(EncodedLen(f) + |slack|, 4) + Wire(f) + slack
  }

  function LooseSlots(fs: seq<Frame>, slacks: seq<Bytes>): Bytes
    requires |slacks| == |fs|
  {
    if |fs| == 0 then [] else LooseSlot(fs[0], slacks[0]) + LooseSlots(fs[1..], slacks[1..])
  }

  /** Every declared length fits its four bytes. */
  ghost predicate LengthsFit(fs: seq<Frame>, slacks: seq<Bytes>) {
    |slacks| == |fs| && forall i :: 0 <= i < |fs| ==> EncodedLen(fs[i]) + |slacks[i]| < 0x1_0000_0000
  }

  lemma SlotOfLoose(before: Bytes, f: Frame, slack: Bytes, after: Bytes)
    requires Legal(f) && EncodedLen(f) + |slack| < 0x1_0000_0000
    ensures SlotOf(before + LooseSlot(f, slack) + after, |before|) == Slot1(f, |before + LooseSlot(f, slack)|)
  {
    hide Be, UnBe, Parse, Wire, Legal;
    var n := EncodedLen(f) + |slack|;
    Widths();
    UnBeBe(n, 4);
    SlotSlices(before, Be(n, 4), Wire(f) + slack, after);
    assert LooseSlot(f, slack) == Be(n, 4) + (Wire(f) + slack);
    ParseUndoesWire(f, slack);
  }

  lemma SlotSlices(before: Bytes, head: Bytes, body: Bytes, after: Bytes)
    ensures var plain, off := before + (head + body) + after, |before|;
            plain[off..off + |head|] == head && plain[off + |head|..off + |head| + |body|] == body
  {
  }

  lemma {:induction false} UnslotLoose(before: Bytes, fs: seq<Frame>, slacks: seq<Bytes>, after: Bytes)
    requires AllLegal(fs) && LengthsFit(fs, slacks)
    ensures Unslot(before + LooseSlots(fs, slacks) + after, |before|, |fs|) == Unpacked(fs)
    decreases |fs|
  {
    hide SlotOf, LooseSlot, Legal;
    if |fs| > 0 {
      var slot, rest := LooseSlot(fs[0], slacks[0]), LooseSlots(fs[1..], slacks[1..]);
      Assoc(before, slot, rest);
      Assoc(before + slot, rest, after);
      SlotOfLoose(before, fs[0], slacks[0], rest + after);
      UnslotLoose(before + slot, fs[1..], slacks[1..], after);
      assert [fs[0]] + fs[1..] == fs;
    }
  }

  lemma SlotShape(plain: Bytes, off: nat) returns (slack: Bytes)
    requires off <= |plain| && SlotOf(plain, off).Slot1?
    ensures var s := SlotOf(plain, off);
            && Legal(s.f) && EncodedLen(s.f) + |slack| < 0x1_0000_0000
            && plain[off..s.end] == LooseSlot(s.f, slack)
  {
    hide Parse, Legal, Wire, Be, UnBe;
    var flen := UnBe(plain[off..off + 4]);
    var data := plain[off + 4..off + 4 + flen];
    Widths();
    BeUnBe(plain[off..off + 4]);
    WireUndoesParse(data);
    slack := data[Parse(data).used..];
    assert data == Wire(Parse(data).f) + slack;
    assert plain[off..off + 4 + flen] == plain[off..off + 4] + data;
  }

  lemma {:induction false} UnslotShape(plain: Bytes, off: nat, count: nat) returns (slacks: seq<Bytes>, junk: Bytes)
    requires off <= |plain| && Unslot(plain, off, count).Unpacked?
    ensures var fs := Unslot(plain, off, count).frames;
            && |fs| == count && AllLegal(fs) && LengthsFit(fs, slacks)
            && plain[off..] == LooseSlots(fs, slacks) + junk
    decreases count
  {
    hide SlotOf, LooseSlot, Legal;
    if count == 0 {
      slacks, junk := [], plain[off..];
    } else {
      var s := SlotOf(plain, off);
      var slack := SlotShape(plain, off);
      slacks, junk := UnslotShape(plain, s.end, count - 1);
      var fs := Unslot(plain, s.end, count - 1).frames;
      assert ([s.f] + fs)[1..] == fs && ([slack] + slacks)[1..] == slacks;
      assert plain[off..] == plain[off..s.end] + plain[s.end..];
      Assoc(LooseSlot(s.f, slack), LooseSlots(fs, slacks), junk);
      slacks := [slack] + slacks;
    }
  }

  /** The plaintext is a header, a slot per frame - a length prefix, the frame's wire form and
      slack within the declared length - and bytes that are ignored. */
  ghost predicate LooselyPacked(plain: Bytes, client: ClientId, fs: seq<Frame>, slacks: seq<Bytes>, junk: Bytes) {
    LengthsFit(fs, slacks) && plain == client + Be(|fs|, 2) + LooseSlots(fs, slacks) + junk
  }

  lemma AcceptedIsLoose(plain: Bytes, client: ClientId, fs: seq<Frame>) returns (slacks: seq<Bytes>, junk: Bytes)
    requires DecodeBody(plain) == Batch(client, fs)
    ensures |fs| <= MAX_BATCH && AllLegal(fs) && LooselyPacked(plain, client, fs, slacks, junk)
  {
    hide Unslot, LooseSlots, UnBe, AllLegal;
    Widths();
    BeUnBe(plain[16..18]);
    slacks, junk := UnslotShape(plain, 18, UnBe(plain[16..18]));
    ThreeParts(plain, plain[..16], plain[16..18], LooseSlots(fs, slacks), junk);
  }

  lemma ThreeParts(plain: Bytes, a: Bytes, b: Bytes, c: Bytes, d: Bytes)
    requires |a| == 16 && |b| == 2 && |plain| >= 18
    ensures plain == a + b + c + d <==> plain[..16] == a && plain[16..18] == b && plain[18..] == c + d
  {
    assert a + b + c + d == a + b + (c + d);
    if plain[..16] == a && plain[16..18] == b && plain[18..] == c + d {
      assert plain == plain[..16] + plain[16..18] + plain[18..];
    }
  }

  lemma LooseIsAccepted(plain: Bytes, client: ClientId, fs: seq<Frame>, slacks: seq<Bytes>, junk: Bytes)
    requires |fs| <= MAX_BATCH && AllLegal(fs) && LooselyPacked(plain, client, fs, slacks, junk)
    ensures DecodeBody(plain) == Batch(client, fs)
  {
    hide Unslot, LooseSlots, UnBe, AllLegal;
    Widths();
    UnBeBe(|fs|, 2);
    ThreeParts(plain, client, Be(|fs|, 2), LooseSlots(fs, slacks), junk);
    UnslotLoose(client + Be(|fs|, 2), fs, slacks, junk);
  }

  /** Exactly these plaintexts are accepted, as these frames. */
  lemma AcceptedIffLooselyPacked(plain: Bytes, client: ClientId, fs: seq<Frame>)
    ensures DecodeBody(plain) == Batch(client, fs) <==>
            |fs| <= 0xFFFF && AllLegal(fs) && exists slacks, junk :: LooselyPacked(plain, client, fs, slacks, junk)
  {
    hide DecodeBody, AllLegal, LooselyPacked;
    if DecodeBody(plain) == Batch(client, fs) {
      var slacks, junk := AcceptedIsLoose(plain, client, fs);
    }
    if |fs| <= MAX_BATCH && AllLegal(fs) {
      if slacks, junk :| LooselyPacked(plain, client, fs, slacks, junk) {
        LooseIsAccepted(plain, client, fs, slacks, junk);
      }
    }
  }

  // ---- The sealed body -------------------------------------------------------------------

  /** What is sealed: the body behind a flags byte, compressed when that is worth it. */
  function SealInput(c: Primitives, body: Bytes): Bytes {
    if |body| >= COMPRESS_MIN_SIZE && |c.zstd(body)| < |body| then [BATCH_ZSTD] + c.zstd(body)
    else [BATCH_RAW] + body
  }

  function Encode(c: Primitives, nonce: Bytes, client: ClientId, fs: seq<Frame>): Bytes {
    c.base64(c.seal(nonce, SealInput(c, Body(client, fs))))
  }

  function Decode(c: Primitives, body: Bytes): Decoded {
    if |body| == 0 then Empty
    else match c.unbase64(body)
      case None => Rejected(BadBase64)
      case Some(sealed) =>
        match c.open(sealed)
        case None => Rejected(BadSeal)
        case Some(raw) =>
          if |raw| == 0 then Rejected(EmptyPlaintext)
          else if raw[0] == BATCH_RAW then DecodeBody(raw[1..])
          else if raw[0] == BATCH_FLATE then
            (match c.inflate(raw[1..]) case None => Rejected(BadFlate) case Some(plain) => DecodeBody(plain))
          else if raw[0] == BATCH_ZSTD then
            (match c.unzstd(raw[1..]) case None => Rejected(BadZstd) case Some(plain) => DecodeBody(plain))
          else Rejected(UnknownFlags)
  }

  /** Where a frame lies in a body: behind the client, the two-byte count and the slots before
      it, as a four-byte length and then its wire form. */
  lemma BodyLayout(client: ClientId, before: seq<Frame>, f: Frame, after: seq<Frame>)
    ensures var n, len := |before| + 1 + |after|, 30 + |f.target| + |f.payload|;
            Body(client, before + [f] + after)
            == client + Be(n, 2) + Slots(before) + (Be(len, 4) + Wire(f)) + Slots(after)
    ensures Slots([]) == []
  {
    hide Be, Wire, Slots;
    var fs := before + [f] + after;
    SlotsAppend(before + [f], after);
    SlotsAppend(before, [f]);
    OneOrNoSlot(f);
    Assoc(client + Be(|fs|, 2), Slots(before) + Slot(f), Slots(after));
    Assoc(client + Be(|fs|, 2), Slots(before), Slot(f));
  }

  lemma OneOrNoSlot(f: Frame)
    ensures Slots([f]) == Slot(f) && Slots([]) == []
  {
    hide Slot;
    assert Slot(f) + [] == Slot(f);
  }

  /** The round trip, for every client, nonce and list of at most 65535 legal frames. */
  lemma BatchRoundTrip(c: Primitives, nonce: Bytes, client: ClientId, fs: seq<Frame>)
    requires Lawful(c) && AllLegal(fs) && |fs| <= 0xFFFF
    ensures Decode(c, Encode(c, nonce, client, fs)) == Batch(client, fs)
  {
    var body := Body(client, fs);
    var sealed := c.seal(nonce, SealInput(c, body));
    assert c.unbase64(c.base64(sealed)) == Some(sealed);
    assert c.open(sealed) == Some(SealInput(c, body));
    assert SealInput(c, body)[1..] == body || SealInput(c, body)[1..] == c.zstd(body);
    assert c.unzstd(c.zstd(body)) == Some(body);
    DecodeUndoesBody(client, fs, []);
    assert body + [] == body;
  }

  // ---- The code ----------------------------------------------------------------------------

  lemma {:induction false} SlotsAppend(a: seq<Frame>, b: seq<Frame>)
    ensures Slots(a + b) == Slots(a) + Slots(b)
  {
    if |a| == 0 {
      assert a + b == b;
    } else {
      SlotsAppend(a[1..], b);
      assert (a + b)[1..] == a[1..] + b;
      Assoc(Slot(a[0]), Slots(a[1..]), Slots(b));
    }
  }

  lemma SlotsSnoc(fs: seq<Frame>, i: nat)
    requires i < |fs|
    ensures Slots(fs[..i + 1]) == Slots(fs[..i]) + Slot(fs[i])
    ensures |Slots(fs[..i + 1])| <= |Slots(fs)|
  {
    assert fs[..i + 1] == fs[..i] + [fs[i]];
    SlotsAppend(fs[..i], [fs[i]]);
    assert Slots([fs[i]]) == Slot(fs[i]) + Slots([]);
    assert fs == fs[..i + 1] + fs[i + 1..];
    SlotsAppend(fs[..i + 1], fs[i + 1..]);
  }

  method PlainSize(fs: seq<Frame>) returns (n: nat)
    ensures n == 1 + CLIENT_ID_LEN + 2 + |Slots(fs)|
  {
    n := 1 + CLIENT_ID_LEN + 2;
    var i := 0;
    while i < |fs|
      invariant i <= |fs| && n == 1 + CLIENT_ID_LEN + 2 + |Slots(fs[..i])|
    {
      SlotsSnoc(fs, i);
      n := n + 4 + EncodedLen(fs[i]);
      i := i + 1;
    }
    assert fs[..i] == fs;
  }

  datatype Packed = Plain(buf: array<Byte>, len: nat) | NotPacked(e: BatchError)

  lemma NoSlots()
    ensures Slots([]) == []
  {
  }

  lemma HeaderThenSlots(client: ClientId, fs: seq<Frame>)
    requires |fs| <= MAX_BATCH
    ensures [BATCH_RAW] + client + Be(|fs|, 2) + Slots(fs) == [BATCH_RAW] + Body(client, fs)
  {
    hide Slots, Be;
    Assoc([BATCH_RAW] + client, Be(|fs|, 2), Slots(fs));
  }

  /** Appends the frames one by one to a buffer sized up front, so that it is never grown:
      it ends exactly full. */
  method Pack(client: ClientId, fs: seq<Frame>, pool: array<Byte>) returns (r: Packed)
    modifies pool
    ensures r == NotPacked(TooManyFrames) <==> |fs| > 0xFFFF
    ensures r.NotPacked? <==> |fs| > 0xFFFF || exists i :: 0 <= i < |fs| && !Marshals(fs[i])
    ensures r.Plain? ==> r.len <= r.buf.Length && r.buf[..r.len] == [BATCH_RAW] + Body(client, fs)
    ensures r.Plain? ==> (r.buf == pool || (fresh(r.buf) && r.buf.Length == r.len))
  {
    hide Slots, Be, Marshals, Body;
    if |fs| > MAX_BATCH {
      return NotPacked(TooManyFrames);
    }
    var plainSize := PlainSize(fs);
    var plain := pool;
    if plain.Length < plainSize {
      plain := new Byte[plainSize];
    }
    ghost var header := [BATCH_RAW] + client + Be(|fs|, 2);
    Put(plain, 0, 0, [BATCH_RAW]);
    Put(plain, 0, 1, client);
    Put(plain, 0, 17, Be(|fs|, 2));
    assert plain[..19] == header;
    NoSlots();
    assert fs[..0] == [];
    var off := 19;
    var i := 0;
    while i < |fs|
      invariant i <= |fs| && off == 19 + |Slots(fs[..i])| <= plainSize <= plain.Length
      invariant plain[..off] == header + Slots(fs[..i])
      invariant forall j :: 0 <= j < i ==> Marshals(fs[j])
    {
      off := PackOne(header, fs, i, plain, plainSize, off);
      if off == 0 {
        return NotPacked(MarshalFrame);
      }
      i := i + 1;
    }
    assert fs[..i] == fs;
    HeaderThenSlots(client, fs);
    assert off == plainSize;
    return Plain(plain, off);
  }

  /** One length prefix and one frame; zero reports a frame that cannot be marshalled. */
  method PackOne(ghost header: Bytes, fs: seq<Frame>, i: nat, plain: array<Byte>, ghost plainSize: nat, off: nat)
    returns (end: nat)
    requires i < |fs| && |header| == 19 && plainSize == 19 + |Slots(fs)| <= plain.Length
    requires off == 19 + |Slots(fs[..i])| <= plainSize
    requires plain[..off] == header + Slots(fs[..i])
    modifies plain
    ensures end == 0 <==> !Marshals(fs[i])
    ensures end != 0 ==> end == 19 + |Slots(fs[..i + 1])| <= plainSize
    ensures end != 0 ==> plain[..end] == header + Slots(fs[..i + 1])
  {
    var f := fs[i];
    SlotsSnoc(fs, i);
    Put(plain, 0, off, Be(EncodedLen(f), 4));
    var r := AppendMarshal(f, plain, off + 4);
    match r {
      case Failed(_) => return 0;
      case Appended(buf, len) =>
        Assoc(header, Slots(fs[..i]), Be(EncodedLen(f), 4));
        Assoc(header, Slots(fs[..i]) + Be(EncodedLen(f), 4), Wire(f));
        Assoc(Slots(fs[..i]), Be(EncodedLen(f), 4), Wire(f));
        return len;
    }
  }

  datatype Encoded = Sealed(body: Bytes) | NotEncoded(e: BatchError)

  method EncodeBatch(c: Primitives, nonce: Bytes, client: ClientId, fs: seq<Frame>, pool: array<Byte>)
    returns (r: Encoded)
    modifies pool
    ensures r == NotEncoded(TooManyFrames) <==> |fs| > 0xFFFF
    ensures r.NotEncoded? <==>
              |fs| > 0xFFFF || exists i :: 0 <= i < |fs| && (|fs[i].target| > 255 || |fs[i].payload| > 10 * 1024 * 1024)
    ensures r.Sealed? ==> r.body == Encode(c, nonce, client, fs)
    ensures var body := Body(client, fs);
            r.Sealed? ==> r.body == c.base64(c.seal(nonce,
              if |body| >= 512 && |c.zstd(body)| < |body| then [2] + c.zstd(body) else [0] + body))
  {
    hide Slots, Body;
    var p := Pack(client, fs, pool);
    if p.NotPacked? {
      return NotEncoded(p.e);
    }
    var plain := p.buf[..p.len];
    assert plain[1..] == Body(client, fs);
    var sealInput := plain;
    if |plain| - 1 >= COMPRESS_MIN_SIZE {
      var compressed := [BATCH_ZSTD] + c.zstd(plain[1..]);
      if |compressed| - 1 < |plain| - 1 {
        sealInput := compressed;
      }
    }
    return Sealed(c.base64(c.seal(nonce, sealInput)));
  }

  method DecodeSlot(plain: Bytes, start: nat) returns (r: OneSlot)
    requires start <= |plain|
    ensures r == SlotOf(plain, start)
  {
    var off := start;
    if |plain| < off + 4 {
      return NoSlot(ShortFrameLength);
    }
    var flen := UnBe(plain[off..off + 4]);
    off := off + 4;
    if |plain| < off + flen {
      return NoSlot(ShortFrameBody);
    }
    var p := Unmarshal(plain[off..off + flen]);
    if p.Bad? {
      return NoSlot(BadFrame(p.e));
    }
    off := off + flen;
    return Slot1(p.f, off);
  }

  /** The slot loop of the decoder, an offset moving through the plaintext. */
  method DecodeSlots(plain: Bytes, start: nat, count: nat) returns (r: Slotted)
    requires start <= |plain|
    ensures r == Unslot(plain, start, count)
  {
    var off: nat, i: nat, frames := start, 0, [];
    while i < count
      invariant i <= count && off <= |plain|
      invariant Prepend(frames, Unslot(plain, off, count - i)) == Unslot(plain, start, count)
    {
      var s := DecodeSlot(plain, off);
      if s.NoSlot? {
        return BadSlots(s.e);
      }
      PrependTwice(frames, s.f, Unslot(plain, s.end, count - i - 1));
      frames := frames + [s.f];
      off := s.end;
      i := i + 1;
    }
    assert frames + [] == frames;
    return Unpacked(frames);
  }

  lemma PrependTwice(fs: seq<Frame>, f: Frame, r: Slotted)
    ensures Prepend(fs, Prepend([f], r)) == Prepend(fs + [f], r)
  {
    if r.Unpacked? {
      Assoc(fs, [f], r.frames);
    }
  }

  method DecodeBatch(c: Primitives, body: Bytes) returns (r: Decoded)
    ensures r == Decode(c, body)
    ensures r == Empty <==> body == []
    ensures body != [] && c.unbase64(body) == None ==> r == Rejected(BadBase64)
    ensures body != [] && c.unbase64(body).Some? && c.open(c.unbase64(body).value) == None ==> r == Rejected(BadSeal)
    ensures body != [] && c.unbase64(body).Some? && c.open(c.unbase64(body).value).Some? ==>
              var raw := c.open(c.unbase64(body).value).value;
              if raw == [] then r == Rejected(EmptyPlaintext)
              else if raw[0] == 0 then r == DecodeBody(raw[1..])
              else if raw[0] == 1 then
                match c.inflate(raw[1..]) case None => r == Rejected(BadFlate) case Some(plain) => r == DecodeBody(plain)
              else if raw[0] == 2 then
                match c.unzstd(raw[1..]) case None => r == Rejected(BadZstd) case Some(plain) => r == DecodeBody(plain)
              else r == Rejected(UnknownFlags)
  {
    hide Unslot;
    if |body| == 0 {
      return Empty;
    }
    var sealed := c.unbase64(body);
    if sealed.None? {
      return Rejected(BadBase64);
    }
    var raw := c.open(sealed.value);
    if raw.None? {
      return Rejected(BadSeal);
    }
    if |raw.value| == 0 {
      return Rejected(EmptyPlaintext);
    }
    var plain: Bytes;
    if raw.value[0] == BATCH_RAW {
      plain := raw.value[1..];
    } else if raw.value[0] == BATCH_FLATE {
      var p := c.inflate(raw.value[1..]);
      if p.None? {
        return Rejected(BadFlate);
      }
      plain := p.value;
    } else if raw.value[0] == BATCH_ZSTD {
      var p := c.unzstd(raw.value[1..]);
      if p.None? {
        return Rejected(BadZstd);
      }
      plain := p.value;
    } else {
      return Rejected(UnknownFlags);
    }
    if |plain| < CLIENT_ID_LEN + 2 {
      return Rejected(ShortBatchHeader);
    }
    var slots := DecodeSlots(plain, 18, UnBe(plain[16..18]));
    match slots {
      case BadSlots(e) => return Rejected(e);
      case Unpacked(fs) => return Batch(plain[..16], fs);
    }
  }
}
