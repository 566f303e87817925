/**
 What a client's masked, fragmented message looks like to the decoder: the
 round trip from frames to handler events.
 */
module WebSocketMessages {
  import opened WebSocketDecoder

  // ----- Encoding frames (section 5.2 of RFC 6455) -----

  function Power(n: nat): nat {
    if n == 0 then 1 else 256 * Power(n - 1)
  }

  function ToBigEndian(n: nat, size: nat): (bytes: seq<Byte>)
    ensures |bytes| == size
  {
    if size == 0 then [] else ToBigEndian(n / 256, size - 1) + [n % 256]
  }

  lemma {:induction false} BigEndianRoundTrip(n: nat, size: nat)
    requires n < Power(size)
    ensures BigEndian(ToBigEndian(n, size)) == n
  {
    if size > 0 {
      BigEndianRoundTrip(n / 256, size - 1);
      assert ToBigEndian(n, size)[..size - 1] == ToBigEndian(n / 256, size - 1);
    }
  }

  /** `extra` is the number of extended length bytes: 0, 2 or 8. */
  datatype Wire = Wire(fin: bool, opcode: nat, mask: seq<Byte>, payload: seq<Byte>, extra: nat)

  /** Any length form that can hold the length is allowed, not only the shortest. */
  ghost predicate ValidWire(w: Wire) {
    && w.opcode < 16 && |w.mask| == 4
    && (w.extra == 0 || w.extra == 2 || w.extra == 8)
    && (if w.extra == 0 then |w.payload| < 126 else |w.payload| < Power(w.extra))
  }

  function Masked(payload: seq<Byte>, mask: seq<Byte>, offset: nat): seq<Byte> {
    if payload == [] then []
    else [Xor(payload[0], MaskAt(mask, offset))] + Masked(payload[1..], mask, offset + 1)
  }

  /** Section 5.3 of RFC 6455: octet i is the exclusive or of payload octet i and key octet i modulo 4. */
  function ClientMasked(payload: seq<Byte>, key: seq<Byte>): (masked: seq<Byte>)
    requires |key| == 4
    ensures |masked| == |payload|
  {
    seq(|payload|, i requires 0 <= i < |payload| => Value(BitsXor(Bits(payload[i]), Bits(key[i % 4]))))
  }

  /** That is what the decoder undoes. */
  lemma {:induction false} MaskedAt(payload: seq<Byte>, key: seq<Byte>, offset: nat, i: nat)
    requires i < |payload|
    ensures |Masked(payload, key, offset)| == |payload|
    ensures Masked(payload, key, offset)[i] == Xor(payload[i], MaskAt(key, offset + i))
    decreases |payload|
  {
    hide Xor, MaskAt;
    if i > 0 {
      MaskedAt(payload[1..], key, offset + 1, i - 1);
    } else if |payload| > 1 {
      MaskedAt(payload[1..], key, offset + 1, 0);
    }
  }

  lemma MaskedByClient(payload: seq<Byte>, key: seq<Byte>)
    requires |key| == 4
    ensures ClientMasked(payload, key) == Masked(payload, key, 0)
  {
    hide Bits, BitsXor, Value, Masked;
    forall i | 0 <= i < |payload|
      ensures |Masked(payload, key, 0)| == |payload| && ClientMasked(payload, key)[i] == Masked(payload, key, 0)[i]
    {
      MaskedAt(payload, key, 0, i);
    }
    if payload == [] { MaskedNone(key); } else { MaskedAt(payload, key, 0, 0); }
    var a, b := ClientMasked(payload, key), Masked(payload, key, 0);
    assert |a| == |b| && forall i :: 0 <= i < |a| ==> a[i] == b[i];
  }

  lemma MaskedNone(key: seq<Byte>)
    ensures Masked([], key, 0) == []
  {}

  function WireHeader(w: Wire): seq<Byte>
    requires ValidWire(w)
  {
    [if w.fin then 128 + w.opcode else w.opcode,
     128 + (if w.extra == 0 then |w.payload| else if w.extra == 2 then 126 else 127)] +
    ToBigEndian(|w.payload|, w.extra) + w.mask
  }

  function Encode(w: Wire): seq<Byte>
    requires ValidWire(w)
  {
    WireHeader(w) + ClientMasked(w.payload, w.mask)
  }

  lemma HeaderRoundTrip(w: Wire, rest: seq<Byte>)
    requires ValidWire(w)
    ensures ParseHeader(WireHeader(w) + rest) ==
            Header(w.fin, w.opcode, |w.payload|, w.mask, |WireHeader(w)|)
  {
    hide BigEndian, ToBigEndian, Power;
    var head := WireHeader(w);
    var input := head + rest;
    var size := 2 + w.extra;
    assert input[2..size] == ToBigEndian(|w.payload|, w.extra);
    assert input[size..size + 4] == w.mask;
    if w.extra > 0 { BigEndianRoundTrip(|w.payload|, w.extra); }
  }

  // ----- Payload bytes -----

  function Then(events: seq<Event>, r: Outcome): Outcome {
    r.(events := events + r.events)
  }

  function AddBytes(cfg: Config, m: Message, p: seq<Byte>): (r: (Message, seq<Event>))
    requires m.Message?
    ensures r.0.Message?
    decreases |p|
  {
    if p == [] then (m, [])
    else
      var (m1, ev1) := AddByte(cfg, m, p[0]);
      var (m2, ev2) := AddBytes(cfg, m1, p[1..]);
      (m2, ev1 + ev2)
  }

  /** A block of a data frame's payload is unmasked into the message. */
  lemma {:induction false} RunDataBlock(cfg: Config, f: Frame, m: Message, pongs: nat, bytes: seq<Byte>,
                                        rest: seq<Byte>)
    requires f.Frame? && !IsControl(f.opcode) && m.Message? && 0 < |bytes| <= f.remaining
    ensures var (m', ev) := AddBytes(cfg, m, Masked(bytes, f.mask, f.offset));
            var (d, all) := Finish(cfg, Advance(f, |bytes|), m', pongs, ev);
            Run(cfg, Open(f, m, pongs), bytes + rest) == Then(all, Run(cfg, d, rest))
    decreases |bytes|
  {
    hide Xor, MaskAt, FinishFrame, AddByte, Act;
    var more := bytes[1..];
    assert bytes + rest == [bytes[0]] + (more + rest);
    DataAct(cfg, f, m, pongs, bytes[0], more + rest);
    var v := Xor(bytes[0], MaskAt(f.mask, f.offset));
    var (m1, ev1) := AddByte(cfg, m, v);
    var values := Masked(more, f.mask, f.offset + 1);
    assert Masked(bytes, f.mask, f.offset) == [v] + values;
    AddBytesStep(cfg, m, v, values);
    if more == [] {
      assert more + rest == rest && ev1 + [] == ev1;
    } else {
      RunDataBlock(cfg, Advance(f, 1), m1, pongs, more, rest);
      var (m', ev) := AddBytes(cfg, m1, values);
      var (d, all) := Finish(cfg, Advance(f, |bytes|), m', pongs, ev);
      ThenJoin(ev1, all, Run(cfg, d, rest));
      FinishJoin(cfg, Advance(f, |bytes|), m', pongs, ev1, ev);
    }
  }

  /** The frame after `n` of its payload bytes. */
  function Advance(f: Frame, n: nat): (r: Frame)
    requires f.Frame? && n <= f.remaining
    ensures r.Frame?
  {
    f.(remaining := f.remaining - n, offset := f.offset + n)
  }

  /** A control frame after `values` were added to its buffer. */
  function Collect(f: Frame, values: seq<Byte>): (r: Frame)
    requires f.Frame? && |values| <= f.remaining
    ensures r.Frame?
  {
    f.(remaining := f.remaining - |values|, offset := f.offset + |values|, control := f.control + values)
  }

  lemma DataAct(cfg: Config, f: Frame, m: Message, pongs: nat, b: Byte, more: seq<Byte>)
    requires f.Frame? && !IsControl(f.opcode) && m.Message? && f.remaining > 0
    ensures var (m1, ev1) := AddByte(cfg, m, Xor(b, MaskAt(f.mask, f.offset)));
            var (d, all) := Finish(cfg, Advance(f, 1), m1, pongs, ev1);
            m1.Message? && Act(cfg, Open(f, m, pongs), [b] + more) == Action(d, 1, all)
  {
    hide Xor, MaskAt, Finish, ParseHeader, StartFrame;
  }

  lemma AddBytesStep(cfg: Config, m: Message, v: Byte, values: seq<Byte>)
    requires m.Message?
    ensures var (m1, ev1) := AddByte(cfg, m, v);
            m1.Message? && var (m2, ev2) := AddBytes(cfg, m1, values);
            AddBytes(cfg, m, [v] + values) == (m2, ev1 + ev2)
  {
    assert ([v] + values)[1..] == values;
  }

  lemma FinishJoin(cfg: Config, f: Frame, m: Message, pongs: nat, a: seq<Event>, b: seq<Event>)
    requires f.Frame?
    ensures Finish(cfg, f, m, pongs, a + b) == (Finish(cfg, f, m, pongs, b).0, a + Finish(cfg, f, m, pongs, b).1)
  {
    hide FinishFrame;
    if f.remaining == 0 {
      var more := FinishFrame(cfg, f, m, pongs).1;
      assert (a + b) + more == a + (b + more);
    }
  }

  /** A block of a control frame's payload is unmasked into its buffer. */
  lemma {:induction false} RunControlBlock(cfg: Config, f: Frame, m: Message, pongs: nat, bytes: seq<Byte>,
                                           rest: seq<Byte>)
    requires f.Frame? && IsControl(f.opcode) && 0 < |bytes| <= f.remaining
    ensures |Masked(bytes, f.mask, f.offset)| == |bytes|
    ensures var (d, ev) := Finish(cfg, Collect(f, Masked(bytes, f.mask, f.offset)), m, pongs, []);
            Run(cfg, Open(f, m, pongs), bytes + rest) == Then(ev, Run(cfg, d, rest))
    decreases |bytes|
  {
    hide Xor, MaskAt, FinishFrame, Act;
    var more := bytes[1..];
    assert bytes + rest == [bytes[0]] + (more + rest);
    ControlAct(cfg, f, m, pongs, bytes[0], more + rest);
    var v := Xor(bytes[0], MaskAt(f.mask, f.offset));
    var values := Masked(more, f.mask, f.offset + 1);
    assert Masked(bytes, f.mask, f.offset) == [v] + values;
    MaskedTwice(bytes, f.mask, f.offset);
    var f1 := Collect(f, [v]);
    assert f1.control + values == f.control + Masked(bytes, f.mask, f.offset);
    if more == [] {
      assert more + rest == rest && f.control + [v] + [] == f.control + [v];
    } else {
      RunControlBlock(cfg, f1, m, pongs, more, rest);
      assert Collect(f1, values) == Collect(f, [v] + values);
      var (d, ev) := Finish(cfg, Collect(f1, values), m, pongs, []);
      ThenTwice(ev, Run(cfg, d, rest));
    }
  }

  lemma ControlAct(cfg: Config, f: Frame, m: Message, pongs: nat, b: Byte, more: seq<Byte>)
    requires f.Frame? && IsControl(f.opcode) && f.remaining > 0
    ensures var (d, ev) := Finish(cfg, Collect(f, [Xor(b, MaskAt(f.mask, f.offset))]), m, pongs, []);
            Act(cfg, Open(f, m, pongs), [b] + more) == Action(d, 1, ev)
  {
    hide Xor, MaskAt, Finish, ParseHeader, StartFrame;
  }

  lemma FinishIgnoresCount(cfg: Config, f: Frame, f': Frame, m: Message, pongs: nat)
    requires f.Frame? && f'.Frame? && f'.fin == f.fin && f'.opcode == f.opcode && f'.control == f.control
    ensures FinishFrame(cfg, f', m, pongs) == FinishFrame(cfg, f, m, pongs)
  {}

  /** Unmasking undoes masking. */
  lemma {:induction false} MaskedTwice(payload: seq<Byte>, mask: seq<Byte>, offset: nat)
    ensures |Masked(payload, mask, offset)| == |payload|
    ensures Masked(Masked(payload, mask, offset), mask, offset) == payload
  {
    hide Xor, MaskAt;
    if payload != [] {
      XorTwice(payload[0], MaskAt(mask, offset));
      MaskedTwice(payload[1..], mask, offset + 1);
      assert Masked(payload, mask, offset)[1..] == Masked(payload[1..], mask, offset + 1);
    }
  }

  /** Reading the header of an encoded frame. */
  lemma RunHeader(cfg: Config, w: Wire, m: Message, pongs: nat, rest: seq<Byte>)
    requires ValidWire(w)
    ensures var h := Header(w.fin, w.opcode, |w.payload|, w.mask, |WireHeader(w)|);
            var (d, ev) := StartFrame(cfg, h, m, pongs);
            Run(cfg, Open(NoFrame, m, pongs), Encode(w) + rest) ==
            Then(ev, Run(cfg, d, Masked(w.payload, w.mask, 0) + rest))
  {
    hide StartFrame, ParseHeader, WireHeader, Masked, PayloadByte, ClientMasked;
    MaskedByClient(w.payload, w.mask);
    var input := Encode(w) + rest;
    assert input == WireHeader(w) + (Masked(w.payload, w.mask, 0) + rest);
    HeaderRoundTrip(w, Masked(w.payload, w.mask, 0) + rest);
    assert input[|WireHeader(w)|..] == Masked(w.payload, w.mask, 0) + rest;
  }

  /** A whole control frame. */
  lemma RunControlFrame(cfg: Config, w: Wire, m: Message, pongs: nat, rest: seq<Byte>)
    requires ValidWire(w) && w.fin && |w.payload| <= 125 && (w.opcode == 9 || w.opcode == 10 || w.opcode == 8)
    ensures var (d, ev) := FinishFrame(cfg, Frame(true, w.opcode, 0, 0, w.mask, w.payload), m, pongs);
            Run(cfg, Open(NoFrame, m, pongs), Encode(w) + rest) == Then(ev, Run(cfg, d, rest))
  {
    hide Run, Encode, FinishFrame, WireHeader, Masked;
    RunHeader(cfg, w, m, pongs, rest);
    var f := Frame(w.fin, w.opcode, |w.payload|, 0, w.mask, []);
    var bytes := Masked(w.payload, w.mask, 0);
    MaskedTwice(w.payload, w.mask, 0);
    assert [] + w.payload == w.payload;
    var done := Frame(true, w.opcode, 0, 0, w.mask, w.payload);
    FinishIgnoresCount(cfg, done, Collect(f, w.payload), m, pongs);
    var (d, ev) := FinishFrame(cfg, done, m, pongs);
    if w.payload == [] {
      assert bytes + rest == rest;
    } else {
      RunControlBlock(cfg, f, m, pongs, bytes, rest);
    }
    ThenTwice(ev, Run(cfg, d, rest));
  }

  /** A close frame is answered with its payload and ends the connection; nothing after it is read. */
  lemma CloseAnswered(cfg: Config, w: Wire, m: Message, pongs: nat, rest: seq<Byte>)
    requires ValidWire(w) && w.fin && |w.payload| <= 125 && w.opcode == 8
    ensures Run(cfg, Open(NoFrame, m, pongs), Encode(w) + rest) == Outcome(Closed, [], [CloseEcho(w.payload)])
  {
    hide Encode;
    RunControlFrame(cfg, w, m, pongs, rest);
    assert [CloseEcho(w.payload)] + [] == [CloseEcho(w.payload)];
  }

  /** What section 5 of RFC 6455 does not allow at this point of the stream. */
  predicate NotAllowed(w: Wire, m: Message) {
    || (w.opcode >= 8 && (!w.fin || |w.payload| > 125 || w.opcode > 10))
    || 3 <= w.opcode < 8
    || ((w.opcode == 1 || w.opcode == 2) && m.Message?)
    || (w.opcode == 0 && m.NoMessage?)
  }

  /**
   A frame is refused as a protocol error if and only if it is not allowed, and
   as too large if and only if the message would exceed the limit. Then the
   connection ends and nothing of the payload is handed out.
   */
  lemma RefusedFrame(cfg: Config, w: Wire, m: Message, pongs: nat, rest: seq<Byte>)
    requires ValidWire(w) && ValidConfig(cfg)
    ensures var r := Act(cfg, Open(NoFrame, m, pongs), Encode(w) + rest);
            && r.Action?
            && (NotAllowed(w, m) <==> r.next == Closed && r.events == [Failed(ProtocolError)])
            && (!NotAllowed(w, m) && w.opcode < 8 &&
                (if m.Message? then m.size else 0) + |w.payload| > cfg.maxMessage <==>
                r.next == Closed && r.events != [] && r.events[|r.events| - 1] == Failed(PayloadTooLarge))
  {
    hide ParseHeader, WireHeader, Masked, ClientMasked;
    HeaderRoundTrip(w, ClientMasked(w.payload, w.mask) + rest);
    assert Encode(w) + rest == WireHeader(w) + (ClientMasked(w.payload, w.mask) + rest);
    var f := Frame(w.fin, w.opcode, |w.payload|, 0, w.mask, []);
    var text := w.opcode == TEXT;
    FinishEvents(cfg, f, m, pongs, []);
    FinishEvents(cfg, f, Message(text, 0, []), pongs, [Begin(text)]);
  }

  lemma FinishEvents(cfg: Config, f: Frame, m: Message, pongs: nat, ev: seq<Event>)
    requires f.Frame? && (ev != [] ==> ev[|ev| - 1].Begin?)
    ensures var all := Finish(cfg, f, m, pongs, ev).1;
            all != [] ==> all[|all| - 1] != Failed(ProtocolError) && all[|all| - 1] != Failed(PayloadTooLarge)
  {}

  /** A header with reserved bits or without a mask is refused as soon as its two first bytes are read. */
  lemma MalformedHeader(x: bv8, y: bv8, rest: seq<Byte>)
    ensures ParseHeader([Value(x), Value(y)] + rest).Malformed? <==> x & 0x70 != 0 || y & 0x80 == 0
  {
    ReservedBits(x);
    MaskBit(y);
  }

  lemma ReservedBits(x: bv8)
    ensures x & 0x70 != 0 <==> Value(x) / 16 % 8 != 0
  {}

  lemma MaskBit(y: bv8)
    ensures y & 0x80 == 0 <==> Value(y) < 128
  {}

  lemma ThenTwice(ev: seq<Event>, r: Outcome)
    ensures Then([], Then(ev, r)) == Then(ev, r) == Then(ev + [], r) && Then([] + ev, r) == Then(ev, r)
  {
    assert [] + ev == ev && ev + [] == ev && [] + (ev + r.events) == ev + r.events;
  }

  lemma ThenJoin(a: seq<Event>, b: seq<Event>, r: Outcome)
    ensures Then(a, Then(b, r)) == Then(a + b, r)
  {
    assert a + (b + r.events) == (a + b) + r.events;
  }

  /** The message a data frame belongs to: the one in progress, or a new one. */
  function Joined(opcode: nat, m: Message): Message {
    if m.Message? then m else Message(opcode == TEXT, 0, [])
  }

  function BeginEvent(opcode: nat, m: Message): seq<Event> {
    if m.Message? then [] else [Begin(opcode == TEXT)]
  }

  /** A whole data frame. */
  lemma RunDataFrame(cfg: Config, w: Wire, m: Message, pongs: nat, rest: seq<Byte>)
    requires ValidWire(w) && (if m.Message? then w.opcode == CONTINUATION else w.opcode == TEXT || w.opcode == BINARY)
    requires Joined(w.opcode, m).size + |w.payload| <= cfg.maxMessage
    ensures var (m', ev) := AddBytes(cfg, Joined(w.opcode, m), w.payload);
            var (d, ev') := FinishFrame(cfg, Frame(w.fin, w.opcode, 0, 0, w.mask, []), m', pongs);
            Run(cfg, Open(NoFrame, m, pongs), Encode(w) + rest) ==
            Then(BeginEvent(w.opcode, m) + ev + ev', Run(cfg, d, rest))
  {
    hide Run, Encode, FinishFrame, WireHeader, AddByte, Masked;
    RunHeader(cfg, w, m, pongs, rest);
    var f := Frame(w.fin, w.opcode, |w.payload|, 0, w.mask, []);
    var bytes := Masked(w.payload, w.mask, 0);
    MaskedTwice(w.payload, w.mask, 0);
    var done := f.(remaining := 0);
    var joined, begin := Joined(w.opcode, m), BeginEvent(w.opcode, m);
    var (m', ev) := AddBytes(cfg, joined, w.payload);
    FinishIgnoresCount(cfg, done, Advance(f, |w.payload|), m', pongs);
    var (d, ev') := FinishFrame(cfg, done, m', pongs);
    if w.payload == [] {
      assert bytes + rest == rest;
      assert begin + [] + ev' == begin + ev';
    } else {
      RunDataBlock(cfg, f, joined, pongs, bytes, rest);
      ThenJoin(begin, ev + ev', Run(cfg, d, rest));
      assert begin + (ev + ev') == begin + ev + ev';
    }
  }

  // ----- Chunks -----

  /** The chunks that are full after `s`, and what is left over. */
  function FullChunks(n: nat, s: seq<Byte>): seq<seq<Byte>>
    requires n > 0
  {
    if |s| < n then [] else [s[..n]] + FullChunks(n, s[n..])
  }

  function Remainder(n: nat, s: seq<Byte>): (r: seq<Byte>)
    requires n > 0
    ensures |r| < n
  {
    if |s| < n then s else Remainder(n, s[n..])
  }

  function Joins(chunks: seq<seq<Byte>>): seq<Byte> {
    if chunks == [] then [] else chunks[0] + Joins(chunks[1..])
  }

  /** Chunks are cut only at multiples of the chunk size and lose nothing. */
  lemma {:induction false} ChunksJoin(n: nat, s: seq<Byte>)
    requires n > 0
    ensures Joins(FullChunks(n, s)) + Remainder(n, s) == s
    ensures forall i :: 0 <= i < |FullChunks(n, s)| ==> |FullChunks(n, s)[i]| == n
    decreases |s|
  {
    if |s| >= n {
      ChunksJoin(n, s[n..]);
      assert s == s[..n] + s[n..];
    }
  }

  lemma {:induction false} ChunksConcat(n: nat, s: seq<Byte>, t: seq<Byte>)
    requires n > 0
    ensures FullChunks(n, s + t) == FullChunks(n, s) + FullChunks(n, Remainder(n, s) + t)
    ensures Remainder(n, s + t) == Remainder(n, Remainder(n, s) + t)
    decreases |s|
  {
    if |s| >= n {
      assert (s + t)[n..] == s[n..] + t && (s + t)[..n] == s[..n];
      ChunksConcat(n, s[n..], t);
    }
  }

  function ChunkEvents(text: bool, chunks: seq<seq<Byte>>): seq<Event> {
    if chunks == [] then [] else [Chunk(text, chunks[0])] + ChunkEvents(text, chunks[1..])
  }

  lemma {:induction false} ChunkEventsConcat(text: bool, a: seq<seq<Byte>>, b: seq<seq<Byte>>)
    ensures ChunkEvents(text, a + b) == ChunkEvents(text, a) + ChunkEvents(text, b)
  {
    if a == [] {
      assert a + b == b;
    } else {
      assert (a + b)[1..] == a[1..] + b;
      ChunkEventsConcat(text, a[1..], b);
    }
  }

  lemma {:induction false} AddBytesChunks(cfg: Config, m: Message, p: seq<Byte>)
    requires cfg.chunkSize > 0 && m.Message? && |m.chunk| < cfg.chunkSize
    ensures var n := cfg.chunkSize;
            AddBytes(cfg, m, p) == (Message(m.text, m.size + |p|, Remainder(n, m.chunk + p)),
                                    ChunkEvents(m.text, FullChunks(n, m.chunk + p)))
    decreases |p|
  {
    var n := cfg.chunkSize;
    if p == [] {
      assert m.chunk + p == m.chunk;
    } else {
      var chunk := m.chunk + [p[0]];
      var all := m.chunk + p;
      assert all == chunk + p[1..];
      var (m1, ev1) := AddByte(cfg, m, p[0]);
      AddBytesChunks(cfg, m1, p[1..]);
      if |chunk| == n {
        assert all[..n] == chunk && all[n..] == p[1..] && [] + p[1..] == p[1..];
        assert FullChunks(n, all)[1..] == FullChunks(n, p[1..]);
      } else {
        assert [] + AddBytes(cfg, m1, p[1..]).1 == AddBytes(cfg, m1, p[1..]).1;
      }
    }
  }

  // ----- A fragmented message with control frames in between -----

  datatype Part =
    | DataPart(payload: seq<Byte>, mask: seq<Byte>, extra: nat)
    | PingPart(payload: seq<Byte>, mask: seq<Byte>, extra: nat)
    | PongPart(payload: seq<Byte>, mask: seq<Byte>, extra: nat)

  /** The frame of a part, with the opcodes of section 5.2 of RFC 6455. */
  function PartWire(text: bool, started: bool, last: bool, p: Part): Wire {
    match p
    case DataPart(payload, mask, extra) =>
      Wire(last, if started then 0 else if text then 1 else 2, mask, payload, extra)
    case PingPart(payload, mask, extra) => Wire(true, 9, mask, payload, extra)
    case PongPart(payload, mask, extra) => Wire(true, 10, mask, payload, extra)
  }

  ghost predicate ValidPart(p: Part) {
    && ValidWire(Wire(true, 1, p.mask, p.payload, p.extra))
    && (!p.DataPart? ==> |p.payload| <= 125)
  }

  /** The last part is the final fragment; the others may come in any order. */
  ghost predicate ValidParts(parts: seq<Part>) {
    && parts != [] && parts[|parts| - 1].DataPart?
    && forall i :: 0 <= i < |parts| ==> ValidPart(parts[i])
  }

  function MessageBytes(text: bool, started: bool, parts: seq<Part>): seq<Byte>
    requires forall i :: 0 <= i < |parts| ==> ValidPart(parts[i])
    decreases |parts|
  {
    if parts == [] then []
    else
      assert ValidPart(parts[0]);
      Encode(PartWire(text, started, |parts| == 1, parts[0])) +
      MessageBytes(text, started || parts[0].DataPart?, parts[1..])
  }

  function Payload(parts: seq<Part>): seq<Byte> {
    if parts == [] then []
    else (if parts[0].DataPart? then parts[0].payload else []) + Payload(parts[1..])
  }

  function PingPayloads(parts: seq<Part>): seq<seq<Byte>> {
    if parts == [] then []
    else (if parts[0].PingPart? then [parts[0].payload] else []) + PingPayloads(parts[1..])
  }

  function DataEvents(events: seq<Event>): seq<Event> {
    if events == [] then []
    else (if IsData(events[0]) then [events[0]] else []) + DataEvents(events[1..])
  }

  function Pongs(events: seq<Event>): seq<seq<Byte>> {
    if events == [] then []
    else (if events[0].Pong? then [events[0].payload] else []) + Pongs(events[1..])
  }

  lemma EventsStep(events: seq<Event>)
    ensures events == [] ==> DataEvents(events) == [] && Pongs(events) == []
    ensures events != [] ==>
              && DataEvents(events) == (if IsData(events[0]) then [events[0]] else []) + DataEvents(events[1..])
              && Pongs(events) == (if events[0].Pong? then [events[0].payload] else []) + Pongs(events[1..])
  {}

  lemma Assoc<T>(a: seq<T>, b: seq<T>, c: seq<T>)
    ensures a + (b + c) == a + b + c
  {}

  lemma {:induction false} EventsConcat(a: seq<Event>, b: seq<Event>)
    ensures DataEvents(a + b) == DataEvents(a) + DataEvents(b) && Pongs(a + b) == Pongs(a) + Pongs(b)
    decreases |a|
  {
    hide DataEvents, Pongs, IsData;
    EventsStep(a);
    if a == [] {
      assert a + b == b;
      assert [] + DataEvents(b) == DataEvents(b) && [] + Pongs(b) == Pongs(b);
    } else {
      EventsStep(a + b);
      assert (a + b)[1..] == a[1..] + b;
      EventsConcat(a[1..], b);
      Assoc(if IsData(a[0]) then [a[0]] else [], DataEvents(a[1..]), DataEvents(b));
      Assoc(if a[0].Pong? then [a[0].payload] else [], Pongs(a[1..]), Pongs(b));
    }
  }

  lemma PartsStep(parts: seq<Part>)
    requires parts != []
    ensures Payload(parts) == (if parts[0].DataPart? then parts[0].payload else []) + Payload(parts[1..])
    ensures PingPayloads(parts) == (if parts[0].PingPart? then [parts[0].payload] else []) + PingPayloads(parts[1..])
  {}

  lemma NoMoreParts(parts: seq<Part>)
    requires parts == []
    ensures Payload(parts) == [] && PingPayloads(parts) == []
  {}

  predicate IsData(e: Event) {
    e.Begin? || e.Chunk? || e.End?
  }

  lemma {:induction false} DataOnly(events: seq<Event>)
    requires forall i :: 0 <= i < |events| ==> IsData(events[i])
    ensures DataEvents(events) == events && Pongs(events) == []
  {
    if events != [] {
      assert IsData(events[0]);
      DataOnly(events[1..]);
    }
  }

  lemma {:induction false} ChunkEventsAreData(text: bool, chunks: seq<seq<Byte>>)
    ensures forall i :: 0 <= i < |ChunkEvents(text, chunks)| ==> IsData(ChunkEvents(text, chunks)[i])
  {
    if chunks != [] { ChunkEventsAreData(text, chunks[1..]); }
  }

  /** Message contents `s` as the handler sees them. */
  function Delivery(n: nat, text: bool, s: seq<Byte>): seq<Event>
    requires n > 0
  {
    ChunkEvents(text, FullChunks(n, s)) + FlushChunk(Message(text, 0, Remainder(n, s))) + [End(text)]
  }

  lemma DeliveryConcat(n: nat, text: bool, s: seq<Byte>, t: seq<Byte>)
    requires n > 0
    ensures ChunkEvents(text, FullChunks(n, s)) + Delivery(n, text, Remainder(n, s) + t) == Delivery(n, text, s + t)
  {
    hide FullChunks, Remainder, ChunkEvents;
    ChunksConcat(n, s, t);
    ChunkEventsConcat(text, FullChunks(n, s), FullChunks(n, Remainder(n, s) + t));
  }

  /** What one part does: the decoder after it, and the events it causes. */
  lemma RunPart(cfg: Config, text: bool, m: Message, pongs: nat, p: Part, last: bool, rest: seq<Byte>)
    returns (ev: seq<Event>, m': Message, pongs': nat)
    requires ValidConfig(cfg) && ValidPart(p) && (last ==> p.DataPart?) && SafeMessage(cfg, m)
    requires m.Message? ==> m.text == text
    requires p.PingPart? ==> cfg.pongOk(pongs)
    requires p.DataPart? ==> Joined(TEXT, m).size + |p.payload| <= cfg.maxMessage
    ensures Run(cfg, Open(NoFrame, m, pongs), Encode(PartWire(text, m.Message?, last, p)) + rest) ==
            Then(ev, Run(cfg, Open(NoFrame, m', pongs'), rest))
    ensures Pongs(ev) == if p.PingPart? then [p.payload] else []
    ensures pongs' == if p.PingPart? then pongs + 1 else pongs
    ensures !p.DataPart? ==> m' == m && DataEvents(ev) == []
    ensures p.DataPart? ==>
              var n, s := cfg.chunkSize, Contents(m) + p.payload;
              var chunks := ChunkEvents(text, FullChunks(n, s));
              if last then m' == NoMessage && DataEvents(ev) == BeginOf(text, m) + Delivery(n, text, s)
              else m' == Message(text, Joined(TEXT, m).size + |p.payload|, Remainder(n, s)) &&
                   DataEvents(ev) == BeginOf(text, m) + chunks
  {
    hide Run, Encode, ParseHeader, FullChunks, Remainder, ChunkEvents, Delivery, FinishFrame, DataEvents, Pongs;
    if p.DataPart? {
      ev, m' := RunDataPart(cfg, text, m, pongs, p, last, rest);
      pongs' := pongs;
    } else {
      ev := RunControlPart(cfg, text, m, pongs, p, last, rest);
      m', pongs' := m, if p.PingPart? then pongs + 1 else pongs;
    }
  }

  lemma RunControlPart(cfg: Config, text: bool, m: Message, pongs: nat, p: Part, last: bool, rest: seq<Byte>)
    returns (ev: seq<Event>)
    requires ValidPart(p) && !p.DataPart? && (p.PingPart? ==> cfg.pongOk(pongs))
    ensures var pongs' := if p.PingPart? then pongs + 1 else pongs;
            Run(cfg, Open(NoFrame, m, pongs), Encode(PartWire(text, m.Message?, last, p)) + rest) ==
            Then(ev, Run(cfg, Open(NoFrame, m, pongs'), rest))
    ensures DataEvents(ev) == [] && Pongs(ev) == if p.PingPart? then [p.payload] else []
  {
    hide Run, Encode, ParseHeader;
    var w := PartWire(text, m.Message?, last, p);
    RunControlFrame(cfg, w, m, pongs, rest);
    ev := FinishFrame(cfg, Frame(true, w.opcode, 0, 0, w.mask, w.payload), m, pongs).1;
  }

  lemma RunDataPart(cfg: Config, text: bool, m: Message, pongs: nat, p: Part, last: bool, rest: seq<Byte>)
    returns (ev: seq<Event>, m': Message)
    requires ValidConfig(cfg) && ValidPart(p) && p.DataPart? && SafeMessage(cfg, m)
    requires m.Message? ==> m.text == text
    requires Joined(TEXT, m).size + |p.payload| <= cfg.maxMessage
    ensures Run(cfg, Open(NoFrame, m, pongs), Encode(PartWire(text, m.Message?, last, p)) + rest) ==
            Then(ev, Run(cfg, Open(NoFrame, m', pongs), rest))
    ensures Pongs(ev) == []
    ensures var n, s := cfg.chunkSize, Contents(m) + p.payload;
            if last then m' == NoMessage && DataEvents(ev) == BeginOf(text, m) + Delivery(n, text, s)
            else m' == Message(text, Joined(TEXT, m).size + |p.payload|, Remainder(n, s)) &&
                 DataEvents(ev) == BeginOf(text, m) + ChunkEvents(text, FullChunks(n, s))
  {
    hide Run, Encode, AddBytes, FullChunks, Remainder, ChunkEvents, DataEvents, Pongs, ValidWire, FinishFrame,
         FlushChunk, Then;
    var w := PartWire(text, m.Message?, last, p);
    PartWireValid(text, m.Message?, last, p);
    var n, s := cfg.chunkSize, Contents(m) + p.payload;
    RunDataFrame(cfg, w, m, pongs, rest);
    var joined := Joined(w.opcode, m);
    AddBytesChunks(cfg, joined, p.payload);
    var begin, chunks := BeginOf(text, m), FullChunks(n, s);
    var f, m1 := Frame(w.fin, w.opcode, 0, 0, w.mask, []), Message(text, joined.size + |p.payload|, Remainder(n, s));
    DataFinish(cfg, f, m1, pongs);
    var (d, end) := FinishFrame(cfg, f, m1, pongs);
    ev, m' := begin + ChunkEvents(text, chunks) + end, d.message;
    DataFrameEvents(text, begin, chunks, end);
    if last {
      assert ev == begin + Delivery(n, text, s);
    } else {
      assert end == [] && ev == begin + ChunkEvents(text, chunks);
    }
  }

  /** The end of a data frame: the last one ends the message, the others leave it open. */
  lemma DataFinish(cfg: Config, f: Frame, m: Message, pongs: nat)
    requires f.Frame? && !IsControl(f.opcode) && m.Message?
    ensures var (d, end) := FinishFrame(cfg, f, m, pongs);
            && d == Open(NoFrame, if f.fin then NoMessage else m, pongs)
            && end == (if f.fin then FlushChunk(Message(m.text, 0, m.chunk)) + [End(m.text)] else [])
            && forall i :: 0 <= i < |end| ==> IsData(end[i])
  {}

  lemma PartWireValid(text: bool, started: bool, last: bool, p: Part)
    requires ValidPart(p)
    ensures ValidWire(PartWire(text, started, last, p))
  {}

  function Contents(m: Message): seq<Byte> {
    if m.Message? then m.chunk else []
  }

  function BeginOf(text: bool, m: Message): seq<Event> {
    if m.Message? then [] else [Begin(text)]
  }

  lemma DataFrameEvents(text: bool, begin: seq<Event>, chunks: seq<seq<Byte>>, end: seq<Event>)
    requires forall i :: 0 <= i < |begin| ==> IsData(begin[i])
    requires forall i :: 0 <= i < |end| ==> IsData(end[i])
    ensures var all := begin + ChunkEvents(text, chunks) + end; DataEvents(all) == all && Pongs(all) == []
  {
    hide ChunkEvents, DataEvents, Pongs;
    ChunkEventsAreData(text, chunks);
    DataOnly(begin + ChunkEvents(text, chunks) + end);
  }

  /** The rest of a message, from any point between frames. */
  lemma {:induction false} RunParts(cfg: Config, text: bool, m: Message, pongs: nat, parts: seq<Part>, rest: seq<Byte>)
    returns (ev: seq<Event>)
    requires ValidConfig(cfg) && ValidParts(parts) && SafeMessage(cfg, m)
    requires m.Message? ==> m.text == text
    requires Joined(TEXT, m).size + |Payload(parts)| <= cfg.maxMessage
    requires forall k :: pongs <= k < pongs + |PingPayloads(parts)| ==> cfg.pongOk(k)
    ensures Run(cfg, Open(NoFrame, m, pongs), MessageBytes(text, m.Message?, parts) + rest) ==
            Then(ev, Run(cfg, Open(NoFrame, NoMessage, pongs + |PingPayloads(parts)|), rest))
    ensures DataEvents(ev) == BeginOf(text, m) + Delivery(cfg.chunkSize, text, Contents(m) + Payload(parts))
    ensures Pongs(ev) == PingPayloads(parts)
    decreases |parts|
  {
    hide Run, Encode, FullChunks, Remainder, ChunkEvents, Delivery, DataEvents, Pongs, Then, ValidWire, PartWire,
         Payload, PingPayloads;
    var p, more := parts[0], parts[1..];
    PartsStep(parts);
    assert parts == [p] + more;
    assert ValidPart(p);
    var last := |parts| == 1;
    PartWireValid(text, m.Message?, last, p);
    var first := Encode(PartWire(text, m.Message?, last, p));
    var later := MessageBytes(text, m.Message? || p.DataPart?, more);
    assert first + later + rest == first + (later + rest);
    var ev1, m1, pongs1 := RunPart(cfg, text, m, pongs, p, last, later + rest);
    if last {
      assert more == [] && later + rest == rest;
      NoMoreParts(more);
      assert Payload(parts) == p.payload && PingPayloads(parts) == [] by { assert p.payload + [] == p.payload; }
      ev := ev1;
    } else {
      assert ValidParts(more) by { assert forall i :: 0 <= i < |more| ==> more[i] == parts[i + 1]; }
      var ev2 := RunParts(cfg, text, m1, pongs1, more, rest);
      ev := ev1 + ev2;
      EventsConcat(ev1, ev2);
      ThenJoin(ev1, ev2, Run(cfg, Open(NoFrame, NoMessage, pongs + |PingPayloads(parts)|), rest));
      PartThenRest(cfg.chunkSize, text, m, p, more, DataEvents(ev1), DataEvents(ev2), m1);
    }
  }

  /** The events of one part and of the parts after it add up. */
  lemma PartThenRest(n: nat, text: bool, m: Message, p: Part, more: seq<Part>, ev1: seq<Event>, ev2: seq<Event>,
                     m1: Message)
    requires n > 0
    requires !p.DataPart? ==> m1 == m && ev1 == []
    requires p.DataPart? ==> m1.Message? && m1.chunk == Remainder(n, Contents(m) + p.payload)
    requires p.DataPart? ==> ev1 == BeginOf(text, m) + ChunkEvents(text, FullChunks(n, Contents(m) + p.payload))
    requires ev2 == BeginOf(text, m1) + Delivery(n, text, Contents(m1) + Payload(more))
    ensures ev1 + ev2 == BeginOf(text, m) + Delivery(n, text, Contents(m) + Payload([p] + more))
  {
    hide FullChunks, Remainder, ChunkEvents, Delivery, Payload;
    PartsStep([p] + more);
    assert ([p] + more)[1..] == more;
    if p.DataPart? {
      var s := Contents(m) + p.payload;
      DeliveryConcat(n, text, s, Payload(more));
      Assoc(Contents(m), p.payload, Payload(more));
      assert s + Payload(more) == Contents(m) + Payload([p] + more);
      assert [] + Delivery(n, text, Remainder(n, s) + Payload(more)) ==
             Delivery(n, text, Remainder(n, s) + Payload(more));
    } else {
      assert [] + Payload(more) == Payload(more) && [] + ev2 == ev2;
    }
  }

  lemma RunNothing(cfg: Config, d: Decoder)
    ensures Run(cfg, d, []) == Outcome(d, [], [])
  {}

  /**
   Round trip: for every masked message, fragmented anywhere and with pings and
   pongs in between, the handler sees one begin, the payload in full chunks and
   a shorter last one, and one end; every ping is answered in order.
   */
  lemma MessageRoundTrip(cfg: Config, text: bool, pongs: nat, parts: seq<Part>)
    requires ValidConfig(cfg) && ValidParts(parts) && |Payload(parts)| <= cfg.maxMessage
    requires forall k :: pongs <= k < pongs + |PingPayloads(parts)| ==> cfg.pongOk(k)
    ensures var r := Run(cfg, Open(NoFrame, NoMessage, pongs), MessageBytes(text, false, parts));
            && r.decoder == Open(NoFrame, NoMessage, pongs + |PingPayloads(parts)|) && r.rest == []
            && DataEvents(r.events) == [Begin(text)] + Delivery(cfg.chunkSize, text, Payload(parts))
            && Pongs(r.events) == PingPayloads(parts)
  {
    hide Delivery, DataEvents, Pongs, Run, MessageBytes, PingPayloads, Payload;
    RunNothing(cfg, Open(NoFrame, NoMessage, pongs + |PingPayloads(parts)|));
    var ev := RunParts(cfg, text, NoMessage, pongs, parts, []);
    assert MessageBytes(text, false, parts) + [] == MessageBytes(text, false, parts);
    assert ev + [] == ev && [] + Payload(parts) == Payload(parts);
  }
}
