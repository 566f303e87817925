/**
 The streaming WebSocket decoder of an open connection (sections 5.2 to 5.5 of
 RFC 6455), as a machine that consumes a header or one payload byte at a time.
 */
module WebSocketDecoder {

  type Byte = b: int | 0 <= b < 256

  /** ChunkSize, MaxMessageSize, and whether the k-th pong could be written. */
  datatype Config = Config(chunkSize: nat, maxMessage: nat, pongOk: nat -> bool)

  ghost predicate ValidConfig(cfg: Config) {
    0 < cfg.chunkSize <= cfg.maxMessage
  }

  datatype Failure = ProtocolError | PayloadTooLarge | WriteFailed

  /** What the decoder reports to its handler or writes to the connection. */
  datatype Event =
    | Begin(text: bool)
    | Chunk(text: bool, data: seq<Byte>)
    | End(text: bool)
    | Pong(payload: seq<Byte>)
    | CloseEcho(payload: seq<Byte>)
    | Failed(failure: Failure)

  datatype Frame =
    | NoFrame
    | Frame(fin: bool, opcode: nat, remaining: nat, offset: nat, mask: seq<Byte>, control: seq<Byte>)

  datatype Message = NoMessage | Message(text: bool, size: nat, chunk: seq<Byte>)

  datatype Decoder = Closed | Open(frame: Frame, message: Message, pongs: nat)

  const CONTINUATION: nat := 0
  const TEXT: nat := 1
  const BINARY: nat := 2
  const CLOSE: nat := 8
  const PING: nat := 9
  const PONG: nat := 10
  const MAX_CONTROL: nat := 125

  // ----- Unmasking -----

  /** A byte as eight bits, and back. */
  function Bits(a: Byte): bv8 {
    if a == 0 then 0 else Bits(a - 1) + 1
  }

  function Value(x: bv8): Byte {
    x as int
  }

  function BitsXor(x: bv8, y: bv8): bv8 {
    x ^ y
  }

  function Xor(a: Byte, b: Byte): Byte {
    Value(BitsXor(Bits(a), Bits(b)))
  }

  lemma ZeroValue()
    ensures Value(0) == 0
  {}

  lemma NextValue(x: bv8)
    ensures if x == 0xFF then Value(x) == 255 else Value(x + 1) == Value(x) + 1
  {}

  lemma SameValue(x: bv8, y: bv8)
    requires Value(x) == Value(y)
    ensures x == y
  {}

  lemma {:induction false} ValueOfBits(a: Byte)
    ensures Value(Bits(a)) == a
  {
    hide Value;
    if a == 0 {
      ZeroValue();
    } else {
      ValueOfBits(a - 1);
      NextValue(Bits(a - 1));
    }
  }

  lemma BitsOfValue(x: bv8)
    ensures Bits(Value(x)) == x
  {
    hide Value;
    ValueOfBits(Value(x));
    SameValue(Bits(Value(x)), x);
  }

  lemma BitsXorTwice(x: bv8, y: bv8)
    ensures BitsXor(BitsXor(x, y), y) == x
  {}

  lemma XorTwice(a: Byte, b: Byte)
    ensures Xor(Xor(a, b), b) == a
  {
    hide Bits, Value, BitsXor;
    BitsOfValue(BitsXor(Bits(a), Bits(b)));
    BitsXorTwice(Bits(a), Bits(b));
    ValueOfBits(a);
  }

  /** On bytes given as bits it is the exclusive or of the bits. */
  lemma XorIsBitwise(x: bv8, y: bv8)
    ensures Xor(Value(x), Value(y)) == Value(x ^ y)
  {
    hide Bits, Value;
    BitsOfValue(x);
    BitsOfValue(y);
  }

  function MaskAt(mask: seq<Byte>, i: nat): Byte {
    if |mask| == 4 then mask[i % 4] else 0
  }

  // ----- The frame header -----

  datatype Header = NeedMore | Malformed | Header(fin: bool, opcode: nat, length: nat, mask: seq<Byte>, size: nat)

  function BigEndian(bytes: seq<Byte>): nat {
    if bytes == [] then 0 else BigEndian(bytes[..|bytes| - 1]) * 256 + bytes[|bytes| - 1]
  }

  function ParseHeader(input: seq<Byte>): (h: Header)
    ensures h.Header? ==> 6 <= h.size <= |input| && |h.mask| == 4 && h.opcode < 16
    ensures h.NeedMore? ==> |input| < 14
    ensures h.Malformed? ==> 2 <= |input|
  {
    if |input| < 2 then NeedMore
    else if input[0] / 16 % 8 != 0 || input[1] < 128 then Malformed
    else
      var short := input[1] % 128;
      var extra := if short == 126 then 2 else if short == 127 then 8 else 0;
      var size := 2 + extra;
      if |input| < size || |input| < size + 4 then NeedMore
      else
        Header(input[0] >= 128, input[0] % 16, if extra == 0 then short else BigEndian(input[2..size]),
               input[size..size + 4], size + 4)
  }

  // ----- One action -----

  function IsControl(opcode: nat): bool {
    opcode >= 8
  }

  function FlushChunk(m: Message): seq<Event>
    requires m.Message?
  {
    if m.chunk == [] then [] else [Chunk(m.text, m.chunk)]
  }

  /** `finish_frame`: the frame's payload is complete. */
  function FinishFrame(cfg: Config, f: Frame, m: Message, pongs: nat): (Decoder, seq<Event>)
    requires f.Frame?
  {
    if f.opcode == PING then
      if cfg.pongOk(pongs) then (Open(NoFrame, m, pongs + 1), [Pong(f.control)])
      else (Closed, [Failed(WriteFailed)])
    else if f.opcode == PONG then (Open(NoFrame, m, pongs), [])
    else if IsControl(f.opcode) then (Closed, [CloseEcho(f.control)])
    else if f.fin && m.Message? then (Open(NoFrame, NoMessage, pongs), FlushChunk(m) + [End(m.text)])
    else (Open(NoFrame, m, pongs), [])
  }

  function Finish(cfg: Config, f: Frame, m: Message, pongs: nat, ev: seq<Event>): (Decoder, seq<Event>)
    requires f.Frame?
  {
    if f.remaining > 0 then (Open(f, m, pongs), ev)
    else
      var (d, more) := FinishFrame(cfg, f, m, pongs);
      (d, ev + more)
  }

  /** `begin_frame` after the header bytes are complete. */
  function StartFrame(cfg: Config, h: Header, m: Message, pongs: nat): (Decoder, seq<Event>)
    requires h.Header?
  {
    var f := Frame(h.fin, h.opcode, h.length, 0, h.mask, []);
    if IsControl(h.opcode) then
      if !h.fin || h.length > MAX_CONTROL || (h.opcode != CLOSE && h.opcode != PING && h.opcode != PONG) then
        (Closed, [Failed(ProtocolError)])
      else Finish(cfg, f, m, pongs, [])
    else if h.opcode == TEXT || h.opcode == BINARY then
      if m.Message? then (Closed, [Failed(ProtocolError)])
      else
        var text := h.opcode == TEXT;
        if h.length > cfg.maxMessage then (Closed, [Begin(text), Failed(PayloadTooLarge)])
        else Finish(cfg, f, Message(text, 0, []), pongs, [Begin(text)])
    else if h.opcode == CONTINUATION && m.Message? then
      if m.size + h.length > cfg.maxMessage then (Closed, [Failed(PayloadTooLarge)])
      else Finish(cfg, f, m, pongs, [])
    else (Closed, [Failed(ProtocolError)])
  }

  /** Adds an unmasked byte to the message, handing out every full chunk. */
  function AddByte(cfg: Config, m: Message, v: Byte): (Message, seq<Event>)
    requires m.Message?
  {
    var chunk := m.chunk + [v];
    if |chunk| == cfg.chunkSize then (Message(m.text, m.size + 1, []), [Chunk(m.text, chunk)])
    else (Message(m.text, m.size + 1, chunk), [])
  }

  function PayloadByte(cfg: Config, f: Frame, m: Message, pongs: nat, b: Byte): (Decoder, seq<Event>)
    requires f.Frame? && f.remaining > 0
  {
    var v := Xor(b, MaskAt(f.mask, f.offset));
    var f' := f.(remaining := f.remaining - 1, offset := f.offset + 1);
    if IsControl(f.opcode) then Finish(cfg, f'.(control := f.control + [v]), m, pongs, [])
    else if m.Message? then
      var (m', ev) := AddByte(cfg, m, v);
      Finish(cfg, f', m', pongs, ev)
    else Finish(cfg, f', m, pongs, [])
  }

  datatype Action = Stuck | Action(next: Decoder, used: nat, events: seq<Event>)

  function Act(cfg: Config, d: Decoder, input: seq<Byte>): (a: Action)
    ensures a.Action? ==> 0 < a.used <= |input|
  {
    if d.Closed? || input == [] then Stuck
    else if d.frame.NoFrame? then
      match ParseHeader(input)
      case NeedMore => Stuck
      case Malformed => Action(Closed, 2, [Failed(ProtocolError)])
      case Header(_, _, _, _, size) =>
        var (next, ev) := StartFrame(cfg, ParseHeader(input), d.message, d.pongs);
        Action(next, size, ev)
    else if d.frame.remaining == 0 then Stuck
    else
      var (next, ev) := PayloadByte(cfg, d.frame, d.message, d.pongs, input[0]);
      Action(next, 1, ev)
  }

  // ----- All actions the input allows -----

  datatype Outcome = Outcome(decoder: Decoder, rest: seq<Byte>, events: seq<Event>)

  function Run(cfg: Config, d: Decoder, input: seq<Byte>): Outcome
    decreases |input|
  {
    match Act(cfg, d, input)
    case Stuck => Outcome(d, if d.Closed? then [] else input, [])
    case Action(next, used, ev) =>
      var r := Run(cfg, next, input[used..]);
      Outcome(r.decoder, r.rest, ev + r.events)
  }

  /** More input does not change an action that is already possible. */
  lemma ActMonotone(cfg: Config, d: Decoder, input: seq<Byte>, more: seq<Byte>)
    requires Act(cfg, d, input).Action?
    ensures Act(cfg, d, input + more) == Act(cfg, d, input)
  {
    hide StartFrame, PayloadByte;
    if d.frame.NoFrame? {
      HeaderMonotone(input, more);
    } else {
      assert (input + more)[0] == input[0];
    }
  }

  lemma HeaderMonotone(input: seq<Byte>, more: seq<Byte>)
    requires !ParseHeader(input).NeedMore?
    ensures ParseHeader(input + more) == ParseHeader(input)
  {
    hide BigEndian;
    var all := input + more;
    assert all[0] == input[0] && all[1] == input[1];
    var short := input[1] % 128;
    var size := if short == 126 then 4 else if short == 127 then 10 else 2;
    if ParseHeader(input).Header? {
      assert all[2..size] == input[2..size] && all[size..size + 4] == input[size..size + 4];
    }
  }

  /**
   The decoder depends only on the bytes, not on how reads split them: the
   first part runs as far as it can, and the rest continues from there.
   */
  lemma {:induction false} RunSplit(cfg: Config, d: Decoder, a: seq<Byte>, b: seq<Byte>)
    ensures var r := Run(cfg, d, a);
            var s := Run(cfg, r.decoder, r.rest + b);
            Run(cfg, d, a + b) == Outcome(s.decoder, s.rest, r.events + s.events)
    decreases |a|
  {
    hide Act;
    match Act(cfg, d, a)
    case Stuck =>
      StuckSplit(cfg, d, a, b);
    case Action(next, used, ev) =>
      ActMonotone(cfg, d, a, b);
      assert (a + b)[used..] == a[used..] + b;
      RunSplit(cfg, next, a[used..], b);
      var r := Run(cfg, next, a[used..]);
      assert ev + (r.events + Run(cfg, r.decoder, r.rest + b).events) ==
             (ev + r.events) + Run(cfg, r.decoder, r.rest + b).events;
  }

  lemma StuckSplit(cfg: Config, d: Decoder, a: seq<Byte>, b: seq<Byte>)
    requires Act(cfg, d, a).Stuck?
    ensures Run(cfg, d, a) == Outcome(d, if d.Closed? then [] else a, [])
    ensures var s := Run(cfg, d, (if d.Closed? then [] else a) + b);
            Run(cfg, d, a + b) == Outcome(s.decoder, s.rest, [] + s.events)
  {
    hide StartFrame, PayloadByte, ParseHeader;
  }

  // ----- Limits -----

  /** Every frame in progress fits its buffers and the message limit. */
  ghost predicate SafeFrame(cfg: Config, f: Frame, m: Message) {
    f.Frame? ==>
      && |f.mask| == 4
      && (IsControl(f.opcode) ==> f.fin && |f.control| + f.remaining <= MAX_CONTROL)
      && (!IsControl(f.opcode) ==> m.Message? && m.size + f.remaining <= cfg.maxMessage && f.control == [])
  }

  ghost predicate SafeMessage(cfg: Config, m: Message) {
    m.Message? ==> m.size <= cfg.maxMessage && |m.chunk| < cfg.chunkSize
  }

  ghost predicate Safe(cfg: Config, d: Decoder) {
    d.Open? ==> SafeMessage(cfg, d.message) && SafeFrame(cfg, d.frame, d.message) &&
                (d.frame.Frame? ==> d.frame.remaining > 0)
  }

  lemma FinishSafe(cfg: Config, f: Frame, m: Message, pongs: nat, ev: seq<Event>)
    requires f.Frame? && SafeFrame(cfg, f, m) && SafeMessage(cfg, m)
    ensures Safe(cfg, Finish(cfg, f, m, pongs, ev).0)
  {}

  lemma StartSafe(cfg: Config, h: Header, m: Message, pongs: nat)
    requires ValidConfig(cfg) && h.Header? && |h.mask| == 4 && SafeMessage(cfg, m)
    ensures Safe(cfg, StartFrame(cfg, h, m, pongs).0)
  {
    hide Finish;
    var f := Frame(h.fin, h.opcode, h.length, 0, h.mask, []);
    if IsControl(h.opcode) {
      if h.fin && h.length <= MAX_CONTROL { FinishSafe(cfg, f, m, pongs, []); }
    } else if m.NoMessage? {
      var text := h.opcode == TEXT;
      if h.length <= cfg.maxMessage { FinishSafe(cfg, f, Message(text, 0, []), pongs, [Begin(text)]); }
    } else if m.size + h.length <= cfg.maxMessage {
      FinishSafe(cfg, f, m, pongs, []);
    }
  }

  lemma PayloadSafe(cfg: Config, f: Frame, m: Message, pongs: nat, b: Byte)
    requires ValidConfig(cfg) && f.Frame? && f.remaining > 0 && SafeFrame(cfg, f, m) && SafeMessage(cfg, m)
    ensures Safe(cfg, PayloadByte(cfg, f, m, pongs, b).0)
  {
    hide Finish, Xor;
    var v := Xor(b, MaskAt(f.mask, f.offset));
    var f' := f.(remaining := f.remaining - 1, offset := f.offset + 1);
    if IsControl(f.opcode) {
      FinishSafe(cfg, f'.(control := f.control + [v]), m, pongs, []);
    } else {
      var (m', ev) := AddByte(cfg, m, v);
      FinishSafe(cfg, f', m', pongs, ev);
    }
  }

  /**
   A data frame in progress never exceeds the message limit, a control frame
   never exceeds its buffer, and what is left of the input is an incomplete
   header of fewer than 14 bytes.
   */
  lemma {:induction false} RunSafe(cfg: Config, d: Decoder, input: seq<Byte>)
    requires ValidConfig(cfg) && Safe(cfg, d)
    ensures var r := Run(cfg, d, input);
            && Safe(cfg, r.decoder)
            && |r.rest| < 14
            && (r.decoder.Open? && r.decoder.frame.Frame? ==> r.rest == [])
    decreases |input|
  {
    hide StartFrame, PayloadByte, ParseHeader, SafeFrame, SafeMessage;
    match Act(cfg, d, input)
    case Stuck =>
      HeaderSizes(input);
    case Action(next, used, ev) =>
      if d.frame.NoFrame? {
        HeaderSizes(input);
        if ParseHeader(input).Header? { StartSafe(cfg, ParseHeader(input), d.message, d.pongs); }
      } else {
        PayloadSafe(cfg, d.frame, d.message, d.pongs, input[0]);
      }
      RunSafe(cfg, next, input[used..]);
  }

  lemma HeaderSizes(input: seq<Byte>)
    ensures ParseHeader(input).NeedMore? ==> |input| < 14
    ensures ParseHeader(input).Header? ==> |ParseHeader(input).mask| == 4
  {}
}
