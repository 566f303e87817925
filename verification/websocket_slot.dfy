/**
 The decoder as it runs: one connection slot with fixed buffers
 (`WebSocketServerHandler`), proved to do exactly what the machine in
 `WebSocketDecoder` does, for every way the bytes arrive.
 */
module WebSocketSlot {
  import opened WebSocketDecoder
  import opened WebSocketMessages

  lemma {:induction false} MaskedConcat(a: seq<Byte>, b: seq<Byte>, mask: seq<Byte>, offset: nat)
    ensures Masked(a + b, mask, offset) == Masked(a, mask, offset) + Masked(b, mask, offset + |a|)
  {
    hide Xor, MaskAt;
    if a == [] {
      assert a + b == b;
    } else {
      assert (a + b)[1..] == a[1..] + b;
      MaskedConcat(a[1..], b, mask, offset + 1);
    }
  }

  lemma MaskedNext(a: seq<Byte>, b: Byte, mask: seq<Byte>, offset: nat)
    ensures Masked(a + [b], mask, offset) == Masked(a, mask, offset) + [Xor(b, MaskAt(mask, offset + |a|))]
  {
    hide Xor, MaskAt;
    MaskedConcat(a, [b], mask, offset);
    assert [b][1..] == [];
  }

  lemma {:induction false} AddBytesConcat(cfg: Config, m: Message, a: seq<Byte>, b: seq<Byte>)
    requires m.Message?
    ensures var (m1, ev1) := AddBytes(cfg, m, a);
            var (m2, ev2) := AddBytes(cfg, m1, b);
            AddBytes(cfg, m, a + b) == (m2, ev1 + ev2)
    decreases |a|
  {
    hide AddByte;
    if a == [] {
      assert a + b == b && [] + AddBytes(cfg, m, b).1 == AddBytes(cfg, m, b).1;
    } else {
      var rest := a[1..];
      assert a == [a[0]] + rest && a + b == [a[0]] + (rest + b);
      AddBytesStep(cfg, m, a[0], rest);
      AddBytesStep(cfg, m, a[0], rest + b);
      var (m0, ev0) := AddByte(cfg, m, a[0]);
      AddBytesConcat(cfg, m0, rest, b);
      var (m1, ev1) := AddBytes(cfg, m0, rest);
      assert ev0 + (ev1 + AddBytes(cfg, m1, b).1) == (ev0 + ev1) + AddBytes(cfg, m1, b).1;
    }
  }

  /** Bytes that at most fill the chunk: it is handed out exactly when full. */
  lemma AddWithinChunk(cfg: Config, m: Message, p: seq<Byte>)
    requires m.Message? && |m.chunk| < cfg.chunkSize && |m.chunk| + |p| <= cfg.chunkSize
    ensures var chunk := m.chunk + p;
            AddBytes(cfg, m, p) ==
            if |chunk| == cfg.chunkSize then (Message(m.text, m.size + |p|, []), [Chunk(m.text, chunk)])
            else (Message(m.text, m.size + |p|, chunk), [])
  {
    hide AddBytes, Remainder, FullChunks, ChunkEvents;
    var n, chunk := cfg.chunkSize, m.chunk + p;
    AddBytesChunks(cfg, m, p);
    AtMostOneChunk(n, m.text, chunk);
  }

  lemma AtMostOneChunk(n: nat, text: bool, s: seq<Byte>)
    requires 0 < n && |s| <= n
    ensures if |s| == n then Remainder(n, s) == [] && ChunkEvents(text, FullChunks(n, s)) == [Chunk(text, s)]
            else Remainder(n, s) == s && ChunkEvents(text, FullChunks(n, s)) == []
  {
    if |s| == n {
      assert s[..n] == s && s[n..] == [];
      assert FullChunks(n, s) == [s];
      assert [s][1..] == [];
    }
  }

  lemma TwoBytes(s: seq<Byte>)
    requires |s| == 2
    ensures BigEndian(s) == (s[0] as int) * 256 + s[1] as int
  {
    assert s[..1][..0] == [] && BigEndian(s[..1]) == s[0];
  }

  /** The connection: bytes that have arrived and not been read yet. */
  class Source {
    var pending: seq<Byte>

    constructor (bytes: seq<Byte>)
      ensures pending == bytes
    {
      pending := bytes;
    }

    method Read(room: nat) returns (data: seq<Byte>)
      requires room > 0 && pending != []
      modifies this
      ensures 0 < |data| <= room && data + pending == old(pending)
    {
      var most := if room < |pending| then room else |pending|;
      var n: int := *;
      if n < 1 || n > most { n := most; }
      data, pending := pending[..n], pending[n..];
    }
  }

  class Slot {
    const cfg: Config
    const input: array<Byte>
    const chunk: array<Byte>
    const control: array<Byte>
    var inputSize: nat
    var chunkSize: nat
    var controlSize: nat
    var open: bool
    var frameActive: bool
    var frameFin: bool
    var frameOpcode: nat
    var frameRemaining: nat
    var frameOffset: nat
    var frameMask: seq<Byte>
    var messageActive: bool
    var messageText: bool
    var messageSize: nat
    var pongs: nat
    ghost var events: seq<Event>

    ghost predicate Buffers()
      reads this
    {
      && ValidConfig(cfg) && 14 <= input.Length && inputSize <= input.Length
      && chunk.Length == cfg.chunkSize + 1 && chunkSize <= cfg.chunkSize
      && control.Length == MAX_CONTROL && controlSize <= MAX_CONTROL
      && input != chunk && input != control && chunk != control
    }

    ghost function Input(): seq<Byte>
      reads this, input
      requires Buffers()
    {
      input[..inputSize]
    }

    ghost function CurrentFrame(): Frame
      reads this, control
      requires Buffers()
    {
      if frameActive then
        Frame(frameFin, frameOpcode, frameRemaining, frameOffset, frameMask,
              if IsControl(frameOpcode) then control[..controlSize] else [])
      else NoFrame
    }

    ghost function CurrentMessage(): Message
      reads this, chunk
      requires Buffers()
    {
      if messageActive then Message(messageText, messageSize, chunk[..chunkSize]) else NoMessage
    }

    ghost function Abs(): Decoder
      reads this, chunk, control
      requires Buffers()
    {
      if open then Open(CurrentFrame(), CurrentMessage(), pongs) else Closed
    }

    ghost predicate Valid()
      reads this, chunk, control
    {
      Buffers() && Safe(cfg, Abs()) && (!open ==> inputSize == 0)
    }

    /** What has been reported, and what the bytes already here will still cause. */
    ghost function Fate(): Outcome
      reads this, input, chunk, control
      requires Buffers()
    {
      Then(events, Run(cfg, Abs(), Input()))
    }

    constructor (cfg: Config, capacity: nat)
      requires ValidConfig(cfg) && 14 <= capacity
      ensures Valid() && this.cfg == cfg && input.Length == capacity
      ensures Abs() == Open(NoFrame, NoMessage, 0) && Input() == [] && events == []
      ensures fresh(input) && fresh(chunk) && fresh(control)
    {
      this.cfg := cfg;
      input := new Byte[capacity](_ => 0);
      chunk := new Byte[cfg.chunkSize + 1](_ => 0);
      control := new Byte[MAX_CONTROL](_ => 0);
      inputSize, chunkSize, controlSize, open := 0, 0, 0, true;
      frameActive, frameFin, frameOpcode, frameRemaining, frameOffset, frameMask := false, false, 0, 0, 0, [];
      messageActive, messageText, messageSize, pongs := false, false, 0, 0;
      events := [];
    }

    /** Removes handled bytes from the front of the input buffer. */
    method Consume(count: nat)
      requires Buffers() && count <= inputSize
      modifies input, this`inputSize
      ensures Buffers() && Input() == old(Input())[count..]
    {
      if count >= inputSize {
        inputSize := 0;
        return;
      }
      ghost var was := input[..];
      var left := inputSize - count;
      for i := 0 to left
        invariant forall k :: 0 <= k < i ==> input[k] == was[count + k]
        invariant forall k :: i <= k < input.Length ==> input[k] == was[k]
      {
        input[i] := input[count + i];
      }
      inputSize := left;
      assert input[..left] == was[..old(inputSize)][count..];
    }

    /** `release`: the slot is emptied; nothing that follows is looked at. */
    method Close(ghost event: Event)
      requires Buffers()
      modifies this`open, this`inputSize, this`chunkSize, this`controlSize, this`frameActive, this`messageActive,
               this`events
      ensures Valid() && Abs() == Closed && Input() == [] && events == old(events) + [event]
      ensures Fate() == Outcome(Closed, [], old(events) + [event])
    {
      open, inputSize, chunkSize, controlSize := false, 0, 0, 0;
      frameActive, messageActive := false, false;
      events := events + [event];
      assert events + [] == events;
    }

    method FlushChunk()
      requires Buffers() && messageActive
      modifies this`chunkSize, this`events
      ensures Buffers() && chunkSize == 0
      ensures events == old(events) + WebSocketDecoder.FlushChunk(old(CurrentMessage()))
    {
      if chunkSize == 0 { return; }
      events := events + [Chunk(messageText, chunk[..chunkSize])];
      chunkSize := 0;
    }

    /** The header at the front of the input, if it is complete. */
    method ReadHeader() returns (h: Header)
      requires Buffers()
      ensures h == ParseHeader(Input())
    {
      if inputSize < 2 { return NeedMore; }
      var b0, b1 := input[0], input[1];
      var fin := b0 >= 128;
      if b0 / 16 % 8 != 0 || b1 < 128 { return Malformed; }
      var length: nat := b1 % 128;
      var offset := 2;
      if length == 126 {
        if inputSize < 4 { return NeedMore; }
        length := (input[2] as int) * 256 + input[3] as int;
        offset := 4;
        TwoBytes(Input()[2..4]);
      } else if length == 127 {
        if inputSize < 10 { return NeedMore; }
        length := 0;
        for i := 0 to 8
          invariant length == BigEndian(input[2..2 + i])
        {
          length := length * 256 + input[2 + i];
          assert input[2..2 + i + 1][..i] == input[2..2 + i];
        }
        offset := 10;
        InputSlice(2, 10);
      }
      if inputSize < offset + 4 { return NeedMore; }
      InputSlice(offset, offset + 4);
      h := Header(fin, b0 % 16, length, input[offset..offset + 4], offset + 4);
    }

    lemma InputSlice(a: nat, b: nat)
      requires Buffers() && a <= b <= inputSize
      ensures Input()[a..b] == input[a..b]
    {}

    /** The payload of the current frame is complete. */
    method FinishFrame() returns (ok: bool)
      requires Buffers() && open && frameActive && frameRemaining == 0
      requires SafeMessage(cfg, CurrentMessage()) && (!IsControl(frameOpcode) ==> messageActive)
      modifies this
      ensures Valid() && ok == open
      ensures open ==> Input() == old(Input())
      ensures var (d, ev) := WebSocketDecoder.FinishFrame(cfg, old(CurrentFrame()), old(CurrentMessage()), old(pongs));
              Abs() == d && events == old(events) + ev
    {
      frameActive := false;
      if IsControl(frameOpcode) {
        ghost var payload := control[..controlSize];
        if frameOpcode == PING {
          if !cfg.pongOk(pongs) {
            Close(Failed(WriteFailed));
            return false;
          }
          pongs := pongs + 1;
          events := events + [Pong(payload)];
          return true;
        }
        if frameOpcode == PONG {
          assert events + [] == events;
          return true;
        }
        Close(CloseEcho(payload));
        return false;
      }
      if frameFin {
        FlushChunk();
        events := events + [End(messageText)];
        messageActive, messageSize := false, 0;
      }
      return true;
    }

    /** Takes the frame the header describes; a frame without payload is finished at once. */
    method AcceptFrame(h: Header) returns (r: HeaderResult)
      requires Buffers() && open && !frameActive && SafeMessage(cfg, CurrentMessage())
      requires h.Header? && |h.mask| == 4 && 0 < h.size <= inputSize
      requires IsControl(h.opcode) ==> h.fin && h.length <= MAX_CONTROL
      requires !IsControl(h.opcode) ==> messageActive && messageSize + h.length <= cfg.maxMessage
      modifies this, input
      ensures Valid() && r == if open then Ok else BadProtocol
      ensures Input() == if open then old(Input())[h.size..] else []
      ensures var f := Frame(h.fin, h.opcode, h.length, 0, h.mask, []);
              var (d, ev) := Finish(cfg, f, old(CurrentMessage()), old(pongs), []);
              Abs() == d && events == old(events) + ev
    {
      hide WebSocketDecoder.FinishFrame;
      Consume(h.size);
      frameMask, frameActive, frameFin, frameOpcode := h.mask, true, h.fin, h.opcode;
      frameRemaining, frameOffset, controlSize := h.length, 0, 0;
      assert CurrentFrame() == Frame(h.fin, h.opcode, h.length, 0, h.mask, []);
      if h.length == 0 {
        var ok := FinishFrame();
        return if ok then Ok else BadProtocol;
      }
      assert events + [] == events;
      return Ok;
    }

    /** Checks the header against the message in progress, and opens a new message for a first fragment. */
    method CheckHeader(h: Header) returns (r: HeaderResult)
      requires Valid() && open && !frameActive && h.Header?
      modifies this`messageActive, this`messageText, this`messageSize, this`chunkSize, this`events
      ensures Valid() && r != Incomplete
      ensures r == Ok ==>
                && (IsControl(h.opcode) ==> h.fin && h.length <= MAX_CONTROL)
                && (!IsControl(h.opcode) ==> messageActive && messageSize + h.length <= cfg.maxMessage)
                && old(events) <= events
                && StartFrame(cfg, h, old(CurrentMessage()), pongs) ==
                   Finish(cfg, Frame(h.fin, h.opcode, h.length, 0, h.mask, []), CurrentMessage(), pongs,
                          events[|old(events)|..])
      ensures r != Ok ==>
                && StartFrame(cfg, h, old(CurrentMessage()), pongs).0 == Closed
                && old(events) + StartFrame(cfg, h, old(CurrentMessage()), pongs).1 == events + [Failed(FailureOf(r))]
    {
      hide Finish;
      var isControl := IsControl(h.opcode);
      if isControl {
        if !h.fin || h.length > MAX_CONTROL || (h.opcode != CLOSE && h.opcode != PING && h.opcode != PONG) {
          return BadProtocol;
        }
      } else if h.opcode == TEXT || h.opcode == BINARY {
        if messageActive { return BadProtocol; }
        messageActive, messageText, messageSize, chunkSize := true, h.opcode == TEXT, 0, 0;
        events := events + [Begin(messageText)];
      } else if h.opcode == CONTINUATION {
        if !messageActive { return BadProtocol; }
      } else {
        return BadProtocol;
      }
      if !isControl && h.length > cfg.maxMessage - messageSize { return TooLarge; }
      assert events[|old(events)|..] == if isControl || old(messageActive) then [] else [Begin(messageText)];
      return Ok;
    }

    /** Starts the frame whose header is complete; failures are left to the caller to report. */
    method BeginFrame() returns (r: HeaderResult)
      requires Valid() && open && !frameActive && inputSize > 0
      modifies this, input
      ensures Valid()
      ensures r == Incomplete ==> Abs() == old(Abs()) && Input() == old(Input()) && events == old(events)
      ensures r == Incomplete ==> inputSize < 14 && Act(cfg, Abs(), Input()).Stuck?
      ensures r == Ok ==> open && Fate() == old(Fate()) && |Input()| < |old(Input())|
      ensures r == BadProtocol || r == TooLarge ==>
                old(Fate()) == if open then Outcome(Closed, [], events + [Failed(FailureOf(r))]) else Fate()
    {
      hide Run, ParseHeader, Finish, StartFrame, SafeFrame;
      var h := ReadHeader();
      HeaderSizes(Input());
      RunStart(cfg, CurrentMessage(), pongs, Input());
      if h.NeedMore? { return Incomplete; }
      if h.Malformed? { return BadProtocol; }
      r := CheckHeader(h);
      if r != Ok { return; }
      ghost var f, m, pongs0 := Frame(h.fin, h.opcode, h.length, 0, h.mask, []), CurrentMessage(), pongs;
      ghost var ev := events[|old(events)|..];
      r := AcceptFrame(h);
      FinishJoin(cfg, f, m, pongs0, ev, []);
      assert ev + [] == ev;
      ghost var more := Finish(cfg, f, m, pongs0, []).1;
      assert old(events) + (ev + more) == events;
      RunClosed(cfg, Input());
      ThenJoin(old(events), ev + more, Run(cfg, Abs(), Input()));
    }

    /** Unmasks the next input bytes into the control buffer. */
    method CopyControl(take: nat)
      requires Buffers() && take <= inputSize && controlSize + take <= MAX_CONTROL && |frameMask| == 4
      modifies control, this`controlSize
      ensures Buffers() && controlSize == old(controlSize) + take
      ensures control[..controlSize] == old(control[..controlSize]) + Masked(input[..take], frameMask, frameOffset)
    {
      hide Xor, Masked;
      ghost var was := control[..controlSize];
      MaskedNothing(frameMask, frameOffset);
      for i := 0 to take
        invariant controlSize == old(controlSize)
        invariant control[..controlSize + i] == was + Masked(input[..i], frameMask, frameOffset)
      {
        control[controlSize + i] := Xor(input[i], frameMask[(frameOffset + i) % 4]);
        assert input[..i + 1] == input[..i] + [input[i]];
        MaskedNext(input[..i], input[i], frameMask, frameOffset);
        assert control[..controlSize + i + 1] == control[..controlSize + i] + [control[controlSize + i]];
      }
      controlSize := controlSize + take;
    }

    /** Unmasks `part` input bytes, from `from` on, into the chunk buffer. */
    method CopyPart(from: nat, part: nat)
      requires Buffers() && from + part <= inputSize && chunkSize + part <= cfg.chunkSize && |frameMask| == 4
      modifies chunk, this`chunkSize, this`messageSize
      ensures Buffers() && chunkSize == old(chunkSize) + part && messageSize == old(messageSize) + part
      ensures chunk[..chunkSize] == old(chunk[..chunkSize]) +
              Masked(input[from..from + part], frameMask, frameOffset + from)
    {
      hide Xor, Masked;
      ghost var was := chunk[..chunkSize];
      assert input[from..from] == [];
      MaskedNothing(frameMask, frameOffset + from);
      for i := 0 to part
        invariant chunkSize == old(chunkSize) && messageSize == old(messageSize)
        invariant chunk[..chunkSize + i] == was + Masked(input[from..from + i], frameMask, frameOffset + from)
      {
        chunk[chunkSize + i] := Xor(input[from + i], frameMask[(frameOffset + from + i) % 4]);
        assert input[from..from + i + 1] == input[from..from + i] + [input[from + i]];
        MaskedNext(input[from..from + i], input[from + i], frameMask, frameOffset + from);
        assert chunk[..chunkSize + i + 1] == chunk[..chunkSize + i] + [chunk[chunkSize + i]];
      }
      chunkSize, messageSize := chunkSize + part, messageSize + part;
    }

    /** Unmasks the next input bytes into the message, handing out every full chunk. */
    method CopyData(take: nat)
      requires Buffers() && take <= inputSize && |frameMask| == 4
      requires messageActive && SafeMessage(cfg, CurrentMessage()) && messageSize + take <= cfg.maxMessage
      modifies chunk, this`chunkSize, this`messageSize, this`events
      ensures Buffers() && SafeMessage(cfg, CurrentMessage()) && messageSize == old(messageSize) + take
      ensures var (m, ev) := AddBytes(cfg, old(CurrentMessage()), Masked(input[..take], frameMask, frameOffset));
              CurrentMessage() == m && events == old(events) + ev
    {
      hide Masked, AddBytes;
      ghost var m0 := CurrentMessage();
      MaskedNothing(frameMask, frameOffset);
      AddNothing(cfg, m0);
      assert events + [] == events;
      var consumed := 0;
      while consumed < take
        invariant consumed <= take && Buffers() && SafeMessage(cfg, CurrentMessage())
        invariant messageSize == old(messageSize) + consumed
        invariant var (m, ev) := AddBytes(cfg, m0, Masked(input[..consumed], frameMask, frameOffset));
                  CurrentMessage() == m && events == old(events) + ev
        invariant unchanged(this`inputSize, this`frameMask, this`frameOffset, this`messageActive, this`messageText)
        invariant unchanged(input)
      {
        var room := cfg.chunkSize - chunkSize;
        var part := if take - consumed < room then take - consumed else room;
        ghost var m1, ev1 := CurrentMessage(), events;
        ghost var done := Masked(input[..consumed], frameMask, frameOffset);
        ghost var more := Masked(input[consumed..consumed + part], frameMask, frameOffset + consumed);
        assert input[..consumed + part] == input[..consumed] + input[consumed..consumed + part];
        MaskedConcat(input[..consumed], input[consumed..consumed + part], frameMask, frameOffset);
        MaskedTwice(input[consumed..consumed + part], frameMask, frameOffset + consumed);
        AddBytesConcat(cfg, m0, done, more);
        AddWithinChunk(cfg, m1, more);
        CopyPart(consumed, part);
        consumed := consumed + part;
        // The message limit was checked when the frame began.
        assert messageSize <= cfg.maxMessage;
        if chunkSize == cfg.chunkSize { FlushChunk(); }
      }
    }

    /** The frame and message after the next `take` payload bytes, and the events that causes. */
    ghost predicate BlockTaken(f: Frame, m: Message, ev: seq<Event>, bytes: seq<Byte>, rest: seq<Byte>, d: Decoder)
      reads this
    {
      && f.Frame? && SafeMessage(cfg, m) && SafeFrame(cfg, f, m) && d.Open?
      && var (next, all) := Finish(cfg, f, m, d.pongs, ev);
         Run(cfg, d, bytes + rest) == Then(all, Run(cfg, next, rest))
    }

    method ControlBlock(take: nat) returns (ghost f: Frame)
      requires Valid() && open && frameActive && IsControl(frameOpcode) && 0 < take <= inputSize &&
               take <= frameRemaining
      modifies this`controlSize, this`inputSize, this`frameOffset, this`frameRemaining, input, control
      ensures Buffers() && CurrentFrame() == f && CurrentMessage() == old(CurrentMessage())
      ensures Input() == old(Input())[take..]
      ensures BlockTaken(f, CurrentMessage(), [], old(Input())[..take], Input(), old(Abs()))
    {
      hide Run, Masked, Finish, Xor;
      ghost var f0, bytes, rest := CurrentFrame(), Input()[..take], Input()[take..];
      assert input[..take] == bytes;
      RunControlBlock(cfg, f0, CurrentMessage(), pongs, bytes, rest);
      f := Collect(f0, Masked(bytes, f0.mask, f0.offset));
      // A control payload was checked to fit its buffer when the frame began.
      CopyControl(take);
      Consume(take);
      frameOffset, frameRemaining := frameOffset + take, frameRemaining - take;
    }

    method DataBlock(take: nat) returns (ghost f: Frame, ghost ev: seq<Event>)
      requires Valid() && open && frameActive && !IsControl(frameOpcode) && 0 < take <= inputSize &&
               take <= frameRemaining
      modifies this`chunkSize, this`messageSize, this`events, this`inputSize, this`frameOffset, this`frameRemaining,
               input, chunk
      ensures Buffers() && CurrentFrame() == f && events == old(events) + ev
      ensures Input() == old(Input())[take..]
      ensures BlockTaken(f, CurrentMessage(), ev, old(Input())[..take], Input(), old(Abs()))
    {
      hide Run, Masked, Finish, AddBytes, Xor;
      ghost var f0, m0, bytes, rest := CurrentFrame(), CurrentMessage(), Input()[..take], Input()[take..];
      assert input[..take] == bytes;
      RunDataBlock(cfg, f0, m0, pongs, bytes, rest);
      f := Advance(f0, take);
      ev := AddBytes(cfg, m0, Masked(bytes, f0.mask, f0.offset)).1;
      CopyData(take);
      Consume(take);
      frameOffset, frameRemaining := frameOffset + take, frameRemaining - take;
    }

    /** One pass of the payload loop: as many bytes as are here and belong to the frame. */
    method TakeBlock() returns (ok: bool)
      requires Valid() && open && frameActive && inputSize > 0
      modifies this, input, chunk, control
      ensures Valid() && ok == open && Fate() == old(Fate()) && inputSize < old(inputSize)
    {
      hide Run, Finish, SafeFrame, SafeMessage;
      var take := if inputSize < frameRemaining then inputSize else frameRemaining;
      ghost var f, ev := NoFrame, [];
      if IsControl(frameOpcode) {
        f := ControlBlock(take);
        assert events + [] == events;
      } else {
        f, ev := DataBlock(take);
      }
      ghost var m, rest := CurrentMessage(), Input();
      assert old(Input()) == old(Input())[..take] + rest;
      ok := EndBlock(f, m, rest);
      FinishedBlock(cfg, f, m, old(pongs), old(events), ev, rest);
    }

    /** Finishes the frame if that was its last byte. */
    method EndBlock(ghost f: Frame, ghost m: Message, ghost rest: seq<Byte>) returns (ok: bool)
      requires Buffers() && open && frameActive && CurrentFrame() == f && CurrentMessage() == m && Input() == rest
      requires SafeMessage(cfg, m) && SafeFrame(cfg, f, m)
      modifies this
      ensures Valid() && ok == open && inputSize <= old(inputSize)
      ensures var (d, ev) := Finish(cfg, f, m, old(pongs), []);
              Abs() == d && events == old(events) + ev && Input() == if open then rest else []
    {
      hide WebSocketDecoder.FinishFrame;
      ok := true;
      if frameRemaining == 0 { ok := FinishFrame(); }
      else { assert events + [] == events; }
    }

    method ConsumeFramePayload() returns (ok: bool)
      requires Valid() && open
      modifies this, input, chunk, control
      ensures Valid() && ok == open && Fate() == old(Fate()) && inputSize <= old(inputSize)
      ensures open && frameActive ==> inputSize == 0
      ensures old(frameActive) && old(inputSize) > 0 ==> inputSize < old(inputSize)
    {
      hide Run, Safe;
      ok := true;
      while ok && frameActive && inputSize > 0
        invariant Valid() && ok == open && Fate() == old(Fate())
        invariant inputSize < old(inputSize) || (frameActive == old(frameActive) && inputSize == old(inputSize) && ok)
        decreases inputSize
      {
        ok := TakeBlock();
      }
    }

    method FailAndClose(failure: Failure)
      requires Valid()
      modifies this
      ensures Valid() && !open
      ensures events == if old(open) then old(events) + [Failed(failure)] else old(events)
    {
      if !open { return; }
      Close(Failed(failure));
    }

    /** Handles everything the buffered input allows. */
    method ProcessSlot() returns (ok: bool)
      requires Valid()
      modifies this, input, chunk, control
      ensures Valid() && ok == open && inputSize <= old(inputSize)
      ensures Outcome(Abs(), Input(), events) == old(Fate()) == Fate()
      ensures inputSize < 14
    {
      hide Run, Safe;
      while open && inputSize > 0
        invariant Valid() && Fate() == old(Fate()) && inputSize <= old(inputSize)
        decreases inputSize
      {
        if !frameActive {
          var r := BeginFrame();
          if r == Incomplete {
            StuckOutcome(cfg, Abs(), Input(), events);
            return true;
          }
          if r != Ok {
            FailAndClose(FailureOf(r));
            RunClosed(cfg, []);
            return false;
          }
        }
        ok := ConsumeFramePayload();
        if !ok {
          RunClosed(cfg, []);
          return;
        }
        if frameActive {
          StuckOutcome(cfg, Abs(), Input(), events);
          return true;
        }
      }
      StuckOutcome(cfg, Abs(), Input(), events);
      return open;
    }

    /** One read: as many bytes as the connection gives and the buffer holds. */
    method ReadInput(source: Source)
      requires Valid() && open && inputSize < input.Length && source.pending != []
      modifies this`inputSize, input, source
      ensures Valid() && Abs() == old(Abs()) && events == old(events)
      ensures Input() + source.pending == old(Input()) + old(source.pending)
      ensures |source.pending| < |old(source.pending)|
    {
      var data := source.Read(input.Length - inputSize);
      ghost var was := Input();
      for i := 0 to |data|
        invariant data + source.pending == old(source.pending)
        invariant inputSize == old(inputSize) && input[..inputSize + i] == was + data[..i]
      {
        input[inputSize + i] := data[i];
        assert input[..inputSize + i + 1] == input[..inputSize + i] + [data[i]];
      }
      inputSize := inputSize + |data|;
      assert Input() == was + data by { assert data[..|data|] == data; }
      assert was + data + source.pending == was + (data + source.pending);
    }

    /**
     The read loop. Whatever sizes the reads have, the slot ends up where one
     run over all the bytes leads, and a full input buffer never stops an open
     connection.
     */
    method OnData(source: Source)
      requires Valid() && open
      modifies this, input, chunk, control, source
      ensures Valid() && (open ==> source.pending == [])
      ensures Outcome(Abs(), Input(), events) ==
              Then(old(events), Run(cfg, old(Abs()), old(Input()) + old(source.pending)))
    {
      hide Run, Safe;
      ghost var all := Then(events, Run(cfg, Abs(), Input() + source.pending));
      while true
        invariant Valid() && open
        invariant Then(events, Run(cfg, Abs(), Input() + source.pending)) == all
        decreases |source.pending|, inputSize
      {
        if inputSize < input.Length && source.pending != [] { ReadInput(source); }
        var before := inputSize;
        ghost var d, input0, rest, ev := Abs(), Input(), source.pending, events;
        RunSplit(cfg, d, input0, rest);
        var ok := ProcessSlot();
        ghost var r := Run(cfg, d, input0);
        ThenJoin(ev, r.events, Run(cfg, r.decoder, r.rest + rest));
        if !ok {
          RunClosed(cfg, r.rest + rest);
          assert events + [] == events;
          return;
        }
        if inputSize < before { continue; }
        if source.pending == [] { break; }
        // Fewer than 14 bytes are left, so there is room for the next read.
        assert inputSize < input.Length;
      }
      assert Input() + [] == Input();
    }
  }

  datatype HeaderResult = Ok | Incomplete | BadProtocol | TooLarge

  function FailureOf(r: HeaderResult): Failure {
    if r == TooLarge then PayloadTooLarge else ProtocolError
  }

  lemma RunStart(cfg: Config, m: Message, pongs: nat, input: seq<Byte>)
    requires input != []
    ensures var h := ParseHeader(input);
            var r := Run(cfg, Open(NoFrame, m, pongs), input);
            match h
            case NeedMore => true
            case Malformed => r == Outcome(Closed, [], [Failed(ProtocolError)])
            case Header(_, _, _, _, size) =>
              var (d, ev) := StartFrame(cfg, h, m, pongs);
              r == Then(ev, Run(cfg, d, input[size..])) && (d.Closed? ==> r == Outcome(Closed, [], ev))
  {
    hide StartFrame, ParseHeader;
    RunClosed(cfg, input);
    var h := ParseHeader(input);
    if !h.NeedMore? {
      var a := Act(cfg, Open(NoFrame, m, pongs), input);
      RunClosed(cfg, input[a.used..]);
      assert a.events + [] == a.events;
    }
  }

  lemma MaskedNothing(mask: seq<Byte>, offset: nat)
    ensures Masked([], mask, offset) == []
  {}

  lemma AddNothing(cfg: Config, m: Message)
    requires m.Message?
    ensures AddBytes(cfg, m, []) == (m, [])
  {}

  lemma FinishedBlock(cfg: Config, f: Frame, m: Message, pongs: nat, before: seq<Event>, ev: seq<Event>,
                      rest: seq<Byte>)
    requires f.Frame?
    ensures var (d, all) := Finish(cfg, f, m, pongs, ev);
            var (d', more) := Finish(cfg, f, m, pongs, []);
            d == d' && Then(before, Then(all, Run(cfg, d, rest))) ==
            Then(before + ev + more, Run(cfg, d, if d.Open? then rest else []))
  {
    hide Run, Finish;
    FinishJoin(cfg, f, m, pongs, ev, []);
    assert ev + [] == ev;
    var (d, more) := Finish(cfg, f, m, pongs, []);
    RunClosed(cfg, rest);
    RunClosed(cfg, []);
    var r := Run(cfg, d, rest);
    assert before + ((ev + more) + r.events) == (before + ev + more) + r.events;
  }

  lemma StuckOutcome(cfg: Config, d: Decoder, input: seq<Byte>, events: seq<Event>)
    requires Act(cfg, d, input).Stuck? && (d.Closed? ==> input == [])
    ensures Then(events, Run(cfg, d, input)) == Outcome(d, input, events)
  {
    hide Act;
    assert events + [] == events;
  }

  lemma RunClosed(cfg: Config, input: seq<Byte>)
    ensures Run(cfg, Closed, input) == Outcome(Closed, [], [])
  {}
}
