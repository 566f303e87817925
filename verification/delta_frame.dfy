/**
 One Signal K delta in a fixed buffer: `SignalKJsonStreamWriter` in buffer mode
 and `SignalKDeltaFrame` on top of it.
 */
module DeltaFrame {
  import opened JsonText

  const Trailer: string := "]}]}\r\n"
  const TRAILER_LEN: nat := 6

  function Concat(pieces: seq<string>): string {
    if pieces == [] then "" else pieces[0] + Concat(pieces[1..])
  }

  /** A bounded text buffer; appends that do not fit fail and leave what was written before. */
  class JsonBuffer {
    const dst: array<char>
    const capacity: nat
    var pos: nat
    var ok: bool

    ghost predicate Valid()
      reads `pos, `ok
    {
      && capacity <= dst.Length
      && (if capacity == 0 then pos == 0 && !ok else pos < capacity)
    }

    ghost function Text(): string
      reads `pos, `ok, dst
      requires Valid()
    {
      dst[..pos]
    }

    constructor (dst: array<char>, capacity: nat)
      requires capacity <= dst.Length
      modifies dst
      ensures Valid() && this.dst == dst && this.capacity == capacity && pos == 0 && ok == (capacity > 0)
    {
      this.dst, this.capacity := dst, capacity;
      pos, ok := 0, capacity > 0;
      new;
      if capacity > 0 { dst[0] := '\0'; }
    }

    /** Only what was written successfully counts. */
    function Size(): nat
      reads this
    {
      if ok then pos else 0
    }

    /** Drops everything after `mark` and clears a failure. */
    method Rewind(mark: nat) returns (done: bool)
      requires Valid()
      modifies this`pos, this`ok, dst
      ensures Valid() && done == (mark < capacity && mark <= old(pos))
      ensures done ==> ok && Text() == old(Text())[..mark]
      ensures !done ==> pos == old(pos) && ok == old(ok) && Text() == old(Text())
    {
      if mark >= capacity || mark > pos { return false; }
      pos := mark;
      dst[pos] := '\0';
      ok := true;
      return true;
    }

    method AppendBytes(data: string) returns (done: bool)
      requires Valid()
      modifies this`pos, this`ok, dst
      ensures Valid() && done == (old(ok) && (data == "" || old(pos) + |data| < capacity))
      ensures ok == done && Text() == if done then old(Text()) + data else old(Text())
    {
      if !ok { return false; }
      if |data| == 0 { return true; }
      if capacity == 0 || pos + |data| >= capacity {
        ok := false;
        return false;
      }
      for i := 0 to |data|
        invariant pos == old(pos) && ok && dst[..pos + i] == old(Text()) + data[..i]
      {
        dst[pos + i] := data[i];
        assert dst[..pos + i + 1] == dst[..pos + i] + [data[i]];
      }
      pos := pos + |data|;
      assert Text() == old(Text()) + data;
      dst[pos] := '\0';
      return true;
    }

    /** Several appends in a row succeed exactly when all the text fits. */
    method AppendAll(pieces: seq<string>) returns (done: bool)
      requires Valid() && ok
      modifies this`pos, this`ok, dst
      ensures Valid() && done == (old(pos) + |Concat(pieces)| < capacity) && ok == done
      ensures old(Text()) <= Text() && (done ==> Text() == old(Text()) + Concat(pieces))
    {
      hide Concat;
      assert pieces[..0] == [];
      ConcatNone();
      for i := 0 to |pieces|
        invariant Valid() && ok && Text() == old(Text()) + Concat(pieces[..i])
      {
        ConcatNext(pieces, i);
        done := AppendBytes(pieces[i]);
        if !done { return; }
      }
      assert pieces[..|pieces|] == pieces;
      return true;
    }

    /** The characters of C text, escaped as they go. */
    method AppendEscaped(text: string) returns (done: bool)
      requires Valid() && ok
      modifies this`pos, this`ok, dst
      ensures Valid() && done == (old(pos) + |Escape(text)| < capacity) && ok == done
      ensures old(Text()) <= Text() && (done ==> Text() == old(Text()) + Escape(text))
    {
      hide EscapeChar, Escape, EscapedTo, Valid, Text;
      ghost var before := Text();
      TextSize();
      var i := 0;
      NothingEscaped(text);
      while i < |text| && text[i] != '\0'
        invariant i <= |text| && Valid() && ok && NoEndBefore(text, i)
        invariant Text() == before + EscapedTo(text, i)
      {
        EscapeParts(text, i);
        TextSize();
        done := AppendBytes(EscapeChar(text[i]));
        if !done { return; }
        Regrouped(before, EscapedTo(text, i), EscapeChar(text[i]));
        i := i + 1;
      }
      EscapeParts(text, i);
      TextSize();
      return true;
    }

    /** `append_quoted`: quotes C text. */
    method AppendQuoted(text: string) returns (done: bool)
      requires Valid()
      modifies this`pos, this`ok, dst
      ensures Valid() && done == (old(ok) && old(pos) + |Quote(text)| < capacity) && ok == done
      ensures old(Text()) <= Text() && (done ==> Text() == old(Text()) + Quote(text))
    {
      hide Escape, Valid, Text;
      ghost var before := Text();
      TextSize();
      done := AppendBytes("\"");
      if !done { return; }
      TextSize();
      done := AppendEscaped(text);
      if !done { return; }
      TextSize();
      done := AppendBytes("\"");
      RegroupedTwice(before, "\"", Escape(text), "\"");
    }

    lemma TextSize()
      requires Valid()
      ensures |Text()| == pos && (ok ==> pos < capacity)
    {}
  }

  lemma RegroupedTwice(a: string, b: string, c: string, d: string)
    ensures a + b + c + d == a + (b + c + d)
  {}

  lemma Regrouped(a: string, b: string, c: string)
    ensures a + b + c == a + (b + c)
  {}

  /** The C text does not end within its first `n` characters. */
  predicate NoEndBefore(text: string, n: nat)
    requires n <= |text|
  {
    forall k :: 0 <= k < n ==> text[k] != '\0'
  }

  /** The escaped form of the first `n` characters. */
  function EscapedTo(text: string, n: nat): string
    requires n <= |text|
  {
    if n == 0 then "" else EscapedTo(text, n - 1) + EscapeChar(text[n - 1])
  }

  lemma {:induction false} EscapeSplit(text: string, i: nat)
    requires i <= |text| && NoEndBefore(text, i)
    ensures Escape(text) == EscapedTo(text, i) + Escape(text[i..])
  {
    hide EscapeChar;
    if i == 0 {
      assert text[0..] == text;
    } else {
      EscapeSplit(text, i - 1);
      assert text[i - 1..][1..] == text[i..];
    }
  }

  lemma NothingEscaped(text: string)
    ensures EscapedTo(text, 0) == ""
  {}

  /** What is left to write after the first `i` characters. */
  lemma EscapeParts(text: string, i: nat)
    requires i <= |text| && NoEndBefore(text, i)
    ensures i < |text| && text[i] != '\0' ==>
              EscapedTo(text, i + 1) == EscapedTo(text, i) + EscapeChar(text[i]) &&
              |Escape(text)| >= |EscapedTo(text, i)| + |EscapeChar(text[i])|
    ensures i == |text| || text[i] == '\0' ==> Escape(text) == EscapedTo(text, i)
  {
    hide EscapeChar;
    EscapeSplit(text, i);
  }

  lemma ConcatNone()
    ensures Concat([]) == ""
  {}

  lemma {:induction false} ConcatAppend(a: seq<string>, b: seq<string>)
    ensures Concat(a + b) == Concat(a) + Concat(b)
  {
    if a == [] {
      assert a + b == b;
    } else {
      assert (a + b)[1..] == a[1..] + b;
      ConcatAppend(a[1..], b);
    }
  }

  lemma ConcatNext(pieces: seq<string>, i: nat)
    requires i < |pieces|
    ensures Concat(pieces[..i + 1]) == Concat(pieces[..i]) + pieces[i]
    ensures |Concat(pieces[..i])| + |pieces[i]| <= |Concat(pieces)|
  {
    assert pieces[..i + 1] == pieces[..i] + [pieces[i]];
    ConcatAppend(pieces[..i], [pieces[i]]);
    assert [pieces[i]][1..] == [];
    assert Concat([pieces[i]]) == pieces[i];
    assert pieces == pieces[..i + 1] + pieces[i + 1..];
    ConcatAppend(pieces[..i + 1], pieces[i + 1..]);
  }

  // ----- The text of a delta -----

  function HeaderText(context: string, timestamp: string, sourceLabel: string): string {
    Concat(["{\"context\":", Quote(context), ",\"updates\":[{\"timestamp\":", Quote(timestamp),
            ",\"source\":{\"label\":", Quote(sourceLabel), "},\"values\":["])
  }

  /** How a value is written: the pieces appended for it, and whether the writer itself succeeds. */
  datatype ValueWriter = ValueWriter(pieces: seq<string>, completes: bool)

  function EntryText(path: string, value: string): (e: string)
    ensures e != ""
  {
    "{\"path\":" + Quote(path) + ",\"value\":" + value + "}"
  }

  function Join(entries: seq<string>): string {
    if entries == [] then ""
    else
      var n := |entries| - 1;
      Join(entries[..n]) + (if n == 0 then "" else ",") + entries[n]
  }

  function DeltaText(header: string, entries: seq<string>): string {
    header + Join(entries) + Trailer
  }

  datatype AddResult = Added | Full | TooLarge

  lemma JoinNext(entries: seq<string>, e: string)
    ensures Join(entries + [e]) == Join(entries) + ((if entries == [] then "" else ",") + e)
  {
    assert (entries + [e])[..|entries|] == entries;
  }

  /** A delta under construction. */
  class SignalKDeltaFrame {
    const buffer: array<char>
    const out: JsonBuffer
    var headerLen: nat
    var lastMark: nat
    var count: nat
    var open: bool
    ghost var header: string
    ghost var entries: seq<string>
    ghost var canUndo: bool

    ghost predicate Valid()
      reads this, out, buffer
    {
      && out.Valid() && out.dst == buffer
      && (out.capacity > 0 ==> out.capacity + TRAILER_LEN <= buffer.Length)
      && (headerLen > 0 ==> headerLen == |header| && out.capacity > 0 && header <= out.Text())
      && (open ==> headerLen > 0 && out.ok && count == |entries| && out.Text() == header + Join(entries))
      && (canUndo ==> open && entries != [] && lastMark == |header + Join(entries[..|entries| - 1])|)
    }

    constructor (buffer: array<char>, capacity: nat)
      requires capacity <= buffer.Length
      modifies buffer
      ensures Valid() && fresh(out) && this.buffer == buffer && !open && headerLen == 0 && count == 0
      ensures out.capacity == if capacity > TRAILER_LEN then capacity - TRAILER_LEN else 0
    {
      this.buffer := buffer;
      out := new JsonBuffer(buffer, if capacity > TRAILER_LEN then capacity - TRAILER_LEN else 0);
      headerLen, lastMark, count, open := 0, 0, 0, false;
      header, entries, canUndo := "", [], false;
    }

    /** The text and the bookkeeping as the code has them. */
    ghost function AsRaw(): RawFrame
      reads this, out, buffer
      requires out.Valid() && out.dst == buffer
    {
      RawFrame(out.Text(), lastMark, count)
    }

    lemma WhenOpen()
      requires Valid() && open
      ensures count == |entries| && headerLen > 0 && |header| < out.capacity
    {}

    method Begin(context: string, timestamp: string, sourceLabel: string) returns (started: bool)
      requires Valid()
      modifies this, out, buffer
      ensures Valid() && started == open == (|HeaderText(context, timestamp, sourceLabel)| < out.capacity)
      ensures open ==> header == HeaderText(context, timestamp, sourceLabel) && entries == [] && count == 0
      ensures !open ==> count == 0
    {
      hide Quote;
      open, canUndo := false, false;
      var done := out.Rewind(0);
      ghost var text := HeaderText(context, timestamp, sourceLabel);
      var pieces := ["{\"context\":", Quote(context), ",\"updates\":[{\"timestamp\":", Quote(timestamp),
                     ",\"source\":{\"label\":", Quote(sourceLabel), "},\"values\":["];
      if done { started := out.AppendAll(pieces); } else { started := false; }
      headerLen := if started then out.Size() else 0;
      count := 0;
      open := started;
      if started {
        header, entries := text, [];
        HeaderNotEmpty(context, timestamp, sourceLabel);
        assert out.Text() == header + Join([]);
      }
    }

    /** Starts over behind the last header; without one nothing happens. */
    method Reopen()
      requires Valid()
      modifies this, out, buffer
      ensures Valid() && header == old(header) && headerLen == old(headerLen)
      ensures headerLen > 0 ==> open && entries == [] && count == 0
      ensures headerLen == 0 ==> open == old(open) && entries == old(entries) && count == old(count)
    {
      if headerLen == 0 { return; }
      var done := out.Rewind(headerLen);
      assert done;
      open, count := true, 0;
      entries, canUndo := [], false;
      assert out.Text() == header;
    }

    /** Writes an entry after what is there; on failure some of it may stand in the buffer. */
    method WriteEntry(first: bool, path: string, value: ValueWriter) returns (written: bool)
      requires out.Valid() && out.ok && out.dst == buffer
      modifies out, buffer
      ensures out.Valid() && old(out.Text()) <= out.Text() && (written ==> out.ok)
      ensures var text := old(out.Text()) + ((if first then "" else ",") + EntryText(path, Concat(value.pieces)));
              written == (value.completes && |text| < out.capacity) && (written ==> out.Text() == text)
    {
      hide Quote, Concat, EntryText, JsonBuffer.Text, JsonBuffer.Valid;
      ghost var before := out.Text();
      out.TextSize();
      EntryPieces(first, path, value.pieces);
      var pieces := (if first then [] else [","]) + ["{\"path\":", Quote(path), ",\"value\":"] + value.pieces;
      Regrouped(before, Concat(pieces), "}");
      written := out.AppendAll(pieces);
      out.TextSize();
      if written && value.completes { written := out.AppendBytes("}"); } else { written := false; }
    }

    /** Adds one value, or leaves the frame as it was. */
    method Add(path: string, value: ValueWriter) returns (r: AddResult)
      requires Valid() && open
      modifies this, out, buffer
      ensures Valid() && open && header == old(header) && headerLen == old(headerLen)
      ensures var e := EntryText(path, Concat(value.pieces));
              var fits := value.completes && |header + Join(old(entries) + [e])| < out.capacity;
              && r == (if fits then Added else if old(entries) == [] then TooLarge else Full)
              && entries == (if fits then old(entries) + [e] else old(entries))
              && canUndo == (fits || old(canUndo))
              && AsRaw() == (if fits then RawAdd(old(AsRaw()), e) else old(AsRaw()))
    {
      hide Quote, Join, Concat, EntryText;
      ghost var e, before, kept := EntryText(path, Concat(value.pieces)), out.Text(), entries;
      var mark := out.Size();
      JoinNext(entries, e);
      Regrouped(header, Join(entries), (if count == 0 then "" else ",") + e);
      var written := WriteEntry(count == 0, path, value);
      if written {
        lastMark, count := mark, count + 1;
        entries, canUndo := entries + [e], true;
        assert entries[..|entries| - 1] == kept;
        return Added;
      }
      var done := out.Rewind(mark);
      assert done && out.Text() == before;
      return if count == 0 then TooLarge else Full;
    }

    /** Removes the value added by the last successful `Add`; an empty frame stays as it is. */
    method UndoLast()
      requires Valid() && (count == 0 || canUndo)
      modifies this, out, buffer
      ensures Valid() && open == old(open) && header == old(header) && headerLen == old(headerLen)
      ensures entries == if old(count) == 0 then old(entries) else old(entries)[..|old(entries)| - 1]
      ensures AsRaw() == RawUndo(old(AsRaw()))
    {
      hide Join;
      if count == 0 { return; }
      ghost var kept := entries[..|entries| - 1];
      JoinNext(kept, entries[|kept|]);
      assert entries == kept + [entries[|kept|]];
      var done := out.Rewind(lastMark);
      assert done && out.Text() == header + Join(kept);
      count := count - 1;
      entries, canUndo := kept, false;
    }

    /** Closes the delta: a complete, NUL-terminated text inside the buffer, or nothing if it has no values. */
    method Finish() returns (len: nat)
      requires Valid()
      modifies this`open, this`canUndo, buffer
      ensures Valid() && !open && header == old(header)
      ensures (len > 0) == (old(open) && entries != [])
      ensures len > 0 ==> len < out.capacity + TRAILER_LEN <= buffer.Length
      ensures len > 0 ==> buffer[..len] == DeltaText(header, entries) && buffer[len] == '\0'
    {
      var hasValues := open && count != 0;
      open, canUndo := false, false;
      if !hasValues { return 0; }
      hide Join;
      ghost var text := out.Text();
      var start := out.Size();
      assert |Trailer| == TRAILER_LEN;
      for i := 0 to TRAILER_LEN
        invariant !open && !canUndo && buffer[..start + i] == text + Trailer[..i]
      {
        buffer[start + i] := Trailer[i];
        assert buffer[..start + i + 1] == buffer[..start + i] + [Trailer[i]];
      }
      len := start + TRAILER_LEN;
      assert buffer[..len] == text + Trailer;
      buffer[len] := '\0';
      assert buffer[..len] == text + Trailer;
      assert out.Text() == buffer[..len][..start] == text;
    }
  }

  // ----- How often a value may be undone -----

  datatype RawFrame = RawFrame(text: string, lastMark: nat, count: nat)

  function RawAdd(f: RawFrame, e: string): RawFrame {
    RawFrame(f.text + ((if f.count == 0 then "" else ",") + e), |f.text|, f.count + 1)
  }

  function RawUndo(f: RawFrame): RawFrame {
    if f.count == 0 || f.lastMark > |f.text| then f else RawFrame(f.text[..f.lastMark], f.lastMark, f.count - 1)
  }

  /** What is done to an open frame: a value added, an add that failed and was taken back, an undo. */
  datatype FrameOp = AddOp(e: string) | FailedAdd | UndoOp

  function RawRun(header: string, ops: seq<FrameOp>): RawFrame {
    if ops == [] then RawFrame(header, 0, 0)
    else
      var f := RawRun(header, ops[..|ops| - 1]);
      match ops[|ops| - 1]
      case AddOp(e) => RawAdd(f, e)
      case FailedAdd => f
      case UndoOp => RawUndo(f)
  }

  /** The values the frame should hold. */
  function Held(ops: seq<FrameOp>): seq<string> {
    if ops == [] then []
    else
      var held := Held(ops[..|ops| - 1]);
      match ops[|ops| - 1]
      case AddOp(e) => held + [e]
      case FailedAdd => held
      case UndoOp => if held == [] then [] else held[..|held| - 1]
  }

  predicate Shaped(f: RawFrame, header: string, entries: seq<string>) {
    f.text == header + Join(entries) && f.count == |entries|
  }

  predicate AlwaysShaped(header: string, ops: seq<FrameOp>) {
    Shaped(RawRun(header, ops), header, Held(ops)) && (ops == [] || AlwaysShaped(header, ops[..|ops| - 1]))
  }

  /** A value was added since the last undo. */
  predicate Undoable(ops: seq<FrameOp>) {
    ops != [] &&
    match ops[|ops| - 1]
    case AddOp(_) => true
    case FailedAdd => Undoable(ops[..|ops| - 1])
    case UndoOp => false
  }

  /** Every undo of a frame with values follows an add that no undo has taken back. */
  predicate OneUndoPerAdd(ops: seq<FrameOp>) {
    ops == [] ||
    (var before := ops[..|ops| - 1];
     OneUndoPerAdd(before) && (ops[|ops| - 1].UndoOp? ==> Held(before) == [] || Undoable(before)))
  }

  /** The mark is where the last value starts, or, once that was undone, where the text ends. */
  predicate Marked(f: RawFrame, header: string, entries: seq<string>, undoable: bool) {
    && (undoable ==> entries != [] && f.lastMark == |header + Join(entries[..|entries| - 1])|)
    && (!undoable && entries != [] ==> f.lastMark == |f.text|)
  }

  predicate NoEmptyEntry(ops: seq<FrameOp>) {
    forall i :: 0 <= i < |ops| ==> ops[i].AddOp? ==> ops[i].e != ""
  }

  lemma {:induction false} HeldNotEmpty(ops: seq<FrameOp>)
    requires NoEmptyEntry(ops)
    ensures forall i :: 0 <= i < |Held(ops)| ==> Held(ops)[i] != ""
  {
    if ops != [] { HeldNotEmpty(ops[..|ops| - 1]); }
  }

  /**
   The frame is its header and its values after every operation if and only if
   no undo comes without an add of its own.
   */
  lemma {:induction false} UndoExactness(header: string, ops: seq<FrameOp>)
    requires NoEmptyEntry(ops)
    ensures AlwaysShaped(header, ops) <==> OneUndoPerAdd(ops)
    ensures OneUndoPerAdd(ops) ==> Marked(RawRun(header, ops), header, Held(ops), Undoable(ops))
  {
    hide Join;
    if ops == [] {
      NoneJoined();
      assert header + "" == header;
    } else {
      var n := |ops| - 1;
      UndoExactness(header, ops[..n]);
      if OneUndoPerAdd(ops[..n]) {
        var f, held := RawRun(header, ops[..n]), Held(ops[..n]);
        HeldNotEmpty(ops[..n]);
        match ops[n]
        case AddOp(e) =>
          JoinNext(held, e);
          Regrouped(header, Join(held), (if held == [] then "" else ",") + e);
          assert (held + [e])[..|held|] == held;
        case FailedAdd =>
        case UndoOp =>
          if held != [] { UndoStep(f, header, held, Undoable(ops[..n])); }
      }
    }
  }

  lemma NoneJoined()
    ensures Join([]) == ""
  {}

  lemma UndoStep(f: RawFrame, header: string, held: seq<string>, undoable: bool)
    requires Shaped(f, header, held) && Marked(f, header, held, undoable) && held != [] && held[|held| - 1] != ""
    ensures Shaped(RawUndo(f), header, held[..|held| - 1]) <==> undoable
    ensures undoable ==> Marked(RawUndo(f), header, held[..|held| - 1], false)
  {
    hide Join;
    var kept, last := held[..|held| - 1], held[|held| - 1];
    assert held == kept + [last];
    JoinNext(kept, last);
    if undoable { assert f.text[..f.lastMark] == header + Join(kept); } else { assert f.text[..f.lastMark] == f.text; }
  }

  /** The second undo in a row only lowers the count, so the next value is added without a comma. */
  lemma UndoTwiceLosesComma(header: string, a: string, b: string, c: string)
    ensures RawRun(header, [AddOp(a), AddOp(b), UndoOp, UndoOp, AddOp(c)]).text == header + a + c
  {
    var ops := [AddOp(a), AddOp(b), UndoOp, UndoOp, AddOp(c)];
    assert ops[..4][..3] == ops[..3] && ops[..3][..2] == ops[..2] && ops[..2][..1] == ops[..1] && ops[..1][..0] == [];
    assert RawRun(header, ops[..1]) == RawFrame(header + a, |header|, 1) by { assert "" + a == a; }
    var f := RawRun(header, ops[..2]);
    assert f == RawFrame(header + a + ("," + b), |header + a|, 2);
    assert f.text[..f.lastMark] == header + a;
    var g := RawRun(header, ops[..3]);
    assert g.text[..g.lastMark] == g.text;
    assert "" + c == c;
  }

  lemma HeaderNotEmpty(context: string, timestamp: string, sourceLabel: string)
    ensures HeaderText(context, timestamp, sourceLabel) != ""
  {
    hide Quote;
  }

  /** The pieces written for an entry, without its closing brace. */
  lemma EntryPieces(first: bool, path: string, pieces: seq<string>)
    ensures var all := (if first then [] else [","]) + ["{\"path\":", Quote(path), ",\"value\":"] + pieces;
            Concat(all) + "}" == (if first then "" else ",") + EntryText(path, Concat(pieces))
  {
    hide Quote;
    var lead := if first then [] else [","];
    var middle := ["{\"path\":", Quote(path), ",\"value\":"];
    ConcatAppend(lead + middle, pieces);
    ConcatAppend(lead, middle);
    assert Concat(lead) == if first then "" else ",";
    var last := [",\"value\":"];
    assert middle[1..] == [Quote(path)] + last && middle[1..][1..] == last && last[1..] == [];
    assert Concat(last) == ",\"value\":";
    assert Concat(middle[1..]) == Quote(path) + ",\"value\":";
    assert Concat(middle) == "{\"path\":" + Quote(path) + ",\"value\":";
  }

  // ----- A finished delta is one JSON document and a line end -----

  /** The `values` array: one object with `path` and `value` for each entry. */
  function ValueItems(paths: seq<string>, values: seq<Json>): Items
    requires |paths| == |values|
  {
    if paths == [] then NoItems
    else Item(Obj(Member("path", Str(paths[0]), Member("value", values[0], NoMembers))),
              ValueItems(paths[1..], values[1..]))
  }

  function DeltaJson(context: string, timestamp: string, sourceLabel: string, values: Items): Json {
    var updates := Arr(Item(UpdateJson(timestamp, sourceLabel, values), NoItems));
    Obj(Member("context", Str(context), Member("updates", updates, NoMembers)))
  }

  function Entries(paths: seq<string>, values: seq<Json>): (e: seq<string>)
    requires |paths| == |values|
    ensures |e| == |paths|
  {
    if paths == [] then [] else [EntryText(paths[0], Print(values[0]))] + Entries(paths[1..], values[1..])
  }

  predicate Plain(text: string) {
    forall i :: 0 <= i < |text| ==> 0x20 <= text[i] as int && text[i] != '"' && text[i] != '\\'
  }

  lemma {:induction false} PlainQuote(text: string)
    requires Plain(text)
    ensures Escape(text) == text && Quote(text) == "\"" + text + "\""
  {
    if text != "" {
      PlainQuote(text[1..]);
      assert text == [text[0]] + text[1..];
    }
  }

  /** A member whose key needs no escaping. */
  lemma PlainMember(key: string, value: Json, rest: Members, first: bool)
    requires Plain(key)
    ensures PrintMembers(Member(key, value, rest), first) ==
            (Comma(first) + "\"" + key + "\":") + (Print(value) + PrintMembers(rest, false))
  {
    hide Escape, Quote, Comma;
    PlainQuote(key);
    KeyRegrouped(Comma(first), key, Print(value), PrintMembers(rest, false));
  }

  lemma KeyRegrouped(c: string, key: string, p: string, r: string)
    ensures c + ("\"" + key + "\"") + ":" + p + r == (c + "\"" + key + "\":") + (p + r)
  {
    var q := "\"";
    assert q + ":" == "\":";
    assert c + (q + key + q) + ":" == c + q + key + (q + ":");
  }

  function JoinFront(entries: seq<string>, first: bool): string {
    if entries == [] then "" else Comma(first) + entries[0] + JoinFront(entries[1..], false)
  }

  lemma JoinFrontStep(entries: seq<string>, first: bool)
    ensures entries == [] ==> JoinFront(entries, first) == ""
    ensures entries != [] ==> JoinFront(entries, first) == Comma(first) + entries[0] + JoinFront(entries[1..], false)
  {}

  lemma {:induction false} JoinFrontNext(entries: seq<string>, e: string, first: bool)
    ensures JoinFront(entries + [e], first) == JoinFront(entries, first) + (Comma(first && entries == []) + e)
    decreases |entries|
  {
    hide JoinFront, Comma;
    JoinFrontStep(entries, first);
    JoinFrontStep(entries + [e], first);
    if entries == [] {
      assert entries + [e] == [e] && [e][1..] == [];
      JoinFrontStep([e][1..], false);
      assert Comma(first) + e + "" == "" + (Comma(first) + e);
    } else {
      assert (entries + [e])[1..] == entries[1..] + [e];
      JoinFrontNext(entries[1..], e, false);
      Regrouped(Comma(first) + entries[0], JoinFront(entries[1..], false), Comma(false) + e);
    }
  }

  lemma {:induction false} JoinIsJoinFront(entries: seq<string>)
    ensures Join(entries) == JoinFront(entries, true)
  {
    if entries != [] {
      var n := |entries| - 1;
      JoinIsJoinFront(entries[..n]);
      JoinFrontNext(entries[..n], entries[n], true);
      assert entries == entries[..n] + [entries[n]];
    }
  }

  lemma EntryIsJson(path: string, value: Json)
    ensures EntryText(path, Print(value)) == Print(Obj(Member("path", Str(path), Member("value", value, NoMembers))))
  {
    hide Escape, Quote, PrintMembers;
    var rest := Member("value", value, NoMembers);
    PlainMember("value", value, NoMembers, false);
    PlainMember("path", Str(path), rest, true);
    assert Comma(true) + "\"" + "path" + "\":" == "\"path\":";
    assert Comma(false) + "\"" + "value" + "\":" == ",\"value\":";
    assert PrintMembers(NoMembers, false) == "" by { NoMembersText(); }
    assert PrintMembers(rest, false) == ",\"value\":" + Print(value);
  }

  lemma NoMembersText()
    ensures PrintMembers(NoMembers, false) == ""
  {}

  lemma {:induction false} EntriesAreItems(paths: seq<string>, values: seq<Json>, first: bool)
    requires |paths| == |values|
    ensures JoinFront(Entries(paths, values), first) == PrintItems(ValueItems(paths, values), first)
  {
    hide Print, EntryText;
    if paths != [] {
      EntryIsJson(paths[0], values[0]);
      EntriesAreItems(paths[1..], values[1..], false);
      assert Entries(paths, values)[1..] == Entries(paths[1..], values[1..]);
    }
  }

  lemma HeaderParts(context: string, timestamp: string, sourceLabel: string)
    ensures HeaderText(context, timestamp, sourceLabel) ==
            "{\"context\":" + (Quote(context) + (",\"updates\":[{\"timestamp\":" + (Quote(timestamp) +
            (",\"source\":{\"label\":" + (Quote(sourceLabel) + "},\"values\":[")))))
  {
    hide Quote;
    HeaderTail(["{\"context\":", Quote(context), ",\"updates\":[{\"timestamp\":", Quote(timestamp),
                ",\"source\":{\"label\":", Quote(sourceLabel), "},\"values\":["]);
  }

  lemma HeaderTail(p: seq<string>)
    requires |p| == 7
    ensures Concat(p) == p[0] + (p[1] + (p[2] + (p[3] + (p[4] + (p[5] + p[6])))))
  {
    assert p[1..][1..] == p[2..] && p[2..][1..] == p[3..] && p[3..][1..] == p[4..];
    assert p[4..][1..] == p[5..] && p[5..][1..] == p[6..] && p[6..][1..] == [];
    assert Concat(p[6..]) == p[6];
    assert Concat(p[5..]) == p[5] + p[6];
    assert Concat(p[4..]) == p[4] + Concat(p[5..]);
    assert Concat(p[3..]) == p[3] + Concat(p[4..]);
    assert Concat(p[2..]) == p[2] + Concat(p[3..]);
  }

  function SourceJson(sourceLabel: string): Json {
    Obj(Member("label", Str(sourceLabel), NoMembers))
  }

  function ValuesMember(values: Items): Members {
    Member("values", Arr(values), NoMembers)
  }

  function SourceMember(sourceLabel: string, values: Items): Members {
    Member("source", SourceJson(sourceLabel), ValuesMember(values))
  }

  function UpdateJson(timestamp: string, sourceLabel: string, values: Items): Json {
    Obj(Member("timestamp", Str(timestamp), SourceMember(sourceLabel, values)))
  }

  lemma SourceText(sourceLabel: string)
    ensures Print(SourceJson(sourceLabel)) == "{\"label\":" + (Quote(sourceLabel) + "}")
  {
    hide Quote, PrintMembers;
    NoMembersText();
    PlainMember("label", Str(sourceLabel), NoMembers, true);
    assert Comma(true) + "\"" + "label" + "\":" == "\"label\":";
  }

  lemma ValuesText(values: Items)
    ensures PrintMembers(ValuesMember(values), false) == ",\"values\":[" + (PrintItems(values, true) + "]")
  {
    hide Quote, PrintMembers, PrintItems;
    NoMembersText();
    PlainMember("values", Arr(values), NoMembers, false);
    assert Comma(false) + "\"" + "values" + "\":" == ",\"values\":";
    assert ",\"values\":[" == ",\"values\":" + "[";
  }

  lemma SourceMemberText(sourceLabel: string, values: Items)
    ensures PrintMembers(SourceMember(sourceLabel, values), false) ==
            ",\"source\":{\"label\":" + (Quote(sourceLabel) + ("},\"values\":[" + (PrintItems(values, true) + "]")))
  {
    hide Quote, PrintMembers, PrintItems, SourceJson, ValuesMember, Print;
    SourceText(sourceLabel);
    ValuesText(values);
    PlainMember("source", SourceJson(sourceLabel), ValuesMember(values), false);
    var l, v := Quote(sourceLabel), PrintItems(values, true) + "]";
    assert Comma(false) + "\"" + "source" + "\":" == ",\"source\":";
    assert ",\"source\":" + "{\"label\":" == ",\"source\":{\"label\":";
    assert "}" + ",\"values\":[" == "},\"values\":[";
    Regroup(",\"source\":", "{\"label\":", l, "}", ",\"values\":[", v);
  }

  lemma Regroup(a: string, b: string, c: string, d: string, e: string, f: string)
    ensures a + ((b + (c + d)) + (e + f)) == (a + b) + (c + ((d + e) + f))
  {
    assert (b + (c + d)) + (e + f) == b + (c + ((d + e) + f));
  }

  lemma UpdateText(timestamp: string, sourceLabel: string, values: Items)
    ensures Print(UpdateJson(timestamp, sourceLabel, values)) ==
            "{\"timestamp\":" + (Quote(timestamp) + (",\"source\":{\"label\":" + (Quote(sourceLabel) +
            ("},\"values\":[" + (PrintItems(values, true) + "]}")))))
  {
    hide Quote, PrintMembers, PrintItems, SourceMember;
    SourceMemberText(sourceLabel, values);
    PlainMember("timestamp", Str(timestamp), SourceMember(sourceLabel, values), true);
    var t, l, v := Quote(timestamp), Quote(sourceLabel), PrintItems(values, true);
    assert Comma(true) + "\"" + "timestamp" + "\":" == "\"timestamp\":";
    assert "{" + "\"timestamp\":" == "{\"timestamp\":" && "]" + "}" == "]}";
    RegroupedAround("{", "\"timestamp\":", t, ",\"source\":{\"label\":", l, "},\"values\":[", v, "]", "}");
  }

  lemma RegroupedAround(a: string, b: string, t: string, c: string, l: string, d: string, v: string, e: string,
                        f: string)
    ensures a + (b + (t + (c + (l + (d + (v + e)))))) + f == (a + b) + (t + (c + (l + (d + (v + (e + f))))))
  {
    RegroupedTail(a, b, t + (c + (l + (d + (v + e)))), f);
    RegroupedTail(t, c, l + (d + (v + e)), f);
    RegroupedTail(l, d, v + e, f);
    assert (v + e) + f == v + (e + f);
  }

  lemma RegroupedTail(a: string, b: string, rest: string, f: string)
    ensures a + (b + rest) + f == (a + b) + (rest + f) == a + (b + (rest + f))
  {}

  /** The header, the values and the trailer are the printed document and a line end. */
  lemma Assemble(a: string, c: string, u: string, b: string, t: string, s: string, l: string, d: string, v: string,
                 e: string, f: string, g: string)
    ensures (a + (c + ((u + b) + (t + (s + (l + d)))))) + v + (e + f + g) ==
            (a + (c + (u + ((b + (t + (s + (l + (d + (v + e)))))) + f)))) + g
  {
    var head := t + (s + (l + d));
    assert t + (s + (l + (d + (v + e)))) == head + (v + e) by {
      assert l + (d + (v + e)) == (l + d) + (v + e);
      assert s + (l + (d + (v + e))) == (s + (l + d)) + (v + e);
    }
    Sandwich(a, c, u, b, head, v, e, f, g);
  }

  lemma Sandwich(a: string, c: string, u: string, b: string, h: string, v: string, e: string, f: string, g: string)
    ensures (a + (c + ((u + b) + h))) + v + (e + f + g) == (a + (c + (u + ((b + (h + (v + e))) + f)))) + g
  {
    var x := a + c + u + b + h;
    assert a + (c + ((u + b) + h)) == x;
    var y := b + (h + (v + e)) + f;
    assert y == b + h + v + e + f;
    assert a + (c + (u + y)) == (a + c + u) + y == x + v + e + f;
  }

  lemma DeltaIsJson(context: string, timestamp: string, sourceLabel: string, paths: seq<string>, values: seq<Json>)
    requires |paths| == |values|
    ensures DeltaText(HeaderText(context, timestamp, sourceLabel), Entries(paths, values)) ==
            Print(DeltaJson(context, timestamp, sourceLabel, ValueItems(paths, values))) + "\r\n"
  {
    hide Quote, Join, HeaderText, ValueItems, Entries, Print, PrintItems, UpdateJson, DeltaJson, JoinFront;
    var items := ValueItems(paths, values);
    JoinIsJoinFront(Entries(paths, values));
    EntriesAreItems(paths, values, true);
    HeaderParts(context, timestamp, sourceLabel);
    UpdateText(timestamp, sourceLabel, items);
    DocumentText(context, timestamp, sourceLabel, items);
    assert ",\"updates\":[" + "{\"timestamp\":" == ",\"updates\":[{\"timestamp\":";
    assert "]}" + "]}" + "\r\n" == Trailer;
    Assemble("{\"context\":", Quote(context), ",\"updates\":[", "{\"timestamp\":", Quote(timestamp),
             ",\"source\":{\"label\":", Quote(sourceLabel), "},\"values\":[", PrintItems(items, true), "]}", "]}",
             "\r\n");
  }

  lemma DocumentText(context: string, timestamp: string, sourceLabel: string, items: Items)
    ensures Print(DeltaJson(context, timestamp, sourceLabel, items)) ==
            "{\"context\":" + (Quote(context) +
                               (",\"updates\":[" + (Print(UpdateJson(timestamp, sourceLabel, items)) + "]}")))
  {
    hide Quote, PrintMembers, UpdateJson, Print, PrintItems;
    var update := UpdateJson(timestamp, sourceLabel, items);
    UpdatesText(update);
    var m1 := Member("updates", Arr(Item(update, NoItems)), NoMembers);
    PlainMember("context", Str(context), m1, true);
    var c, u := Quote(context), Print(update);
    assert Comma(true) + "\"" + "context" + "\":" == "\"context\":";
    assert "{" + "\"context\":" == "{\"context\":" && "]" + "}" == "]}";
    DocumentPrint(context, m1);
    RegroupedTail("{", "\"context\":", c + (",\"updates\":[" + (u + "]")), "}");
    RegroupedTail(c, ",\"updates\":[", u + "]", "}");
    assert (u + "]") + "}" == u + "]}";
  }

  lemma DocumentPrint(context: string, m: Members)
    ensures Print(Obj(Member("context", Str(context), m))) ==
            "{" + PrintMembers(Member("context", Str(context), m), true) + "}"
    ensures Print(Str(context)) == Quote(context)
  {
    hide Quote, PrintMembers;
  }

  lemma UpdatesText(update: Json)
    ensures PrintMembers(Member("updates", Arr(Item(update, NoItems)), NoMembers), false) ==
            ",\"updates\":[" + (Print(update) + "]")
  {
    hide Quote, PrintMembers;
    NoMembersText();
    var items := Item(update, NoItems);
    assert PrintItems(items, true) == Print(update);
    assert Print(Arr(items)) == "[" + Print(update) + "]";
    PlainMember("updates", Arr(items), NoMembers, false);
    assert Comma(false) + "\"" + "updates" + "\":" == ",\"updates\":";
    assert ",\"updates\":" + "[" == ",\"updates\":[";
  }
}
