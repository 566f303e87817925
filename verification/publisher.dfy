/**
 The publisher's resumable snapshot: `publish_current` and the operations that
 put values into deltas, remember where the delta being built starts, and skip
 what an earlier pass delivered.
 */
module Publisher {
  import opened JsonText
  import opened DeltaFrame
  import opened Frames
  import opened Snapshot

  /**
   Where deltas go. A sink may refuse any delta; a `willing` one takes every
   delta whose frame fits its free room, and an `unlimited` one takes them all.
   */
  class Sink {
    var log: seq<string>
    var room: nat
    const willing: bool
    const unlimited: bool
    const kind: Kind

    constructor (kind: Kind, room: nat, willing: bool, unlimited: bool)
      ensures log == [] && this.room == room && this.kind == kind
      ensures this.willing == willing && this.unlimited == unlimited
    {
      log, this.room, this.willing, this.unlimited, this.kind := [], room, willing, unlimited, kind;
    }

    /** What was taken after the first `n` deltas is short enough for the sink's frames. */
    ghost predicate Sized(n: nat)
      reads `log
    {
      !unlimited && kind.WebSocket? ==> forall i :: n <= i < |log| ==> TextLength(log[i]) <= CHUNK_SIZE
    }

    /** The frames of what was taken after `before` have used up the room. */
    ghost predicate Spent(before: seq<string>, firstRoom: nat)
      reads `log, `room
    {
      !unlimited ==> before <= log && |Wire(kind, log[|before|..])| + room == firstRoom
    }

    method Write(delta: string) returns (accepted: bool)
      modifies this
      ensures accepted ==> log == old(log) + [delta]
      ensures !accepted ==> log == old(log) && room == old(room) && !unlimited
      ensures !accepted && willing ==> !Takes(kind, room, delta)
      ensures accepted && !unlimited ==> Takes(kind, old(room), delta) && room == old(room) - |Framed(kind, delta)|
    {
      var choice: bool := *;
      accepted := unlimited || (Takes(kind, room, delta) && (willing || choice));
      if accepted {
        log := log + [delta];
        var size := |Framed(kind, delta)|;
        room := if size <= room then room - size else 0;
      }
    }
  }

  function Flatten(deltas: seq<seq<Datum>>): seq<Datum> {
    if deltas == [] then [] else Flatten(deltas[..|deltas| - 1]) + deltas[|deltas| - 1]
  }

  function EntriesOf(items: seq<Datum>): (e: seq<string>)
    ensures |e| == |items|
    ensures forall i :: 0 <= i < |items| ==> e[i] == items[i].entry
  {
    seq(|items|, i requires 0 <= i < |items| => items[i].entry)
  }

  /** One delta holds at least one item, and all its items belong under its header. */
  predicate IsDelta(items: seq<Datum>) {
    items != [] && forall i :: 0 <= i < |items| ==> items[i].header == items[0].header
  }

  function TextOf(items: seq<Datum>): string
    requires IsDelta(items)
  {
    DeltaText(items[0].header, EntriesOf(items))
  }

  /** The log holds exactly the texts of these deltas, after what it held before. */
  predicate Logged(before: seq<string>, deltas: seq<seq<Datum>>, log: seq<string>) {
    && |log| == |before| + |deltas| && before <= log
    && forall i :: 0 <= i < |deltas| ==> IsDelta(deltas[i]) && log[|before| + i] == TextOf(deltas[i])
  }

  class SignalKPublisher {
    const json: array<char>
    const maxBatchValues: nat

    // Tracking of the running snapshot pass.
    var startPosition: nat
    var position: nat
    var value: nat
    var skip: nat
    var frameStart: Cursor

    /** Everything the pass came across so far, in order, skipped or not. */
    ghost var seen: seq<Datum>
    /** How many of the items the pass came across are to be skipped. */
    ghost var budget: nat
    /** The items of the delta being built. */
    ghost var items: seq<Datum>
    /** The deltas the sink accepted in this pass. */
    ghost var deltas: seq<seq<Datum>>
    ghost var firstRoom: nat
    ghost var firstLog: seq<string>

    constructor (json: array<char>, maxBatchValues: nat)
      requires maxBatchValues > 0
      ensures this.json == json && this.maxBatchValues == maxBatchValues
    {
      this.json, this.maxBatchValues := json, maxBatchValues;
      startPosition, position, value, skip, frameStart := 0, 0, 0, 0, Cursor(0, 0);
      seen, budget, items, deltas, firstRoom, firstLog := [], 0, [], [], 0, [];
    }

    ghost predicate Tracks(sink: Sink)
      reads this, sink
    {
      && Flatten(deltas) + items == seen[Min(budget, |seen|)..]
      && skip == budget - Min(budget, |seen|)
      && (items != [] ==> frameStart == Cursor(items[0].position, items[0].index))
      && Logged(firstLog, deltas, sink.log)
      && (deltas == [] ==> sink.room == firstRoom) && sink.Sized(|firstLog|) && sink.Spent(firstLog, firstRoom)
    }

    /** The frame holds the items being collected. */
    ghost predicate Holds(frame: SignalKDeltaFrame)
      reads this`items, frame, frame.out, frame.buffer
    {
      && frame.Valid() && frame.buffer == json
      && (if frame.open
          then frame.entries == EntriesOf(items) && forall i :: 0 <= i < |items| ==> items[i].header == frame.header
          else items == [])
    }

    ghost predicate Ready(frame: SignalKDeltaFrame, sink: Sink)
      reads this, frame, frame.out, frame.buffer, sink
    {
      Tracks(sink) && Holds(frame)
    }

    /** The sink refused the delta being built. */
    ghost predicate Stopped(frame: SignalKDeltaFrame, sink: Sink)
      reads this, frame, sink
    {
      && Tracks(sink) && items != [] && frame.out.capacity > 0 && !sink.unlimited
      && Turned(sink, frame.out.capacity + TRAILER_LEN - 1)
    }

    /** The delta being built, of at most `size` bytes, is not one a willing sink takes now. */
    ghost predicate Turned(sink: Sink, size: nat)
      reads `items, sink
    {
      && IsDelta(items) && |TextOf(items)| <= size
      && (sink.willing ==> !Takes(sink.kind, sink.room, TextOf(items)))
    }

    method Flush(sink: Sink, frame: SignalKDeltaFrame) returns (ok: bool)
      requires Ready(frame, sink)
      modifies this`items, this`deltas, sink, frame`open, frame`canUndo, frame.buffer
      ensures ok ==> Ready(frame, sink) && !frame.open && items == []
      ensures ok ==> deltas == if old(items) == [] then old(deltas) else old(deltas) + [old(items)]
      ensures !ok ==> Stopped(frame, sink)
    {
      hide DeltaText, Join, Flatten, Logged, Framed, TextLength, TakesUpTo;
      var len := frame.Finish();
      if len == 0 { return true; }
      assert TextOf(items) == frame.buffer[..len];
      var accepted := sink.Write(frame.buffer[..len]);
      if !accepted { return false; }
      FlattenNext(deltas, items);
      LoggedNext(firstLog, deltas, old(sink.log), items);
      if !sink.unlimited { SpentNext(sink.kind, firstLog, old(sink.log), frame.buffer[..len]); }
      deltas, items := deltas + [items], [];
      return true;
    }

    /** Counts a value that was just added, or takes it out again if an earlier pass delivered it. */
    method NoteAdded(sink: Sink, frame: SignalKDeltaFrame, firstInFrame: bool, ghost entry: string)
      requires Tracks(sink) && frame.Valid() && frame.buffer == json && frame.open && frame.canUndo
      requires frame.entries == EntriesOf(items) + [entry] && firstInFrame == (items == [])
      requires forall i :: 0 <= i < |items| ==> items[i].header == frame.header
      modifies this`items, this`seen, this`value, this`skip, this`frameStart, frame, frame.out, frame.buffer
      ensures Ready(frame, sink) && frame.open
      ensures frame.header == old(frame.header) && frame.headerLen == old(frame.headerLen)
      ensures seen == old(seen) + [Datum(position, old(value), frame.header, entry)] && value == old(value) + 1
    {
      hide Flatten, Logged, SignalKDeltaFrame.Valid;
      ghost var item := Datum(position, value, frame.header, entry);
      if skip > 0 {
        frame.WhenOpen();
        frame.UndoLast();
        skip := skip - 1;
        assert EntriesOf(items) + [entry] == EntriesOf(items + [item]);
      } else {
        if firstInFrame { frameStart := Cursor(position, value); }
        items := items + [item];
        assert EntriesOf(items) == frame.entries;
        assert (seen + [item])[Min(budget, |seen|)..] == seen[Min(budget, |seen|)..] + [item];
      }
      value := value + 1;
      seen := seen + [item];
    }

    /** Adds one entry to the open delta, or finds that it is full or that the entry fits no delta. */
    method AddOnce(sink: Sink, frame: SignalKDeltaFrame, path: string, w: ValueWriter) returns (result: AddResult)
      requires Ready(frame, sink) && frame.open
      modifies this`items, this`seen, this`value, this`skip, this`frameStart, frame, frame.out, frame.buffer
      ensures Ready(frame, sink) && frame.open && frame.header == old(frame.header)
      ensures result == Added ==> Fits(frame.out.capacity - |frame.header|, path, w) && value == old(value) + 1
      ensures result == Added ==> seen == old(seen) + Number(position, old(value), frame.header, [Whole(path, w)])
      ensures result != Added ==> seen == old(seen) && value == old(value) && items == old(items)
      ensures result == TooLarge ==> !Fits(frame.out.capacity - |frame.header|, path, w)
      ensures result == Full ==> items != []
      ensures w.completes && |frame.header + Join(old(frame.entries) + [Whole(path, w)])| < frame.out.capacity ==>
                result == Added
    {
      hide EntryText, Concat, Tracks, SignalKDeltaFrame.Valid, Join, EntriesOf;
      frame.WhenOpen();
      RoomFor(frame.header, frame.entries, Whole(path, w), frame.out.capacity);
      var wasEmpty := frame.count == 0;
      result := frame.Add(path, w);
      if result == Added { NoteAdded(sink, frame, wasEmpty, Whole(path, w)); }
    }

    /**
     Adds one entry, sending the delta and continuing in a new one only when it
     does not fit. Whether it is added depends only on the header and the value.
     */
    method AddOrSplit(sink: Sink, frame: SignalKDeltaFrame, path: string, w: ValueWriter)
      returns (ok: bool, added: bool)
      requires Ready(frame, sink) && frame.open
      modifies this`items, this`deltas, this`seen, this`value, this`skip, this`frameStart
      modifies sink, frame, frame.out, frame.buffer
      ensures frame.header == old(frame.header)
      ensures !ok ==> Stopped(frame, sink) && seen == old(seen)
      ensures ok ==> Ready(frame, sink) && frame.open
      ensures ok ==> added == Fits(frame.out.capacity - |frame.header|, path, w)
      ensures ok ==>
                seen == old(seen) + Number(position, old(value), frame.header, if added then [Whole(path, w)] else [])
      ensures ok ==> value == old(value) + if added then 1 else 0
      ensures w.completes && |frame.header + Join(old(frame.entries) + [Whole(path, w)])| < frame.out.capacity ==>
                ok && deltas == old(deltas)
    {
      hide Fits, Whole, Tracks, Holds, Number;
      NumberNone(position, value, frame.header);
      var result := AddOnce(sink, frame, path, w);
      if result == Full {
        HeaderFits(frame);
        ok := Flush(sink, frame);
        if !ok { return false, false; }
        ReopenFrame(sink, frame);
        result := AddOnce(sink, frame, path, w);
      }
      return true, result == Added;
    }

    method ReopenFrame(sink: Sink, frame: SignalKDeltaFrame)
      requires Ready(frame, sink) && !frame.open && frame.headerLen > 0
      modifies frame, frame.out, frame.buffer
      ensures Ready(frame, sink) && frame.open && items == [] && frame.header == old(frame.header)
    {
      hide Tracks, SignalKDeltaFrame.Valid;
      frame.Reopen();
    }

    /** Sends a prefix of the text that fits an empty delta, if there is one. */
    method AddShortenedText(sink: Sink, frame: SignalKDeltaFrame, path: string, text: string) returns (ok: bool)
      requires Ready(frame, sink) && frame.open
      modifies this`items, this`deltas, this`seen, this`value, this`skip, this`frameStart
      modifies sink, frame, frame.out, frame.buffer
      ensures frame.header == old(frame.header)
      ensures Offered(frame, sink, ok, old(seen), old(value),
                      ShortenedEntries(frame.out.capacity - |frame.header|, path, text, |text|))
    {
      hide Fits, Whole, Ready, Stopped, Number, Join;
      NumberNone(position, value, frame.header);
      ghost var room := frame.out.capacity - |frame.header|;
      var len: nat := |text|;
      while len > 0
        invariant len <= |text| && Ready(frame, sink) && frame.open && frame.header == old(frame.header)
        invariant seen == old(seen) && value == old(value)
        invariant ShortenedEntries(room, path, text, len) == ShortenedEntries(room, path, text, |text|)
      {
        var n := Shorten(text, len);
        var added;
        ok, added := AddOrSplit(sink, frame, path, Quoted(text[..n]));
        if !ok || added { return; }
        len := n;
      }
      return true;
    }

    /** Sends an object whole, or member by member under sub-paths. */
    method AddJsonSplit(sink: Sink, frame: SignalKDeltaFrame, path: string, tree: Json, depth: nat) returns (ok: bool)
      requires Ready(frame, sink) && frame.open
      modifies this`items, this`deltas, this`seen, this`value, this`skip, this`frameStart
      modifies sink, frame, frame.out, frame.buffer
      ensures frame.header == old(frame.header)
      ensures Offered(frame, sink, ok, old(seen), old(value),
                      SplitEntries(frame.out.capacity - |frame.header|, path, tree, depth))
      decreases tree, 1
    {
      hide Fits, Whole, Tracks, Holds, Number, ShortenedEntries, SplitMembers, Written, Join;
      NumberNone(position, value, frame.header);
      var added;
      ok, added := AddOrSplit(sink, frame, path, Written(tree));
      if !ok || added { return; }
      match tree
      case Str(text) => ok := AddShortenedText(sink, frame, path, text);
      case Obj(members) =>
        if depth < MAX_SPLIT_DEPTH { ok := AddMembers(sink, frame, path, members, depth + 1); }
      case Scalar(_) =>
      case Arr(_) =>
    }

    method AddMember(sink: Sink, frame: SignalKDeltaFrame, path: string, key: string, tree: Json, depth: nat)
      returns (ok: bool)
      requires Ready(frame, sink) && frame.open
      modifies this`items, this`deltas, this`seen, this`value, this`skip, this`frameStart
      modifies sink, frame, frame.out, frame.buffer
      ensures frame.header == old(frame.header)
      ensures Offered(frame, sink, ok, old(seen), old(value),
                      MemberEntries(frame.out.capacity - |frame.header|, path, key, tree, depth))
      decreases tree, 2
    {
      hide SplitEntries, Tracks, Holds;
      var child := ChildPath(path, key);
      if child.Some? { ok := AddJsonSplit(sink, frame, child.value, tree, depth); } else { ok := true; }
    }

    method AddMembers(sink: Sink, frame: SignalKDeltaFrame, path: string, members: Members, depth: nat)
      returns (ok: bool)
      requires Ready(frame, sink) && frame.open
      modifies this`items, this`deltas, this`seen, this`value, this`skip, this`frameStart
      modifies sink, frame, frame.out, frame.buffer
      ensures frame.header == old(frame.header)
      ensures Offered(frame, sink, ok, old(seen), old(value),
                      SplitMembers(frame.out.capacity - |frame.header|, path, members, depth))
      decreases members, 0
    {
      hide MemberEntries, Ready, Stopped, Number, SplitMembers;
      ghost var room := frame.out.capacity - |frame.header|;
      ghost var all := seen + Number(position, value, frame.header, SplitMembers(room, path, members, depth));
      ghost var total := value + |SplitMembers(room, path, members, depth)|;
      var rest := members;
      while rest.Member?
        invariant rest == members || rest < members
        invariant Ready(frame, sink) && frame.open && frame.header == old(frame.header) && old(seen) <= seen
        invariant seen + Number(position, value, frame.header, SplitMembers(room, path, rest, depth)) == all
        invariant value + |SplitMembers(room, path, rest, depth)| == total
        decreases rest
      {
        MembersUnfold(room, path, rest, depth);
        ghost var before, first := seen, value;
        ok := AddMember(sink, frame, path, rest.key, rest.value, depth);
        OfferMore(old(seen), before, seen, position, first, frame.header,
                  MemberEntries(room, path, rest.key, rest.value, depth), SplitMembers(room, path, rest.rest, depth));
        if !ok { return; }
        rest := rest.rest;
      }
      MembersUnfold(room, path, rest, depth);
      NumberNone(position, value, frame.header);
      return true;
    }

    /** Adds one mapped value: whole, or broken up when it cannot fit an empty delta. */
    method AddValue(sink: Sink, frame: SignalKDeltaFrame, path: string, v: Value) returns (ok: bool)
      requires Ready(frame, sink) && frame.open
      modifies this`items, this`deltas, this`seen, this`value, this`skip, this`frameStart
      modifies sink, frame, frame.out, frame.buffer
      ensures frame.header == old(frame.header)
      ensures Offered(frame, sink, ok, old(seen), old(value),
                      ValueEntries(frame.out.capacity - |frame.header|, path, v))
    {
      hide Fits, Whole, Tracks, Holds, Number, ShortenedEntries, SplitEntries, Join;
      NumberNone(position, value, frame.header);
      var added;
      ok, added := AddOrSplit(sink, frame, path, v.writer);
      if !ok || added { return; }
      match v
      case Single(_) =>
      case Text(_, text) => ok := AddShortenedText(sink, frame, path, text);
      case Composite(_, tree) =>
        if tree.Some? { ok := AddJsonSplit(sink, frame, path, tree.value, 0); }
    }

    /** Values to skip belong to the resumed position only. */
    method Enter(ghost sink: Sink, fieldPosition: nat)
      requires Tracks(sink)
      modifies this`position, this`value, this`skip, this`budget
      ensures Tracks(sink) && position == fieldPosition
      ensures if fieldPosition == old(position) then value == old(value) && skip == old(skip) && budget == old(budget)
              else if fieldPosition == startPosition then value == 0 && skip == old(skip) && budget == old(budget)
              else value == 0 && skip == 0 && budget == Min(old(budget), |seen|)
    {
      hide Flatten, Logged;
      if fieldPosition == position { return; }
      if fieldPosition != startPosition {
        skip := 0;
        budget := Min(budget, |seen|);
      }
      position := fieldPosition;
      value := 0;
    }

    /** Adds the values of one AIS target, each whole or not at all. */
    method AddPlain(sink: Sink, frame: SignalKDeltaFrame, values: seq<(string, ValueWriter)>) returns (ok: bool)
      requires Ready(frame, sink) && frame.open
      modifies this`items, this`deltas, this`seen, this`value, this`skip, this`frameStart
      modifies sink, frame, frame.out, frame.buffer
      ensures frame.header == old(frame.header)
      ensures Offered(frame, sink, ok, old(seen), old(value), PlainEntries(frame.out.capacity - |frame.header|, values))
    {
      hide Fits, Whole, Ready, Stopped, Number, PlainEntries, Join;
      ghost var room := frame.out.capacity - |frame.header|;
      ghost var all := seen + Number(position, value, frame.header, PlainEntries(room, values));
      ghost var total := value + |PlainEntries(room, values)|;
      assert values[0..] == values;
      for i := 0 to |values|
        invariant Ready(frame, sink) && frame.open && frame.header == old(frame.header) && old(seen) <= seen
        invariant seen + Number(position, value, frame.header, PlainEntries(room, values[i..])) == all
        invariant value + |PlainEntries(room, values[i..])| == total
      {
        PlainUnfold(room, values, i);
        ghost var before, first := seen, value;
        var added;
        ok, added := AddOrSplit(sink, frame, values[i].0, values[i].1);
        OfferMore(old(seen), before, seen, position, first, frame.header,
                  WholeOrNothing(room, values[i].0, values[i].1), PlainEntries(room, values[i + 1..]));
        if !ok { return; }
      }
      PlainNone(room, values[|values|..]);
      NumberNone(position, value, frame.header);
      return true;
    }

    method BeginFrame(sink: Sink, frame: SignalKDeltaFrame, context: string, timestamp: string, sourceLabel: string)
      returns (started: bool)
      requires Ready(frame, sink) && !frame.open
      modifies frame, frame.out, frame.buffer
      ensures Ready(frame, sink)
      ensures started == frame.open == (|HeaderText(context, timestamp, sourceLabel)| < frame.out.capacity)
      ensures started ==> frame.header == HeaderText(context, timestamp, sourceLabel)
    {
      hide Tracks, HeaderText, SignalKDeltaFrame.Valid;
      started := frame.Begin(context, timestamp, sourceLabel);
    }

    /** Publishes one AIS target in its own context and closes its last delta. */
    method PublishTarget(sink: Sink, frame: SignalKDeltaFrame, v: View, target: Target) returns (ok: bool)
      requires Ready(frame, sink) && !frame.open
      modifies this`items, this`deltas, this`seen, this`value, this`skip, this`frameStart
      modifies sink, frame, frame.out, frame.buffer
      ensures var header := if target.NoTarget? then "" else v.TargetHeader(target);
              var entries := if target.NoTarget? then [] else TargetEntries(frame.out.capacity, header, target);
              var all := old(seen) + Number(position, old(value), header, entries);
              if ok then Ready(frame, sink) && !frame.open && seen == all
              else Stopped(frame, sink) && old(seen) <= seen <= all
    {
      hide Tracks, Holds, Number, PlainEntries, HeaderText;
      NumberNone(position, value, "");
      if target.NoTarget? { return true; }
      NumberNone(position, value, v.TargetHeader(target));
      var started := BeginFrame(sink, frame, target.context, v.timestamp, v.targetLabel);
      if !started { return true; }
      ok := AddPlain(sink, frame, target.values);
      if !ok { return; }
      ok := Flush(sink, frame);
    }

    lemma HeaderFits(frame: SignalKDeltaFrame)
      requires Holds(frame) && frame.open
      ensures |frame.header| < frame.out.capacity && frame.headerLen > 0
    {
      hide SignalKDeltaFrame.Valid;
      frame.WhenOpen();
    }

    /**
     Makes sure a delta with this source's header is open, if the header fits one
     at all. An open delta is sent if and only if it is another source's or holds
     as many values as a batch may.
     */
    method PrepareFrame(sink: Sink, frame: SignalKDeltaFrame, v: View, source: nat, frameSource: nat)
      returns (ok: bool, started: bool)
      requires Ready(frame, sink) && (frame.open ==> frame.header == v.FieldHeader(frameSource))
      modifies this`items, this`deltas, sink, frame, frame.out, frame.buffer
      ensures !ok ==> Stopped(frame, sink)
      ensures ok ==> Ready(frame, sink) && started == frame.open
      ensures ok && started ==> frame.header == v.FieldHeader(source) && |frame.header| < frame.out.capacity
      ensures ok && !started ==> |v.FieldHeader(source)| >= frame.out.capacity
      ensures ok ==>
                if old(items) != [] && (source != frameSource || |old(items)| >= maxBatchValues)
                then deltas == old(deltas) + [old(items)] && items == []
                else deltas == old(deltas) && items == old(items)
    {
      hide Tracks, HeaderText;
      if frame.open && (source != frameSource || frame.count >= maxBatchValues) {
        ok := Flush(sink, frame);
        if !ok { return false, false; }
      }
      if !frame.open {
        started := BeginFrame(sink, frame, v.context, v.timestamp, v.LabelOf(source));
        return true, started;
      }
      HeaderFits(frame);
      return true, true;
    }

    /** The pass has handled the positions before `p`, as a pass from `c` should. */
    ghost predicate At(frame: SignalKDeltaFrame, sink: Sink, v: View, c: Cursor, p: nat)
      reads this, frame, frame.out, frame.buffer, sink
    {
      var capacity := frame.out.capacity;
      && Ready(frame, sink) && startPosition == c.position <= p && position < p
      && seen == ItemsTo(v, capacity, c.position, p)
      && (if p == c.position then position == 0 && budget == c.value
          else Min(budget, |seen|) == Min(c.value, |ItemsAt(v, capacity, c.position)|))
    }

    /** The sink refused while the pass from `c` was running. */
    ghost predicate Refused(frame: SignalKDeltaFrame, sink: Sink, v: View, c: Cursor)
      reads this, frame, frame.out, frame.buffer, sink
    {
      var capacity := frame.out.capacity;
      && Stopped(frame, sink) && seen <= ItemsFrom(v, capacity, c.position)
      && Min(budget, |seen|) == Min(c.value, |ItemsAt(v, capacity, c.position)|)
    }

    lemma NothingHere(frame: SignalKDeltaFrame, sink: Sink, v: View, c: Cursor, p: nat)
      requires At(frame, sink, v, c, p) && p < v.End() && ItemsAt(v, frame.out.capacity, p) == []
      ensures At(frame, sink, v, c, p + 1)
    {
      hide Tracks, Holds, ItemsAt;
    }

    lemma RefusedBetween(frame: SignalKDeltaFrame, sink: Sink, v: View, c: Cursor, p: nat)
      requires Stopped(frame, sink) && c.position <= p && (p == c.position || p <= v.End())
      requires seen == ItemsTo(v, frame.out.capacity, c.position, p)
      requires p != c.position ==> Min(budget, |seen|) == Min(c.value, |ItemsAt(v, frame.out.capacity, c.position)|)
      ensures Refused(frame, sink, v, c)
    {
      hide ItemsAt, ItemsFrom, Logged, Flatten;
      if c.position <= p <= v.End() { ItemsJoin(v, frame.out.capacity, c.position, p); }
      assert |Flatten(deltas) + items| > 0;
    }

    /** Enters a position and offers its items: what a refusal on the way and a success leave behind. */
    lemma OfferedAt(frame: SignalKDeltaFrame, sink: Sink, v: View, c: Cursor, p: nat, before: seq<Datum>, ok: bool)
      requires c.position <= p < v.End() && startPosition == c.position && position == p
      requires before == ItemsTo(v, frame.out.capacity, c.position, p)
      requires if p == c.position then budget == c.value
               else budget == Min(c.value, |ItemsAt(v, frame.out.capacity, c.position)|) && budget <= |before|
      requires ok ==> Ready(frame, sink) && seen == before + ItemsAt(v, frame.out.capacity, p)
      requires !ok ==> Stopped(frame, sink) && before <= seen <= before + ItemsAt(v, frame.out.capacity, p)
      ensures ok ==> At(frame, sink, v, c, p + 1)
      ensures !ok ==> Refused(frame, sink, v, c)
    {
      hide ItemsAt, ItemsFrom, Logged, Flatten, Holds;
      ItemsToNext(v, frame.out.capacity, c.position, p);
      if !ok {
        assert |Flatten(deltas) + items| > 0;
      }
    }

    method PublishField(sink: Sink, frame: SignalKDeltaFrame, ghost c: Cursor, v: View, p: nat, frameSource: nat)
      returns (ok: bool, nextSource: nat)
      requires At(frame, sink, v, c, p) && 0 < p < v.Base()
      requires frame.open ==> frame.header == v.FieldHeader(frameSource)
      modifies this`position, this`budget, this`items, this`deltas, this`seen, this`value, this`skip, this`frameStart
      modifies sink, frame, frame.out, frame.buffer
      ensures !ok ==> Refused(frame, sink, v, c)
      ensures ok ==> At(frame, sink, v, c, p + 1) && (frame.open ==> frame.header == v.FieldHeader(nextSource))
    {
      hide Holds, Tracks, HeaderText, ItemsTo, ItemsFrom, ValueEntries, Number;
      FieldItems(v, frame.out.capacity, p);
      var field := v.fields[p];
      if field.Hidden? {
        NothingHere(frame, sink, v, c, p);
        return true, frameSource;
      }
      var started;
      ok, started := PrepareFrame(sink, frame, v, field.source, frameSource);
      if !ok {
        RefusedBetween(frame, sink, v, c, p);
        return false, frameSource;
      }
      if !started {
        NothingHere(frame, sink, v, c, p);
        return true, frameSource;
      }
      ghost var before := seen;
      Enter(sink, p);
      ok := AddValue(sink, frame, field.path, field.value);
      OfferedAt(frame, sink, v, c, p, before, ok);
      return ok, field.source;
    }

    method PublishSlot(sink: Sink, frame: SignalKDeltaFrame, ghost c: Cursor, v: View, p: nat) returns (ok: bool)
      requires At(frame, sink, v, c, p) && 0 < p && v.Base() <= p < v.End() && v.sendTargets && !frame.open
      modifies this`position, this`budget, this`items, this`deltas, this`seen, this`value, this`skip, this`frameStart
      modifies sink, frame, frame.out, frame.buffer
      ensures !ok ==> Refused(frame, sink, v, c)
      ensures ok ==> At(frame, sink, v, c, p + 1) && !frame.open
    {
      hide Holds, Tracks, HeaderText, ItemsTo, ItemsFrom, TargetEntries, Number;
      TargetItems(v, frame.out.capacity, p);
      NumberNone(p, 0, "");
      ghost var before := seen;
      Enter(sink, p);
      ok := PublishTarget(sink, frame, v, v.targets[p - v.Base()]);
      OfferedAt(frame, sink, v, c, p, before, ok);
    }

    method PublishFields(sink: Sink, frame: SignalKDeltaFrame, c: Cursor, v: View) returns (ok: bool)
      requires At(frame, sink, v, c, c.position) && 0 < c.position && !frame.open
      modifies this`position, this`budget, this`items, this`deltas, this`seen, this`value, this`skip, this`frameStart
      modifies sink, frame, frame.out, frame.buffer
      ensures !ok ==> Refused(frame, sink, v, c)
      ensures ok ==> At(frame, sink, v, c, if c.position < v.Base() then v.Base() else c.position)
      ensures ok ==> !frame.open && items == []
    {
      hide Holds, Tracks, HeaderText, ItemsTo, ItemsFrom, ItemsAt;
      var p, frameSource := c.position, 0;
      while p < v.Base()
        invariant p == c.position || p <= v.Base()
        invariant At(frame, sink, v, c, p) && (frame.open ==> frame.header == v.FieldHeader(frameSource))
      {
        ok, frameSource := PublishField(sink, frame, c, v, p, frameSource);
        if !ok { return; }
        p := p + 1;
      }
      ok := Flush(sink, frame);
      if !ok { RefusedBetween(frame, sink, v, c, p); }
    }

    method PublishTargets(sink: Sink, frame: SignalKDeltaFrame, c: Cursor, v: View, first: nat) returns (ok: bool)
      requires At(frame, sink, v, c, first) && 0 < first && v.Base() <= first && v.sendTargets && !frame.open
      modifies this`position, this`budget, this`items, this`deltas, this`seen, this`value, this`skip, this`frameStart
      modifies sink, frame, frame.out, frame.buffer
      ensures !ok ==> Refused(frame, sink, v, c)
      ensures ok ==> At(frame, sink, v, c, if first < v.End() then v.End() else first) && !frame.open
    {
      hide Holds, Tracks, HeaderText, ItemsTo, ItemsFrom, ItemsAt;
      var p := first;
      while p < v.End()
        invariant first <= p && (p == first || p <= v.End())
        invariant At(frame, sink, v, c, p) && !frame.open
      {
        ok := PublishSlot(sink, frame, c, v, p);
        if !ok { return; }
        p := p + 1;
      }
      return true;
    }

    lemma PassDone(frame: SignalKDeltaFrame, sink: Sink, v: View, c: Cursor, p: nat)
      requires At(frame, sink, v, c, p) && !frame.open && 0 < c.position
      requires p >= v.End() || (!v.sendTargets && p >= v.Base())
      requires p == c.position || p <= v.End()
      ensures PassSpec(v, frame.out.capacity, c, Flatten(deltas), true, Cursor(0, 0))
    {
      hide ItemsAt, ItemsFrom, After, Flatten, Logged, SignalKDeltaFrame.Valid;
      var capacity := frame.out.capacity;
      AfterValue(v, capacity, c);
      ItemsUnfold(v, capacity, p);
      if p < v.End() { NoTargets(v, capacity, p); }
      if p <= v.End() { ItemsJoin(v, capacity, c.position, p); }
      assert seen == ItemsFrom(v, capacity, c.position);
      assert Flatten(deltas) + items == Flatten(deltas);
    }

    lemma PassRefused(frame: SignalKDeltaFrame, sink: Sink, v: View, c: Cursor)
      requires Refused(frame, sink, v, c)
      ensures PassSpec(v, frame.out.capacity, c, Flatten(deltas), false, frameStart)
      ensures items <= After(v, frame.out.capacity, frameStart)
    {
      hide ItemsAt, ItemsFrom, Flatten, Logged, PassSpec, After, TextOf, Takes;
      StoppedPass(v, frame.out.capacity, c, seen, Flatten(deltas), items);
    }

    function JsonCapacity(configured: nat): nat {
      Min(configured, json.Length)
    }

    method StartPass(sink: Sink, c: Cursor)
      modifies this
      ensures startPosition == c.position && position == 0 && value == 0 && skip == budget == c.value && frameStart == c
      ensures seen == [] && items == [] && deltas == [] && firstRoom == sink.room && firstLog == sink.log
    {
      startPosition, position, value, skip, frameStart := c.position, 0, 0, c.value, c;
      seen, budget, items, deltas, firstRoom, firstLog := [], c.value, [], [], sink.room, sink.log;
    }

    lemma PassStarted(frame: SignalKDeltaFrame, sink: Sink, c: Cursor, v: View)
      requires frame.Valid() && !frame.open && frame.buffer == json && 0 < c.position
      requires startPosition == c.position && position == 0 && skip == budget == c.value
      requires seen == [] && items == [] && deltas == [] && firstRoom == sink.room && firstLog == sink.log
      ensures At(frame, sink, v, c, c.position)
    {
      hide SignalKDeltaFrame.Valid, ItemsAt;
      assert Flatten(deltas) == [];
    }

    lemma LogOfPass(frame: SignalKDeltaFrame, sink: Sink, v: View, c: Cursor, p: nat)
      requires At(frame, sink, v, c, p) || Refused(frame, sink, v, c)
      ensures Logged(firstLog, deltas, sink.log)
      ensures Refused(frame, sink, v, c) && sink.willing ==>
                deltas != [] || !Takes(sink.kind, firstRoom, TextOf(items))
      ensures Refused(frame, sink, v, c) ==>
                frame.out.capacity > 0 && IsDelta(items) && |TextOf(items)| < frame.out.capacity + TRAILER_LEN
      ensures sink.Sized(|firstLog|) && sink.Spent(firstLog, firstRoom)
    {
      hide Flatten, Logged, ItemsAt, ItemsFrom, ItemsTo;
    }

    /**
     Sends the current model as deltas, from `cursor` on. The `clock` may fail to
     give a timestamp; then, as with an empty buffer, nothing is sent.
     */
    method PublishCurrent(sink: Sink, configured: nat, clock: bool, v: View, cursor: Cursor)
      returns (complete: bool, next: Cursor)
      requires 0 < v.Base()
      modifies this, sink, json
      ensures Logged(old(sink.log), deltas, sink.log)
      ensures if JsonCapacity(configured) == 0 || !clock then complete && next == cursor && deltas == []
              else PassSpec(v, DeltaRoom(JsonCapacity(configured)), Started(cursor), Flatten(deltas), complete, next)
      ensures !complete ==>
                && IsDelta(items) && items <= After(v, DeltaRoom(JsonCapacity(configured)), next)
                && |TextOf(items)| < JsonCapacity(configured)
      ensures !complete && sink.willing ==> deltas != [] || !Takes(sink.kind, old(sink.room), TextOf(items))
      ensures sink.Sized(|old(sink.log)|) && sink.Spent(old(sink.log), old(sink.room))
    {
      hide Takes, TextLength, TextOf, IsDelta, After, At, Refused, Logged, Flatten, PassSpec;
      deltas := [];
      LoggedNone(sink.log);
      SpentNone(sink.kind, sink.log);
      var capacity := JsonCapacity(configured);
      if capacity == 0 || !clock { return true, cursor; }
      var c := Started(cursor);
      var frame := new SignalKDeltaFrame(json, capacity);
      StartPass(sink, c);
      PassStarted(frame, sink, c, v);
      var ok := PublishFields(sink, frame, c, v);
      var p := if c.position < v.Base() then v.Base() else c.position;
      if ok && v.sendTargets {
        ok := PublishTargets(sink, frame, c, v, p);
        if p < v.End() { p := v.End(); }
      }
      LogOfPass(frame, sink, v, c, p);
      if !ok {
        PassRefused(frame, sink, v, c);
        return false, frameStart;
      }
      PassDone(frame, sink, v, c, p);
      return true, Cursor(0, 0);
    }

    /** What offering a list of entries does: all of them were seen, or the sink refused on the way. */
    ghost predicate Offered(frame: SignalKDeltaFrame, sink: Sink, ok: bool, before: seq<Datum>, count: nat,
                            entries: seq<string>)
      reads this, frame, frame.out, frame.buffer, sink
    {
      var all := before + Number(position, count, frame.header, entries);
      if ok then Ready(frame, sink) && frame.open && seen == all && value == count + |entries|
      else Stopped(frame, sink) && before <= seen <= all
    }
  }

  /** The next length to try for a text that does not fit. */
  method Shorten(text: string, len: nat) returns (n: nat)
    requires 0 < len <= |text|
    ensures n == Shorter(text, len)
  {
    n := if len > 16 then len - len / 4 else len - 1;
    while n > 0 && IsContinuation(text[n])
      invariant n < len && Boundary(text, n) == Shorter(text, len)
    {
      n := n - 1;
    }
  }

  lemma NumberNone(position: nat, first: nat, header: string)
    ensures Number(position, first, header, []) == []
  {}

  /** Offering the first entries and then the rest is offering all of them. */
  lemma OfferMore(start: seq<Datum>, before: seq<Datum>, seen: seq<Datum>, position: nat, first: nat, header: string,
                  here: seq<string>, rest: seq<string>)
    ensures var a, b := Number(position, first, header, here), Number(position, first + |here|, header, rest);
            var all := before + Number(position, first, header, here + rest);
            before + a + b == all && (start <= before <= seen <= before + a ==> start <= seen <= all)
  {
    hide Number;
    NumberAppend(position, first, header, here, rest);
    var a, b := Number(position, first, header, here), Number(position, first + |here|, header, rest);
    assert before + a + b == before + (a + b);
  }

  lemma NumberAppend(position: nat, first: nat, header: string, a: seq<string>, b: seq<string>)
    ensures Number(position, first, header, a + b) ==
            Number(position, first, header, a) + Number(position, first + |a|, header, b)
  {}

  lemma LoggedNext(before: seq<string>, deltas: seq<seq<Datum>>, log: seq<string>, items: seq<Datum>)
    requires Logged(before, deltas, log) && IsDelta(items)
    ensures Logged(before, deltas + [items], log + [TextOf(items)])
  {
    hide TextOf;
  }

  lemma SpentNext(kind: Kind, before: seq<string>, log: seq<string>, delta: string)
    requires before <= log
    ensures |Wire(kind, (log + [delta])[|before|..])| == |Wire(kind, log[|before|..])| + |Framed(kind, delta)|
  {
    hide Framed;
    assert (log + [delta])[|before|..] == log[|before|..] + [delta];
    var more := log[|before|..] + [delta];
    assert more[..|more| - 1] == log[|before|..];
  }

  lemma SpentNone(kind: Kind, log: seq<string>)
    ensures Wire(kind, log[|log|..]) == ""
  {}

  lemma LoggedNone(log: seq<string>)
    ensures Logged(log, [], log)
  {}

  /** The room for header and values in a buffer of the given size. */
  function DeltaRoom(size: nat): nat {
    if size > TRAILER_LEN then size - TRAILER_LEN else 0
  }

  /** An entry that fits beside others fits alone. */
  lemma RoomFor(header: string, entries: seq<string>, e: string, capacity: nat)
    ensures |header + Join(entries + [e])| < capacity ==> |e| < capacity - |header|
    ensures entries == [] && |e| < capacity - |header| ==> |header + Join(entries + [e])| < capacity
  {
    JoinNext(entries, e);
  }

  lemma FlattenNext(deltas: seq<seq<Datum>>, items: seq<Datum>)
    ensures Flatten(deltas + [items]) == Flatten(deltas) + items
  {
    assert (deltas + [items])[..|deltas|] == deltas;
  }
}
