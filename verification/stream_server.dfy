/**
 A stream client's side of catch-up: how much room its output queue has, and
 how requests and pumps of the resumable snapshot change its delivery state.
 */
module StreamServer {
  import opened JsonText
  import opened DeltaFrame
  import opened Frames
  import opened Publisher
  import opened Snapshot
  import CatchUp

  /**
   The sizes that bound deltas and a client's output queue: the configured JSON
   buffer and its cap, and the configured queue limit and the high-water mark,
   where zero means no limit.
   */
  datatype Limits = Limits(jsonBufferSize: nat, maxJson: nat, maxClientQueue: nat, highWater: nat)

  /** Free space for whole frames when `used` of the transport's `outputCapacity` bytes are queued. */
  function FrameRoom(l: Limits, outputCapacity: nat, used: nat): nat {
    var minQueue := l.jsonBufferSize + 16;
    var configured := if l.maxClientQueue != 0 && l.maxClientQueue < minQueue then minQueue else l.maxClientQueue;
    var wanted := if configured != 0 then configured else l.highWater;
    var queueLimit := if l.highWater != 0 && l.highWater < wanted then l.highWater else wanted;
    var limit := if queueLimit != 0 && queueLimit < outputCapacity then queueLimit else outputCapacity;
    if used >= limit then 0 else limit - used
  }

  /**
   The queue stays within the transport's buffer, a high-water mark, and the
   configured limit, which is never below the JSON buffer and 16 bytes.
   */
  predicate WithinLimits(l: Limits, outputCapacity: nat, queued: nat) {
    && queued <= outputCapacity
    && (l.highWater != 0 ==> queued <= l.highWater)
    && (l.maxClientQueue != 0 ==> queued <= l.maxClientQueue || queued <= l.jsonBufferSize + 16)
  }

  /** A frame has room if and only if the queue stays within its limits with it. */
  lemma RoomIffWithin(l: Limits, outputCapacity: nat, used: nat, size: nat)
    requires size > 0
    ensures size <= FrameRoom(l, outputCapacity, used) <==> WithinLimits(l, outputCapacity, used + size)
  {}

  /**
   An empty queue has room for every frame of up to `size` bytes (a whole delta
   and its WebSocket header are at most the JSON buffer and 16 bytes more)
   exactly when neither the transport nor the high-water mark is smaller. The
   configured queue limit alone can never be what refuses it.
   */
  lemma EmptyQueueTakesFrame(l: Limits, outputCapacity: nat, size: nat)
    requires size <= l.jsonBufferSize + 16
    ensures FrameRoom(l, outputCapacity, 0) >= size <==>
            outputCapacity >= size && (l.highWater == 0 || l.highWater >= size)
  {}

  /** The two builds fix the cap of the JSON buffer, the high-water mark and the transport's buffer. */
  datatype Build = Embedded | Server

  function LimitsOf(build: Build, jsonBufferSize: nat, maxClientQueue: nat): Limits {
    match build
    case Embedded => Limits(jsonBufferSize, 384, maxClientQueue, 768)
    case Server => Limits(jsonBufferSize, 1024, maxClientQueue, 32768)
  }

  /** The embedded transport has a fixed buffer; the other one has no limit of its own. */
  predicate Holds(build: Build, outputCapacity: nat) {
    if build.Embedded? then outputCapacity == 1024 else outputCapacity >= 65536
  }

  /** In both builds, whatever is configured, an empty queue takes a whole delta and a WebSocket header. */
  lemma EmptyQueueTakesDelta(build: Build, jsonBufferSize: nat, maxClientQueue: nat, outputCapacity: nat)
    requires Holds(build, outputCapacity)
    ensures var l := LimitsOf(build, jsonBufferSize, maxClientQueue);
            FrameRoom(l, outputCapacity, 0) >= Min(jsonBufferSize, l.maxJson) + 16
    ensures maxClientQueue == 0 ==>
              FrameRoom(LimitsOf(build, jsonBufferSize, 0), outputCapacity, 0) == if build.Embedded? then 768 else 32768
  {
    var l := LimitsOf(build, jsonBufferSize, maxClientQueue);
    EmptyQueueTakesFrame(l, outputCapacity, Min(jsonBufferSize, l.maxJson) + 16);
  }

  /** A buffer of `size` bytes makes no delta that is too long for the client's frames. */
  predicate SmallDeltas(kind: Kind, size: nat) {
    kind.WebSocket? ==> size <= 515
  }

  /** A client: the bytes queued for it, the transport's buffer size, and how its deltas are framed. */
  class Connection {
    var output: string
    const outputCapacity: nat
    const kind: Kind

    constructor (outputCapacity: nat, kind: Kind)
      ensures output == "" && this.outputCapacity == outputCapacity && this.kind == kind
    {
      output, this.outputCapacity, this.kind := "", outputCapacity, kind;
    }

    /** The transport has sent everything that was queued. */
    method Drain()
      modifies this
      ensures output == ""
    {
      output := "";
    }
  }

  /** `StreamDeliveryState`: whether the client is being caught up, and where its snapshot continues. */
  class StreamDeliveryState {
    var resync: bool
    var again: bool
    var cursor: Cursor
    var others: bool

    constructor (others: bool)
      ensures !resync && !again && cursor == Cursor(0, 0) && this.others == others
    {
      resync, again, cursor, this.others := false, false, Cursor(0, 0), others;
    }

    /** The flags and the cursor are those of the catch-up protocol's client `c`. */
    ghost predicate Shows(c: CatchUp.Client)
      reads this
    {
      c.resync == resync && c.again == again && c.cursor == cursor && c.others == others
    }

    /** A request while a pass is running makes another full pass follow it. */
    method RequestResync(ghost c: CatchUp.Client)
      requires Shows(c)
      modifies this
      ensures Shows(CatchUp.RequestResync(c))
    {
      if resync {
        again := true;
        return;
      }
      resync, again, cursor := true, false, Cursor(0, 0);
    }

    /**
     Continues this client's snapshot pass over the part of the model in its
     scope. Only whole deltas are queued. The
     pass finishes, or stops at a delta the client does not take now.
     */
    method PumpOne(publisher: SignalKPublisher, connection: Connection, l: Limits, clock: bool, v: View)
      requires 0 < v.Base() && v.sendTargets == others
      modifies this, publisher, publisher.json, connection
      ensures !old(resync) ==> connection.output == old(connection.output) && cursor == old(cursor)
      ensures !old(resync) ==> !resync && again == old(again)
      ensures old(resync) ==>
                exists complete, next :: Pumped(publisher, l, clock, v, old(cursor), old(again), complete, next)
      ensures old(resync) ==> exists log :: Queued(publisher, connection, log, old(connection.output))
      ensures old(resync) && !Finished(old(again)) ==>
                Waiting(publisher, connection, l, v, |old(connection.output)|)
      ensures connection.output == old(connection.output) ||
              WithinLimits(l, connection.outputCapacity, |connection.output|)
      ensures others == old(others)
    {
      hide Logged, Takes, FrameRoom, PassSpec, Flatten, Wire, TextLength, TextOf, IsDelta, After;
      if !resync { return; }
      var room := FrameRoom(l, connection.outputCapacity, |connection.output|);
      var sink := new Sink(connection.kind, room, true, false);
      var complete, next := publisher.PublishCurrent(sink, l.jsonBufferSize, clock, v, cursor);
      assert sink.log[0..] == sink.log;
      ghost var added := |Wire(connection.kind, sink.log)|;
      if added > 0 { RoomIffWithin(l, connection.outputCapacity, |connection.output|, added); }
      connection.output := connection.output + Wire(connection.kind, sink.log);
      assert added == 0 ==> connection.output == old(connection.output);
      if !complete { StopsLater(v, DeltaRoom(publisher.JsonCapacity(l.jsonBufferSize)), cursor, publisher, next); }
      cursor := next;
      if complete {
        if again {
          again, cursor := false, Cursor(0, 0);
        } else {
          resync := false;
        }
      }
      assert Pumped(publisher, l, clock, v, old(cursor), old(again), complete, next);
      assert Queued(publisher, connection, sink.log, old(connection.output));
    }

    /**
     The pass stopped at the delta in `publisher.items`, which holds the next
     values; if it is the first one, the client did not take it with `used` bytes
     queued.
     */
    ghost predicate Waiting(publisher: SignalKPublisher, connection: Connection, l: Limits, v: View, used: nat)
      reads `cursor, publisher
    {
      var size := publisher.JsonCapacity(l.jsonBufferSize);
      && IsDelta(publisher.items) && publisher.items <= After(v, DeltaRoom(size), Started(cursor))
      && |TextOf(publisher.items)| < size
      && (publisher.deltas == [] ==>
            !Takes(connection.kind, FrameRoom(l, connection.outputCapacity, used), TextOf(publisher.items)))
    }

    /** A pass has just been completed. */
    ghost predicate Finished(wasAgain: bool)
      reads this
    {
      if wasAgain then resync && !again && cursor == Cursor(0, 0) else !resync
    }

    /**
     The state after a pass that started at `from`: a finished pass clears the
     flags, another one stores its cursor.
     */
    ghost predicate Pumped(publisher: SignalKPublisher, l: Limits, clock: bool, v: View, from: Cursor, wasAgain: bool,
                           complete: bool, next: Cursor)
      reads this, publisher
    {
      var capacity := publisher.JsonCapacity(l.jsonBufferSize);
      && (if capacity == 0 || !clock then complete && next == from && publisher.deltas == []
          else PassSpec(v, DeltaRoom(capacity), Started(from), Flatten(publisher.deltas), complete, next))
      && (if !complete then resync && again == wasAgain && cursor == next
          else Finished(wasAgain) && !again && (wasAgain || cursor == next))
    }
  }

  /** The texts of the delivered deltas, which are in the client's queue as whole frames. */
  ghost predicate Queued(publisher: SignalKPublisher, connection: Connection, log: seq<string>, before: string)
    reads publisher, connection
  {
    && Logged([], publisher.deltas, log) && connection.output == before + Wire(connection.kind, log)
    && (connection.kind.WebSocket? ==> forall i :: 0 <= i < |log| ==> TextLength(log[i]) <= CHUNK_SIZE)
  }

  lemma StopsLater(v: View, room: nat, from: Cursor, publisher: SignalKPublisher, next: Cursor)
    requires PassSpec(v, room, Started(from), Flatten(publisher.deltas), false, next)
    ensures Started(next) == next
  {
    hide After, Flatten, ItemsAt;
  }

  lemma DeltasHoldItems(before: seq<string>, deltas: seq<seq<Datum>>, log: seq<string>)
    requires Logged(before, deltas, log) && deltas != []
    ensures Flatten(deltas) != []
  {
    assert IsDelta(deltas[|deltas| - 1]);
  }

  /** At least one pump is needed, and at most one for every item still to be delivered. */
  function PumpLimit(items: seq<Datum>): nat {
    if items == [] then 1 else |items|
  }

  /**
   A client whose queue drains between pumps: its catch-up finishes within as
   many pumps as there are values still to deliver, and for a requested second
   pass as many as there are values at all. What it is sent are exactly these
   values, in order. A WebSocket client needs a JSON buffer that makes no delta
   longer than a frame.
   */
  method CatchUpCycle(state: StreamDeliveryState, publisher: SignalKPublisher, connection: Connection, build: Build,
                      jsonBufferSize: nat, maxClientQueue: nat, v: View)
    returns (ghost pumps: nat, ghost sent: seq<Datum>)
    requires 0 < v.Base() && v.sendTargets == state.others && Holds(build, connection.outputCapacity)
    requires publisher.json.Length == LimitsOf(build, jsonBufferSize, maxClientQueue).maxJson && 0 < jsonBufferSize
    requires SmallDeltas(connection.kind, publisher.JsonCapacity(jsonBufferSize))
    modifies state, publisher, publisher.json, connection
    ensures !state.resync
    ensures var room := DeltaRoom(publisher.JsonCapacity(jsonBufferSize));
            var first, second := After(v, room, Started(old(state.cursor))), After(v, room, Cursor(1, 0));
            if !old(state.resync) then pumps == 0 && sent == []
            else if old(state.again) then pumps <= PumpLimit(first) + PumpLimit(second) && sent == first + second
            else pumps <= PumpLimit(first) && sent == first
  {
    hide After, Logged, Flatten, FrameRoom;
    var l := LimitsOf(build, jsonBufferSize, maxClientQueue);
    EmptyQueueTakesDelta(build, jsonBufferSize, maxClientQueue, connection.outputCapacity);
    pumps, sent := 0, [];
    if state.again && state.resync { pumps, sent := CatchUpPass(state, publisher, connection, l, v); }
    if state.resync {
      ghost var more, rest := CatchUpPass(state, publisher, connection, l, v);
      pumps, sent := pumps + more, sent + rest;
    }
  }

  /** Pumps until the pass in progress is complete, which is when another requested one starts over. */
  method CatchUpPass(state: StreamDeliveryState, publisher: SignalKPublisher, connection: Connection, l: Limits,
                     v: View)
    returns (ghost pumps: nat, ghost sent: seq<Datum>)
    requires 0 < v.Base() && v.sendTargets == state.others && state.resync &&
             0 < publisher.JsonCapacity(l.jsonBufferSize)
    requires TakesUpTo(connection.kind, FrameRoom(l, connection.outputCapacity, 0),
                       publisher.JsonCapacity(l.jsonBufferSize) - 1)
    modifies state, publisher, publisher.json, connection
    ensures state.others == old(state.others)
    ensures state.resync == old(state.again) && !state.again && (state.resync ==> state.cursor == Cursor(0, 0))
    ensures sent == After(v, DeltaRoom(publisher.JsonCapacity(l.jsonBufferSize)), Started(old(state.cursor)))
    ensures pumps <= PumpLimit(sent)
  {
    hide After, Logged, Flatten, FrameRoom, TakesUpTo, Takes, TextOf;
    ghost var room := DeltaRoom(publisher.JsonCapacity(l.jsonBufferSize));
    ghost var start := Started(state.cursor);
    pumps, sent := 0, [];
    var going := true;
    while going
      invariant state.others == old(state.others)
      invariant going ==> state.resync && state.again == old(state.again)
      invariant going ==> sent + After(v, room, Started(state.cursor)) == After(v, room, start) && pumps <= |sent|
      invariant going && pumps > 0 ==> After(v, room, Started(state.cursor)) != []
      invariant !going ==> state.resync == old(state.again) && !state.again
      invariant !going && state.resync ==> state.cursor == Cursor(0, 0)
      invariant !going ==> sent == After(v, room, start) && pumps <= PumpLimit(sent)
      decreases going, |After(v, room, start)| - |sent|
    {
      connection.Drain();
      var complete := PumpTaken(state, publisher, connection, l, v);
      pumps := pumps + 1;
      sent := sent + Flatten(publisher.deltas);
      going := !complete;
    }
  }

  /** If the client takes frames of the buffer's size, the pump completes the pass or delivers something. */
  method PumpTaken(state: StreamDeliveryState, publisher: SignalKPublisher, connection: Connection, l: Limits, v: View)
    returns (complete: bool)
    requires 0 < v.Base() && v.sendTargets == state.others && state.resync && connection.output == "" &&
             0 < publisher.JsonCapacity(l.jsonBufferSize)
    requires TakesUpTo(connection.kind, FrameRoom(l, connection.outputCapacity, 0),
                       publisher.JsonCapacity(l.jsonBufferSize) - 1)
    modifies state, publisher, publisher.json, connection
    ensures state.others == old(state.others)
    ensures var room := DeltaRoom(publisher.JsonCapacity(l.jsonBufferSize));
            var before, sent := After(v, room, Started(old(state.cursor))), Flatten(publisher.deltas);
            if complete then sent == before && !state.again && state.resync == old(state.again) &&
                             (state.resync ==> state.cursor == Cursor(0, 0))
            else && sent != [] && state.resync && state.again == old(state.again)
                 && After(v, room, Started(state.cursor)) != []
                 && sent + After(v, room, Started(state.cursor)) == before
  {
    hide After, Flatten, FrameRoom, TakesUpTo, Takes, TextOf, IsDelta;
    complete := PumpOnce(state, publisher, connection, l, v);
    if !complete { TakesWaiting(connection.kind, l, connection.outputCapacity, publisher); }
  }

  lemma TakesWaiting(kind: Kind, l: Limits, outputCapacity: nat, publisher: SignalKPublisher)
    requires var size := publisher.JsonCapacity(l.jsonBufferSize);
             && 0 < size && TakesUpTo(kind, FrameRoom(l, outputCapacity, 0), size - 1)
             && IsDelta(publisher.items) && |TextOf(publisher.items)| < size
    ensures Takes(kind, FrameRoom(l, outputCapacity, 0), TextOf(publisher.items))
  {
    hide DeltaText, FrameRoom;
    var items := publisher.items;
    TakesDelta(kind, FrameRoom(l, outputCapacity, 0), publisher.JsonCapacity(l.jsonBufferSize) - 1,
               items[0].header, EntriesOf(items));
  }

  /** A client with room for every delta refuses one exactly when its text is too long for a WebSocket frame. */
  lemma RefusedIffLong(kind: Kind, room: nat, size: nat, items: seq<Datum>)
    requires IsDelta(items) && |TextOf(items)| <= size && size + 2 <= room
    ensures !Takes(kind, room, TextOf(items)) <==> kind.WebSocket? && |TextOf(items)| > 514
  {
    hide TextLength, DeltaText;
    DeltaEnd(items[0].header, EntriesOf(items));
  }

  /**
   One pump into an empty queue: it completes the pass, or delivers something,
   or the first delta it builds is one the client never takes.
   */
  method PumpOnce(state: StreamDeliveryState, publisher: SignalKPublisher, connection: Connection, l: Limits, v: View)
    returns (complete: bool)
    requires 0 < v.Base() && v.sendTargets == state.others && state.resync && connection.output == "" &&
             0 < publisher.JsonCapacity(l.jsonBufferSize)
    modifies state, publisher, publisher.json, connection
    ensures state.others == old(state.others)
    ensures var room := DeltaRoom(publisher.JsonCapacity(l.jsonBufferSize));
            var before, sent := After(v, room, Started(old(state.cursor))), Flatten(publisher.deltas);
            if complete then sent == before && !state.again && state.resync == old(state.again) &&
                             (state.resync ==> state.cursor == Cursor(0, 0))
            else && state.resync && state.again == old(state.again)
                 && state.Waiting(publisher, connection, l, v, 0) && (sent == [] ==> publisher.deltas == [])
                 && After(v, room, Started(state.cursor)) != []
                 && sent + After(v, room, Started(state.cursor)) == before
  {
    hide After, Logged, Flatten, FrameRoom, ItemsAt, Takes, Wire, TextLength, TextOf;
    ghost var from := state.cursor;
    var again := state.again;
    state.PumpOne(publisher, connection, l, true, v);
    ghost var done: bool, next: Cursor :| state.Pumped(publisher, l, true, v, from, again, done, next);
    ghost var log :| Queued(publisher, connection, log, "");
    if publisher.deltas != [] { DeltasHoldItems([], publisher.deltas, log); }
    FlattenEmpty(publisher.deltas);
    complete := !state.resync || (again && !state.again);
  }

  // ----- Deltas too long for a WebSocket frame -----

  /** The next value still to be delivered makes a delta that is too long for one frame, even on its own. */
  predicate TooLong(v: View, room: nat, c: Cursor) {
    var items := After(v, room, c);
    items != [] && |DeltaText(items[0].header, [items[0].entry])| > 514
  }

  lemma {:induction false} JoinHolds(entries: seq<string>)
    requires entries != []
    ensures |Join(entries)| >= |Join([entries[0]])| == |entries[0]|
  {
    var n := |entries| - 1;
    assert [entries[0]][..0] == [];
    if n == 0 {
      assert entries == [entries[0]];
    } else {
      JoinHolds(entries[..n]);
    }
  }

  lemma {:induction false} FlattenFirst(deltas: seq<seq<Datum>>)
    requires deltas != [] && deltas[0] != []
    ensures Flatten(deltas) != [] && Flatten(deltas)[0] == deltas[0][0]
  {
    var n := |deltas| - 1;
    if n == 0 { assert deltas[..0] == []; } else { FlattenFirst(deltas[..n]); }
  }

  /** A pass stops before such a value and delivers nothing. */
  lemma PassStuck(v: View, room: nat, from: Cursor, deltas: seq<seq<Datum>>, log: seq<string>, complete: bool,
                  next: Cursor)
    requires TooLong(v, room, from) && PassSpec(v, room, from, Flatten(deltas), complete, next)
    requires Logged([], deltas, log) && forall i :: 0 <= i < |log| ==> TextLength(log[i]) <= CHUNK_SIZE
    ensures deltas == [] && !complete && TooLong(v, room, next)
  {
    hide After, ItemsAt, TextLength, Join, Flatten;
    if deltas != [] {
      var delta := deltas[0];
      assert log[0] == TextOf(delta);
      DeltaEnd(delta[0].header, EntriesOf(delta));
      JoinHolds(EntriesOf(delta));
      FlattenFirst(deltas);
    }
    FlattenEmpty(deltas);
    assert [] + After(v, room, next) == After(v, room, next);
  }

  lemma FlattenEmpty(deltas: seq<seq<Datum>>)
    ensures deltas == [] ==> Flatten(deltas) == []
  {}

  /** Then the client stays in catch-up however often it is pumped, even with an empty queue, and is sent nothing. */
  method StuckCycle(state: StreamDeliveryState, publisher: SignalKPublisher, connection: Connection, l: Limits, v: View,
                    n: nat)
    requires 0 < v.Base() && v.sendTargets == state.others && state.resync && connection.kind.WebSocket? &&
             0 < publisher.JsonCapacity(l.jsonBufferSize)
    requires TooLong(v, DeltaRoom(publisher.JsonCapacity(l.jsonBufferSize)), Started(state.cursor))
    modifies state, publisher, publisher.json, connection
    ensures state.resync && (n > 0 ==> connection.output == "")
    ensures TooLong(v, DeltaRoom(publisher.JsonCapacity(l.jsonBufferSize)), Started(state.cursor))
  {
    hide After, Logged, Flatten, FrameRoom, ItemsAt, TakesUpTo, TextLength, TooLong;
    ghost var room := DeltaRoom(publisher.JsonCapacity(l.jsonBufferSize));
    for i := 0 to n
      invariant state.resync && TooLong(v, room, Started(state.cursor)) && (i > 0 ==> connection.output == "")
      invariant state.others == old(state.others)
    {
      connection.Drain();
      ghost var from, again := state.cursor, state.again;
      state.PumpOne(publisher, connection, l, true, v);
      ghost var complete: bool, next: Cursor :| state.Pumped(publisher, l, true, v, from, again, complete, next);
      ghost var log :| Queued(publisher, connection, log, "");
      PassStuck(v, room, Started(from), publisher.deltas, log, complete, next);
      LoggedNothing(log);
    }
  }

  lemma LoggedNothing(log: seq<string>)
    ensures Logged([], [], log) ==> log == []
  {}

  function Letters(n: nat): string {
    if n == 0 then "" else Letters(n - 1) + "a"
  }

  lemma {:induction false} LettersQuoted(n: nat)
    ensures |Letters(n)| == n && |Quote(Letters(n))| == n + 2
  {
    PlainQuote(Letters(n));
    LettersPlain(n);
  }

  lemma {:induction false} LettersPlain(n: nat)
    ensures |Letters(n)| == n && forall i :: 0 <= i < n ==> Letters(n)[i] == 'a'
  {
    if n > 0 { LettersPlain(n - 1); }
  }

  lemma {:induction false} PlainQuote(s: string)
    ensures (forall i :: 0 <= i < |s| ==> s[i] == 'a') ==> |Escape(s)| == |s|
  {
    if s != "" { PlainQuote(s[1..]); }
  }

  lemma HeaderSize()
    ensures |HeaderText("", "", "")| <= 7 * 30 && |EntryText("p", "")| <= 30
  {
    assert |Quote("p")| == 3 by { assert Escape("p") == "p" + ""; }
    var parts := ["{\"context\":", Quote(""), ",\"updates\":[{\"timestamp\":", Quote(""),
                  ",\"source\":{\"label\":", Quote(""), "},\"values\":["];
    assert HeaderText("", "", "") == Concat(parts);
    assert |Quote("")| == 2;
    ConcatSize(parts, 30);
    assert |parts| == 7;
  }

  lemma {:induction false} ConcatSize(parts: seq<string>, most: nat)
    requires forall i :: 0 <= i < |parts| ==> |parts[i]| <= most
    ensures |Concat(parts)| <= |parts| * most
  {
    if parts != [] {
      ConcatSize(parts[1..], most);
      assert |parts| * most == |parts[1..]| * most + most;
    }
  }

  /** The model with one text of `n` letters. */
  function OneText(n: nat): View {
    View("", "", [], "", [Hidden, Field(0, "p", Text(Quoted(Letters(n)), Letters(n)))], false, "", [])
  }

  /**
   Every larger JSON buffer can make such a delta. So a WebSocket client always
   leaves catch-up if and only if the buffer makes small deltas.
   */
  lemma LargeBufferStuck(size: nat) returns (v: View)
    requires !SmallDeltas(WebSocket, size)
    ensures 0 < v.Base() && TooLong(v, DeltaRoom(size), Started(Cursor(0, 0)))
  {
    hide HeaderText, Quote, Join, After, ItemsFrom, ItemsAt, Number, Letters, ValueEntries;
    HeaderSize();
    var room, header := DeltaRoom(size), HeaderText("", "", "");
    var n := 515 - TRAILER_LEN - |header| - |EntryText("p", "")| - 2;
    v := OneText(n);
    var entry := OneTextEntry(n);
    assert v.FieldHeader(0) == header;
    OneValue(room - |header|, n);
    FieldItems(v, room, 1);
    ItemsUnfold(v, room, 1);
    AfterValue(v, room, Cursor(1, 0));
    OneEntry(header, entry);
  }

  lemma OneTextEntry(n: nat) returns (entry: string)
    ensures entry == Whole("p", Quoted(Letters(n))) && |entry| == |EntryText("p", "")| + n + 2
  {
    hide Letters;
    LettersQuoted(n);
    entry := Whole("p", Quoted(Letters(n)));
    assert Concat([Quote(Letters(n))]) == Quote(Letters(n)) + "";
  }

  lemma OneValue(room: int, n: nat)
    requires |EntryText("p", "")| + n + 2 < room
    ensures ValueEntries(room, "p", Text(Quoted(Letters(n)), Letters(n))) == [Whole("p", Quoted(Letters(n)))]
  {
    hide Letters;
    var entry := OneTextEntry(n);
  }

  lemma OneEntry(header: string, entry: string)
    ensures |DeltaText(header, [entry])| == |header| + |entry| + TRAILER_LEN
  {
    JoinHolds([entry]);
    assert |Trailer| == TRAILER_LEN;
  }
}
