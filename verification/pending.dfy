/**
 Publishing queued changes: they are taken from the queue up to the limit of a
 tick and batched per source into deltas that go to every streaming client.
 */
module PendingChanges {
  import ChangeQueue
  import opened JsonText
  import opened DeltaFrame
  import opened Snapshot
  import opened Publisher

  /**
   A change taken from the queue: not mapped to a path, the AIS table, or a path
   with the model's value and, for a path with several sources, this source's own.
   Paths are constants; the code compares their addresses, not their text.
   */
  datatype Change =
    | Unmapped
    | Targets(sourceLabel: string)
    | Mapped(source: nat, address: nat, path: string, own: Option<ValueWriter>, value: Value)

  /** A delta entry and the header of the delta it belongs under. */
  type Part = (string, string)

  function Parts(items: seq<Datum>): (p: seq<Part>)
    ensures |p| == |items| && forall i :: 0 <= i < |items| ==> p[i] == (items[i].header, items[i].entry)
  {
    seq(|items|, i requires 0 <= i < |items| => (items[i].header, items[i].entry))
  }

  function Under(header: string, entries: seq<string>): (p: seq<Part>)
    ensures |p| == |entries| && forall i :: 0 <= i < |entries| ==> p[i] == (header, entries[i])
  {
    seq(|entries|, i requires 0 <= i < |entries| => (header, entries[i]))
  }

  function ChangeEntries(room: int, c: Change): seq<string>
    requires c.Mapped?
  {
    if c.own.Some? then WholeOrNothing(room, c.path, c.own.value) else ValueEntries(room, c.path, c.value)
  }

  /**
   For a path with several sources the change's own source value is sent, whole
   or not at all, whatever the model holds; otherwise the model's value is.
   */
  lemma OwnValueSent(v: View, capacity: nat, source: nat, address: nat, path: string, w: ValueWriter, value: Value)
    ensures var header := HeaderText(v.context, v.timestamp, v.LabelOf(source));
            var text := EntryText(path, Concat(w.pieces));
            && ChangeParts(v, capacity, Mapped(source, address, path, Some(w), value)) ==
               (if w.completes && |header| + |text| < capacity then [(header, text)] else [])
            && ChangeParts(v, capacity, Mapped(source, address, path, None, value)) ==
               (if |header| < capacity then Under(header, ValueEntries(capacity - |header|, path, value)) else [])
  {
    hide HeaderText, EntryText, Concat;
  }

  /** What a mapped change contributes. */
  function ChangeParts(v: View, capacity: nat, c: Change): seq<Part>
    requires c.Mapped?
  {
    var header := v.FieldHeader(c.source);
    if |header| >= capacity then [] else Under(header, ChangeEntries(capacity - |header|, c))
  }

  function TargetParts(v: View, capacity: nat, targets: seq<Target>): seq<Part> {
    if targets == [] then []
    else if targets[0].NoTarget? then TargetParts(v, capacity, targets[1..])
    else
      Under(v.TargetHeader(targets[0]), TargetEntries(capacity, v.TargetHeader(targets[0]), targets[0])) +
      TargetParts(v, capacity, targets[1..])
  }

  /** The source and the path's address of the last value put into the open delta. */
  type Last = Option<(nat, nat)>

  function LastAfter(v: View, capacity: nat, c: Change): Last
    requires c.Mapped?
  {
    if |v.FieldHeader(c.source)| >= capacity then None else Some((c.source, c.address))
  }

  /** What is sent for the changes: a repeat of the path just sent is left out. */
  function SentParts(v: View, capacity: nat, changes: seq<Change>, last: Last): seq<Part> {
    if changes == [] then []
    else
      var c, rest := changes[0], changes[1..];
      match c
      case Unmapped => SentParts(v, capacity, rest, last)
      case Targets(sourceLabel) =>
        TargetParts(v.(targetLabel := sourceLabel), capacity, v.targets) + SentParts(v, capacity, rest, None)
      case Mapped(source, address, _, _, _) =>
        if last == Some((source, address)) then SentParts(v, capacity, rest, last)
        else ChangeParts(v, capacity, c) + SentParts(v, capacity, rest, LastAfter(v, capacity, c))
  }

  // ----- Nothing is lost by leaving repeats out -----

  /** Everything the changes stand for, repeats included. */
  function AllParts(v: View, capacity: nat, changes: seq<Change>): seq<Part> {
    if changes == [] then []
    else
      var c, rest := changes[0], changes[1..];
      match c
      case Unmapped => AllParts(v, capacity, rest)
      case Targets(sourceLabel) =>
        TargetParts(v.(targetLabel := sourceLabel), capacity, v.targets) + AllParts(v, capacity, rest)
      case Mapped(_, _, _, _, _) => ChangeParts(v, capacity, c) + AllParts(v, capacity, rest)
  }

  predicate SamePath(c: Change, d: Change) {
    c.Mapped? && d.Mapped? && c.source == d.source && c.address == d.address
  }

  /** Changes of one source for one path carry one value: the model holds a single value for it. */
  predicate OneValue(changes: seq<Change>) {
    forall c, d :: c in changes && d in changes && SamePath(c, d) ==> c == d
  }

  lemma {:induction false} RepeatsAddNothing(v: View, capacity: nat, changes: seq<Change>, sent: Change, part: Part)
    requires sent.Mapped? && OneValue([sent] + changes)
    ensures part in SentParts(v, capacity, changes, LastAfter(v, capacity, sent)) ||
            part in ChangeParts(v, capacity, sent) <==>
            part in AllParts(v, capacity, changes) || part in ChangeParts(v, capacity, sent)
    decreases |changes|
  {
    hide ChangeParts, TargetParts, LastAfter;
    if changes != [] {
      var c, rest := changes[0], changes[1..];
      match c
      case Unmapped =>
        RestOneValue(sent, changes);
        RepeatsAddNothing(v, capacity, rest, sent, part);
      case Targets(_) =>
        RestOneValue(sent, changes);
        NothingLost(v, capacity, rest, part);
      case Mapped(source, address, _, _, _) =>
        RestOneValue(sent, changes);
        RepeatsAddNothing(v, capacity, rest, c, part);
        if LastAfter(v, capacity, sent) == Some((source, address)) { SameChange(v, capacity, sent, changes); }
    }
  }

  lemma RestOneValue(sent: Change, changes: seq<Change>)
    requires changes != [] && OneValue([sent] + changes)
    ensures OneValue(changes) && OneValue(changes[1..]) && OneValue([sent] + changes[1..])
    ensures [changes[0]] + changes[1..] == changes
  {
    var all, rest := [sent] + changes, changes[1..];
    assert all == [sent, changes[0]] + rest && changes == [changes[0]] + rest;
  }

  lemma SameChange(v: View, capacity: nat, sent: Change, changes: seq<Change>)
    requires changes != [] && sent.Mapped? && changes[0].Mapped? && OneValue([sent] + changes)
    requires LastAfter(v, capacity, sent) == Some((changes[0].source, changes[0].address))
    ensures changes[0] == sent
  {
    assert SamePath(changes[0], sent) && changes[0] in [sent] + changes && sent in [sent] + changes;
  }

  /** Under one value per source and path, exactly what the changes stand for is sent. */
  lemma {:induction false} NothingLost(v: View, capacity: nat, changes: seq<Change>, part: Part)
    requires OneValue(changes)
    ensures part in SentParts(v, capacity, changes, None) <==> part in AllParts(v, capacity, changes)
    decreases |changes|
  {
    hide ChangeParts, TargetParts, LastAfter;
    if changes != [] {
      var c, rest := changes[0], changes[1..];
      assert [c] + rest == changes;
      if c.Mapped? {
        RepeatsAddNothing(v, capacity, rest, c, part);
      } else {
        NothingLost(v, capacity, rest, part);
      }
    }
  }

  // ----- The publisher -----

  lemma PartsOfNumber(before: seq<Datum>, position: nat, first: nat, header: string, entries: seq<string>)
    ensures Parts(before + Number(position, first, header, entries)) == Parts(before) + Under(header, entries)
  {}

  /** Sends every AIS target in its own context. */
  method PublishAllTargets(p: SignalKPublisher, sink: Sink, frame: SignalKDeltaFrame, v: View)
    requires p.Ready(frame, sink) && !frame.open && sink.unlimited
    modifies p`items, p`deltas, p`seen, p`value, p`skip, p`frameStart, sink, frame, frame.out, frame.buffer
    ensures p.Ready(frame, sink) && !frame.open
    ensures Parts(p.seen) == old(Parts(p.seen)) + TargetParts(v, frame.out.capacity, v.targets)
  {
    hide SignalKPublisher.Tracks, SignalKPublisher.Holds, HeaderText, TargetEntries, Number, Parts, TargetParts;
    ghost var all := Parts(p.seen) + TargetParts(v, frame.out.capacity, v.targets);
    assert v.targets[0..] == v.targets;
    for i := 0 to |v.targets|
      invariant p.Ready(frame, sink) && !frame.open
      invariant Parts(p.seen) + TargetParts(v, frame.out.capacity, v.targets[i..]) == all
    {
      var target := v.targets[i];
      ghost var before, value := p.seen, p.value;
      TargetPartsNext(v, frame.out.capacity, i);
      var ok := p.PublishTarget(sink, frame, v, target);
      NumberNone(p.position, value, "");
      if target.Target? {
        PartsOfNumber(before, p.position, value, v.TargetHeader(target),
                      TargetEntries(frame.out.capacity, v.TargetHeader(target), target));
      }
    }
    NoTargetParts(v, frame.out.capacity, v.targets[|v.targets|..]);
  }

  lemma NoTargetParts(v: View, capacity: nat, targets: seq<Target>)
    requires targets == []
    ensures TargetParts(v, capacity, targets) == []
  {}

  lemma TargetPartsNext(v: View, capacity: nat, i: nat)
    requires i < |v.targets|
    ensures var target := v.targets[i];
            TargetParts(v, capacity, v.targets[i..]) ==
            (if target.NoTarget? then []
             else Under(v.TargetHeader(target), TargetEntries(capacity, v.TargetHeader(target), target))) +
            TargetParts(v, capacity, v.targets[i + 1..])
  {
    hide HeaderText, TargetEntries;
    assert v.targets[i..][1..] == v.targets[i + 1..];
  }

  /** The open delta's source, and the path last put into it. */
  function LastOf(open: bool, source: nat, address: nat): Last {
    if open then Some((source, address)) else None
  }

  /** Puts one mapped change into a delta of its source. */
  method PublishMapped(p: SignalKPublisher, sink: Sink, frame: SignalKDeltaFrame, v: View, c: Change, frameSource: nat)
    returns (started: bool)
    requires p.Ready(frame, sink) && sink.unlimited && c.Mapped?
    requires frame.open ==> frame.header == v.FieldHeader(frameSource)
    modifies p`items, p`deltas, p`seen, p`value, p`skip, p`frameStart, sink, frame, frame.out, frame.buffer
    ensures p.Ready(frame, sink) && started == frame.open
    ensures frame.open ==> frame.header == v.FieldHeader(c.source)
    ensures LastOf(frame.open, c.source, c.address) == LastAfter(v, frame.out.capacity, c)
    ensures Parts(p.seen) == old(Parts(p.seen)) + ChangeParts(v, frame.out.capacity, c)
  {
    hide SignalKPublisher.Tracks, SignalKPublisher.Holds, HeaderText, Number, Parts, ValueEntries;
    var ok;
    ok, started := p.PrepareFrame(sink, frame, v, c.source, frameSource);
    assert Parts(p.seen) + [] == Parts(p.seen);
    if !started { return; }
    ghost var before, value := p.seen, p.value;
    var added;
    if c.own.Some? {
      ok, added := p.AddOrSplit(sink, frame, c.path, c.own.value);
    } else {
      ok := p.AddValue(sink, frame, c.path, c.value);
    }
    PartsOfNumber(before, p.position, value, frame.header, ChangeEntries(frame.out.capacity - |frame.header|, c));
  }

  /** What the mapper makes of queued changes. */
  function MapAll(mapping: ChangeQueue.Change -> Change, queued: seq<ChangeQueue.Change>): (changes: seq<Change>)
    ensures |changes| == |queued| && forall i :: 0 <= i < |queued| ==> changes[i] == mapping(queued[i])
  {
    seq(|queued|, i requires 0 <= i < |queued| => mapping(queued[i]))
  }

  /** One change: skipped as a repeat, or put into a delta of its source, or all AIS targets. */
  method PublishChange(p: SignalKPublisher, sink: Sink, frame: SignalKDeltaFrame, v: View, c: Change,
                       frameSource: nat, lastAddress: nat, ghost rest: seq<Change>)
    returns (source: nat, address: nat)
    requires p.Ready(frame, sink) && sink.unlimited && (frame.open ==> frame.header == v.FieldHeader(frameSource))
    modifies p`items, p`deltas, p`seen, p`value, p`skip, p`frameStart, sink, frame, frame.out, frame.buffer
    ensures p.Ready(frame, sink) && (frame.open ==> frame.header == v.FieldHeader(source))
    ensures Parts(p.seen) + SentParts(v, frame.out.capacity, rest, LastOf(frame.open, source, address)) ==
            old(Parts(p.seen)) + SentParts(v, frame.out.capacity, [c] + rest,
                                           old(LastOf(frame.open, frameSource, lastAddress)))
  {
    hide SignalKPublisher.Tracks, SignalKPublisher.Holds, HeaderText, Parts, TargetParts, ChangeParts, SentParts,
         LastAfter;
    source, address := frameSource, lastAddress;
    SentPartsNext(v, frame.out.capacity, c, rest, LastOf(frame.open, frameSource, lastAddress));
    match c
    case Unmapped =>
    case Targets(sourceLabel) =>
      var ok := p.Flush(sink, frame);
      PublishAllTargets(p, sink, frame, v.(targetLabel := sourceLabel));
    case Mapped(changeSource, changeAddress, _, _, _) =>
      if !(frame.open && changeSource == frameSource && changeAddress == lastAddress) {
        var started := PublishMapped(p, sink, frame, v, c, frameSource);
        if started { source, address := changeSource, changeAddress; }
      }
  }

  /** Takes changes from the queue until it is empty or the limit of a tick is reached. */
  method PublishChanges(p: SignalKPublisher, sink: Sink, frame: SignalKDeltaFrame, v: View,
                        store: ChangeQueue.ModelStore, mapping: ChangeQueue.Change -> Change, maxChanges: nat)
    requires p.Ready(frame, sink) && !frame.open && sink.unlimited && p.seen == [] && store.Valid()
    modifies p`items, p`deltas, p`seen, p`value, p`skip, p`frameStart, sink, frame, frame.out, frame.buffer
    modifies store.changes`tail, store.changes`count
    ensures p.Ready(frame, sink) && p.items == [] && store.Valid()
    ensures var before := old(store.State());
            var n := Min(maxChanges, |before.queue|);
            && store.State() == ChangeQueue.Taken(before, n)
            && Parts(p.seen) == SentParts(v, frame.out.capacity, MapAll(mapping, before.queue[..n]), None)
  {
    hide SignalKPublisher.Tracks, SignalKPublisher.Holds, HeaderText, Parts, SentParts, MapAll,
         ChangeQueue.ModelChangeQueue.Contents, ChangeQueue.DistinctKeys, ChangeQueue.Step, ChangeQueue.Wrap;
    var frameSource, lastAddress := 0, 0;
    ghost var room, before := frame.out.capacity, store.State();
    ghost var q := before.queue;
    ghost var n := Min(maxChanges, |q|);
    ghost var changes := MapAll(mapping, q[..n]);
    NoParts();
    var processed := 0;
    assert changes[0..] == changes;
    while processed < maxChanges && store.changes.count > 0
      invariant processed <= n && store.Valid() && store.State() == ChangeQueue.Taken(before, processed)
      invariant p.Ready(frame, sink) && (frame.open ==> frame.header == v.FieldHeader(frameSource))
      invariant Parts(p.seen) + SentParts(v, room, changes[processed..],
                                          LastOf(frame.open, frameSource, lastAddress)) ==
                SentParts(v, room, changes, None)
      decreases maxChanges - processed
    {
      ChangeQueue.TakenNext(before, processed, store.changes.items.Length);
      var found, change := store.TakeChange();
      NextMapped(mapping, q, n, processed);
      frameSource, lastAddress :=
        PublishChange(p, sink, frame, v, mapping(change), frameSource, lastAddress, changes[processed + 1..]);
      processed := processed + 1;
    }
    var ok := p.Flush(sink, frame);
    SentPartsEnd(v, room, changes[processed..]);
  }

  lemma NextMapped(mapping: ChangeQueue.Change -> Change, q: seq<ChangeQueue.Change>, n: nat, k: nat)
    requires k < n <= |q|
    ensures var changes := MapAll(mapping, q[..n]); changes[k..] == [mapping(q[k])] + changes[k + 1..]
    ensures q[k..][0] == q[k] && q[k..][1..] == q[k + 1..]
  {}

  lemma NoParts()
    ensures Parts([]) == [] && Flatten([]) == []
  {}

  lemma SentPartsEnd(v: View, capacity: nat, changes: seq<Change>)
    requires changes == []
    ensures forall l :: SentParts(v, capacity, changes, l) == []
  {}

  lemma SentPartsNext(v: View, capacity: nat, c: Change, rest: seq<Change>, last: Last)
    ensures SentParts(v, capacity, [c] + rest, last) ==
            match c
            case Unmapped => SentParts(v, capacity, rest, last)
            case Targets(sourceLabel) =>
              TargetParts(v.(targetLabel := sourceLabel), capacity, v.targets) + SentParts(v, capacity, rest, None)
            case Mapped(source, address, _, _, _) =>
              if last == Some((source, address)) then SentParts(v, capacity, rest, last)
              else ChangeParts(v, capacity, c) + SentParts(v, capacity, rest, LastAfter(v, capacity, c))
  {
    hide TargetParts, ChangeParts, LastAfter;
    assert ([c] + rest)[1..] == rest;
  }

  /**
   Sends queued changes. The sink passes each delta on to the clients that can
   take it and never refuses. Without a usable buffer or a timestamp nothing is
   taken from the queue.
   */
  method PublishPending(p: SignalKPublisher, sink: Sink, configured: nat, clock: bool, v: View,
                        store: ChangeQueue.ModelStore, mapping: ChangeQueue.Change -> Change, maxChanges: nat)
    requires sink.unlimited && store.Valid()
    modifies p, sink, p.json, store.changes`tail, store.changes`count
    ensures Logged(old(sink.log), p.deltas, sink.log) && store.Valid()
    ensures var capacity, before := p.JsonCapacity(configured), old(store.State());
            var q := before.queue;
            var n := if capacity == 0 || !clock then 0 else Min(maxChanges, |q|);
            && store.State() == ChangeQueue.Taken(before, n)
            && Parts(Flatten(p.deltas)) == SentParts(v, DeltaRoom(capacity), MapAll(mapping, q[..n]), None)
  {
    hide Logged, SignalKPublisher.Holds, SignalKDeltaFrame.Valid, SentParts, Parts, ItemsAt, ItemsTo, MapAll, Flatten,
         Sink.Sized, ChangeQueue.ModelChangeQueue.Contents, ChangeQueue.DistinctKeys, ChangeQueue.Wrap;
    p.StartPass(sink, Cursor(1, 0));
    LoggedNone(sink.log);
    NoParts();
    var capacity := p.JsonCapacity(configured);
    if capacity == 0 || !clock {
      SentPartsEnd(v, DeltaRoom(capacity), MapAll(mapping, store.State().queue[..0]));
      return;
    }
    var frame := new SignalKDeltaFrame(p.json, capacity);
    p.PassStarted(frame, sink, Cursor(1, 0), v);
    PublishChanges(p, sink, frame, v, store, mapping, maxChanges);
    assert Flatten(p.deltas) + p.items == Flatten(p.deltas);
  }
}
