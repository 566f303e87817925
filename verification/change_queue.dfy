/**
 The coalescing ring buffer of pending model changes (`ModelChangeQueue`) and
 the part of `ModelStore` that feeds it, refined to a bounded keyed FIFO.
 */
module ChangeQueue {

  datatype Change = Change(field: nat, source: nat, timestamp: nat, sequence: nat)

  const MAX_CAPACITY: nat := 65535

  predicate SameKey(a: Change, b: Change) {
    a.field == b.field && a.source == b.source
  }

  // ----- The keyed FIFO -----

  ghost predicate DistinctKeys(q: seq<Change>) {
    forall i, j :: 0 <= i < j < |q| ==> !SameKey(q[i], q[j])
  }

  predicate Pending(q: seq<Change>, c: Change) {
    exists i :: 0 <= i < |q| && SameKey(q[i], c)
  }

  /** The pending change with the key of `c` takes its timestamp and sequence, in place. */
  function Refresh(q: seq<Change>, c: Change): (r: seq<Change>)
    ensures |r| == |q|
    ensures forall i :: 0 <= i < |q| ==> r[i] == if SameKey(q[i], c) then c else q[i]
  {
    seq(|q|, i requires 0 <= i < |q| => if SameKey(q[i], c) then c else q[i])
  }

  /** Coalesces, or appends; a full queue gives up its oldest change. */
  function Pushed(q: seq<Change>, c: Change, capacity: nat): seq<Change> {
    if Pending(q, c) then Refresh(q, c)
    else (if |q| == capacity && q != [] then q[1..] else q) + [c]
  }

  lemma PushedDistinct(q: seq<Change>, c: Change, capacity: nat)
    requires DistinctKeys(q)
    ensures DistinctKeys(Pushed(q, c, capacity))
  {
    var r := Pushed(q, c, capacity);
    forall i, j | 0 <= i < j < |r|
      ensures !SameKey(r[i], r[j])
    {
      if Pending(q, c) {
        assert !SameKey(q[i], q[j]);
      } else {
        var d := |q| + 1 - |r|;
        assert r[i] == q[i + d];
        if j < |r| - 1 { assert r[j] == q[j + d] && !SameKey(q[i + d], q[j + d]); }
      }
    }
  }

  // ----- The ring buffer -----

  class ModelChangeQueue {
    const items: array<Change>
    var head: nat
    var tail: nat
    var count: nat
    var highWatermark: nat
    var droppedCount: nat
    var enqueuedCount: nat
    var coalescedCount: nat

    ghost predicate Shape()
      reads `tail, `head, `count, `highWatermark
    {
      && 0 < items.Length <= MAX_CAPACITY
      && tail < items.Length && head < items.Length && count <= items.Length
      && head == Wrap(tail + count, items.Length)
      && count <= highWatermark <= items.Length
    }

    ghost function Contents(): (q: seq<Change>)
      reads `tail, `head, `count, `highWatermark, items
      requires Shape()
      ensures |q| == count
      ensures forall i :: 0 <= i < count ==> q[i] == items[Wrap(tail + i, items.Length)]
    {
      if tail + count <= items.Length then items[tail..tail + count]
      else items[tail..] + items[..tail + count - items.Length]
    }

    ghost predicate Valid()
      reads `tail, `head, `count, `highWatermark, items
    {
      Shape() && DistinctKeys(Contents())
    }

    constructor (capacity: nat)
      requires 0 < capacity <= MAX_CAPACITY
      ensures Valid() && fresh(items) && items.Length == capacity && Contents() == []
      ensures droppedCount == enqueuedCount == coalescedCount == 0
    {
      items := new Change[capacity](_ => Change(0, 0, 0, 0));
      head, tail, count, highWatermark := 0, 0, 0, 0;
      droppedCount, enqueuedCount, coalescedCount := 0, 0, 0;
    }

    method Advance(value: nat) returns (next: nat)
      requires value < items.Length
      ensures next == Wrap(value + 1, items.Length)
    {
      next := value + 1;
      if next == items.Length { next := 0; }
    }

    /** The slot of the pending change number `at`. */
    method SlotOf(at: nat) returns (index: nat)
      requires Shape() && at < count
      ensures index == Wrap(tail + at, items.Length) && index < items.Length
    {
      WrapMod(tail + at, items.Length);
      index := (tail + at) % items.Length;
    }

    /** Searches from the newest pending change; at most one can match. */
    method FindKey(change: Change) returns (found: bool, at: nat)
      requires Shape()
      ensures found ==> at < count && SameKey(Contents()[at], change)
      ensures !found ==> forall i :: 0 <= i < count ==> !SameKey(Contents()[i], change)
    {
      hide Wrap;
      ghost var q := Contents();
      var offset := 0;
      while offset < count
        invariant offset <= count
        invariant forall i :: count - offset <= i < count ==> !SameKey(q[i], change)
      {
        at := count - 1 - offset;
        var index := SlotOf(at);
        assert q[at] == items[index];
        if items[index].field == change.field && items[index].source == change.source { return true, at; }
        offset := offset + 1;
      }
      return false, 0;
    }

    method Coalesce(change: Change) returns (found: bool)
      requires Valid()
      modifies items, this`coalescedCount
      ensures Valid() && found == Pending(old(Contents()), change)
      ensures Contents() == if found then Refresh(old(Contents()), change) else old(Contents())
      ensures coalescedCount == old(coalescedCount) + if found then 1 else 0
    {
      hide Pending, Wrap, DistinctKeys, Refresh, Contents;
      ghost var q := Contents();
      var at;
      found, at := FindKey(change);
      if !found {
        NoMatch(q, change);
        return;
      }
      var index := SlotOf(at);
      assert q[at] == items[index];
      Replace(at, index, change);
      coalescedCount := coalescedCount + 1;
      OnlyMatch(q, at, change);
      RefreshDistinct(q, change);
    }

    method Replace(at: nat, index: nat, change: Change)
      requires Shape() && at < count && index == Wrap(tail + at, items.Length)
      requires SameKey(items[index], change)
      modifies items
      ensures Contents() == old(Contents())[at := change]
    {
      ghost var q := Contents();
      items[index] := items[index].(timestamp := change.timestamp, sequence := change.sequence);
      assert items[index] == change;
      forall i | 0 <= i < count
        ensures Contents()[i] == q[at := change][i]
      {
        assert i != at ==> Wrap(tail + i, items.Length) != index;
      }
    }

    method DropOldest()
      requires Shape() && count > 0
      modifies this`tail, this`count
      ensures Shape() && Contents() == old(Contents())[1..] && count == old(count) - 1
    {
      hide Contents;
      ghost var q := Contents();
      tail := Advance(tail);
      count := count - 1;
      assert Contents() == q[1..];
    }

    method Push(change: Change)
      requires Valid()
      modifies this, items
      ensures Valid() && Contents() == Pushed(old(Contents()), change, items.Length)
      ensures var q := old(Contents());
              var drops := !Pending(q, change) && |q| == items.Length;
              && coalescedCount == old(coalescedCount) + (if Pending(q, change) then 1 else 0)
              && enqueuedCount == old(enqueuedCount) + (if Pending(q, change) then 0 else 1)
              && droppedCount == old(droppedCount) + (if drops then 1 else 0)
    {
      hide Pending, DistinctKeys, Refresh, Wrap, Contents;
      ghost var q := Contents();
      PushedDistinct(q, change, items.Length);
      var coalesced := Coalesce(change);
      if coalesced { return; }
      if count == items.Length {
        DropOldest();
        droppedCount := droppedCount + 1;
      }
      Append(change);
      enqueuedCount := enqueuedCount + 1;
    }

    method Append(change: Change)
      requires Shape() && count < items.Length
      modifies items, this`head, this`count, this`highWatermark
      ensures Shape() && Contents() == old(Contents()) + [change]
    {
      hide Contents;
      ghost var q := Contents();
      items[head] := change;
      assert Contents() == q;
      head := Advance(head);
      count := count + 1;
      if count > highWatermark { highWatermark := count; }
      assert Contents() == q + [change];
    }

    method Pop() returns (found: bool, change: Change)
      requires Valid()
      modifies this`tail, this`count
      ensures Valid() && found == (old(Contents()) != [])
      ensures found ==> change == old(Contents())[0] && Contents() == old(Contents())[1..]
      ensures !found ==> Contents() == []
    {
      if count == 0 { return false, Change(0, 0, 0, 0); }
      change := items[tail];
      DropOldest();
      return true, change;
    }
  }

  function Wrap(i: nat, capacity: nat): (r: nat)
    requires capacity > 0
    ensures i < 2 * capacity ==> r < capacity
  {
    if i < capacity then i else i - capacity
  }

  lemma WrapMod(i: nat, capacity: nat)
    requires capacity > 0 && i < 2 * capacity
    ensures i % capacity == Wrap(i, capacity)
  {}

  lemma OnlyMatch(q: seq<Change>, at: nat, c: Change)
    requires DistinctKeys(q) && at < |q| && SameKey(q[at], c)
    ensures Pending(q, c) && q[at := c] == Refresh(q, c)
  {
    forall i | 0 <= i < |q|
      ensures q[at := c][i] == Refresh(q, c)[i]
    {
      if i < at { assert !SameKey(q[i], q[at]); } else if at < i { assert !SameKey(q[at], q[i]); }
    }
  }

  lemma NoMatch(q: seq<Change>, c: Change)
    requires forall i :: 0 <= i < |q| ==> !SameKey(q[i], c)
    ensures !Pending(q, c)
  {}

  lemma RefreshDistinct(q: seq<Change>, c: Change)
    requires DistinctKeys(q)
    ensures DistinctKeys(Refresh(q, c))
  {
    var r := Refresh(q, c);
    forall i, j | 0 <= i < j < |r|
      ensures !SameKey(r[i], r[j])
    {
      assert !SameKey(q[i], q[j]);
    }
  }

  // ----- Whole runs -----

  datatype Op = Mark(field: nat, source: nat, timestamp: nat) | Take

  /** The queue with the store's and the queue's counters. */
  datatype Ledger = Ledger(queue: seq<Change>, marked: nat, enqueued: nat, coalesced: nat, dropped: nat, popped: nat)

  function Step(l: Ledger, op: Op, capacity: nat): Ledger {
    match op
    case Mark(field, source, timestamp) =>
      var c := Change(field, source, timestamp, l.marked + 1);
      var known := Pending(l.queue, c);
      Ledger(Pushed(l.queue, c, capacity), l.marked + 1,
             l.enqueued + (if known then 0 else 1),
             l.coalesced + (if known then 1 else 0),
             l.dropped + (if !known && |l.queue| == capacity then 1 else 0),
             l.popped)
    case Take =>
      if l.queue == [] then l else l.(queue := l.queue[1..], popped := l.popped + 1)
  }

  function Run(ops: seq<Op>, capacity: nat): Ledger {
    if ops == [] then Ledger([], 0, 0, 0, 0, 0)
    else Step(Run(ops[..|ops| - 1], capacity), ops[|ops| - 1], capacity)
  }

  /** The number of marks up to the last one for a key: the newest sequence number of that key. */
  function NewestSequence(ops: seq<Op>, field: nat, source: nat): nat {
    if ops == [] then 0
    else
      var last := ops[|ops| - 1];
      if last.Mark? && last.field == field && last.source == source then Marks(ops)
      else NewestSequence(ops[..|ops| - 1], field, source)
  }

  function Marks(ops: seq<Op>): nat {
    if ops == [] then 0 else Marks(ops[..|ops| - 1]) + if ops[|ops| - 1].Mark? then 1 else 0
  }

  /** Nothing is counted twice and nothing disappears uncounted, and no key is pending twice. */
  lemma {:induction false} Conservation(ops: seq<Op>, capacity: nat)
    requires capacity > 0
    ensures var l := Run(ops, capacity);
            && l.marked == l.enqueued + l.coalesced == Marks(ops)
            && l.enqueued == l.popped + l.dropped + |l.queue|
            && |l.queue| <= capacity && DistinctKeys(l.queue)
  {
    hide Pending, Refresh;
    if ops != [] {
      var n := |ops| - 1;
      Conservation(ops[..n], capacity);
      var l := Run(ops[..n], capacity);
      var op := ops[n];
      if op.Mark? {
        var c := Change(op.field, op.source, op.timestamp, l.marked + 1);
        PushedDistinct(l.queue, c, capacity);
        PushedSize(l.queue, c, capacity);
      }
    }
  }

  lemma PushedSize(q: seq<Change>, c: Change, capacity: nat)
    requires |q| <= capacity && capacity > 0
    ensures |Pushed(q, c, capacity)| == if Pending(q, c) || |q| == capacity then |q| else |q| + 1
  {}

  /** The time of the last mark for a key. */
  function NewestTime(ops: seq<Op>, field: nat, source: nat): nat {
    if ops == [] then 0
    else
      var last := ops[|ops| - 1];
      if last.Mark? && last.field == field && last.source == source then last.timestamp
      else NewestTime(ops[..|ops| - 1], field, source)
  }

  /** A pending change always carries the newest sequence number and time marked for its key. */
  lemma {:induction false} PendingIsNewest(ops: seq<Op>, capacity: nat, i: nat)
    requires capacity > 0 && i < |Run(ops, capacity).queue|
    ensures var e := Run(ops, capacity).queue[i];
            e.sequence == NewestSequence(ops, e.field, e.source) && e.timestamp == NewestTime(ops, e.field, e.source)
  {
    if ops != [] {
      var n := |ops| - 1;
      var l := Run(ops[..n], capacity);
      Conservation(ops[..n], capacity);
      var e := Run(ops, capacity).queue[i];
      match ops[n]
      case Take =>
        PendingIsNewest(ops[..n], capacity, if l.queue == [] then i else i + 1);
      case Mark(field, source, timestamp) =>
        var c := Change(field, source, timestamp, l.marked + 1);
        if !SameKey(e, c) {
          var k := if Pending(l.queue, c) || |l.queue| < capacity then i else i + 1;
          PendingIsNewest(ops[..n], capacity, k);
        }
    }
  }

  predicate Waits(q: seq<Change>, field: nat, source: nat) {
    exists i :: 0 <= i < |q| && q[i].field == field && q[i].source == source
  }

  /** The operation takes the oldest change, or needs its place because the queue is full. */
  predicate Removes(l: Ledger, op: Op, capacity: nat) {
    l.queue != [] && (op.Take? || (|l.queue| == capacity && !Waits(l.queue, op.field, op.source)))
  }

  /**
   A marked field and source waits in the queue, and goes on waiting until it is
   the oldest and is taken, or gives its place to another one.
   */
  lemma WaitsUntilRemoved(l: Ledger, op: Op, capacity: nat, field: nat, source: nat)
    requires capacity > 0 && |l.queue| <= capacity
    ensures var q := Step(l, op, capacity).queue;
            && (op.Mark? && op.field == field && op.source == source ==> Waits(q, field, source))
            && (Waits(l.queue, field, source) ==>
                  || Waits(q, field, source)
                  || (Removes(l, op, capacity) && l.queue[0].field == field && l.queue[0].source == source))
  {
    hide Pushed, Waits;
    if op.Mark? {
      PushedWaits(l.queue, Change(op.field, op.source, op.timestamp, l.marked + 1), capacity, field, source);
    } else if Waits(l.queue, field, source) {
      TailWaits(l.queue, field, source);
    }
  }

  lemma TailWaits(q: seq<Change>, field: nat, source: nat)
    requires Waits(q, field, source)
    ensures q != [] && (Waits(q[1..], field, source) || (q[0].field == field && q[0].source == source))
  {
    var i :| 0 <= i < |q| && q[i].field == field && q[i].source == source;
    if i > 0 { assert q[1..][i - 1] == q[i]; }
  }

  lemma PushedWaits(q: seq<Change>, c: Change, capacity: nat, field: nat, source: nat)
    requires capacity > 0 && |q| <= capacity
    ensures var r := Pushed(q, c, capacity);
            && (c.field == field && c.source == source ==> Waits(r, field, source))
            && (Waits(q, field, source) ==>
                  || Waits(r, field, source)
                  || (|q| == capacity && !Waits(q, c.field, c.source) && q[0].field == field && q[0].source == source))
  {
    var r := Pushed(q, c, capacity);
    if Pending(q, c) {
      var k :| 0 <= k < |q| && SameKey(q[k], c);
      assert r[k] == c;
      if Waits(q, field, source) {
        var i :| 0 <= i < |q| && q[i].field == field && q[i].source == source;
        assert r[i].field == field && r[i].source == source;
      }
    } else {
      assert r[|r| - 1] == c;
      assert !Waits(q, c.field, c.source) by { NotPending(q, c); }
      if Waits(q, field, source) {
        var i :| 0 <= i < |q| && q[i].field == field && q[i].source == source;
        if |q| < capacity { assert r[i] == q[i]; } else if i > 0 { assert r[i - 1] == q[i]; }
      }
    }
  }

  lemma NotPending(q: seq<Change>, c: Change)
    requires !Pending(q, c)
    ensures !Waits(q, c.field, c.source)
  {}

  /** The waiting keys, oldest first. */
  function Keys(q: seq<Change>): (k: seq<(nat, nat)>)
    ensures |k| == |q| && forall i :: 0 <= i < |q| ==> k[i] == (q[i].field, q[i].source)
  {
    seq(|q|, i requires 0 <= i < |q| => (q[i].field, q[i].source))
  }

  /** Marking a waiting key leaves every key in its place; a new key comes last; the oldest leaves first. */
  lemma OrderKept(l: Ledger, op: Op, capacity: nat)
    requires capacity > 0 && |l.queue| <= capacity
    ensures var before, after := Keys(l.queue), Keys(Step(l, op, capacity).queue);
            match op
            case Take => after == if before == [] then [] else before[1..]
            case Mark(field, source, _) =>
              after == if (field, source) in before then before
                       else (if |before| == capacity then before[1..] else before) + [(field, source)]
  {
    if op.Mark? {
      var c := Change(op.field, op.source, op.timestamp, l.marked + 1);
      PendingIffKey(l.queue, c);
    }
  }

  lemma PendingIffKey(q: seq<Change>, c: Change)
    ensures Pending(q, c) <==> (c.field, c.source) in Keys(q)
  {
    if Pending(q, c) {
      var i :| 0 <= i < |q| && SameKey(q[i], c);
      assert Keys(q)[i] == (c.field, c.source);
    }
  }

  /** Over a whole run: marked at operation `k` and not removed since, it waits. */
  lemma {:induction false} MarkedWaits(ops: seq<Op>, capacity: nat, k: nat)
    requires capacity > 0 && k < |ops| && ops[k].Mark?
    requires forall j :: k < j < |ops| ==>
               var l := Run(ops[..j], capacity);
               Removes(l, ops[j], capacity) ==> l.queue[0].field != ops[k].field || l.queue[0].source != ops[k].source
    ensures Waits(Run(ops, capacity).queue, ops[k].field, ops[k].source)
    decreases |ops|
  {
    hide Step, Waits;
    var n := |ops| - 1;
    var l := Run(ops[..n], capacity);
    Conservation(ops[..n], capacity);
    WaitsUntilRemoved(l, ops[n], capacity, ops[k].field, ops[k].source);
    if k < n {
      forall j | k < j < n
        ensures var m := Run(ops[..n][..j], capacity);
                Removes(m, ops[..n][j], capacity) ==>
                  m.queue[0].field != ops[k].field || m.queue[0].source != ops[k].source
      {
        assert ops[..n][..j] == ops[..j];
      }
      MarkedWaits(ops[..n], capacity, k);
    }
  }

  /** The ledger after the `n` oldest changes were taken. */
  function Taken(l: Ledger, n: nat): Ledger
    requires n <= |l.queue|
  {
    l.(queue := l.queue[n..], popped := l.popped + n)
  }

  lemma TakenNext(l: Ledger, n: nat, capacity: nat)
    requires n < |l.queue|
    ensures Taken(l, n).queue != [] && Taken(l, n).queue[0] == l.queue[n]
    ensures Step(Taken(l, n), Take, capacity) == Taken(l, n + 1)
  {}

  /** What the observer of marks is told: the source before this one, and whether there was a value. */
  datatype Noted = Noted(field: nat, source: nat, previous: nat, hadValue: bool, time: nat)

  /** Which fields there are, and which of them make up the state of the autopilot. */
  datatype Fields = Fields(count: nat, autopilot: set<nat>)

  /** `ModelStore`; `latest` holds the source of every field that is present. */
  class ModelStore {
    const changes: ModelChangeQueue
    const fields: Fields
    var latest: map<nat, nat>
    var sequence: nat
    var markedCount: nat
    var autopilotTime: nat
    var autopilotSource: nat

    ghost predicate Valid()
      reads `sequence, `markedCount, changes, changes.items
    {
      changes.Valid() && sequence == markedCount && changes.droppedCount + changes.count <= changes.enqueuedCount
    }

    /** What was enqueued and is neither pending nor dropped was taken. */
    ghost function State(): Ledger
      reads `sequence, `markedCount, changes, changes.items
      requires Valid()
    {
      Ledger(changes.Contents(), markedCount, changes.enqueuedCount, changes.coalescedCount, changes.droppedCount,
             changes.enqueuedCount - changes.droppedCount - changes.count)
    }

    constructor (capacity: nat, fields: Fields)
      requires 0 < capacity <= MAX_CAPACITY
      ensures Valid() && fresh(changes) && fresh(changes.items) && changes.items.Length == capacity
      ensures State() == Run([], capacity) && latest == map[] && this.fields == fields
    {
      changes := new ModelChangeQueue(capacity);
      this.fields := fields;
      latest := map[];
      sequence, markedCount, autopilotTime, autopilotSource := 0, 0, 0, 0;
    }

    /** Records the source of a field, tells the observer, and queues the change. Times are in microseconds. */
    method MarkChanged(field: nat, source: nat, now: nat) returns (noted: Noted)
      requires Valid()
      modifies this, changes, changes.items
      ensures Valid()
      ensures State() == Step(old(State()), Mark(field, source, now / 1000 % 0x1_0000_0000), changes.items.Length)
      ensures latest == if field < fields.count then old(latest)[field := source] else old(latest)
      ensures noted == Noted(field, source, if field in old(latest) then old(latest)[field] else 0,
                             field in old(latest), now)
      ensures (autopilotTime, autopilotSource) ==
              if field in fields.autopilot then (now, source) else old((autopilotTime, autopilotSource))
    {
      hide Pending, Pushed, DistinctKeys, ModelChangeQueue.Contents;
      markedCount := markedCount + 1;
      noted := Record(field, source, now);
      sequence := sequence + 1;
      var change := Change(field, source, Milliseconds(now), sequence);
      PushedSize(changes.Contents(), change, changes.items.Length);
      changes.Push(change);
    }

    /** Notes the source of the field, and what the observer is told. */
    method Record(field: nat, source: nat, now: nat) returns (noted: Noted)
      modifies this`latest, this`autopilotTime, this`autopilotSource
      ensures latest == if field < fields.count then old(latest)[field := source] else old(latest)
      ensures noted == Noted(field, source, if field in old(latest) then old(latest)[field] else 0,
                             field in old(latest), now)
      ensures (autopilotTime, autopilotSource) ==
              if field in fields.autopilot then (now, source) else old((autopilotTime, autopilotSource))
    {
      var hadValue := field in latest;
      noted := Noted(field, source, if hadValue then latest[field] else 0, hadValue, now);
      if field < fields.count { latest := latest[field := source]; }
      if field in fields.autopilot { autopilotTime, autopilotSource := now, source; }
    }

    method TakeChange() returns (found: bool, change: Change)
      requires Valid()
      modifies changes`tail, changes`count
      ensures Valid() && State() == Step(old(State()), Take, changes.items.Length)
      ensures found == (old(State()).queue != []) && (found ==> change == old(State()).queue[0])
    {
      hide Pending, Refresh, DistinctKeys;
      found, change := changes.Pop();
    }
  }

  /** The 32-bit time of a change. */
  function Milliseconds(now: nat): nat {
    now / 1000 % 0x1_0000_0000
  }
}
