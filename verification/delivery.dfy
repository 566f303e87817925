/**
 The publisher does what the catch-up protocol says: the deltas of a snapshot
 pass and of a publish are the entries the protocol's steps deliver.
 */
module Delivery {
  import opened JsonText
  import DeltaFrame
  import opened Snapshot
  import opened Publisher
  import opened CatchUp
  import opened StreamServer
  import ChangeQueue
  import PendingChanges

  // ----- A snapshot pass -----

  predicate Occupied(v: View, position: nat) {
    if 0 < position < v.Base() then v.fields[position].Field?
    else v.Base() <= position < v.End() && 0 < position && v.sendTargets && v.targets[position - v.Base()].Target?
  }

  /** The path whose value stands at a position. */
  function PathAt(v: View, position: nat): Path {
    if position < v.Base() then SelfPath(if v.fields[position].Field? then v.fields[position].path else "")
    else TargetSlot(position - v.Base())
  }

  /** The view is what the client's snapshot shows of the model. */
  ghost predicate ShowsModel(v: View, capacity: nat, model: map<Path, Entry>, c: Client) {
    && (forall position: nat :: Occupied(v, position) ==>
          var p := PathAt(v, position);
          && Selected(model, c, p) && model[p].position == position
          && model[p].value == EntriesOf(ItemsAt(v, capacity, position)))
    && (forall p :: Selected(model, c, p) ==> Occupied(v, model[p].position) && PathAt(v, model[p].position) == p)
  }

  /** With all targets, the view is the model. */
  ghost predicate Represents(v: View, capacity: nat, model: map<Path, Entry>) {
    var w := v.(sendTargets := true);
    && (forall position: nat :: Occupied(w, position) ==>
          var p := PathAt(w, position);
          && p in model && model[p].current && model[p].position == position
          && model[p].value == EntriesOf(ItemsAt(w, capacity, position)))
    && (forall p :: p in model && model[p].current ==>
        Occupied(w, model[p].position) && PathAt(w, model[p].position) == p)
  }

  /** Limited to its scope, the same view is what each client's snapshot shows of the model. */
  lemma ShowsInScope(v: View, capacity: nat, model: map<Path, Entry>, c: Client)
    requires Represents(v, capacity, model)
    ensures ShowsModel(v.(sendTargets := c.others), capacity, model, c)
  {
    hide FieldEntries, TargetEntries, DeltaFrame.HeaderText, Number, EntriesOf;
    var w, u := v.(sendTargets := true), v.(sendTargets := c.others);
    forall position: nat | Occupied(u, position)
      ensures Occupied(w, position) && PathAt(w, position) == PathAt(u, position)
      ensures ItemsAt(w, capacity, position) == ItemsAt(u, capacity, position)
    {}
    forall p | Selected(model, c, p)
      ensures Occupied(u, model[p].position) && PathAt(u, model[p].position) == p
    {
      assert Occupied(w, model[p].position) && PathAt(w, model[p].position) == p;
    }
  }

  /** What the client makes of the delivered items. */
  function Labels(v: View, items: seq<Datum>): (pieces: seq<Piece>)
    ensures |pieces| == |items|
    ensures forall i :: 0 <= i < |items| ==>
            pieces[i] == Piece(PathAt(v, items[i].position), items[i].index, items[i].entry)
  {
    seq(|items|, i requires 0 <= i < |items| => Piece(PathAt(v, items[i].position), items[i].index, items[i].entry))
  }

  function AtPosition(items: seq<Datum>, position: nat): seq<Datum> {
    if items == [] then []
    else (if items[0].position == position then [items[0]] else []) + AtPosition(items[1..], position)
  }

  lemma AtStep(items: seq<Datum>, position: nat)
    ensures items == [] ==> AtPosition(items, position) == []
    ensures items != [] ==>
              AtPosition(items, position) ==
              (if items[0].position == position then [items[0]] else []) + AtPosition(items[1..], position)
  {}

  lemma {:induction false} AtConcat(a: seq<Datum>, b: seq<Datum>, position: nat)
    ensures AtPosition(a + b, position) == AtPosition(a, position) + AtPosition(b, position)
    decreases |a|
  {
    hide AtPosition;
    AtStep(a, position);
    AtStep(a + b, position);
    if a == [] {
      assert a + b == b;
    } else {
      assert (a + b)[1..] == a[1..] + b && (a + b)[0] == a[0];
      AtConcat(a[1..], b, position);
      var first := if a[0].position == position then [a[0]] else [];
      assert first + (AtPosition(a[1..], position) + AtPosition(b, position)) ==
             first + AtPosition(a[1..], position) + AtPosition(b, position);
    }
  }

  lemma {:induction false} AtUniform(items: seq<Datum>, own: nat, position: nat)
    requires forall i :: 0 <= i < |items| ==> items[i].position == own
    ensures AtPosition(items, position) == if own == position then items else []
    decreases |items|
  {
    if items != [] {
      AtUniform(items[1..], own, position);
      assert items == [items[0]] + items[1..];
    }
  }

  lemma {:induction false} AtItemsFrom(v: View, capacity: nat, start: nat, position: nat)
    ensures AtPosition(ItemsFrom(v, capacity, start), position) ==
            if start <= position < v.End() then ItemsAt(v, capacity, position) else []
    decreases v.End() - start
  {
    hide ItemsAt, ItemsFrom, AtPosition;
    ItemsUnfold(v, capacity, start);
    if start < v.End() {
      var here, rest := ItemsAt(v, capacity, start), ItemsFrom(v, capacity, start + 1);
      AtConcat(here, rest, position);
      AtUniform(here, start, position);
      AtItemsFrom(v, capacity, start + 1, position);
    } else {
      AtUniform([], start, position);
    }
  }

  lemma AtAfter(v: View, capacity: nat, c: Cursor, position: nat)
    ensures var items := ItemsAt(v, capacity, position);
            AtPosition(After(v, capacity, c), position) ==
            if position < c.position || position >= v.End() then []
            else if position == c.position then items[Min(c.value, |items|)..]
            else items
  {
    hide ItemsAt, ItemsFrom, AtPosition, After;
    ItemsUnfold(v, capacity, c.position);
    AfterValue(v, capacity, c);
    if c.position < v.End() {
      var here, rest := ItemsAt(v, capacity, c.position), ItemsFrom(v, capacity, c.position + 1);
      var k := Min(c.value, |here|);
      assert (here + rest)[k..] == here[k..] + rest;
      AtConcat(here[k..], rest, position);
      AtUniform(here[k..], c.position, position);
      AtItemsFrom(v, capacity, c.position + 1, position);
    } else {
      AtUniform([], c.position, position);
    }
  }

  /** The items a pass delivered at one position, between its two cursors. */
  lemma AtSent(v: View, capacity: nat, from: Cursor, sent: seq<Datum>, complete: bool, next: Cursor, position: nat)
    requires PassSpec(v, capacity, from, sent, complete, next) && 0 < position < v.End()
    ensures var items := ItemsAt(v, capacity, position);
            var lo := if position == from.position then Min(from.value, |items|) else 0;
            var hi := if !complete && position == next.position then Min(next.value, |items|) else |items|;
            AtPosition(sent, position) ==
            if position < from.position || (!complete && next.position < position) then []
            else items[lo..if hi < lo then lo else hi]
  {
    hide ItemsAt, AtPosition, After;
    AtAfter(v, capacity, from, position);
    if !complete {
      AtAfter(v, capacity, next, position);
      AtConcat(sent, After(v, capacity, next), position);
      var items := ItemsAt(v, capacity, position);
      var lo := if position == from.position then Min(from.value, |items|) else 0;
      if position == next.position && from.position <= position {
        var hi := Min(next.value, |items|);
        assert AtPosition(sent, position) + items[hi..] == items[lo..];
        SplitSlice(AtPosition(sent, position), items, lo, hi);
      }
    }
  }

  lemma SplitSlice<T>(a: seq<T>, items: seq<T>, lo: nat, hi: nat)
    requires lo <= |items| && hi <= |items| && a + items[hi..] == items[lo..]
    ensures lo <= hi && a == items[lo..hi]
  {
    assert |a| + |items| - hi == |items| - lo;
    assert a == (a + items[hi..])[..|a|] == items[lo..][..|a|] == items[lo..hi];
  }

  /** The pieces of a path are the labelled items of its position. */
  lemma {:induction false} LabelsOf(v: View, items: seq<Datum>, p: Path, position: nat)
    requires forall i :: 0 <= i < |items| ==> (PathAt(v, items[i].position) == p <==> items[i].position == position)
    ensures Of(Labels(v, items), p) == Labels(v, AtPosition(items, position))
    decreases |items|
  {
    hide PathAt;
    var pieces := Labels(v, items);
    if items != [] {
      var rest := items[1..];
      assert pieces[1..] == Labels(v, rest);
      LabelsOf(v, rest, p, position);
      assert pieces[0].path == p <==> items[0].position == position;
      assert Labels(v, [items[0]] + AtPosition(rest, position)) == [pieces[0]] + Labels(v, AtPosition(rest, position));
      assert [] + AtPosition(rest, position) == AtPosition(rest, position);
    }
  }

  lemma {:induction false} ItemsOccupied(v: View, capacity: nat, start: nat, i: nat)
    requires 0 < start && i < |ItemsFrom(v, capacity, start)|
    ensures Occupied(v, ItemsFrom(v, capacity, start)[i].position)
    decreases v.End() - start
  {
    hide ItemsFrom, ValueEntries, PlainEntries, DeltaFrame.HeaderText, Number;
    ItemsUnfold(v, capacity, start);
    var here := ItemsAt(v, capacity, start);
    if i < |here| {
      assert ItemsFrom(v, capacity, start)[i] == here[i];
      if !Occupied(v, start) { NoItemsUnoccupied(v, capacity, start); }
    } else {
      ItemsOccupied(v, capacity, start + 1, i - |here|);
      assert ItemsFrom(v, capacity, start)[i] == ItemsFrom(v, capacity, start + 1)[i - |here|];
    }
  }

  lemma NoItemsUnoccupied(v: View, capacity: nat, position: nat)
    requires !Occupied(v, position)
    ensures ItemsAt(v, capacity, position) == []
  {
    hide ValueEntries, PlainEntries, DeltaFrame.HeaderText;
  }

  lemma SentOccupied(v: View, capacity: nat, from: Cursor, sent: seq<Datum>, complete: bool, next: Cursor, i: nat)
    requires PassSpec(v, capacity, from, sent, complete, next) && 0 < from.position && i < |sent|
    ensures Occupied(v, sent[i].position)
  {
    hide ItemsAt, ItemsFrom, After, Occupied;
    AfterValue(v, capacity, from);
    var k := Min(from.value, |ItemsAt(v, capacity, from.position)|);
    assert sent[i] == After(v, capacity, from)[i] == ItemsFrom(v, capacity, from.position)[k + i];
    ItemsOccupied(v, capacity, from.position, k + i);
  }

  function StopOf(complete: bool, next: Cursor): Option<Cursor> {
    if complete then None else Some(next)
  }

  /** For every path, a pass sends the client exactly the entries the protocol's step delivers. */
  lemma PassedIsSent(v: View, capacity: nat, model: map<Path, Entry>, c: Client, sent: seq<Datum>, complete: bool,
                     next: Cursor, p: Path)
    requires ShowsModel(v, capacity, model, c) && PassSpec(v, capacity, From(c), sent, complete, next)
    ensures Of(Labels(v, sent), p) == Passed(model, c, StopOf(complete, next), p)
  {
    hide ItemsAt, After, AtPosition, Labels, Of, PassSpec;
    var position := if Selected(model, c, p) then model[p].position else 0;
    forall i | 0 <= i < |sent|
      ensures sent[i].position != 0 && (PathAt(v, sent[i].position) == p <==> sent[i].position == position)
    {
      SentOccupied(v, capacity, From(c), sent, complete, next, i);
    }
    LabelsOf(v, sent, p, position);
    if Selected(model, c, p) {
      assert Occupied(v, position) && PathAt(v, position) == p;
      AtSent(v, capacity, From(c), sent, complete, next, position);
      var e, from, stop := model[p], From(c), StopOf(complete, next);
      var lo, hi := Low(e, from), High(e, from, stop);
      SliceLabels(v, capacity, position, lo, hi);
      NoLabels(v);
      assert EntriesOf(ItemsAt(v, capacity, position))[lo..hi] == e.value[lo..hi];
    } else {
      NothingAt(sent, 0);
      NoLabels(v);
    }
  }

  lemma {:induction false} NothingAt(items: seq<Datum>, position: nat)
    requires forall i :: 0 <= i < |items| ==> items[i].position != position
    ensures AtPosition(items, position) == []
    decreases |items|
  {
    if items != [] { NothingAt(items[1..], position); }
  }

  lemma NoLabels(v: View)
    ensures Labels(v, []) == []
  {}

  lemma SliceLabels(v: View, capacity: nat, position: nat, lo: nat, hi: nat)
    requires lo <= hi <= |ItemsAt(v, capacity, position)|
    ensures var items := ItemsAt(v, capacity, position);
            Labels(v, items[lo..hi]) == Pieces(PathAt(v, position), lo, EntriesOf(items)[lo..hi])
  {
    hide ItemsAt, PathAt;
  }

  /** A pass over a view of the model is an enabled pump of the protocol. */
  lemma PumpReaches(v: View, capacity: nat, s: System, id: ClientId, sent: seq<Datum>, complete: bool, next: Cursor)
    requires id in s.clients && s.clients[id].resync && ShowsModel(v, capacity, s.model, s.clients[id])
    requires PassSpec(v, capacity, From(s.clients[id]), sent, complete, next)
    ensures PumpEnabled(s, id, Labels(v, sent), StopOf(complete, next))
  {
    hide ItemsAt, ItemsFrom, After, Labels, Of, Passed;
    var c := s.clients[id];
    forall p
      ensures Of(Labels(v, sent), p) == Passed(s.model, c, StopOf(complete, next), p)
    {
      PassedIsSent(v, capacity, s.model, c, sent, complete, next, p);
    }
    if !complete {
      AfterValue(v, capacity, From(c));
      AfterValue(v, capacity, next);
    }
  }

  /**
   A pump of the server, as long as it has a buffer and a clock, is a step of
   the catch-up protocol: its flags and cursor are those after the step, and
   applying the deltas it sent to what the client had received gives what the
   client has received after the step.
   */
  lemma PumpIsStep(state: StreamDeliveryState, publisher: SignalKPublisher, l: Limits, v: View, complete: bool,
                   next: Cursor, setup: Setup, s: System, id: ClientId)
    requires id in s.clients && s.clients[id].resync && s.clients[id].others == state.others
    requires 0 < publisher.JsonCapacity(l.jsonBufferSize)
    requires ShowsModel(v, DeltaRoom(publisher.JsonCapacity(l.jsonBufferSize)), s.model, s.clients[id])
    requires state.Pumped(publisher, l, true, v, s.clients[id].cursor, s.clients[id].again, complete, next)
    ensures var step := Pump(id, Labels(v, Flatten(publisher.deltas)), StopOf(complete, next));
            && Enabled(setup, s, step)
            && state.Shows(Next(setup, s, step).clients[id])
            && Next(setup, s, step).clients[id].received ==
               ReceiveAll(s.clients[id].received, Labels(v, Flatten(publisher.deltas)))
  {
    hide ItemsAt, ItemsFrom, After, Flatten, Labels, ShowsModel, PumpEnabled, ReceiveAll;
    PumpReaches(v, DeltaRoom(publisher.JsonCapacity(l.jsonBufferSize)), s, id, Flatten(publisher.deltas), complete,
                next);
  }

  /**
   Without a clock or a buffer a pump sends nothing and ends the pass. That is a
   step of the protocol if and only if nothing was left to send.
   */
  lemma BlindPump(state: StreamDeliveryState, publisher: SignalKPublisher, l: Limits, clock: bool, v: View, room: nat,
                  complete: bool, next: Cursor, setup: Setup, s: System, id: ClientId)
    requires id in s.clients && s.clients[id].resync && ShowsModel(v, room, s.model, s.clients[id])
    requires !clock || publisher.JsonCapacity(l.jsonBufferSize) == 0
    requires state.Pumped(publisher, l, clock, v, s.clients[id].cursor, s.clients[id].again, complete, next)
    ensures publisher.deltas == [] && state.Finished(s.clients[id].again)
    ensures Enabled(setup, s, Pump(id, [], None)) <==> After(v, room, From(s.clients[id])) == []
  {
    hide After, ShowsModel, Passed, Of;
    var c := s.clients[id];
    var left := After(v, room, From(c));
    if left == [] {
      NoLabels(v);
      PumpReaches(v, room, s, id, [], true, Cursor(0, 0));
    } else {
      var p := FirstLeft(v, room, s.model, c);
      assert Of([], p) == [];
    }
  }

  /** The path of the next value to send has something to send. */
  lemma FirstLeft(v: View, room: nat, model: map<Path, Entry>, c: Client) returns (p: Path)
    requires ShowsModel(v, room, model, c) && After(v, room, From(c)) != []
    ensures Passed(model, c, None, p) != [] && Sendable(model, c, p) && Of([], p) == []
  {
    hide After, ShowsModel, Passed, ItemsAt;
    var left := After(v, room, From(c));
    var labels := Labels(v, left);
    p := labels[0].path;
    PassedIsSent(v, room, model, c, left, true, Cursor(0, 0), p);
    assert Of(labels, p) == [labels[0]] + Of(labels[1..], p);
    SomethingPassed(model, c, p);
  }

  lemma SomethingPassed(model: map<Path, Entry>, c: Client, p: Path)
    requires Passed(model, c, None, p) != []
    ensures Sendable(model, c, p)
  {}

  /** A client that had received nothing is then left without the value, and nothing will bring it. */
  lemma BlindPumpLoses(v: View, room: nat, setup: Setup, s: System, id: ClientId)
    requires id in s.clients && ShowsModel(v, room, s.model, s.clients[id])
    requires s.queue == [] && s.lost == {} && s.clients[id].received == map[]
    requires After(v, room, From(s.clients[id])) != []
    ensures !ClientInv(setup, s, s.clients[id].(resync := false, again := false))
  {
    hide After, ShowsModel, Passed;
    var p := FirstLeft(v, room, s.model, s.clients[id]);
    assert !Accounted(setup, s, s.clients[id].(resync := false, again := false), p);
  }

  // ----- A publish -----

  function Texts(parts: seq<PendingChanges.Part>): (t: Entries)
    ensures |t| == |parts| && forall i :: 0 <= i < |parts| ==> t[i] == parts[i].1
  {
    seq(|parts|, i requires 0 <= i < |parts| => parts[i].1)
  }

  function EntryTexts(pieces: seq<Piece>): (t: Entries)
    ensures |t| == |pieces| && forall i :: 0 <= i < |pieces| ==> t[i] == pieces[i].entry
  {
    seq(|pieces|, i requires 0 <= i < |pieces| => pieces[i].entry)
  }

  /** The slots of the targets that are sent, from `first` on. */
  function Slots(targets: seq<Target>, first: nat): seq<Path> {
    if targets == [] then []
    else (if targets[0].Target? then [TargetSlot(first)] else []) + Slots(targets[1..], first + 1)
  }

  /** The paths a change stands for. */
  function PathsOf(v: View, c: PendingChanges.Change): seq<Path> {
    match c
    case Unmapped => []
    case Targets(_) => Slots(v.targets, 0)
    case Mapped(_, _, path, _, _) => [SelfPath(path)]
  }

  /** The paths sent, in order; repeats are left out. */
  function OrderOf(v: View, capacity: nat, changes: seq<PendingChanges.Change>, last: PendingChanges.Last): seq<Path> {
    if changes == [] then []
    else
      var c, rest := changes[0], changes[1..];
      match c
      case Unmapped => OrderOf(v, capacity, rest, last)
      case Targets(_) => Slots(v.targets, 0) + OrderOf(v, capacity, rest, None)
      case Mapped(source, address, path, _, _) =>
        if last == Some((source, address)) then OrderOf(v, capacity, rest, last)
        else [SelfPath(path)] + OrderOf(v, capacity, rest, PendingChanges.LastAfter(v, capacity, c))
  }

  /** The model holds, for every path of the changes, the entries the change is sent as. */
  ghost predicate Carries(v: View, capacity: nat, model: map<Path, Entry>, c: PendingChanges.Change) {
    match c
    case Unmapped => true
    case Targets(sourceLabel) => CarriesTargets(v.(targetLabel := sourceLabel), capacity, model, v.targets, 0)
    case Mapped(_, _, path, _, _) =>
      SelfPath(path) in model && model[SelfPath(path)].value == Texts(PendingChanges.ChangeParts(v, capacity, c))
  }

  ghost predicate CarriesTargets(v: View, capacity: nat, model: map<Path, Entry>, targets: seq<Target>, first: nat) {
    targets == [] ||
    (&& (targets[0].Target? ==>
           && TargetSlot(first) in model
           && model[TargetSlot(first)].value == TargetEntries(capacity, v.TargetHeader(targets[0]), targets[0]))
     && CarriesTargets(v, capacity, model, targets[1..], first + 1))
  }

  lemma TextsConcat(a: seq<PendingChanges.Part>, b: seq<PendingChanges.Part>)
    ensures Texts(a + b) == Texts(a) + Texts(b)
  {}

  lemma EntryTextsConcat(a: seq<Piece>, b: seq<Piece>)
    ensures EntryTexts(a + b) == EntryTexts(a) + EntryTexts(b)
  {}

  lemma RunTexts(p: Path, entries: Entries)
    ensures EntryTexts(Pieces(p, 0, entries)) == entries
  {}

  ghost predicate InModel(model: map<Path, Entry>, order: seq<Path>) {
    forall p :: p in order ==> p in model
  }

  lemma {:induction false} RunsConcat(model: map<Path, Entry>, a: seq<Path>, b: seq<Path>)
    requires InModel(model, a) && InModel(model, b)
    ensures WholeRuns(model, a + b) == WholeRuns(model, a) + WholeRuns(model, b)
    decreases |a|
  {
    hide Pieces;
    if a == [] {
      assert a + b == b;
    } else {
      assert (a + b)[1..] == a[1..] + b;
      assert a == [a[0]] + a[1..];
      RunsConcat(model, a[1..], b);
    }
  }

  lemma {:induction false} TargetRuns(v: View, capacity: nat, model: map<Path, Entry>, targets: seq<Target>, first: nat)
    requires CarriesTargets(v, capacity, model, targets, first)
    ensures InModel(model, Slots(targets, first))
    ensures EntryTexts(WholeRuns(model, Slots(targets, first))) ==
            Texts(PendingChanges.TargetParts(v, capacity, targets))
    decreases |targets|
  {
    hide Pieces, DeltaFrame.HeaderText, TargetEntries, WholeRuns;
    NoRuns(model);
    if targets != [] {
      TargetRuns(v, capacity, model, targets[1..], first + 1);
      if targets[0].Target? {
        var p, entries := TargetSlot(first), TargetEntries(capacity, v.TargetHeader(targets[0]), targets[0]);
        OneRun(model, p);
        RunsConcat(model, [p], Slots(targets[1..], first + 1));
        RunTexts(p, entries);
        EntryTextsConcat(WholeRuns(model, [p]), WholeRuns(model, Slots(targets[1..], first + 1)));
        var parts := PendingChanges.Under(v.TargetHeader(targets[0]), entries);
        TextsConcat(parts, PendingChanges.TargetParts(v, capacity, targets[1..]));
        assert Texts(parts) == entries;
      } else {
        assert [] + Slots(targets[1..], first + 1) == Slots(targets[1..], first + 1);
      }
    }
  }

  lemma NoRuns(model: map<Path, Entry>)
    ensures WholeRuns(model, []) == [] && EntryTexts([]) == [] && Texts([]) == []
  {}

  lemma OneRun(model: map<Path, Entry>, p: Path)
    requires p in model
    ensures WholeRuns(model, [p]) == Pieces(p, 0, model[p].value)
  {
    assert [p][1..] == [];
    NoRuns(model);
  }

  /** What is sent for the changes are the whole runs of the paths sent. */
  lemma {:induction false} SentIsRuns(v: View, capacity: nat, model: map<Path, Entry>,
                                      changes: seq<PendingChanges.Change>, last: PendingChanges.Last)
    requires forall i :: 0 <= i < |changes| ==> Carries(v, capacity, model, changes[i])
    ensures InModel(model, OrderOf(v, capacity, changes, last))
    ensures EntryTexts(WholeRuns(model, OrderOf(v, capacity, changes, last))) ==
            Texts(PendingChanges.SentParts(v, capacity, changes, last))
    decreases |changes|
  {
    hide Pieces, WholeRuns, PendingChanges.ChangeParts, PendingChanges.TargetParts, PendingChanges.LastAfter,
         CarriesTargets;
    NoRuns(model);
    if changes != [] {
      var c, rest := changes[0], changes[1..];
      assert forall i :: 0 <= i < |rest| ==> rest[i] == changes[i + 1];
      assert Carries(v, capacity, model, c);
      match c
      case Unmapped => SentIsRuns(v, capacity, model, rest, last);
      case Targets(sourceLabel) =>
        SentIsRuns(v, capacity, model, rest, None);
        var w := v.(targetLabel := sourceLabel);
        TargetRuns(w, capacity, model, v.targets, 0);
        JoinRuns(model, Slots(v.targets, 0), OrderOf(v, capacity, rest, None),
                 PendingChanges.TargetParts(w, capacity, v.targets), PendingChanges.SentParts(v, capacity, rest, None));
      case Mapped(source, address, path, _, _) =>
        if last == Some((source, address)) {
          SentIsRuns(v, capacity, model, rest, last);
        } else {
          var after := PendingChanges.LastAfter(v, capacity, c);
          SentIsRuns(v, capacity, model, rest, after);
          OneRun(model, SelfPath(path));
          RunTexts(SelfPath(path), model[SelfPath(path)].value);
          JoinRuns(model, [SelfPath(path)], OrderOf(v, capacity, rest, after),
                   PendingChanges.ChangeParts(v, capacity, c), PendingChanges.SentParts(v, capacity, rest, after));
        }
    }
  }

  lemma JoinRuns(model: map<Path, Entry>, a: seq<Path>, b: seq<Path>, pa: seq<PendingChanges.Part>,
                 pb: seq<PendingChanges.Part>)
    requires InModel(model, a) && InModel(model, b)
    requires EntryTexts(WholeRuns(model, a)) == Texts(pa) && EntryTexts(WholeRuns(model, b)) == Texts(pb)
    ensures InModel(model, a + b) && EntryTexts(WholeRuns(model, a + b)) == Texts(pa + pb)
  {
    hide WholeRuns;
    RunsConcat(model, a, b);
    EntryTextsConcat(WholeRuns(model, a), WholeRuns(model, b));
    TextsConcat(pa, pb);
  }

  /** An address stands for one path. */
  predicate Named(changes: seq<PendingChanges.Change>) {
    forall c, d :: c in changes && d in changes && c.Mapped? && d.Mapped? && c.address == d.address ==> c.path == d.path
  }

  /** Leaving repeats out leaves no path out. */
  lemma {:induction false} OrderCovers(v: View, capacity: nat, changes: seq<PendingChanges.Change>,
                                       last: PendingChanges.Last, lastPath: string, k: nat, p: Path)
    requires Named(changes) && k < |changes| && p in PathsOf(v, changes[k])
    requires last.Some? ==> forall c :: c in changes && c.Mapped? && c.address == last.value.1 ==> c.path == lastPath
    ensures p in OrderOf(v, capacity, changes, last) || (last.Some? && p == SelfPath(lastPath))
    decreases |changes|
  {
    hide Slots;
    var c, rest := changes[0], changes[1..];
    assert changes == [c] + rest;
    match c
    case Unmapped => if k > 0 { OrderCovers(v, capacity, rest, last, lastPath, k - 1, p); }
    case Targets(_) => if k > 0 { OrderCovers(v, capacity, rest, None, lastPath, k - 1, p); }
    case Mapped(source, address, path, _, _) =>
      if last == Some((source, address)) {
        if k > 0 { OrderCovers(v, capacity, rest, last, lastPath, k - 1, p); }
      } else if k > 0 {
        OrderCovers(v, capacity, rest, PendingChanges.LastAfter(v, capacity, c), path, k - 1, p);
      }
  }

  /** The pieces of each delta, with the clients that accepted it. */
  function Cut(pieces: seq<Piece>, deltas: seq<seq<Datum>>, accepted: seq<set<ClientId>>): (r: seq<Delta>)
    requires |accepted| == |deltas| && |pieces| == |Flatten(deltas)|
    ensures |r| == |deltas|
    decreases |deltas|
  {
    if deltas == [] then []
    else
      var n := |deltas| - 1;
      var k := |Flatten(deltas[..n])|;
      Cut(pieces[..k], deltas[..n], accepted[..n]) + [Delta(pieces[k..], accepted[n])]
  }

  lemma {:induction false} AllPiecesConcat(a: seq<Delta>, b: seq<Delta>)
    ensures AllPieces(a + b) == AllPieces(a) + AllPieces(b)
    decreases |a|
  {
    if a == [] {
      assert a + b == b;
    } else {
      assert (a + b)[1..] == a[1..] + b;
      AllPiecesConcat(a[1..], b);
    }
  }

  /** Cutting the pieces where the deltas end loses nothing, and each delta holds its own entries. */
  lemma {:induction false} CutKeeps(pieces: seq<Piece>, deltas: seq<seq<Datum>>, accepted: seq<set<ClientId>>)
    requires |accepted| == |deltas| && EntryTexts(pieces) == EntriesOf(Flatten(deltas))
    ensures |pieces| == |Flatten(deltas)| && AllPieces(Cut(pieces, deltas, accepted)) == pieces
    ensures forall i :: 0 <= i < |deltas| ==>
              var d := Cut(pieces, deltas, accepted)[i];
              EntryTexts(d.pieces) == EntriesOf(deltas[i]) && d.accepted == accepted[i]
    decreases |deltas|
  {
    hide AllPieces, Flatten, Cut, EntryTexts, EntriesOf;
    FlattenLast(deltas);
    assert Flatten(deltas) + [] == Flatten(deltas);
    SplitTexts(pieces, Flatten(deltas), []);
    CutStep(pieces, deltas, accepted);
    if deltas == [] {
      AllPiecesStep([]);
    } else {
      var n := |deltas| - 1;
      var head := Flatten(deltas[..n]);
      var k := |head|;
      SplitTexts(pieces, head, deltas[n]);
      CutKeeps(pieces[..k], deltas[..n], accepted[..n]);
      var last := [Delta(pieces[k..], accepted[n])];
      AllPiecesConcat(Cut(pieces[..k], deltas[..n], accepted[..n]), last);
      AllPiecesStep(last);
      AllPiecesStep(last[1..]);
      assert pieces[..k] + (pieces[k..] + []) == pieces;
    }
  }

  lemma CutStep(pieces: seq<Piece>, deltas: seq<seq<Datum>>, accepted: seq<set<ClientId>>)
    requires |accepted| == |deltas| && |pieces| == |Flatten(deltas)|
    ensures deltas == [] ==> Cut(pieces, deltas, accepted) == []
    ensures deltas != [] ==>
              var n := |deltas| - 1;
              var k := |Flatten(deltas[..n])|;
              Cut(pieces, deltas, accepted) == Cut(pieces[..k], deltas[..n], accepted[..n]) +
                [Delta(pieces[k..], accepted[n])]
  {}

  lemma SplitTexts(pieces: seq<Piece>, head: seq<Datum>, tail: seq<Datum>)
    requires EntryTexts(pieces) == EntriesOf(head + tail)
    ensures |pieces| == |head| + |tail|
    ensures EntryTexts(pieces[..|head|]) == EntriesOf(head) && EntryTexts(pieces[|head|..]) == EntriesOf(tail)
  {
    var k, texts := |head|, EntryTexts(pieces);
    assert |texts| == |EntriesOf(head + tail)|;
    assert forall i :: 0 <= i < k ==> pieces[i].entry == texts[i] == (head + tail)[i].entry == head[i].entry;
    assert forall i :: k <= i < |pieces| ==> pieces[i].entry == texts[i] == (head + tail)[i].entry == tail[i - k].entry;
  }

  lemma FlattenLast(deltas: seq<seq<Datum>>)
    ensures deltas == [] ==> Flatten(deltas) == []
    ensures deltas != [] ==> Flatten(deltas) == Flatten(deltas[..|deltas| - 1]) + deltas[|deltas| - 1]
  {}

  /** Each change is mapped to every path it concerns that still has something to send. */
  ghost predicate CoversMapped(setup: Setup, model: map<Path, Entry>, v: View, queued: seq<ChangeQueue.Change>,
                               changes: seq<PendingChanges.Change>)
    requires |queued| == |changes|
  {
    forall k, p :: 0 <= k < |queued| && p in setup.covers(queued[k].field) && HasEntries(model, p) ==>
      p in PathsOf(v, changes[k])
  }

  /**
   A publish of the server is a step of the catch-up protocol: taking `n`
   changes from the queue, its deltas hold exactly the entries the step offers,
   delta by delta, to whichever clients accept them.
   */
  lemma PublishIsStep(setup: Setup, s: System, v: View, capacity: nat, n: nat,
                      mapping: ChangeQueue.Change -> PendingChanges.Change, deltas: seq<seq<Datum>>,
                      accepted: seq<set<ClientId>>)
    requires n <= |s.queue| && |accepted| == |deltas|
    requires var changes := PendingChanges.MapAll(mapping, s.queue[..n]);
             && Named(changes) && CoversMapped(setup, s.model, v, s.queue[..n], changes)
             && (forall i :: 0 <= i < n ==> Carries(v, capacity, s.model, changes[i]))
             && PendingChanges.Parts(Flatten(deltas)) == PendingChanges.SentParts(v, capacity, changes, None)
    ensures var order := OrderOf(v, capacity, PendingChanges.MapAll(mapping, s.queue[..n]), None);
            && InModel(s.model, order)
            && |WholeRuns(s.model, order)| == |Flatten(deltas)|
            && var step := Publish(n, order, Cut(WholeRuns(s.model, order), deltas, accepted));
               && Enabled(setup, s, step)
               && forall i :: 0 <= i < |deltas| ==>
                    EntryTexts(step.deltas[i].pieces) == EntriesOf(deltas[i]) && step.deltas[i].accepted == accepted[i]
  {
    hide WholeRuns, Flatten, Cut, Covered, OrderOf, PendingChanges.SentParts, Carries, Named, AllPieces;
    var changes := PendingChanges.MapAll(mapping, s.queue[..n]);
    var order := OrderOf(v, capacity, changes, None);
    SentIsRuns(v, capacity, s.model, changes, None);
    PartTexts(Flatten(deltas));
    CutKeeps(WholeRuns(s.model, order), deltas, accepted);
    forall p | p in Covered(setup, s.queue[..n]) && HasEntries(s.model, p)
      ensures p in order
    {
      var k := CoveredWitness(setup, s.queue[..n], p);
      OrderCovers(v, capacity, changes, None, "", k, p);
    }
  }

  lemma PartTexts(items: seq<Datum>)
    ensures Texts(PendingChanges.Parts(items)) == EntriesOf(items)
  {}

  // ----- What a quiet client holds -----

  /**
   In every reachable state with an empty queue that never overflowed, a client
   that is not catching up has received exactly the entries the value of a
   current field is broken into; it has the whole value if and only if that fits
   a delta.
   */
  lemma QuietClientHolds(setup: Setup, states: seq<System>, actions: seq<Action>, n: nat, id: ClientId,
                         v: View, capacity: nat, position: nat)
    requires IsRun(setup, states, actions) && n < |states| && states[n].queue == [] && states[n].drops == 0
    requires id in states[n].clients && !states[n].clients[id].resync
    requires ShowsModel(v, capacity, states[n].model, states[n].clients[id])
    requires 0 < position < v.Base() && v.fields[position].Field?
    requires var f := v.fields[position]; FieldEntries(capacity, v.FieldHeader(f.source), f) != []
    ensures var f := v.fields[position];
            var room := capacity - |v.FieldHeader(f.source)|;
            var have := Got(states[n].clients[id].received, SelfPath(f.path));
            && have == ValueEntries(room, f.path, f.value)
            && (f.value.writer.completes ==>
                  (have == [Whole(f.path, f.value.writer)] <==> Fits(room, f.path, f.value.writer)))
  {
    hide IsRun, ValueEntries, DeltaFrame.HeaderText, Number;
    var f := v.fields[position];
    var room, p := capacity - |v.FieldHeader(f.source)|, SelfPath(f.path);
    assert Occupied(v, position) && PathAt(v, position) == p;
    FieldItems(v, capacity, position);
    NumberEntries(position, v.FieldHeader(f.source), ValueEntries(room, f.path, f.value));
    QuietReachableAgrees(setup, states, actions, n, id, p);
    if f.value.writer.completes { WholeIffFits(room, f.path, f.value); }
  }

  lemma NumberEntries(position: nat, header: string, entries: seq<string>)
    ensures EntriesOf(Number(position, 0, header, entries)) == entries
  {}

  lemma WholeIffFits(room: int, path: string, value: Value)
    requires value.writer.completes
    ensures ValueEntries(room, path, value) == [Whole(path, value.writer)] <==> Fits(room, path, value.writer)
  {
    hide SplitEntries, ShortenedEntries;
    EveryEntryFits(room, path, value);
    if ValueEntries(room, path, value) == [Whole(path, value.writer)] {
      assert Whole(path, value.writer) in ValueEntries(room, path, value);
    }
  }
}
