/**
 The catch-up protocol of the stream server as a transition system: model
 changes are queued, published to every client that can take them, and a
 client that cannot is caught up later by a resumable snapshot. No per-client
 queue is kept, yet no update is lost.

 What a client has received is computed from the delta entries that reached
 it. A value stands for the entries sent for it; it is empty when the value
 fits no delta, and then nothing can be promised about the path.
 */
module CatchUp {
  import opened JsonText
  import opened ChangeQueue
  import opened Snapshot

  /** A path of the own vessel, or everything sent about one AIS target. */
  datatype Path = SelfPath(path: string) | TargetSlot(slot: nat)

  type Entries = seq<string>
  type ClientId = nat

  /** What is sent for a path, the position of the field that wins it, and whether it has expired. */
  datatype Entry = Entry(value: Entries, position: nat, current: bool)

  /** One delta entry: number `index` of those sent for its path. */
  datatype Piece = Piece(path: Path, index: nat, entry: string)

  /** `StreamDeliveryState`, and for every path the entries the client has received since entry 0. */
  datatype Client = Client(resync: bool, again: bool, cursor: Cursor, others: bool, received: map<Path, Entries>)

  /** `lost` holds paths whose queued change was dropped because the queue was full. */
  datatype System = System(
    model: map<Path, Entry>,
    queue: seq<Change>,
    lost: set<Path>,
    drops: nat,
    clients: map<ClientId, Client>)

  /** Which paths a field's change concerns, and the queue size. */
  datatype Setup = Setup(covers: nat -> set<Path>, capacity: nat)

  datatype Delta = Delta(pieces: seq<Piece>, accepted: set<ClientId>)

  /**
   A publish takes `count` changes and sends what stands for the paths in
   `order`, cut into deltas. A pump sends `pieces` to one client and stops at a
   cursor, or completes the pass.
   */
  datatype Action =
    | MarkChanged(change: Change, updates: map<Path, Entry>)
    | Expire(path: Path)
    | Publish(count: nat, order: seq<Path>, deltas: seq<Delta>)
    | Pump(client: ClientId, pieces: seq<Piece>, stop: Option<Cursor>)
    | Subscribe(client: ClientId, others: bool)
    | Unsubscribe(client: ClientId)

  // ----- Receiving entries -----

  function Got(received: map<Path, Entries>, p: Path): Entries {
    if p in received then received[p] else []
  }

  /** Entry `index` continues the first `index` entries; after a gap nothing is known. */
  function Feed(have: Entries, index: nat, entry: string): Entries {
    if index <= |have| then have[..index] + [entry] else []
  }

  function ReceiveAll(received: map<Path, Entries>, pieces: seq<Piece>): map<Path, Entries>
    decreases |pieces|
  {
    if pieces == [] then received
    else
      var x := pieces[0];
      ReceiveAll(received[x.path := Feed(Got(received, x.path), x.index, x.entry)], pieces[1..])
  }

  /** The pieces of one path. */
  function Of(pieces: seq<Piece>, p: Path): seq<Piece> {
    if pieces == [] then []
    else (if pieces[0].path == p then [pieces[0]] else []) + Of(pieces[1..], p)
  }

  function FeedAll(have: Entries, pieces: seq<Piece>): Entries
    decreases |pieces|
  {
    if pieces == [] then have else FeedAll(Feed(have, pieces[0].index, pieces[0].entry), pieces[1..])
  }

  /** Consecutive entries of one path. */
  function Pieces(p: Path, first: nat, entries: Entries): (r: seq<Piece>)
    ensures |r| == |entries| && forall i :: 0 <= i < |r| ==> r[i] == Piece(p, first + i, entries[i])
  {
    seq(|entries|, i requires 0 <= i < |entries| => Piece(p, first + i, entries[i]))
  }

  /** What a client has of a path depends only on that path's pieces. */
  lemma {:induction false} ReceiveAt(received: map<Path, Entries>, pieces: seq<Piece>, p: Path)
    ensures Got(ReceiveAll(received, pieces), p) == FeedAll(Got(received, p), Of(pieces, p))
    decreases |pieces|
  {
    hide Feed;
    if pieces != [] {
      var x, rest := pieces[0], pieces[1..];
      var next := received[x.path := Feed(Got(received, x.path), x.index, x.entry)];
      ReceiveAt(next, rest, p);
      if x.path == p {
        assert Of(pieces, p) == [x] + Of(rest, p);
        assert ([x] + Of(rest, p))[1..] == Of(rest, p);
      } else {
        assert Of(pieces, p) == [] + Of(rest, p) == Of(rest, p);
      }
    }
  }

  lemma {:induction false} FeedConcat(have: Entries, a: seq<Piece>, b: seq<Piece>)
    ensures FeedAll(have, a + b) == FeedAll(FeedAll(have, a), b)
    decreases |a|
  {
    hide Feed;
    if a == [] {
      assert a + b == b;
    } else {
      assert (a + b)[1..] == a[1..] + b;
      FeedConcat(Feed(have, a[0].index, a[0].entry), a[1..], b);
    }
  }

  lemma FeedStep(have: Entries, pieces: seq<Piece>)
    ensures pieces == [] ==> FeedAll(have, pieces) == have
    ensures pieces != [] ==> FeedAll(have, pieces) == FeedAll(Feed(have, pieces[0].index, pieces[0].entry), pieces[1..])
  {}

  lemma PiecesTail(p: Path, first: nat, entries: Entries)
    requires entries != []
    ensures Pieces(p, first, entries)[1..] == Pieces(p, first + 1, entries[1..])
  {}

  /** Entries that continue what the client has take their place behind it. */
  lemma {:induction false} FeedRun(have: Entries, p: Path, first: nat, entries: Entries)
    requires first <= |have|
    ensures FeedAll(have, Pieces(p, first, entries)) == if entries == [] then have else have[..first] + entries
    decreases |entries|
  {
    hide FeedAll, Pieces;
    FeedStep(have, Pieces(p, first, entries));
    if entries != [] {
      var next := Feed(have, first, entries[0]);
      PiecesTail(p, first, entries);
      FeedRun(next, p, first + 1, entries[1..]);
      assert next[..first + 1] == next;
      assert next + entries[1..] == have[..first] + entries;
    }
  }

  lemma OfStep(pieces: seq<Piece>, p: Path)
    ensures pieces == [] ==> Of(pieces, p) == []
    ensures pieces != [] ==> Of(pieces, p) == (if pieces[0].path == p then [pieces[0]] else []) + Of(pieces[1..], p)
  {}

  lemma {:induction false} OfConcat(a: seq<Piece>, b: seq<Piece>, p: Path)
    ensures Of(a + b, p) == Of(a, p) + Of(b, p)
    decreases |a|
  {
    hide Of;
    OfStep(a, p);
    OfStep(a + b, p);
    if a == [] {
      assert a + b == b;
    } else {
      assert (a + b)[1..] == a[1..] + b && (a + b)[0] == a[0];
      OfConcat(a[1..], b, p);
      var first := if a[0].path == p then [a[0]] else [];
      assert first + (Of(a[1..], p) + Of(b, p)) == first + Of(a[1..], p) + Of(b, p);
    }
  }

  lemma {:induction false} OfRun(p: Path, first: nat, entries: Entries, q: Path)
    ensures Of(Pieces(p, first, entries), q) == if p == q then Pieces(p, first, entries) else []
    decreases |entries|
  {
    var run := Pieces(p, first, entries);
    if entries != [] {
      assert run[1..] == Pieces(p, first + 1, entries[1..]);
      OfRun(p, first + 1, entries[1..], q);
      assert run == [run[0]] + run[1..];
    }
  }

  // ----- Pieces of the protocol -----

  function Covered(setup: Setup, queue: seq<Change>): set<Path> {
    if queue == [] then {} else setup.covers(queue[0].field) + Covered(setup, queue[1..])
  }

  /** A snapshot for the client includes the path. */
  predicate Selected(model: map<Path, Entry>, c: Client, p: Path) {
    p in model && model[p].current && (c.others || p.SelfPath?)
  }

  const NoCursor: Cursor := Cursor(0, 0)

  function NewClient(others: bool): Client {
    Client(false, false, NoCursor, others, map[])
  }

  function RequestResync(c: Client): Client {
    if c.resync then c.(again := true) else c.(resync := true, again := false, cursor := NoCursor)
  }

  /** A delta reaches the client whole, or the client is marked for catch-up. */
  function Offer(delta: Delta, id: ClientId, c: Client): Client {
    if id in delta.accepted then c.(received := ReceiveAll(c.received, delta.pieces)) else RequestResync(c)
  }

  function OfferAll(deltas: seq<Delta>, id: ClientId, c: Client): Client
    decreases |deltas|
  {
    if deltas == [] then c else OfferAll(deltas[1..], id, Offer(deltas[0], id, c))
  }

  function AllPieces(deltas: seq<Delta>): seq<Piece> {
    if deltas == [] then [] else deltas[0].pieces + AllPieces(deltas[1..])
  }

  /** Everything sent for the paths, one after the other. */
  function WholeRuns(model: map<Path, Entry>, order: seq<Path>): seq<Piece>
    requires forall p :: p in order ==> p in model
  {
    if order == [] then [] else Pieces(order[0], 0, model[order[0]].value) + WholeRuns(model, order[1..])
  }

  function PathSet(order: seq<Path>): set<Path> {
    set p | p in order
  }

  // ----- One catch-up pass -----

  function From(c: Client): Cursor {
    Started(c.cursor)
  }

  predicate NotBefore(a: Cursor, b: Cursor) {
    a.position < b.position || (a.position == b.position && a.value <= b.value)
  }

  function Low(e: Entry, from: Cursor): nat {
    if e.position == from.position then Min(from.value, |e.value|) else 0
  }

  function High(e: Entry, from: Cursor, stop: Option<Cursor>): (h: nat)
    ensures Low(e, from) <= h <= |e.value|
  {
    var h := if stop.Some? && e.position == stop.value.position then Min(stop.value.value, |e.value|) else |e.value|;
    if h < Low(e, from) then Low(e, from) else h
  }

  predicate InRange(e: Entry, from: Cursor, stop: Option<Cursor>) {
    from.position <= e.position && (stop.None? || e.position <= stop.value.position)
  }

  /** The entries a pass sends for a path: those between its two cursors. */
  function Passed(model: map<Path, Entry>, c: Client, stop: Option<Cursor>, p: Path): seq<Piece> {
    if Selected(model, c, p) && InRange(model[p], From(c), stop) then
      var e := model[p];
      Pieces(p, Low(e, From(c)), e.value[Low(e, From(c))..High(e, From(c), stop)])
    else []
  }

  function AfterPump(c: Client, pieces: seq<Piece>, stop: Option<Cursor>): Client {
    var d := c.(received := ReceiveAll(c.received, pieces));
    match stop
    case Some(to) => d.(cursor := to)
    case None => if c.again then d.(again := false, cursor := NoCursor) else d.(resync := false, cursor := NoCursor)
  }

  // ----- Transitions -----

  ghost predicate UniquePositions(model: map<Path, Entry>) {
    && (forall p :: p in model ==> model[p].position > 0)
    && (forall p, q :: p in model && q in model && model[p].position == model[q].position ==> p == q)
  }

  /** The path is current and something is sent for it. */
  predicate HasEntries(model: map<Path, Entry>, p: Path) {
    p in model && model[p].current && model[p].value != []
  }

  /** A change whose path no longer has a value is taken from the queue without sending anything. */
  ghost predicate PublishEnabled(setup: Setup, s: System, count: nat, order: seq<Path>, deltas: seq<Delta>) {
    && count <= |s.queue| && (forall p :: p in order ==> p in s.model)
    && (forall p :: p in Covered(setup, s.queue[..count]) && HasEntries(s.model, p) ==> p in order)
    && AllPieces(deltas) == WholeRuns(s.model, order)
  }

  ghost predicate PumpEnabled(s: System, id: ClientId, pieces: seq<Piece>, stop: Option<Cursor>) {
    && id in s.clients && s.clients[id].resync
    && (forall p :: Of(pieces, p) == Passed(s.model, s.clients[id], stop, p))
    && (stop.Some? ==> NotBefore(From(s.clients[id]), stop.value))
    && (stop.Some? ==> forall p :: Selected(s.model, s.clients[id], p) && s.model[p].position == stop.value.position ==>
          stop.value.value < |s.model[p].value|)
  }

  ghost predicate Enabled(setup: Setup, s: System, a: Action) {
    match a
    case MarkChanged(change, updates) =>
      updates.Keys <= setup.covers(change.field) && UniquePositions(s.model + updates)
    case Expire(_) => true
    case Publish(count, order, deltas) => PublishEnabled(setup, s, count, order, deltas)
    case Pump(id, pieces, stop) => PumpEnabled(s, id, pieces, stop)
    case Subscribe(_, _) => true
    case Unsubscribe(_) => true
  }

  ghost function Next(setup: Setup, s: System, a: Action): System
    requires Enabled(setup, s, a)
  {
    match a
    case MarkChanged(change, updates) =>
      var drops := !Pending(s.queue, change) && |s.queue| == setup.capacity && s.queue != [];
      s.(model := s.model + updates,
         queue := Pushed(s.queue, change, setup.capacity),
         lost := if drops then s.lost + setup.covers(s.queue[0].field) else s.lost,
         drops := if drops then s.drops + 1 else s.drops)
    case Expire(p) =>
      if p in s.model then s.(model := s.model[p := s.model[p].(current := false)]) else s
    case Publish(count, order, deltas) =>
      s.(queue := s.queue[count..],
         lost := s.lost - PathSet(order),
         clients := map id | id in s.clients :: OfferAll(deltas, id, s.clients[id]))
    case Pump(id, pieces, stop) =>
      s.(clients := s.clients[id := AfterPump(s.clients[id], pieces, stop)])
    case Subscribe(id, others) =>
      s.(clients := s.clients[id := RequestResync(NewClient(others))])
    case Unsubscribe(id) =>
      s.(clients := s.clients - {id})
  }

  // ----- No lost update -----

  /** The client's entries are exactly those sent for the current value. */
  predicate UpToDate(model: map<Path, Entry>, c: Client, p: Path)
    requires p in model
  {
    Got(c.received, p) == model[p].value
  }

  /** The pass in progress will still bring the client what it lacks of the current value. */
  predicate StillToCome(model: map<Path, Entry>, c: Client, p: Path)
    requires p in model
  {
    var from, e, have := From(c), model[p], Got(c.received, p);
    && c.resync
    && (|| c.again || from.position < e.position
        || (from.position == e.position && from.value < |e.value| && from.value <= |have| &&
            have[..from.value] == e.value[..from.value]))
  }

  ghost predicate Accounted(setup: Setup, s: System, c: Client, p: Path)
    requires p in s.model
  {
    UpToDate(s.model, c, p) || p in Covered(setup, s.queue) || p in s.lost || StillToCome(s.model, c, p)
  }

  /** A snapshot would send something for the path. */
  predicate Sendable(model: map<Path, Entry>, c: Client, p: Path) {
    Selected(model, c, p) && model[p].value != []
  }

  ghost predicate ClientInv(setup: Setup, s: System, c: Client) {
    && (c.again ==> c.resync)
    && forall p :: Sendable(s.model, c, p) ==> Accounted(setup, s, c, p)
  }

  ghost predicate Inv(setup: Setup, s: System) {
    && UniquePositions(s.model)
    && (s.drops == 0 ==> s.lost == {})
    && forall id :: id in s.clients ==> ClientInv(setup, s, s.clients[id])
  }

  /** A client that is not being caught up agrees with the model once the queue is empty. */
  lemma QuietClientAgrees(setup: Setup, s: System, id: ClientId, p: Path)
    requires Inv(setup, s) && s.queue == [] && s.drops == 0
    requires id in s.clients && !s.clients[id].resync && Sendable(s.model, s.clients[id], p)
    ensures Got(s.clients[id].received, p) == s.model[p].value
  {
    assert ClientInv(setup, s, s.clients[id]);
    assert Accounted(setup, s, s.clients[id], p);
  }

  lemma {:induction false} CoveredMember(setup: Setup, q: seq<Change>, i: nat)
    requires i < |q|
    ensures setup.covers(q[i].field) <= Covered(setup, q)
  {
    if i > 0 { CoveredMember(setup, q[1..], i - 1); }
  }

  lemma {:induction false} CoveredWitness(setup: Setup, q: seq<Change>, p: Path) returns (i: nat)
    requires p in Covered(setup, q)
    ensures i < |q| && p in setup.covers(q[i].field)
  {
    if p in setup.covers(q[0].field) {
      i := 0;
    } else {
      i := CoveredWitness(setup, q[1..], p);
      i := i + 1;
    }
  }

  /** Marking keeps every queued path accounted for, and accounts for the changed ones. */
  lemma PushCovers(setup: Setup, q: seq<Change>, c: Change)
    ensures setup.covers(c.field) <= Covered(setup, Pushed(q, c, setup.capacity))
    ensures var drops := !Pending(q, c) && |q| == setup.capacity && q != [];
            Covered(setup, q) <= Covered(setup, Pushed(q, c, setup.capacity)) +
              (if drops then setup.covers(q[0].field) else {})
  {
    hide Covered;
    var r := Pushed(q, c, setup.capacity);
    if Pending(q, c) {
      var k :| 0 <= k < |q| && SameKey(q[k], c);
      CoveredMember(setup, r, k);
    } else {
      CoveredMember(setup, r, |r| - 1);
    }
    forall p | p in Covered(setup, q)
      ensures p in Covered(setup, r) || (!Pending(q, c) && |q| == setup.capacity && q != [] &&
                                         p in setup.covers(q[0].field))
    {
      var i := CoveredWitness(setup, q, p);
      var k := |q| + 1 - |r|;
      if Pending(q, c) {
        CoveredMember(setup, r, i);
      } else if i >= k {
        assert r[i - k] == q[i];
        CoveredMember(setup, r, i - k);
      }
    }
  }

  lemma {:induction false} CoveredConcat(setup: Setup, a: seq<Change>, b: seq<Change>)
    ensures Covered(setup, a + b) == Covered(setup, a) + Covered(setup, b)
  {
    if a == [] {
      assert a + b == b;
    } else {
      assert (a + b)[1..] == a[1..] + b;
      CoveredConcat(setup, a[1..], b);
    }
  }

  lemma MarkKeeps(setup: Setup, s: System, a: Action, c: Client)
    requires Inv(setup, s) && a.MarkChanged? && Enabled(setup, s, a) && ClientInv(setup, s, c)
    ensures ClientInv(setup, Next(setup, s, a), c)
  {
    hide Covered, Pushed, Pending, UniquePositions;
    var t := Next(setup, s, a);
    PushCovers(setup, s.queue, a.change);
    forall p | Sendable(t.model, c, p)
      ensures Accounted(setup, t, c, p)
    {
      if p !in a.updates {
        assert Sendable(s.model, c, p);
        assert Accounted(setup, s, c, p);
      }
    }
  }

  lemma ExpireKeeps(setup: Setup, s: System, p: Path, c: Client)
    requires Inv(setup, s) && ClientInv(setup, s, c)
    ensures ClientInv(setup, Next(setup, s, Expire(p)), c)
  {
    hide Covered, UniquePositions;
    var t := Next(setup, s, Expire(p));
    forall q | Sendable(t.model, c, q)
      ensures Accounted(setup, t, c, q)
    {
      assert Sendable(s.model, c, q) && Accounted(setup, s, c, q);
    }
  }

  // ----- Publishing -----

  predicate TakesAll(deltas: seq<Delta>, id: ClientId) {
    forall i :: 0 <= i < |deltas| ==> id in deltas[i].accepted
  }

  /** Everything will be sent again. */
  predicate StartsOver(c: Client) {
    c.resync && (c.again || c.cursor == NoCursor)
  }

  /** A client that refuses a delta will be sent everything; one that does not has received every piece. */
  lemma {:induction false} OfferOutcome(deltas: seq<Delta>, id: ClientId, c: Client)
    requires c.again ==> c.resync
    ensures var d := OfferAll(deltas, id, c);
            && (d.again ==> d.resync) && d.others == c.others
            && (TakesAll(deltas, id) ==> d == c.(received := ReceiveAll(c.received, AllPieces(deltas))))
            && (!TakesAll(deltas, id) || StartsOver(c) ==> StartsOver(d))
    decreases |deltas|
  {
    hide ReceiveAll, AllPieces;
    AllPiecesStep(deltas);
    if deltas == [] {
      ReceiveNothing(c.received);
    } else {
      var first, rest := deltas[0], deltas[1..];
      OfferOutcome(rest, id, Offer(first, id, c));
      ReceiveConcat(c.received, first.pieces, AllPieces(rest));
      if TakesAll(rest, id) && id in first.accepted {
        assert deltas == [first] + rest;
        assert TakesAll(deltas, id);
      }
      if TakesAll(deltas, id) {
        assert id in deltas[0].accepted;
        assert forall i :: 0 <= i < |rest| ==> rest[i] == deltas[i + 1];
      }
    }
  }

  lemma AllPiecesStep(deltas: seq<Delta>)
    ensures deltas == [] ==> AllPieces(deltas) == []
    ensures deltas != [] ==> AllPieces(deltas) == deltas[0].pieces + AllPieces(deltas[1..])
  {}

  lemma ReceiveNothing(received: map<Path, Entries>)
    ensures ReceiveAll(received, []) == received
  {}

  lemma {:induction false} ReceiveConcat(received: map<Path, Entries>, a: seq<Piece>, b: seq<Piece>)
    ensures ReceiveAll(received, a + b) == ReceiveAll(ReceiveAll(received, a), b)
    decreases |a|
  {
    hide Feed;
    if a == [] {
      assert a + b == b;
    } else {
      assert (a + b)[1..] == a[1..] + b;
      ReceiveConcat(received[a[0].path := Feed(Got(received, a[0].path), a[0].index, a[0].entry)], a[1..], b);
    }
  }

  /** Whole runs leave the client with the value of every path among them, and do not touch the others. */
  lemma {:induction false} RunsDeliver(model: map<Path, Entry>, order: seq<Path>, have: Entries, p: Path)
    requires (forall q :: q in order ==> q in model) && p in model && model[p].value != []
    ensures FeedAll(have, Of(WholeRuns(model, order), p)) == if p in order then model[p].value else have
    decreases |order|
  {
    hide FeedAll, Of;
    if order == [] {
      NothingFed(have, p);
    } else {
      var q, rest := order[0], order[1..];
      var run := Pieces(q, 0, model[q].value);
      assert order == [q] + rest;
      OfConcat(run, WholeRuns(model, rest), p);
      OfRun(q, 0, model[q].value, p);
      FeedConcat(have, Of(run, p), Of(WholeRuns(model, rest), p));
      if q == p {
        FeedRun(have, p, 0, model[p].value);
        assert have[..0] + model[p].value == model[p].value;
      } else {
        NothingFed(have, p);
      }
      RunsDeliver(model, rest, FeedAll(have, Of(run, p)), p);
    }
  }

  lemma StartOverBrings(model: map<Path, Entry>, c: Client, p: Path)
    requires StartsOver(c) && UniquePositions(model) && p in model && model[p].value != []
    ensures StillToCome(model, c, p)
  {
    assert Got(c.received, p)[..0] == model[p].value[..0];
  }

  lemma NothingFed(have: Entries, p: Path)
    ensures Of([], p) == [] && FeedAll(have, []) == have
  {}

  lemma PublishKeeps(setup: Setup, s: System, a: Action, id: ClientId)
    requires Inv(setup, s) && a.Publish? && Enabled(setup, s, a) && id in s.clients
    ensures ClientInv(setup, Next(setup, s, a), Next(setup, s, a).clients[id])
  {
    hide Covered, AllPieces, OfferAll, ReceiveAll, WholeRuns, FeedAll, Of;
    var t, c := Next(setup, s, a), s.clients[id];
    var d := t.clients[id];
    assert ClientInv(setup, s, c);
    OfferOutcome(a.deltas, id, c);
    CoveredConcat(setup, s.queue[..a.count], s.queue[a.count..]);
    assert s.queue == s.queue[..a.count] + s.queue[a.count..];
    forall p | Sendable(t.model, d, p)
      ensures Accounted(setup, t, d, p)
    {
      assert Sendable(s.model, c, p) && Accounted(setup, s, c, p);
      if TakesAll(a.deltas, id) {
        ReceiveAt(c.received, AllPieces(a.deltas), p);
        RunsDeliver(s.model, a.order, Got(c.received, p), p);
        if p !in a.order {
          assert p !in Covered(setup, s.queue[..a.count]);
          assert From(d) == From(c) && Got(d.received, p) == Got(c.received, p);
        }
      } else {
        StartOverBrings(s.model, d, p);
      }
    }
  }

  // ----- Pumping -----

  /** The pass accounts for every path: what it sent, what it has not reached, and the field it stopped in. */
  lemma PumpKeeps(setup: Setup, s: System, a: Action)
    requires Inv(setup, s) && a.Pump? && Enabled(setup, s, a)
    ensures ClientInv(setup, Next(setup, s, a), Next(setup, s, a).clients[a.client])
  {
    hide Covered, ReceiveAll, Of, Passed;
    var t, c := Next(setup, s, a), s.clients[a.client];
    var d := t.clients[a.client];
    assert ClientInv(setup, s, c);
    forall p | Sendable(t.model, d, p)
      ensures Accounted(setup, t, d, p)
    {
      assert Sendable(s.model, c, p) && Accounted(setup, s, c, p);
      PumpOnePath(setup, s, a.client, a.pieces, a.stop, p);
    }
  }

  /** What a pass leaves the client with, for a path it had nothing wrong of. */
  lemma PassedFed(model: map<Path, Entry>, c: Client, stop: Option<Cursor>, p: Path)
    requires Selected(model, c, p)
    ensures var e, from, have := model[p], From(c), Got(c.received, p);
            var now := FeedAll(have, Passed(model, c, stop, p));
            && (!InRange(e, from, stop) ==> now == have)
            && (InRange(e, from, stop) && Low(e, from) <= |have| && have[..Low(e, from)] == e.value[..Low(e, from)] ==>
                  if Low(e, from) == High(e, from, stop) then now == have else now == e.value[..High(e, from, stop)])
  {
    hide FeedAll;
    var e, from, have := model[p], From(c), Got(c.received, p);
    NothingFed(have, p);
    var lo, hi := Low(e, from), High(e, from, stop);
    if InRange(e, from, stop) && lo <= |have| && have[..lo] == e.value[..lo] {
      FeedRun(have, p, lo, e.value[lo..hi]);
      assert e.value[..lo] + e.value[lo..hi] == e.value[..hi];
    }
  }

  lemma PumpOnePath(setup: Setup, s: System, id: ClientId, pieces: seq<Piece>, stop: Option<Cursor>, p: Path)
    requires UniquePositions(s.model) && PumpEnabled(s, id, pieces, stop)
    requires Sendable(s.model, s.clients[id], p) && Accounted(setup, s, s.clients[id], p)
    ensures Accounted(setup, s, AfterPump(s.clients[id], pieces, stop), p)
  {
    hide Covered, ReceiveAll, Of, Passed, FeedAll;
    var c := s.clients[id];
    var d := AfterPump(c, pieces, stop);
    ReceiveAt(c.received, pieces, p);
    assert Of(pieces, p) == Passed(s.model, c, stop, p);
    if UpToDate(s.model, c, p) || StillToCome(s.model, c, p) {
      if StartsOver(d) {
        StartOverBrings(s.model, d, p);
      } else {
        PassedOver(s.model, c, d, stop, p);
      }
    }
  }

  /** A pass that does not start over brings a path up to date, or leaves its cursor where the path continues. */
  lemma PassedOver(model: map<Path, Entry>, c: Client, d: Client, stop: Option<Cursor>, p: Path)
    requires Sendable(model, c, p) && model[p].position > 0 && c.resync
    requires UpToDate(model, c, p) || StillToCome(model, c, p)
    requires Got(d.received, p) == FeedAll(Got(c.received, p), Passed(model, c, stop, p))
    requires if stop.Some? then d.resync && d.again == c.again && d.cursor == stop.value else !c.again && !d.resync
    requires stop.Some? ==> NotBefore(From(c), stop.value)
    requires stop.Some? && model[p].position == stop.value.position ==> stop.value.value < |model[p].value|
    ensures UpToDate(model, d, p) || StillToCome(model, d, p)
  {
    hide Passed, FeedAll;
    var e, from, have := model[p], From(c), Got(c.received, p);
    PassedFed(model, c, stop, p);
    var lo, hi := Low(e, from), High(e, from, stop);
    assert e.value[..|e.value|] == e.value;
    if InRange(e, from, stop) && lo <= |have| && have[..lo] == e.value[..lo] {
      assert stop.Some? && e.position == stop.value.position ==> hi == stop.value.value;
      assert e.value[..hi][..hi] == e.value[..hi];
    }
  }

  /** Every transition keeps the invariant. */
  lemma InvKept(setup: Setup, s: System, a: Action)
    requires Inv(setup, s) && Enabled(setup, s, a)
    ensures Inv(setup, Next(setup, s, a))
  {
    hide Covered, ClientInv, Pushed, AfterPump, OfferAll, PublishEnabled, PumpEnabled;
    var t := Next(setup, s, a);
    forall id | id in t.clients
      ensures ClientInv(setup, t, t.clients[id])
    {
      match a
      case MarkChanged(_, _) => MarkKeeps(setup, s, a, s.clients[id]);
      case Expire(p) => ExpireKeeps(setup, s, p, s.clients[id]);
      case Publish(_, _, _) => PublishKeeps(setup, s, a, id);
      case Pump(client, _, _) =>
        if id == client { PumpKeeps(setup, s, a); } else { SameElsewhere(setup, s, t, s.clients[id]); }
      case Subscribe(client, others) =>
        if id == client { SubscribeKeeps(setup, t, others); } else { SameElsewhere(setup, s, t, s.clients[id]); }
      case Unsubscribe(_) => SameElsewhere(setup, s, t, s.clients[id]);
    }
  }

  lemma SameElsewhere(setup: Setup, s: System, t: System, c: Client)
    requires ClientInv(setup, s, c) && t.model == s.model && t.queue == s.queue && t.lost == s.lost
    ensures ClientInv(setup, t, c)
  {
    hide Covered;
    forall p | Sendable(t.model, c, p)
      ensures Accounted(setup, t, c, p)
    {
      assert Sendable(s.model, c, p) && Accounted(setup, s, c, p);
    }
  }

  lemma SubscribeKeeps(setup: Setup, t: System, others: bool)
    requires UniquePositions(t.model)
    ensures ClientInv(setup, t, RequestResync(NewClient(others)))
  {
    hide Covered;
  }

  // ----- Every reachable state -----

  const Initial: System := System(map[], [], {}, 0, map[])

  ghost predicate IsRun(setup: Setup, states: seq<System>, actions: seq<Action>) {
    && |states| == |actions| + 1 && states[0] == Initial
    && forall i :: 0 <= i < |actions| ==>
         Enabled(setup, states[i], actions[i]) && states[i + 1] == Next(setup, states[i], actions[i])
  }

  /** The invariant holds after every action of every run. */
  lemma {:induction false} NoLostUpdate(setup: Setup, states: seq<System>, actions: seq<Action>, n: nat)
    requires IsRun(setup, states, actions) && n < |states|
    ensures Inv(setup, states[n])
  {
    hide Inv, Next, Enabled;
    if n == 0 {
      InitialInv(setup);
    } else {
      NoLostUpdate(setup, states, actions, n - 1);
      assert Enabled(setup, states[n - 1], actions[n - 1]);
      InvKept(setup, states[n - 1], actions[n - 1]);
    }
  }

  lemma InitialInv(setup: Setup)
    ensures Inv(setup, Initial)
  {}

  /**
   In every reachable state with an empty queue that never overflowed, a
   streaming client that is not catching up has received exactly the entries
   sent for every current path in its scope, unless nothing is sent for it.
   */
  lemma QuietReachableAgrees(setup: Setup, states: seq<System>, actions: seq<Action>, n: nat, id: ClientId, p: Path)
    requires IsRun(setup, states, actions) && n < |states|
    requires states[n].queue == [] && states[n].drops == 0
    requires id in states[n].clients && !states[n].clients[id].resync
    requires Sendable(states[n].model, states[n].clients[id], p)
    ensures Got(states[n].clients[id].received, p) == states[n].model[p].value
  {
    hide Inv, Next, Enabled;
    NoLostUpdate(setup, states, actions, n);
    QuietClientAgrees(setup, states[n], id, p);
  }
}
