/**
 Whole runs of the stream server. Its calls change the model, publish what is
 queued to every client, continue a client's snapshot, and start and stop
 streams. Any sequence of them is a run of the catch-up protocol, so no client
 loses an update.
 */
module ServerRuns {
  import opened JsonText
  import opened Frames
  import opened Snapshot
  import opened Publisher
  import opened CatchUp
  import opened StreamServer
  import opened Delivery
  import ChangeQueue
  import PendingChanges

  // ----- Fan-out -----

  /** A streaming client: its delivery state and its output queue. */
  datatype StreamClient = StreamClient(
    resync: bool,
    again: bool,
    cursor: Cursor,
    kind: Kind,
    output: string,
    outputCapacity: nat)

  /** A delta is queued as one whole frame, or the client is marked for catch-up. */
  function OfferText(l: Limits, c: StreamClient, delta: string): StreamClient {
    if Accepts(l, c, delta) then c.(output := c.output + Framed(c.kind, delta))
    else if c.resync then c.(again := true)
    else c.(resync := true, again := false, cursor := Cursor(0, 0))
  }

  predicate Accepts(l: Limits, c: StreamClient, delta: string) {
    Takes(c.kind, FrameRoom(l, c.outputCapacity, |c.output|), delta)
  }

  /** The client's queue is within its limits. */
  predicate Within(l: Limits, c: StreamClient) {
    WithinLimits(l, c.outputCapacity, |c.output|)
  }

  lemma OfferWithin(l: Limits, c: StreamClient, delta: string)
    requires Accepts(l, c, delta)
    ensures Within(l, OfferText(l, c, delta))
  {
    hide FrameRoom, Framed, WithinLimits, TextLength;
    TakenFrame(c.kind, FrameRoom(l, c.outputCapacity, |c.output|), delta);
    RoomIffWithin(l, c.outputCapacity, |c.output|, |Framed(c.kind, delta)|);
  }

  lemma TakenFrame(kind: Kind, room: nat, delta: string)
    requires Takes(kind, room, delta)
    ensures 0 < |Framed(kind, delta)| <= room
  {}

  lemma {:induction false} OffersWithin(l: Limits, c: StreamClient, deltas: seq<string>)
    ensures OfferTexts(l, c, deltas).output == c.output || Within(l, OfferTexts(l, c, deltas))
    ensures OfferTexts(l, c, deltas).outputCapacity == c.outputCapacity
    decreases |deltas|
  {
    hide FrameRoom, Framed, Takes, WithinLimits;
    if deltas != [] {
      OffersWithin(l, OfferText(l, c, deltas[0]), deltas[1..]);
      if Accepts(l, c, deltas[0]) { OfferWithin(l, c, deltas[0]); }
    }
  }

  function OfferTexts(l: Limits, c: StreamClient, deltas: seq<string>): StreamClient
    decreases |deltas|
  {
    if deltas == [] then c else OfferTexts(l, OfferText(l, c, deltas[0]), deltas[1..])
  }

  /** `SignalKDeltaFanout`: live deltas go to every streaming client that can take the whole frame now. */
  class DeltaFanout {
    var clients: seq<StreamClient>

    constructor (clients: seq<StreamClient>)
      ensures this.clients == clients
    {
      this.clients := clients;
    }

    method WriteDelta(l: Limits, delta: string)
      modifies this
      ensures |clients| == |old(clients)|
      ensures forall i :: 0 <= i < |clients| ==> clients[i] == OfferText(l, old(clients)[i], delta)
      ensures forall i :: 0 <= i < |clients| ==>
                clients[i].output == old(clients)[i].output || Within(l, clients[i])
    {
      hide FrameRoom, Framed, Takes, WithinLimits;
      forall c | c in clients
        ensures Accepts(l, c, delta) ==> Within(l, OfferText(l, c, delta))
      {
        if Accepts(l, c, delta) { OfferWithin(l, c, delta); }
      }
      for i := 0 to |clients|
        invariant |clients| == |old(clients)|
        invariant forall k :: 0 <= k < i ==> clients[k] == OfferText(l, old(clients)[k], delta)
        invariant forall k :: i <= k < |clients| ==> clients[k] == old(clients)[k]
      {
        var c := clients[i];
        if Accepts(l, c, delta) {
          c := c.(output := c.output + Framed(c.kind, delta));
        } else if c.resync {
          c := c.(again := true);
        } else {
          c := c.(resync := true, again := false, cursor := Cursor(0, 0));
        }
        clients := clients[i := c];
      }
    }

    method WriteAll(l: Limits, deltas: seq<string>)
      modifies this
      ensures |clients| == |old(clients)|
      ensures forall i :: 0 <= i < |clients| ==> clients[i] == OfferTexts(l, old(clients)[i], deltas)
      ensures forall i :: 0 <= i < |clients| ==>
                clients[i].output == old(clients)[i].output || Within(l, clients[i])
    {
      hide OfferText, Within;
      forall c | c in clients
        ensures OfferTexts(l, c, deltas).output == c.output || Within(l, OfferTexts(l, c, deltas))
      {
        OffersWithin(l, c, deltas);
      }
      assert deltas[0..] == deltas;
      for n := 0 to |deltas|
        invariant |clients| == |old(clients)|
        invariant forall i :: 0 <= i < |clients| ==>
                    OfferTexts(l, clients[i], deltas[n..]) == OfferTexts(l, old(clients)[i], deltas)
      {
        ghost var before := clients;
        WriteDelta(l, deltas[n]);
        assert deltas[n..][1..] == deltas[n + 1..];
        forall i | 0 <= i < |clients|
          ensures OfferTexts(l, clients[i], deltas[n + 1..]) == OfferTexts(l, old(clients)[i], deltas)
        {
          assert OfferTexts(l, before[i], deltas[n..]) == OfferTexts(l, clients[i], deltas[n + 1..]);
        }
      }
    }
  }

  /** The client accepted exactly the deltas that say so. */
  ghost predicate AcceptedAs(l: Limits, c: StreamClient, texts: seq<string>, deltas: seq<Delta>, id: ClientId)
    requires |texts| == |deltas|
    decreases |texts|
  {
    texts == [] ||
    (&& (Accepts(l, c, texts[0]) <==> id in deltas[0].accepted)
     && AcceptedAs(l, OfferText(l, c, texts[0]), texts[1..], deltas[1..], id))
  }

  /** Fan-out leaves a client's flags and cursor as the protocol's publish does. */
  lemma {:induction false} FanoutIsOffer(l: Limits, c: StreamClient, texts: seq<string>, deltas: seq<Delta>,
                                         id: ClientId, d: Client)
    requires |texts| == |deltas| && AcceptedAs(l, c, texts, deltas, id)
    requires (d.resync, d.again, d.cursor) == (c.resync, c.again, c.cursor)
    ensures var after, offered := OfferTexts(l, c, texts), OfferAll(deltas, id, d);
            (offered.resync, offered.again, offered.cursor) == (after.resync, after.again, after.cursor)
    decreases |texts|
  {
    hide ReceiveAll, Framed, Takes, FrameRoom;
    if texts != [] {
      FanoutIsOffer(l, OfferText(l, c, texts[0]), texts[1..], deltas[1..], id, Offer(deltas[0], id, d));
    }
  }

  // ----- The server -----

  /** A stream: its delivery state, and every entry queued for it so far. */
  datatype Session = Session(resync: bool, again: bool, cursor: Cursor, others: bool, log: seq<Piece>)

  /** The model as it would be sent, the change queue with its counters, and the streams. */
  datatype Server = Server(model: map<Path, Entry>, ledger: ChangeQueue.Ledger, sessions: map<ClientId, Session>)

  /**
   What happens to the server. A publish takes `n` changes and its deltas reach
   the clients that accept them; a pump sends a client the items `sent` and
   completes the pass or stops at `next`.
   */
  datatype Call =
    | Mark(field: nat, source: nat, timestamp: nat, updates: map<Path, Entry>)
    | Age(path: Path)
    | Send(v: View, mapping: ChangeQueue.Change -> PendingChanges.Change, n: nat, deltas: seq<seq<Datum>>,
           accepted: seq<set<ClientId>>)
    | Continue(id: ClientId, view: View, sent: seq<Datum>, complete: bool, next: Cursor)
    | Start(id: ClientId, others: bool)
    | Stop(id: ClientId)

  /** What a client holds, from the entries that were queued for it. */
  function Received(x: Session): map<Path, Entries> {
    ReceiveAll(map[], x.log)
  }

  function AsClient(x: Session): Client {
    Client(x.resync, x.again, x.cursor, x.others, Received(x))
  }

  /** The entries sent for queued changes, each with its path and number. */
  function SentPieces(v: View, room: nat, changes: seq<PendingChanges.Change>, last: PendingChanges.Last): seq<Piece> {
    if changes == [] then []
    else
      var c, rest := changes[0], changes[1..];
      match c
      case Unmapped => SentPieces(v, room, rest, last)
      case Targets(sourceLabel) =>
        TargetPieces(v.(targetLabel := sourceLabel), room, v.targets, 0) + SentPieces(v, room, rest, None)
      case Mapped(source, address, path, _, _) =>
        if last == Some((source, address)) then SentPieces(v, room, rest, last)
        else
          Pieces(SelfPath(path), 0, Texts(PendingChanges.ChangeParts(v, room, c))) +
          SentPieces(v, room, rest, PendingChanges.LastAfter(v, room, c))
  }

  function TargetPieces(v: View, room: nat, targets: seq<Target>, first: nat): seq<Piece> {
    if targets == [] then []
    else
      (if targets[0].NoTarget? then []
       else Pieces(TargetSlot(first), 0, TargetEntries(room, v.TargetHeader(targets[0]), targets[0]))) +
      TargetPieces(v, room, targets[1..], first + 1)
  }

  /** What the code does, by the contracts of its parts; `room` is the room for a delta's header and values. */
  ghost predicate Allowed(setup: Setup, room: nat, sv: Server, call: Call) {
    match call
    case Mark(field, _, _, updates) => updates.Keys <= setup.covers(field) && UniquePositions(sv.model + updates)
    case Age(_) => true
    case Send(v, mapping, n, deltas, accepted) =>
      && n <= |sv.ledger.queue| && |accepted| == |deltas|
      && var changes := PendingChanges.MapAll(mapping, sv.ledger.queue[..n]);
         && Named(changes) && CoversMapped(setup, sv.model, v, sv.ledger.queue[..n], changes)
         && (forall i :: 0 <= i < n ==> Carries(v, room, sv.model, changes[i]))
         && PendingChanges.Parts(Flatten(deltas)) == PendingChanges.SentParts(v, room, changes, None)
    case Continue(id, v, sent, complete, next) =>
      && id in sv.sessions && sv.sessions[id].resync
      && ShowsModel(v, room, sv.model, AsClient(sv.sessions[id]))
      && PassSpec(v, room, Started(sv.sessions[id].cursor), sent, complete, next)
    case Start(_, _) => true
    case Stop(_) => true
  }

  /** The deltas of a publish: the entries sent, cut where the deltas end. */
  function DeltasOf(room: nat, sv: Server, call: Call): seq<Delta>
    requires call.Send? && call.n <= |sv.ledger.queue|
  {
    var pieces := SentPieces(call.v, room, PendingChanges.MapAll(call.mapping, sv.ledger.queue[..call.n]), None);
    if |call.accepted| == |call.deltas| && |pieces| == |Flatten(call.deltas)|
    then Cut(pieces, call.deltas, call.accepted)
    else []
  }

  function Fanned(deltas: seq<Delta>, id: ClientId, x: Session): Session
    decreases |deltas|
  {
    if deltas == [] then x
    else
      var y := if id in deltas[0].accepted then x.(log := x.log + deltas[0].pieces)
               else if x.resync then x.(again := true)
               else x.(resync := true, again := false, cursor := Cursor(0, 0));
      Fanned(deltas[1..], id, y)
  }

  /** A client's snapshot continued by one pass. */
  function Continued(x: Session, pieces: seq<Piece>, complete: bool, next: Cursor): Session {
    var y := x.(log := x.log + pieces, cursor := next);
    if !complete then y
    else if x.again then y.(again := false, cursor := Cursor(0, 0))
    else y.(resync := false)
  }

  ghost function Called(setup: Setup, room: nat, sv: Server, call: Call): Server
    requires Allowed(setup, room, sv, call)
  {
    match call
    case Mark(field, source, timestamp, updates) =>
      sv.(model := sv.model + updates,
          ledger := ChangeQueue.Step(sv.ledger, ChangeQueue.Mark(field, source, timestamp), setup.capacity))
    case Age(p) =>
      if p in sv.model then sv.(model := sv.model[p := sv.model[p].(current := false)]) else sv
    case Send(_, _, n, _, _) =>
      var deltas := DeltasOf(room, sv, call);
      sv.(ledger := ChangeQueue.Taken(sv.ledger, n),
          sessions := map id | id in sv.sessions :: Fanned(deltas, id, sv.sessions[id]))
    case Continue(id, v, sent, complete, next) =>
      sv.(sessions := sv.sessions[id := Continued(sv.sessions[id], Labels(v, sent), complete, next)])
    case Start(id, others) =>
      sv.(sessions := sv.sessions[id := Session(true, false, Cursor(0, 0), others, [])])
    case Stop(id) => sv.(sessions := sv.sessions - {id})
  }

  // ----- Each call is a step -----

  /** The protocol's state stands for the server's. */
  ghost predicate Stands(sv: Server, s: System) {
    && s.model == sv.model && s.queue == sv.ledger.queue && s.drops == sv.ledger.dropped
    && s.clients == map id | id in sv.sessions :: AsClient(sv.sessions[id])
  }

  lemma {:induction false} FannedIsOffer(deltas: seq<Delta>, id: ClientId, x: Session)
    ensures AsClient(Fanned(deltas, id, x)) == OfferAll(deltas, id, AsClient(x))
    decreases |deltas|
  {
    hide ReceiveAll;
    if deltas != [] {
      ReceiveConcat(map[], x.log, deltas[0].pieces);
      var y := if id in deltas[0].accepted then x.(log := x.log + deltas[0].pieces)
               else if x.resync then x.(again := true)
               else x.(resync := true, again := false, cursor := Cursor(0, 0));
      assert AsClient(y) == Offer(deltas[0], id, AsClient(x));
      FannedIsOffer(deltas[1..], id, y);
    }
  }

  lemma {:induction false} TargetPiecesAreRuns(v: View, room: nat, model: map<Path, Entry>, targets: seq<Target>,
                                               first: nat)
    requires CarriesTargets(v, room, model, targets, first)
    ensures InModel(model, Slots(targets, first))
    ensures TargetPieces(v, room, targets, first) == WholeRuns(model, Slots(targets, first))
    decreases |targets|
  {
    hide Pieces, TargetEntries, WholeRuns;
    NoRuns(model);
    if targets != [] {
      var rest := Slots(targets[1..], first + 1);
      TargetPiecesAreRuns(v, room, model, targets[1..], first + 1);
      if targets[0].Target? {
        OneRun(model, TargetSlot(first));
        RunsConcat(model, [TargetSlot(first)], rest);
      } else {
        assert [] + rest == rest;
        assert [] + TargetPieces(v, room, targets[1..], first + 1) == TargetPieces(v, room, targets[1..], first + 1);
      }
    }
  }

  /** What is sent for changes are the whole runs of the paths sent. */
  lemma {:induction false} PiecesAreRuns(v: View, room: nat, model: map<Path, Entry>,
                                         changes: seq<PendingChanges.Change>, last: PendingChanges.Last)
    requires forall i :: 0 <= i < |changes| ==> Carries(v, room, model, changes[i])
    ensures InModel(model, OrderOf(v, room, changes, last))
    ensures SentPieces(v, room, changes, last) == WholeRuns(model, OrderOf(v, room, changes, last))
    decreases |changes|
  {
    hide Pieces, WholeRuns, PendingChanges.ChangeParts, PendingChanges.LastAfter, CarriesTargets, TargetPieces, Slots,
         Texts;
    NoRuns(model);
    if changes != [] {
      var c, rest := changes[0], changes[1..];
      assert forall i :: 0 <= i < |rest| ==> rest[i] == changes[i + 1];
      assert Carries(v, room, model, c);
      match c
      case Unmapped => PiecesAreRuns(v, room, model, rest, last);
      case Targets(sourceLabel) =>
        PiecesAreRuns(v, room, model, rest, None);
        TargetPiecesAreRuns(v.(targetLabel := sourceLabel), room, model, v.targets, 0);
        RunsConcat(model, Slots(v.targets, 0), OrderOf(v, room, rest, None));
      case Mapped(source, address, path, _, _) =>
        if last == Some((source, address)) {
          PiecesAreRuns(v, room, model, rest, last);
        } else {
          var after := PendingChanges.LastAfter(v, room, c);
          PiecesAreRuns(v, room, model, rest, after);
          OneRun(model, SelfPath(path));
          RunsConcat(model, [SelfPath(path)], OrderOf(v, room, rest, after));
        }
    }
  }

  lemma SendIsStep(setup: Setup, room: nat, sv: Server, call: Call, s: System) returns (a: Action)
    requires call.Send? && Allowed(setup, room, sv, call) && Stands(sv, s)
    ensures Enabled(setup, s, a) && Stands(Called(setup, room, sv, call), Next(setup, s, a))
  {
    hide WholeRuns, Flatten, Cut, OrderOf, PendingChanges.SentParts, Carries, Named, CoversMapped, OfferAll, Fanned,
         SentPieces, PublishEnabled, ReceiveAll, EntryTexts, AsClient;
    var Send(v, mapping, n, deltas, accepted) := call;
    var changes := PendingChanges.MapAll(mapping, sv.ledger.queue[..n]);
    var order := OrderOf(v, room, changes, None);
    PublishIsStep(setup, s, v, room, n, mapping, deltas, accepted);
    PiecesAreRuns(v, room, sv.model, changes, None);
    var cut := Cut(WholeRuns(s.model, order), deltas, accepted);
    a := Publish(n, order, cut);
    assert DeltasOf(room, sv, call) == cut;
    forall id | id in sv.sessions
      ensures AsClient(Fanned(cut, id, sv.sessions[id])) == OfferAll(cut, id, AsClient(sv.sessions[id]))
    {
      FannedIsOffer(cut, id, sv.sessions[id]);
    }
    SessionsMatch(Called(setup, room, sv, call), Next(setup, s, a));
  }

  lemma SessionsMatch(sw: Server, t: System)
    requires sw.sessions.Keys == t.clients.Keys
    requires forall id :: id in sw.sessions ==> AsClient(sw.sessions[id]) == t.clients[id]
    ensures t.clients == map id | id in sw.sessions :: AsClient(sw.sessions[id])
  {
    hide AsClient;
  }

  lemma ContinueIsStep(setup: Setup, room: nat, sv: Server, call: Call, s: System) returns (a: Action)
    requires call.Continue? && Allowed(setup, room, sv, call) && Stands(sv, s)
    ensures Enabled(setup, s, a) && Stands(Called(setup, room, sv, call), Next(setup, s, a))
  {
    hide Labels, ShowsModel, PumpEnabled, ReceiveAll, ItemsAt, Snapshot.After;
    var Continue(id, v, sent, complete, next) := call;
    var x := sv.sessions[id];
    PumpReaches(v, room, s, id, sent, complete, next);
    a := Pump(id, Labels(v, sent), StopOf(complete, next));
    ReceiveConcat(map[], x.log, Labels(v, sent));
    assert AsClient(Continued(x, Labels(v, sent), complete, next)) == AfterPump(AsClient(x), Labels(v, sent), a.stop);
  }

  lemma MarkIsStep(setup: Setup, room: nat, sv: Server, call: Call, s: System) returns (a: Action)
    requires setup.capacity > 0 && call.Mark? && Allowed(setup, room, sv, call) && Stands(sv, s)
    ensures Enabled(setup, s, a) && Stands(Called(setup, room, sv, call), Next(setup, s, a))
  {
    hide UniquePositions, AsClient, ChangeQueue.Pushed, ChangeQueue.Pending;
    a := MarkChanged(ChangeQueue.Change(call.field, call.source, call.timestamp, sv.ledger.marked + 1), call.updates);
  }

  /** Every call of the server is a step of the protocol. */
  lemma CallIsStep(setup: Setup, room: nat, sv: Server, call: Call, s: System) returns (a: Action)
    requires setup.capacity > 0 && Allowed(setup, room, sv, call) && Stands(sv, s)
    ensures Enabled(setup, s, a) && Stands(Called(setup, room, sv, call), Next(setup, s, a))
  {
    hide ReceiveAll;
    match call
    case Mark(_, _, _, _) => a := MarkIsStep(setup, room, sv, call, s);
    case Age(p) => a := Expire(p);
    case Send(_, _, _, _, _) => a := SendIsStep(setup, room, sv, call, s);
    case Continue(_, _, _, _, _) => a := ContinueIsStep(setup, room, sv, call, s);
    case Start(id, others) =>
      a := Subscribe(id, others);
      NothingReceived();
    case Stop(id) => a := Unsubscribe(id);
  }

  lemma NothingReceived()
    ensures ReceiveAll(map[], []) == map[]
  {}

  // ----- Whole runs -----

  function Fresh(): Server {
    Server.Server(map[], ChangeQueue.Run([], 0), map[])
  }

  ghost predicate IsServerRun(setup: Setup, room: nat, servers: seq<Server>, calls: seq<Call>) {
    && |servers| == |calls| + 1 && servers[0] == Fresh()
    && forall i :: 0 <= i < |calls| ==>
         Allowed(setup, room, servers[i], calls[i]) && servers[i + 1] == Called(setup, room, servers[i], calls[i])
  }

  /** Any sequence of calls is a run of the catch-up protocol. */
  lemma {:induction false} RunOfServer(setup: Setup, room: nat, servers: seq<Server>, calls: seq<Call>)
    returns (states: seq<System>, actions: seq<Action>)
    requires setup.capacity > 0 && IsServerRun(setup, room, servers, calls)
    ensures IsRun(setup, states, actions) && |states| == |servers|
    ensures forall i :: 0 <= i < |servers| ==> Stands(servers[i], states[i])
    decreases |calls|
  {
    hide Allowed, Called, Stands, Enabled, Next;
    var n := |calls|;
    if n == 0 {
      FreshStands();
      states, actions := [Initial], [];
    } else {
      states, actions := RunOfServer(setup, room, servers[..n], calls[..n - 1]);
      var last := states[n - 1];
      assert servers[..n][n - 1] == servers[n - 1];
      var a := CallIsStep(setup, room, servers[n - 1], calls[n - 1], last);
      states, actions := states + [Next(setup, last, a)], actions + [a];
    }
  }

  lemma FreshStands()
    ensures Stands(Fresh(), Initial)
  {}

  /**
   After any calls, each client has exactly the entries sent for every current
   path in its scope, or the path is still queued, or was lost to an overflow of
   the queue, or is still to come.
   */
  lemma ServerLosesNothing(setup: Setup, room: nat, servers: seq<Server>, calls: seq<Call>, n: nat, id: ClientId,
                           p: Path)
    requires setup.capacity > 0 && IsServerRun(setup, room, servers, calls) && n < |servers|
    requires id in servers[n].sessions && Sendable(servers[n].model, AsClient(servers[n].sessions[id]), p)
    ensures var sv := servers[n];
            var x := sv.sessions[id];
            || Got(Received(x), p) == sv.model[p].value
            || p in Covered(setup, sv.ledger.queue)
            || sv.ledger.dropped > 0
            || StillToCome(sv.model, AsClient(x), p)
  {
    hide IsServerRun, IsRun, Covered, ReceiveAll;
    var states, actions := RunOfServer(setup, room, servers, calls);
    NoLostUpdate(setup, states, actions, n);
    assert Stands(servers[n], states[n]);
    assert ClientInv(setup, states[n], states[n].clients[id]);
    assert Accounted(setup, states[n], states[n].clients[id], p);
  }

  /** Once the queue is empty and never overflowed, a client that is not catching up has everything. */
  lemma QuietServer(setup: Setup, room: nat, servers: seq<Server>, calls: seq<Call>, n: nat, id: ClientId, p: Path)
    requires setup.capacity > 0 && IsServerRun(setup, room, servers, calls) && n < |servers|
    requires servers[n].ledger.queue == [] && servers[n].ledger.dropped == 0
    requires id in servers[n].sessions && !servers[n].sessions[id].resync
    requires Sendable(servers[n].model, AsClient(servers[n].sessions[id]), p)
    ensures Got(Received(servers[n].sessions[id]), p) == servers[n].model[p].value
  {
    hide IsServerRun, ReceiveAll;
    ServerLosesNothing(setup, room, servers, calls, n, id, p);
  }
}
