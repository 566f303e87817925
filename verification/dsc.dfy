/**
 Digital selective calling: DSC sentences wait for an expansion sentence (DSE)
 or time out, repeats of a recent call are counted instead of stored, and alerts
 are raised and acknowledged.

 Times are microseconds and positive; a stamp of zero means "never".
 */
module Dsc {
  import opened JsonText

  const EXPANSION_TIMEOUT: nat := 500_000
  const DUPLICATE_WINDOW: nat := 10_000_000
  const HISTORY: nat := 4

  const DISTRESS_FORMAT: int := 112
  const DISTRESS_CATEGORY: int := 112
  const URGENCY_CATEGORY: int := 110
  const SAFETY_CATEGORY: int := 108

  type Source = nat
  const NO_SOURCE: Source := 0

  /** What makes two calls repeats of each other. Priority and address type follow from the codes. */
  datatype Key = Key(
    sender: string,
    format: Option<int>,
    category: Option<int>,
    nature: Option<int>,
    second: Option<int>,
    positionCode: string,
    address: string,
    field10: string,
    endSignal: char)

  /** A DSC sentence as parsed, with the time it arrived. */
  datatype Message = Message(key: Key, position: Option<(int, int)>, expansionFlag: char, arrived: nat)

  datatype Call = Call(
    key: Key,
    firstSeen: nat,
    lastUpdate: nat,
    repeats: nat,
    duplicate: bool,
    orphanAck: bool,
    expansionReceived: bool,
    expansionTimeout: bool)

  datatype Alert = Alert(
    firstSeen: nat,
    sender: string,
    category: Option<int>,
    nature: Option<int>,
    position: Option<(int, int)>,
    acknowledged: bool,
    repeats: nat,
    duplicate: bool)

  datatype Kind = Distress | Urgency | Safety | Plain

  /** The model side: history ring, counters and alerts; `plain` counts calls that raise no alert. */
  datatype Comm = Comm(
    recent: seq<Call>,
    next: nat,
    stored: nat,
    calls: nat,
    duplicates: nat,
    distress: nat,
    urgency: nat,
    safety: nat,
    acknowledged: nat,
    orphanAcks: nat,
    timeouts: nat,
    plain: nat,
    alerts: map<Kind, Alert>)

  datatype Pending = Pending(started: nat, source: Source)

  /**
   The receiver. `accepted` numbers the DSC sentences taken, `current` is the
   number of the one in `message`; `committed` lists the numbers committed, and
   `replaced` counts pending ones that a newer sentence displaced.
   */
  datatype State = State(
    message: Message,
    pending: Option<Pending>,
    comm: Comm,
    accepted: nat,
    current: nat,
    committed: seq<nat>,
    replaced: nat)

  datatype Sentence =
    | DscSentence(fields: nat, message: Message)
    | DseSentence(fields: nat, sender: string, fragmented: bool, complete: bool)
    | OtherSentence

  // ----- Classification -----

  predicate IsAck(endSignal: char) {
    endSignal == 'A' || endSignal == 'R'
  }

  function KindOf(k: Key): Kind {
    if k.format == Some(DISTRESS_FORMAT) || k.category == Some(DISTRESS_CATEGORY) then Distress
    else if k.category == Some(URGENCY_CATEGORY) then Urgency
    else if k.category == Some(SAFETY_CATEGORY) then Safety
    else Plain
  }

  // ----- Alerts -----

  /** The stored alert is about the same event as the message. */
  predicate SameAlert(a: Alert, m: Message) {
    && a.firstSeen != 0 && a.sender == m.key.sender
    && (m.key.category.Some? ==> a.category == m.key.category)
    && (m.key.nature.Some? ==> a.nature == m.key.nature)
    && (m.position.Some? ==> a.position == m.position)
  }

  function Either<T>(a: Option<T>, b: Option<T>): Option<T> {
    if a.Some? then a else b
  }

  const NoAlert: Alert := Alert(0, "", None, None, None, false, 0, false)

  function AlertAt(c: Comm, k: Kind): Alert {
    if k in c.alerts then c.alerts[k] else NoAlert
  }

  /** An acknowledgement only counts for the alert it is about. */
  predicate Promotes(c: Comm, m: Message) {
    var k := KindOf(m.key);
    k != Plain && (IsAck(m.key.endSignal) ==> SameAlert(AlertAt(c, k), m))
  }

  function NextAlert(a: Alert, m: Message, now: nat, duplicate: bool): Alert {
    var same := SameAlert(a, m);
    var base := if same then a else NoAlert.(firstSeen := now);
    base.(sender := m.key.sender,
          category := Either(m.key.category, base.category),
          nature := Either(m.key.nature, base.nature),
          position := Either(m.position, base.position),
          acknowledged := (same && a.acknowledged) || IsAck(m.key.endSignal),
          repeats := if same then a.repeats + 1 else 1,
          duplicate := duplicate)
  }

  /** Raises, repeats or acknowledges the alert of the message's kind. */
  function Promoted(c: Comm, m: Message, now: nat, duplicate: bool): Comm {
    if !Promotes(c, m) then c
    else
      var k := KindOf(m.key);
      var counted := !duplicate && !IsAck(m.key.endSignal);
      c.(alerts := c.alerts[k := NextAlert(AlertAt(c, k), m, now, duplicate)],
         distress := c.distress + (if counted && k == Distress then 1 else 0),
         urgency := c.urgency + (if counted && k == Urgency then 1 else 0),
         safety := c.safety + (if counted && k == Safety then 1 else 0))
  }

  // ----- History -----

  /** The stored call counts as a recent call with this key. */
  predicate RecentMatch(c: Call, key: Key, now: nat) {
    c.lastUpdate != 0 && !(now >= c.lastUpdate && now - c.lastUpdate > DUPLICATE_WINDOW) && c.key == key
  }

  /** The first recent match at or after `i`. */
  function FindDuplicate(recent: seq<Call>, key: Key, now: nat, i: nat): (d: Option<nat>)
    ensures d.Some? ==> i <= d.value < |recent| && RecentMatch(recent[d.value], key, now)
    ensures d.None? ==> forall j :: i <= j < |recent| ==> !RecentMatch(recent[j], key, now)
    decreases |recent| - i
  {
    if i >= |recent| then None
    else if RecentMatch(recent[i], key, now) then Some(i)
    else FindDuplicate(recent, key, now, i + 1)
  }

  /** A call that repeats the stored one takes its place. */
  function CommitDuplicate(c: Comm, m: Message, call: Call, now: nat, d: nat): Comm
    requires d < |c.recent|
  {
    var previous := c.recent[d];
    var ack := IsAck(m.key.endSignal) && KindOf(m.key) != Plain;
    var repeat := call.(duplicate := true, repeats := previous.repeats + 1,
                        firstSeen := if previous.firstSeen != 0 then previous.firstSeen else call.firstSeen,
                        orphanAck := ack && !Promotes(c, m));
    Promoted(c, m, now, true).(recent := c.recent[d := repeat], duplicates := c.duplicates + 1)
  }

  function CommitNew(c: Comm, m: Message, call: Call, now: nat): Comm
    requires c.next < |c.recent|
  {
    var ack := IsAck(m.key.endSignal) && KindOf(m.key) != Plain;
    var promoted := Promotes(c, m);
    Promoted(c, m, now, false).(
      recent := c.recent[c.next := call.(orphanAck := ack && !promoted)],
      next := (c.next + 1) % HISTORY,
      stored := if c.stored < HISTORY then c.stored + 1 else c.stored,
      calls := c.calls + 1,
      acknowledged := c.acknowledged + (if ack && promoted then 1 else 0),
      orphanAcks := c.orphanAcks + (if ack && !promoted then 1 else 0),
      timeouts := c.timeouts + (if call.expansionTimeout then 1 else 0),
      plain := c.plain + (if KindOf(m.key) == Plain then 1 else 0))
  }

  function NewCall(m: Message, now: nat, received: bool, timedOut: bool): Call {
    Call(m.key, if m.arrived != 0 then m.arrived else now, now, 1, false, false, received, timedOut)
  }

  function Commit(s: State, now: nat, received: bool, timedOut: bool): State
    requires |s.comm.recent| == HISTORY && s.comm.next < HISTORY
  {
    var call := NewCall(s.message, now, received, timedOut);
    var d := FindDuplicate(s.comm.recent, call.key, now, 0);
    s.(pending := None,
       committed := s.committed + [s.current],
       comm := if d.Some? then CommitDuplicate(s.comm, s.message, call, now, d.value)
               else CommitNew(s.comm, s.message, call, now))
  }

  // ----- Sentences -----

  predicate ExpansionExpected(m: Message) {
    m.expansionFlag == 'E' || m.expansionFlag == 'e'
  }

  predicate Ready(s: State) {
    |s.comm.recent| == HISTORY && s.comm.next < HISTORY
  }

  predicate TimedOut(p: Pending, now: nat) {
    p.started != 0 && now >= p.started && now - p.started > EXPANSION_TIMEOUT
  }

  /** A pending call whose expansion did not come is committed without it. */
  function Expire(s: State, now: nat): State
    requires Ready(s)
  {
    if s.pending.Some? && TimedOut(s.pending.value, now) then Commit(s, now, false, true) else s
  }

  function Accept(s: State, m: Message, now: nat, source: Source): State
    requires Ready(s)
  {
    var t := s.(message := m.(arrived := now), accepted := s.accepted + 1, current := s.accepted + 1,
                replaced := s.replaced + (if s.pending.Some? then 1 else 0), pending := None);
    if ExpansionExpected(m) then t.(pending := Some(Pending(now, source))) else Commit(t, now, false, false)
  }

  /** The expansion belongs to the pending call: same source and sender, as far as both are known. */
  predicate MatchesPending(s: State, sender: string, source: Source) {
    && s.pending.Some?
    && (s.pending.value.source == NO_SOURCE || source == NO_SOURCE || source == s.pending.value.source)
    && (s.message.key.sender == "" || sender == "" || sender == s.message.key.sender)
  }

  function Step(s: State, sentence: Sentence, now: nat, source: Source): State
    requires Ready(s)
  {
    var t := Expire(s, now);
    match sentence
    case OtherSentence => t
    case DscSentence(fields, m) => if fields < 10 then t else Accept(t, m, now, source)
    case DseSentence(fields, sender, fragmented, complete) =>
      if fields < 6 || !MatchesPending(t, sender, source) || (fragmented && !complete) then t
      else Commit(t, now, true, false)
  }

  // ----- What every run keeps -----

  /** Two stored calls with the same key are more than ten seconds apart. */
  predicate FarApart(a: Call, b: Call) {
    a.lastUpdate != 0 && b.lastUpdate != 0 && a.key == b.key ==>
      a.lastUpdate > b.lastUpdate + 10_000_000 || b.lastUpdate > a.lastUpdate + 10_000_000
  }

  /** The ring holds the newest calls, stamped no later than `time`. */
  ghost predicate HistoryInv(c: Comm, time: nat) {
    && |c.recent| == HISTORY && c.next == c.calls % HISTORY
    && c.stored == (if c.calls < HISTORY then c.calls else HISTORY)
    && (forall i :: 0 <= i < HISTORY ==>
        c.recent[i].lastUpdate <= time && (c.recent[i].lastUpdate != 0 <==> i < c.stored))
    && (forall i, j :: 0 <= i < j < HISTORY ==> FarApart(c.recent[i], c.recent[j]))
  }

  /** Every call is counted once by what it was. */
  predicate CountersInv(c: Comm) {
    c.calls == c.distress + c.urgency + c.safety + c.acknowledged + c.orphanAcks + c.plain
  }

  predicate Increasing(s: seq<nat>) {
    forall i, j :: 0 <= i < j < |s| ==> s[i] < s[j]
  }

  /** Sentences are committed in the order they came, each at most once, and each is accounted for. */
  predicate LedgerInv(s: State) {
    && Increasing(s.committed) && (forall i :: 0 <= i < |s.committed| ==> s.committed[i] <= s.accepted)
    && (s.pending.Some? ==>
          s.current == s.accepted && forall i :: 0 <= i < |s.committed| ==> s.committed[i] < s.current)
    && |s.committed| == s.comm.calls + s.comm.duplicates
    && s.accepted == |s.committed| + s.replaced + (if s.pending.Some? then 1 else 0)
  }

  ghost predicate Inv(s: State, time: nat) {
    HistoryInv(s.comm, time) && CountersInv(s.comm) && LedgerInv(s)
  }

  lemma PromotedKeeps(c: Comm, m: Message, now: nat, duplicate: bool)
    ensures var p := Promoted(c, m, now, duplicate);
            && p.recent == c.recent && p.next == c.next && p.stored == c.stored && p.calls == c.calls
            && p.duplicates == c.duplicates && p.acknowledged == c.acknowledged && p.orphanAcks == c.orphanAcks
            && p.plain == c.plain && p.timeouts == c.timeouts
            && p.distress + p.urgency + p.safety == c.distress + c.urgency + c.safety +
                 (if !duplicate && !IsAck(m.key.endSignal) && KindOf(m.key) != Plain then 1 else 0)
  {}

  lemma DuplicateKeepsHistory(c: Comm, m: Message, call: Call, time: nat, now: nat, d: nat)
    requires HistoryInv(c, time) && time <= now && 0 < now && call.lastUpdate == now && call.key == m.key
    requires FindDuplicate(c.recent, call.key, now, 0) == Some(d)
    ensures HistoryInv(CommitDuplicate(c, m, call, now, d), now)
    ensures CountersInv(c) ==> CountersInv(CommitDuplicate(c, m, call, now, d))
  {
    hide Promoted, Promotes, KindOf;
    PromotedKeeps(c, m, now, true);
    var n := CommitDuplicate(c, m, call, now, d);
    forall i, j | 0 <= i < j < HISTORY
      ensures FarApart(n.recent[i], n.recent[j])
    {
      assert FarApart(c.recent[i], c.recent[j]);
    }
  }

  lemma NewKeepsHistory(c: Comm, m: Message, call: Call, time: nat, now: nat)
    requires HistoryInv(c, time) && time <= now && 0 < now && call.lastUpdate == now && call.key == m.key
    requires FindDuplicate(c.recent, call.key, now, 0) == None
    ensures HistoryInv(CommitNew(c, m, call, now), now)
    ensures CountersInv(c) ==> CountersInv(CommitNew(c, m, call, now))
  {
    hide Promoted, FindDuplicate;
    PromotedKeeps(c, m, now, false);
    var n := CommitNew(c, m, call, now);
    assert n.next == n.calls % HISTORY;
    forall i, j | 0 <= i < j < HISTORY
      ensures FarApart(n.recent[i], n.recent[j])
    {
      assert FarApart(c.recent[i], c.recent[j]);
      assert !RecentMatch(c.recent[i], call.key, now) && !RecentMatch(c.recent[j], call.key, now);
    }
  }

  /** Committing the current message, which was not committed before, keeps everything. */
  lemma CommitKeeps(s: State, time: nat, now: nat, received: bool, timedOut: bool)
    requires HistoryInv(s.comm, time) && CountersInv(s.comm) && time <= now && 0 < now
    requires Increasing(s.committed) && s.current == s.accepted
    requires forall i :: 0 <= i < |s.committed| ==> s.committed[i] < s.current
    requires |s.committed| == s.comm.calls + s.comm.duplicates && s.accepted == |s.committed| + s.replaced + 1
    ensures Inv(Commit(s, now, received, timedOut), now)
  {
    hide CommitDuplicate, CommitNew, HistoryInv, CountersInv, FindDuplicate;
    HistoryReady(s.comm, time);
    var call := NewCall(s.message, now, received, timedOut);
    var d := FindDuplicate(s.comm.recent, call.key, now, 0);
    var t := Commit(s, now, received, timedOut);
    if d.Some? {
      DuplicateKeepsHistory(s.comm, s.message, call, time, now, d.value);
      DuplicateCounts(s.comm, s.message, call, now, d.value);
    } else {
      NewKeepsHistory(s.comm, s.message, call, time, now);
      NewCounts(s.comm, s.message, call, now);
    }
  }

  lemma HistoryReady(c: Comm, time: nat)
    requires HistoryInv(c, time)
    ensures |c.recent| == HISTORY && c.next < HISTORY
  {}

  lemma DuplicateCounts(c: Comm, m: Message, call: Call, now: nat, d: nat)
    requires d < |c.recent|
    ensures var n := CommitDuplicate(c, m, call, now, d); n.calls == c.calls && n.duplicates == c.duplicates + 1
  {
    PromotedKeeps(c, m, now, true);
  }

  lemma NewCounts(c: Comm, m: Message, call: Call, now: nat)
    requires c.next < |c.recent|
    ensures var n := CommitNew(c, m, call, now); n.calls == c.calls + 1 && n.duplicates == c.duplicates
  {
    PromotedKeeps(c, m, now, false);
  }

  lemma {:induction false} InvKept(s: State, time: nat, sentence: Sentence, now: nat, source: Source)
    requires Inv(s, time) && time <= now && 0 < now
    ensures Ready(s) && Inv(Step(s, sentence, now, source), now)
  {
    hide Commit, CountersInv, HistoryInv, LedgerInv;
    HistoryReady(s.comm, time);
    ExpireKeeps(s, time, now);
    var t := Expire(s, now);
    HistoryReady(t.comm, now);
    match sentence
    case OtherSentence =>
    case DscSentence(fields, m) => if fields >= 10 { AcceptKeeps(t, m, now, source); }
    case DseSentence(fields, sender, fragmented, complete) =>
      if fields >= 6 && MatchesPending(t, sender, source) && !(fragmented && !complete) {
        PendingKeeps(t, now, true, false);
      }
  }

  lemma PendingKeeps(s: State, now: nat, received: bool, timedOut: bool)
    requires Inv(s, now) && 0 < now && s.pending.Some? && Ready(s)
    ensures Inv(Commit(s, now, received, timedOut), now)
  {
    hide CountersInv, HistoryInv, Commit;
    CommitKeeps(s, now, now, received, timedOut);
  }

  lemma ExpireKeeps(s: State, time: nat, now: nat)
    requires Inv(s, time) && time <= now && 0 < now && Ready(s)
    ensures Inv(Expire(s, now), now)
  {
    hide CountersInv, Commit;
    if s.pending.Some? { CommitKeeps(s, time, now, false, true); }
  }

  lemma AcceptKeeps(s: State, m: Message, now: nat, source: Source)
    requires Inv(s, now) && 0 < now && Ready(s)
    ensures Inv(Accept(s, m, now, source), now)
  {
    hide CountersInv, HistoryInv, Commit;
    if !ExpansionExpected(m) {
      var t := s.(message := m.(arrived := now), accepted := s.accepted + 1, current := s.accepted + 1,
                  replaced := s.replaced + (if s.pending.Some? then 1 else 0), pending := None);
      CommitKeeps(t, now, now, false, false);
    }
  }

  // ----- What single sentences do -----

  /** A DSC sentence that does not wait for an expansion. */
  predicate CommittedAtOnce(fields: nat, m: Message) {
    fields >= 10 && m.expansionFlag != 'E' && m.expansionFlag != 'e'
  }

  /** No stored call repeats the message: same key, at most ten seconds old. */
  predicate FirstOfItsKind(c: Comm, m: Message, now: nat) {
    forall i :: 0 <= i < |c.recent| && c.recent[i].key == m.key && c.recent[i].lastUpdate != 0 ==>
      now > c.recent[i].lastUpdate + 10_000_000
  }

  /**
   A first call that is no acknowledgement is stored and counted by its codes:
   112 as format or category is distress, category 110 urgency, 108 safety. It
   raises or repeats the alert of that kind and no other.
   */
  lemma FirstCall(s: State, fields: nat, m: Message, now: nat, source: Source)
    requires Ready(s) && s.pending.None? && 0 < now && CommittedAtOnce(fields, m) && FirstOfItsKind(s.comm, m, now)
    requires m.key.endSignal != 'A' && m.key.endSignal != 'R'
    ensures var c, d := s.comm, Step(s, DscSentence(fields, m), now, source).comm;
            var distress := m.key.format == Some(112) || m.key.category == Some(112);
            var urgency := !distress && m.key.category == Some(110);
            var safety := !distress && m.key.category == Some(108);
            && d.calls == c.calls + 1 && d.duplicates == c.duplicates && d.recent[c.next].key == m.key
            && d.distress == c.distress + (if distress then 1 else 0)
            && d.urgency == c.urgency + (if urgency then 1 else 0)
            && d.safety == c.safety + (if safety then 1 else 0)
            && (if distress then RaisedOnly(c, d, Distress, m) else if urgency then RaisedOnly(c, d, Urgency, m)
                else if safety then RaisedOnly(c, d, Safety, m) else d.alerts == c.alerts)
  {
    hide FindDuplicate;
    NoDuplicate(s.comm, m, now);
    var c, k := s.comm, KindOf(m.key);
    assert c.alerts[k := NextAlert(AlertAt(c, k), m, now, false)] - {k} == c.alerts - {k};
  }

  /** The alert is about the message's sender, and no other alert changed. */
  predicate RaisedOnly(c: Comm, d: Comm, k: Kind, m: Message) {
    && k in d.alerts && d.alerts[k].sender == m.key.sender && d.alerts[k].firstSeen != 0
    && d.alerts - {k} == c.alerts - {k}
    && (if k in c.alerts && SameAlert(c.alerts[k], m)
        then Repeats(c.alerts[k], d.alerts[k], m)
        else d.alerts[k].repeats == 1 && !d.alerts[k].acknowledged && d.alerts[k].position == m.position)
  }

  /** A repeat is counted, keeps when the alert was first seen, and never takes an acknowledgement back. */
  predicate Repeats(a: Alert, b: Alert, m: Message) {
    && b.repeats == a.repeats + 1 && b.firstSeen == a.firstSeen
    && b.acknowledged == (a.acknowledged || m.key.endSignal == 'A' || m.key.endSignal == 'R')
    && b.position == (if m.position.Some? then m.position else a.position)
  }

  lemma NoDuplicate(c: Comm, m: Message, now: nat)
    requires FirstOfItsKind(c, m, now)
    ensures FindDuplicate(c.recent, m.key, now, 0).None?
  {}

  /**
   A first acknowledgement with alert codes acknowledges the alert it is about
   and is counted; about no known alert it only counts as an orphan.
   */
  lemma FirstAck(s: State, fields: nat, m: Message, now: nat, source: Source, k: Kind)
    requires Ready(s) && s.pending.None? && 0 < now && CommittedAtOnce(fields, m) && FirstOfItsKind(s.comm, m, now)
    requires m.key.endSignal == 'A' || m.key.endSignal == 'R'
    requires k == if m.key.format == Some(112) || m.key.category == Some(112) then Distress
                  else if m.key.category == Some(110) then Urgency
                  else if m.key.category == Some(108) then Safety else Plain
    requires k != Plain
    ensures var c, d := s.comm, Step(s, DscSentence(fields, m), now, source).comm;
            if k in c.alerts && SameAlert(c.alerts[k], m) then
              && d.acknowledged == c.acknowledged + 1 && d.orphanAcks == c.orphanAcks
              && RaisedOnly(c, d, k, m) && d.alerts[k].acknowledged
            else d.alerts == c.alerts && d.orphanAcks == c.orphanAcks + 1 && d.acknowledged == c.acknowledged
    ensures k in s.comm.alerts ==>
              (SameAlert(s.comm.alerts[k], m) <==>
               var a := s.comm.alerts[k];
               && a.firstSeen != 0 && a.sender == m.key.sender
               && m.key.category in {None, a.category} && m.key.nature in {None, a.nature}
               && m.position in {None, a.position})
  {
    hide FindDuplicate;
    NoDuplicate(s.comm, m, now);
  }

  /** A repeat within ten seconds is counted with the stored call and not stored again. */
  lemma RepeatedCall(s: State, fields: nat, m: Message, now: nat, source: Source, i: nat)
    requires Ready(s) && s.pending.None? && CommittedAtOnce(fields, m) && i < |s.comm.recent|
    requires s.comm.recent[i].key == m.key &&
             0 < s.comm.recent[i].lastUpdate <= now <= s.comm.recent[i].lastUpdate + 10_000_000
    ensures var c, d := s.comm, Step(s, DscSentence(fields, m), now, source).comm;
            && d.calls == c.calls && d.duplicates == c.duplicates + 1 && d.next == c.next
            && d.distress == c.distress && d.urgency == c.urgency && d.safety == c.safety
            && exists j :: 0 <= j < |c.recent| && c.recent[j].key == m.key &&
                 d.recent == c.recent[j := d.recent[j]] && d.recent[j].repeats == c.recent[j].repeats + 1
  {
    hide FindDuplicate;
    assert RecentMatch(s.comm.recent[i], m.key, now);
    var d := FindDuplicate(s.comm.recent, m.key, now, 0);
    var after := Step(s, DscSentence(fields, m), now, source).comm;
    assert after.recent == s.comm.recent[d.value := after.recent[d.value]];
  }

  /** A sentence with the flag E or e waits for its expansion, and displaces one that was waiting. */
  lemma WaitsForExpansion(s: State, fields: nat, m: Message, now: nat, source: Source)
    requires Ready(s) && fields >= 10 && (m.expansionFlag == 'E' || m.expansionFlag == 'e')
    requires s.pending.Some? ==> now <= s.pending.value.started + 500_000
    ensures var t := Step(s, DscSentence(fields, m), now, source);
            && t.pending == Some(Pending(now, source)) && t.message.key == m.key && t.comm == s.comm
            && t.committed == s.committed && t.replaced == s.replaced + (if s.pending.Some? then 1 else 0)
  {
    hide FindDuplicate, Promotes;
  }

  /** A call waits for its expansion for half a second, and is then committed as timed out. */
  lemma WaitsHalfASecond(s: State, now: nat, source: Source)
    requires Ready(s) && s.pending.Some? && 0 < s.pending.value.started <= now
    ensures var t := Step(s, OtherSentence, now, source);
            if now - s.pending.value.started <= 500_000 then t == s
            else t.pending.None? && t.committed == s.committed + [s.current] && t == Commit(s, now, false, true)
  {
    hide FindDuplicate, Promotes;
  }

  /** While it waits, a complete expansion commits it, unless it is from another known sender or source. */
  lemma ExpansionCommits(s: State, fields: nat, sender: string, fragmented: bool, complete: bool, now: nat,
                         source: Source)
    requires Ready(s) && s.pending.Some? && s.pending.value.started <= now <= s.pending.value.started + 500_000
    ensures var t := Step(s, DseSentence(fields, sender, fragmented, complete), now, source);
            var own := s.message.key.sender;
            var other := || (own != "" && sender != "" && sender != own)
                         || (s.pending.value.source != 0 && source != 0 && source != s.pending.value.source);
            if fields < 6 || other || (fragmented && !complete) then t == s
            else t.pending.None? && t.committed == s.committed + [s.current] && t == Commit(s, now, true, false)
  {
    hide FindDuplicate, Promotes;
  }

  // ----- Runs -----

  datatype Event = Event(sentence: Sentence, now: nat, source: Source)

  /** Time is positive and never goes back. */
  predicate Timely(events: seq<Event>, time: nat) {
    events == [] || (0 < events[0].now && time <= events[0].now && Timely(events[1..], events[0].now))
  }

  ghost function Run(s: State, events: seq<Event>): State
    requires Ready(s)
    decreases |events|
  {
    if events == [] then s
    else
      var t := Step(s, events[0].sentence, events[0].now, events[0].source);
      StepReady(s, events[0]);
      Run(t, events[1..])
  }

  lemma StepReady(s: State, e: Event)
    requires Ready(s)
    ensures Ready(Step(s, e.sentence, e.now, e.source))
  {
    hide Promotes, KindOf, FindDuplicate;
  }

  const NoCall: Call := Call(Key("", None, None, None, None, "", "", "", '\0'), 0, 0, 0, false, false, false, false)

  function Start(): (s: State)
    ensures Ready(s)
  {
    State(Message(NoCall.key, None, '\0', 0), None,
          Comm([NoCall, NoCall, NoCall, NoCall], 0, 0, 0, 0, 0, 0, 0, 0, 0, 0, 0, map[]), 0, 0, [], 0)
  }

  lemma {:induction false} RunKeeps(s: State, time: nat, events: seq<Event>)
    requires Inv(s, time) && Timely(events, time) && Ready(s)
    ensures exists last :: time <= last && Inv(Run(s, events), last)
    decreases |events|
  {
    hide Inv, Step, Ready;
    if events == [] {
      assert Inv(Run(s, events), time);
    } else {
      var e := events[0];
      InvKept(s, time, e.sentence, e.now, e.source);
      StepReady(s, e);
      var t := Step(s, e.sentence, e.now, e.source);
      RunKeeps(t, e.now, events[1..]);
      var last :| e.now <= last && Inv(Run(t, events[1..]), last);
      assert Run(s, events) == Run(t, events[1..]);
      assert time <= last && Inv(Run(s, events), last);
    }
  }

  /**
   From power-up, over any sentences with positive, never decreasing times: every
   accepted DSC sentence is committed at most once, was displaced while pending,
   or is pending; commits are calls and duplicates; every call is an alert, an
   acknowledgement, an orphan acknowledgement or plain; the ring is filled in
   order; and stored repeats of a call are more than the window apart.
   */
  lemma WholeRun(events: seq<Event>)
    requires Timely(events, 0)
    ensures var s := Run(Start(), events);
            var c := s.comm;
            && Increasing(s.committed) && |s.committed| == c.calls + c.duplicates
            && s.accepted == |s.committed| + s.replaced + (if s.pending.Some? then 1 else 0)
            && c.calls == c.distress + c.urgency + c.safety + c.acknowledged + c.orphanAcks + c.plain
            && |c.recent| == 4 && c.next == c.calls % 4 && c.stored == (if c.calls < 4 then c.calls else 4)
            && forall i, j :: 0 <= i < j < 4 ==> FarApart(c.recent[i], c.recent[j])
  {
    hide Run, Start, FarApart, Inv, Increasing;
    StartInv();
    RunKeeps(Start(), 0, events);
    var last :| Inv(Run(Start(), events), last);
    InvSays(Run(Start(), events), last);
  }

  lemma InvSays(s: State, time: nat)
    requires Inv(s, time)
    ensures var c := s.comm;
            && Increasing(s.committed) && |s.committed| == c.calls + c.duplicates
            && s.accepted == |s.committed| + s.replaced + (if s.pending.Some? then 1 else 0)
            && c.calls == c.distress + c.urgency + c.safety + c.acknowledged + c.orphanAcks + c.plain
            && |c.recent| == HISTORY && c.next == c.calls % HISTORY
            && c.stored == (if c.calls < HISTORY then c.calls else HISTORY)
            && forall i, j :: 0 <= i < j < HISTORY ==> FarApart(c.recent[i], c.recent[j])
  {
    hide FarApart, Increasing;
  }

  lemma StartInv()
    ensures Inv(Start(), 0)
  {}
}
