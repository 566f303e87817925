/**
 The DSC part of the NMEA 0183 receiver, updating its history ring, counters,
 alerts and pending call in place.
 */
module DscReceiver {
  import opened JsonText
  import opened Dsc

  /** `DscCommData` and the DSC alerts of the model. */
  class DscComm {
    const recent: array<Call>
    var next: nat
    var stored: nat
    var calls: nat
    var duplicates: nat
    var distress: nat
    var urgency: nat
    var safety: nat
    var acknowledged: nat
    var orphanAcks: nat
    var timeouts: nat
    var alerts: map<Kind, Alert>
    ghost var plain: nat

    ghost predicate Valid()
      reads this
    {
      recent.Length == HISTORY && next < HISTORY
    }

    ghost function AsComm(): Comm
      reads this, recent
    {
      Comm(recent[..], next, stored, calls, duplicates, distress, urgency, safety, acknowledged, orphanAcks, timeouts,
           plain, alerts)
    }

    constructor ()
      ensures Valid() && AsComm() == Start().comm && fresh(recent)
    {
      recent := new Call[HISTORY](_ => NoCall);
      next, stored, calls, duplicates, distress, urgency, safety := 0, 0, 0, 0, 0, 0, 0;
      acknowledged, orphanAcks, timeouts, alerts, plain := 0, 0, 0, map[], 0;
      new;
      assert recent[..] == [NoCall, NoCall, NoCall, NoCall];
    }

    /** The index of the first recent call with this key, or -1. */
    method FindRecentDuplicate(key: Key, now: nat) returns (index: int)
      requires Valid()
      ensures index == (match FindDuplicate(recent[..], key, now, 0) case Some(i) => i case None => -1)
    {
      hide RecentMatch;
      for i := 0 to recent.Length
        invariant FindDuplicate(recent[..], key, now, 0) == FindDuplicate(recent[..], key, now, i)
      {
        var matches := IsRecentMatch(recent[i], key, now);
        if matches { return i; }
      }
      return -1;
    }

    static method IsRecentMatch(candidate: Call, key: Key, now: nat) returns (r: bool)
      ensures r <==> RecentMatch(candidate, key, now)
    {
      if candidate.lastUpdate == 0 { return false; }
      if now >= candidate.lastUpdate && now - candidate.lastUpdate > DUPLICATE_WINDOW { return false; }
      return candidate.key == key;
    }

    method PushRecentCall(call: Call)
      requires Valid()
      modifies this`next, this`stored, recent
      ensures Valid() && recent[..] == old(recent[..])[old(next) := call]
      ensures next == (old(next) + 1) % HISTORY &&
              stored == if old(stored) < HISTORY then old(stored) + 1 else old(stored)
    {
      recent[next] := call;
      if stored < HISTORY { stored := stored + 1; }
      next := (next + 1) % HISTORY;
    }

    /** Raises, repeats or acknowledges an alert; an acknowledgement of an unknown alert does nothing. */
    method CommitAlert(kind: Kind, m: Message, now: nat, duplicate: bool) returns (done: bool)
      modifies this`alerts
      ensures done == (IsAck(m.key.endSignal) ==> SameAlert(old(AlertAt(AsComm(), kind)), m))
      ensures alerts ==
              if done then old(alerts)[kind := NextAlert(old(AlertAt(AsComm(), kind)), m, now, duplicate)]
              else old(alerts)
    {
      var alert := if kind in alerts then alerts[kind] else NoAlert;
      var same := SameAlert(alert, m);
      var ack := IsAck(m.key.endSignal);
      var previously := same && alert.acknowledged;
      var previousRepeats := alert.repeats;
      if ack && !same { return false; }
      if !same { alert := NoAlert.(firstSeen := now); }
      alert := alert.(sender := m.key.sender);
      if m.key.category.Some? { alert := alert.(category := m.key.category); }
      if m.key.nature.Some? { alert := alert.(nature := m.key.nature); }
      if m.position.Some? { alert := alert.(position := m.position); }
      alert := alert.(acknowledged := previously || ack, duplicate := duplicate,
                      repeats := if same then previousRepeats + 1 else 1);
      alerts := alerts[kind := alert];
      return true;
    }

    method PromoteNotifications(m: Message, now: nat, duplicate: bool) returns (promoted: bool)
      modifies this`alerts, this`distress, this`urgency, this`safety
      ensures promoted == Promotes(old(AsComm()), m)
      ensures AsComm() == Promoted(old(AsComm()), m, now, duplicate)
    {
      hide SameAlert, NextAlert;
      var ack := IsAck(m.key.endSignal);
      match KindOf(m.key)
      case Distress =>
        promoted := CommitAlert(Distress, m, now, duplicate);
        if promoted && !duplicate && !ack { distress := distress + 1; }
      case Urgency =>
        promoted := CommitAlert(Urgency, m, now, duplicate);
        if promoted && !duplicate && !ack { urgency := urgency + 1; }
      case Safety =>
        promoted := CommitAlert(Safety, m, now, duplicate);
        if promoted && !duplicate && !ack { safety := safety + 1; }
      case Plain => promoted := false;
    }

    /** Stores a call, or counts it as a repeat of a recent one. */
    method CommitCall(m: Message, now: nat, received: bool, timedOut: bool)
      requires Valid()
      modifies this, recent
      ensures Valid()
      ensures var call := NewCall(m, now, received, timedOut);
              var c := old(AsComm());
              AsComm() == match FindDuplicate(c.recent, call.key, now, 0)
                          case Some(d) => CommitDuplicate(c, m, call, now, d)
                          case None => CommitNew(c, m, call, now)
    {
      hide FindDuplicate, Promotes, Promoted;
      var call := NewCall(m, now, received, timedOut);
      var alertAck := IsAck(m.key.endSignal) && KindOf(m.key) != Plain;
      var index := FindRecentDuplicate(call.key, now);
      if index >= 0 { CommitRepeat(m, call, now, index, alertAck); } else { CommitFirst(m, call, now, alertAck); }
    }

    method CommitRepeat(m: Message, call: Call, now: nat, index: nat, alertAck: bool)
      requires Valid() && index < HISTORY && alertAck == (IsAck(m.key.endSignal) && KindOf(m.key) != Plain)
      requires !call.orphanAck
      modifies this, recent
      ensures Valid() && AsComm() == CommitDuplicate(old(AsComm()), m, call, now, index)
    {
      hide Promotes, Promoted;
      PromotedKeeps(AsComm(), m, now, true);
      var previous := recent[index];
      var repeat := call.(duplicate := true, repeats := previous.repeats + 1);
      if previous.firstSeen != 0 { repeat := repeat.(firstSeen := previous.firstSeen); }
      var promoted := PromoteNotifications(m, now, true);
      if alertAck && !promoted { repeat := repeat.(orphanAck := true); }
      recent[index] := repeat;
      duplicates := duplicates + 1;
      assert recent[..] == old(recent[..])[index := repeat];
    }

    method CommitFirst(m: Message, call: Call, now: nat, alertAck: bool)
      requires Valid() && alertAck == (IsAck(m.key.endSignal) && KindOf(m.key) != Plain)
      requires !call.orphanAck
      modifies this, recent
      ensures Valid() && AsComm() == CommitNew(old(AsComm()), m, call, now)
    {
      hide Promotes, Promoted;
      PromotedKeeps(AsComm(), m, now, false);
      var stamped := call;
      var promoted := PromoteNotifications(m, now, false);
      if alertAck && promoted {
        acknowledged := acknowledged + 1;
      } else if alertAck {
        stamped := stamped.(orphanAck := true);
        orphanAcks := orphanAcks + 1;
      }
      PushRecentCall(stamped);
      calls := calls + 1;
      if call.expansionTimeout { timeouts := timeouts + 1; }
      if KindOf(m.key) == Plain { plain := plain + 1; }
    }
  }

  class Receiver {
    const comm: DscComm
    var message: Message
    var pendingCommit: bool
    var pendingStarted: nat
    var pendingSource: Source
    ghost var accepted: nat
    ghost var current: nat
    ghost var committed: seq<nat>
    ghost var replaced: nat

    ghost predicate Valid()
      reads this, comm
    {
      comm.Valid()
    }

    ghost function AsState(): State
      reads this, comm, comm.recent
    {
      State(message, if pendingCommit then Some(Pending(pendingStarted, pendingSource)) else None, comm.AsComm(),
            accepted, current, committed, replaced)
    }

    constructor ()
      ensures Valid() && AsState() == Start() && fresh(comm) && fresh(comm.recent)
    {
      comm := new DscComm();
      message := Message(NoCall.key, None, '\0', 0);
      pendingCommit, pendingStarted, pendingSource := false, 0, NO_SOURCE;
      accepted, current, committed, replaced := 0, 0, [], 0;
    }

    method CommitMessage(now: nat, received: bool, timedOut: bool)
      requires Valid()
      modifies this, comm, comm.recent
      ensures Valid() && AsState() == Commit(old(AsState()), now, received, timedOut)
    {
      hide FindDuplicate, CommitDuplicate, CommitNew;
      pendingCommit, pendingStarted, pendingSource := false, 0, NO_SOURCE;
      comm.CommitCall(message, now, received, timedOut);
      committed := committed + [current];
    }

    method ExpirePending(now: nat)
      requires Valid()
      modifies this, comm, comm.recent
      ensures Valid() && AsState() == Expire(old(AsState()), now)
    {
      hide Commit;
      if !pendingCommit { return; }
      if pendingStarted == 0 || now < pendingStarted { return; }
      if now - pendingStarted <= EXPANSION_TIMEOUT { return; }
      CommitMessage(now, false, true);
    }

    method ApplyDsc(fields: nat, m: Message, now: nat, source: Source) returns (ok: bool)
      requires Valid()
      modifies this, comm, comm.recent
      ensures Valid() && ok == (fields >= 10)
      ensures AsState() == if ok then Accept(old(AsState()), m, now, source) else old(AsState())
    {
      hide Commit;
      if fields < 10 { return false; }
      ok := true;
      replaced := replaced + if pendingCommit then 1 else 0;
      accepted, current := accepted + 1, accepted + 1;
      message := m.(arrived := now);
      if ExpansionExpected(message) {
        pendingCommit, pendingStarted, pendingSource := true, now, source;
        return;
      }
      pendingCommit, pendingStarted, pendingSource := false, 0, NO_SOURCE;
      CommitMessage(now, false, false);
    }

    method ApplyDse(fields: nat, sender: string, fragmented: bool, complete: bool, now: nat, source: Source)
      returns (ok: bool)
      requires Valid()
      modifies this, comm, comm.recent
      ensures Valid() && ok == (fields >= 6)
      ensures AsState() == if ok && MatchesPending(old(AsState()), sender, source) && !(fragmented && !complete)
                           then Commit(old(AsState()), now, true, false) else old(AsState())
    {
      hide Commit;
      if fields < 6 { return false; }
      ok := true;
      if !pendingCommit { return; }
      if pendingSource != NO_SOURCE && source != NO_SOURCE && source != pendingSource { return; }
      if message.key.sender != "" && sender != "" && message.key.sender != sender { return; }
      if fragmented && !complete { return; }
      CommitMessage(now, true, false);
    }

    /** One sentence: a pending call that timed out is committed first. */
    method Receive(sentence: Sentence, now: nat, source: Source)
      requires Valid()
      modifies this, comm, comm.recent
      ensures Valid() && AsState() == Step(old(AsState()), sentence, now, source)
    {
      hide Commit, Accept, MatchesPending;
      ExpirePending(now);
      var ok;
      match sentence
      case OtherSentence =>
      case DscSentence(fields, m) => ok := ApplyDsc(fields, m, now, source);
      case DseSentence(fields, sender, fragmented, complete) =>
        ok := ApplyDse(fields, sender, fragmented, complete, now, source);
    }
  }
}
