/**
 What a client is sent for the values of a snapshot: which values are sent
 whole, what a value that fits no delta is broken into, and that every
 selected field and target is part of the snapshot.
 */
module SnapshotValues {
  import opened JsonText
  import opened DeltaFrame
  import opened Snapshot

  // ----- Objects -----

  /**
   An object that fits no delta is sent as paths and values. They mean what the
   object means if and only if nothing is dropped or shortened.
   */
  lemma ObjectSent(room: int, path: string, w: ValueWriter, tree: Json) returns (sent: seq<(string, Json)>)
    requires !Fits(room, path, w)
    ensures ValueEntries(room, path, Composite(w, Some(tree))) == EntriesFor(sent)
    ensures SentMeaning(sent) == Meaning(path, tree) <==> InFull(room, path, tree, 0)
  {
    hide Fits, SplitEntries, SplitValues, EntriesFor, SentMeaning, Meaning, InFull;
    sent := SplitValues(room, path, tree, 0);
    SplitIsValues(room, path, tree, 0);
    SplitKeepsMeaning(room, path, tree, 0);
  }

  /** How many objects with members are inside each other. */
  function ObjectDepth(tree: Json): nat
    decreases tree, 0
  {
    if tree.Obj? && tree.members.Member? then 1 + MembersDepth(tree.members) else 0
  }

  function MembersDepth(members: Members): nat
    decreases members, 0
  {
    match members
    case NoMembers => 0
    case Member(_, value, rest) =>
      var a, b := ObjectDepth(value), MembersDepth(rest);
      if a < b then b else a
  }

  /** Every member has a path of 1 to 159 bytes. */
  predicate ShortPaths(path: string, tree: Json)
    decreases tree, 0
  {
    tree.Obj? ==> ShortMemberPaths(path, tree.members)
  }

  predicate ShortMemberPaths(path: string, members: Members)
    decreases members, 0
  {
    members.Member? ==>
      && 0 < |Dot(path, members.key)| < 160 && ShortPaths(Dot(path, members.key), members.value)
      && ShortMemberPaths(path, members.rest)
  }

  /** Every path and value fits a delta of its own. */
  ghost predicate AllFit(room: int, values: seq<(string, Json)>) {
    forall i :: 0 <= i < |values| ==> |EntryText(values[i].0, Print(values[i].1))| < room
  }

  lemma AllFitParts(room: int, a: seq<(string, Json)>, b: seq<(string, Json)>)
    requires AllFit(room, a + b)
    ensures AllFit(room, a) && AllFit(room, b)
  {
    hide EntryText, Print;
    forall i | 0 <= i < |a| ensures |EntryText(a[i].0, Print(a[i].1))| < room { assert (a + b)[i] == a[i]; }
    forall i | 0 <= i < |b| ensures |EntryText(b[i].0, Print(b[i].1))| < room { assert (a + b)[|a| + i] == b[i]; }
  }

  lemma WrittenFits(room: int, path: string, tree: Json)
    ensures Fits(room, path, Written(tree)) <==> |EntryText(path, Print(tree))| < room
  {
    hide EntryText, Print;
    assert [Print(tree)][1..] == [];
    assert Concat([Print(tree)]) == Print(tree) + "" == Print(tree);
  }

  lemma {:induction false} LeavesFitInFull(room: int, path: string, tree: Json, depth: nat)
    requires ShortPaths(path, tree) && depth + ObjectDepth(tree) <= 3 && AllFit(room, Meaning(path, tree))
    ensures InFull(room, path, tree, depth)
    decreases tree, 0
  {
    hide EntryText, Fits;
    if tree.Obj? && tree.members.Member? {
      MembersFitInFull(room, path, tree.members, depth + 1);
    } else {
      assert Meaning(path, tree)[0] == (path, tree);
      WrittenFits(room, path, tree);
    }
  }

  lemma {:induction false} MembersFitInFull(room: int, path: string, members: Members, depth: nat)
    requires ShortMemberPaths(path, members) && depth + MembersDepth(members) <= 3
    requires AllFit(room, MembersMeaning(path, members))
    ensures MembersInFull(room, path, members, depth)
    decreases members, 0
  {
    hide EntryText, Fits, AllFit, Meaning, ObjectDepth, ShortPaths, InFull;
    if members.Member? {
      AllFitParts(room, Meaning(Dot(path, members.key), members.value), MembersMeaning(path, members.rest));
      LeavesFitInFull(room, Dot(path, members.key), members.value, depth);
      MembersFitInFull(room, path, members.rest, depth);
    }
  }

  /**
   An object that fits no delta, is at most three objects deep, and whose member
   paths are shorter than 160 bytes loses nothing if each of its leaves fits a
   delta under its own path.
   */
  lemma ObjectSentInFull(room: int, path: string, w: ValueWriter, tree: Json) returns (sent: seq<(string, Json)>)
    requires !Fits(room, path, w)
    requires ShortPaths(path, tree) && ObjectDepth(tree) <= 3 && AllFit(room, Meaning(path, tree))
    ensures ValueEntries(room, path, Composite(w, Some(tree))) == EntriesFor(sent)
    ensures SentMeaning(sent) == Meaning(path, tree)
  {
    hide Fits, ValueEntries, EntriesFor, SentMeaning, Meaning, InFull, ShortPaths, ObjectDepth, AllFit;
    sent := ObjectSent(room, path, w, tree);
    LeavesFitInFull(room, path, tree, 0);
  }

  // ----- Texts and other values -----

  /**
   A text that fits no delta is sent as one shorter prefix, unless it is empty
   or not even an empty text would fit.
   */
  lemma TextSent(room: int, path: string, w: ValueWriter, text: string) returns (n: nat)
    requires !Fits(room, path, w)
    ensures ValueEntries(room, path, Text(w, text)) ==
            if text != "" && |EntryText(path, "\"\"")| < room then [EntryText(path, Quote(text[..Min(n, |text|)]))]
              else []
    ensures text != "" ==> n < |text|
  {
    hide EntryText, Quote, ShortenedLength;
    ShorteningFindsPrefix(room, path, text, |text|);
    QuotedFits(room, path, "");
    EmptyQuote();
    var found := ShortenedLength(room, path, text, |text|);
    n := if found.Some? then found.value else 0;
    if found.Some? { WholeQuoted(path, text[..n]); }
  }

  lemma EmptyQuote()
    ensures Quote("") == "\"\""
  {}

  lemma WholeQuoted(path: string, text: string)
    ensures Whole(path, Quoted(text)) == EntryText(path, Quote(text))
  {
    hide EntryText, Quote;
    assert [Quote(text)][1..] == [];
    assert Concat([Quote(text)]) == Quote(text) + "" == Quote(text);
  }

  lemma QuotedFits(room: int, path: string, text: string)
    ensures Fits(room, path, Quoted(text)) <==> |EntryText(path, Quote(text))| < room
  {
    hide EntryText, Quote;
    WholeQuoted(path, text);
  }

  /** A value that fits a delta is sent whole; another one that is neither text nor object is not sent. */
  lemma ValueSent(room: int, path: string, value: Value)
    ensures var text := EntryText(path, Concat(value.writer.pieces));
            && (value.writer.completes && |text| < room ==> ValueEntries(room, path, value) == [text])
            && (!(value.writer.completes && |text| < room) && value.Single? ==> ValueEntries(room, path, value) == [])
  {}

  // ----- The snapshot -----

  /** Every value of a selected field is in the snapshot, under the header of its source, if that fits. */
  lemma FieldInSnapshot(v: View, capacity: nat, p: nat, i: nat)
    requires 0 < p < v.Base() && v.fields[p].Field?
    requires var f := v.fields[p];
             var header := HeaderText(v.context, v.timestamp,
                                      if f.source < |v.labels| then v.labels[f.source] else v.otherLabel);
             |header| < capacity && i < |ValueEntries(capacity - |header|, f.path, f.value)|
    ensures var f := v.fields[p];
            var header := HeaderText(v.context, v.timestamp,
                                     if f.source < |v.labels| then v.labels[f.source] else v.otherLabel);
            Datum(p, i, header, ValueEntries(capacity - |header|, f.path, f.value)[i]) in After(v, capacity,
                    Cursor(1, 0))
  {
    hide ItemsAt, ItemsFrom, HeaderText, ValueEntries;
    FieldItems(v, capacity, p);
    InAfter(v, capacity, p, i);
  }

  lemma InAfter(v: View, capacity: nat, p: nat, i: nat)
    requires 0 < p < v.End() && i < |ItemsAt(v, capacity, p)|
    ensures ItemsAt(v, capacity, p)[i] in After(v, capacity, Cursor(1, 0))
  {
    hide ItemsAt, ItemsFrom;
    InItemsFrom(v, capacity, 1, p, i);
    AfterValue(v, capacity, Cursor(1, 0));
    assert ItemsFrom(v, capacity, 1)[0..] == ItemsFrom(v, capacity, 1);
  }

  lemma {:induction false} InItemsFrom(v: View, capacity: nat, start: nat, p: nat, i: nat)
    requires start <= p < v.End() && i < |ItemsAt(v, capacity, p)|
    ensures ItemsAt(v, capacity, p)[i] in ItemsFrom(v, capacity, start)
    decreases p - start
  {
    hide ItemsAt, ItemsFrom;
    ItemsUnfold(v, capacity, start);
    if start < p { InItemsFrom(v, capacity, start + 1, p, i); }
  }

  /** A target's values are sent in order, those that fit no delta left out. */
  lemma {:induction false} PlainIsFilter(room: int, values: seq<(string, ValueWriter)>, i: nat)
    requires i < |values|
    ensures values[i].1.completes && |EntryText(values[i].0, Concat(values[i].1.pieces))| < room ==>
              EntryText(values[i].0, Concat(values[i].1.pieces)) in PlainEntries(room, values)
    ensures (forall k :: 0 <= k < |values| ==> Fits(room, values[k].0, values[k].1)) ==>
              |PlainEntries(room, values)| == |values| &&
                PlainEntries(room, values)[i] == Whole(values[i].0, values[i].1)
    decreases |values|
  {
    hide EntryText, Concat;
    if |values| > 1 {
      PlainIsFilter(room, values[1..], if i == 0 then 0 else i - 1);
      assert forall k :: 0 <= k < |values[1..]| ==> values[1..][k] == values[k + 1];
    }
  }

  /** Every value of a target that is sent is in the snapshot, in the target's own context. */
  lemma TargetInSnapshot(v: View, capacity: nat, slot: nat, i: nat) returns (k: nat)
    requires 0 < v.Base() && slot < |v.targets| && v.targets[slot].Target? && v.sendTargets
    requires i < |v.targets[slot].values|
    requires var t := v.targets[slot];
             var header := HeaderText(t.context, v.timestamp, v.targetLabel);
             |header| < capacity && Fits(capacity - |header|, t.values[i].0, t.values[i].1)
    ensures var t := v.targets[slot];
            var header := HeaderText(t.context, v.timestamp, v.targetLabel);
            Datum(v.Base() + slot, k, header, Whole(t.values[i].0, t.values[i].1)) in After(v, capacity, Cursor(1, 0))
  {
    hide ItemsAt, ItemsFrom, HeaderText, Fits, PlainEntries, After;
    var t := v.targets[slot];
    var p, header := v.Base() + slot, HeaderText(t.context, v.timestamp, v.targetLabel);
    var entries := PlainEntries(capacity - |header|, t.values);
    WholeInPlain(capacity - |header|, t.values, i);
    k :| 0 <= k < |entries| && entries[k] == Whole(t.values[i].0, t.values[i].1);
    TargetItemsAt(v, capacity, slot);
    InAfter(v, capacity, p, k);
    assert ItemsAt(v, capacity, p)[k] == Datum(p, k, header, entries[k]);
  }

  lemma WholeInPlain(room: int, values: seq<(string, ValueWriter)>, i: nat)
    requires i < |values| && Fits(room, values[i].0, values[i].1)
    ensures Whole(values[i].0, values[i].1) in PlainEntries(room, values)
  {
    hide PlainEntries;
    PlainIsFilter(room, values, i);
  }

  lemma TargetItemsAt(v: View, capacity: nat, slot: nat)
    requires 0 < v.Base() && slot < |v.targets| && v.targets[slot].Target? && v.sendTargets
    ensures var t := v.targets[slot];
            var header := HeaderText(t.context, v.timestamp, v.targetLabel);
            |header| < capacity ==>
              ItemsAt(v, capacity, v.Base() + slot) ==
              Number(v.Base() + slot, 0, header, PlainEntries(capacity - |header|, t.values))
  {
    hide HeaderText, PlainEntries;
  }
}
