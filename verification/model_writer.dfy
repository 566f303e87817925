/**
 The treeless full-model writer: it prints the tree of the current values
 without building it, by searching the fields again at every level.
 */
module ModelWriter {
  import opened JsonText
  import opened ModelTree
  import opened DeltaFrame

  method HasBranchValues(v: Fields, prefix: string) returns (r: bool)
    ensures r <==> exists j: nat :: Shown(v, j) && Under(v[j].value.path, prefix).Some?
  {
    hide Under;
    var i := 1;
    while i < |v|
      invariant 1 <= i
      invariant forall j: nat :: j < i && Shown(v, j) ==> Under(v[j].value.path, prefix).None?
    {
      if v[i].Some? && !v[i].value.ais && Under(v[i].value.path, prefix).Some? {
        assert Shown(v, i);
        return true;
      }
      i := i + 1;
    }
    return false;
  }

  method FindExactValue(v: Fields, path: string) returns (found: bool, selected: nat)
    ensures found ==> WinsPath(v, selected, path)
    ensures !found ==> forall j: nat :: Shown(v, j) ==> v[j].value.path != path
  {
    found, selected := false, 0;
    var i := 1;
    while i < |v|
      invariant 1 <= i
      invariant found ==> selected < i && Shown(v, selected) && v[selected].value.path == path
      invariant found ==> forall j: nat :: j < i && j != selected && Shown(v, j) && v[j].value.path == path ==>
                !Better(v, j, selected)
      invariant !found ==> forall j: nat :: j < i && Shown(v, j) ==> v[j].value.path != path
    {
      if v[i].Some? && !v[i].value.ais && v[i].value.path == path {
        if !found || v[i].value.stamp > v[selected].value.stamp ||
           (v[i].value.stamp == v[selected].value.stamp && i < selected) {
          selected := i;
          found := true;
        }
      }
      i := i + 1;
    }
  }

  method IsSelectedSegmentCandidate(v: Fields, current: nat, prefix: string, segment: string) returns (r: bool)
    requires Through(v, current, prefix, segment)
    ensures r <==> WinsSegment(v, current, prefix, segment)
  {
    hide Under;
    var i := 1;
    while i < |v|
      invariant 1 <= i
      invariant forall j: nat :: j < i && j != current && Through(v, j, prefix, segment) ==> !Better(v, j, current)
    {
      if i != current && v[i].Some? && !v[i].value.ais && Under(v[i].value.path, prefix).Some? {
        var rest := Under(v[i].value.path, prefix).value;
        if Segment(rest) == segment {
          assert Through(v, i, prefix, segment);
          if v[i].value.stamp > v[current].value.stamp { return false; }
          if v[i].value.stamp == v[current].value.stamp && i < current { return false; }
        }
      }
      i := i + 1;
    }
    return true;
  }

  method IsSelectedPathCandidate(v: Fields, current: nat) returns (r: bool)
    requires Current(v, current)
    ensures r <==> WinsInView(v, current)
  {
    var i := 1;
    while i < |v|
      invariant 1 <= i
      invariant forall j: nat :: j < i && j != current && Current(v, j) && v[j].value.path == v[current].value.path ==>
                  !Better(v, j, current)
    {
      if i != current && v[i].Some? && v[i].value.path == v[current].value.path {
        if v[i].value.stamp > v[current].value.stamp { return false; }
        if v[i].value.stamp == v[current].value.stamp && i < current { return false; }
      }
      i := i + 1;
    }
    return true;
  }

  /** The text of some members, when all their names fit. */
  function MembersText(c: Option<Children>, first: bool): string {
    if c.Some? then PrintChildren(c.value, first) else ""
  }

  /** The text of the member a field writes, when its names fit. */
  function MemberText(v: Fields, prefix: string, i: nat, first: bool): string
    requires Writes(v, prefix, i)
  {
    var node := NodeOf(v, prefix, i);
    Comma(first) + Quote(Segment(Rest(v, i, prefix))) + ":" + (if node.Some? then PrintTrie(node.value) else "")
  }

  lemma MembersStep(v: Fields, prefix: string, i: nat, first: bool)
    requires i < |v|
    ensures !Writes(v, prefix, i) ==> MembersFrom(v, prefix, i) == MembersFrom(v, prefix, i + 1)
    ensures Writes(v, prefix, i) ==>
              var here, after := MembersFrom(v, prefix, i), MembersFrom(v, prefix, i + 1);
              && (here.Some? <==> NodeOf(v, prefix, i).Some? && after.Some?)
              && (here.Some? ==>
                    MembersText(here, first) == MemberText(v, prefix, i, first) + MembersText(after, false))
  {
    hide Under, Quote, Writes, PrintTrie, NodeOf;
  }

  /**
   Writes the members below a prefix. It succeeds exactly when every name fits
   its buffer and the text fits the output, and then the text is the printed
   tree.
   */
  method WriteBranch(out: JsonBuffer, v: Fields, prefix: string) returns (ok: bool)
    requires out.Valid() && out.ok
    modifies out`pos, out`ok, out.dst
    ensures out.Valid() && (ok ==> out.ok)
    ensures ok <==> Below(v, prefix).Some? && |old(out.Text()) + MembersText(Below(v, prefix), true)| < out.capacity
    ensures ok ==> out.Text() == old(out.Text()) + MembersText(Below(v, prefix), true)
    decreases Depth(prefix), 1
  {
    hide Under, PrintChildren, PrintTrie, Quote, Writes, NodeOf, JsonBuffer.Valid, MembersFrom, MembersText, MemberText;
    var first, i := true, 1;
    ghost var all := old(out.Text()) + MembersText(Below(v, prefix), true);
    while i < |v|
      invariant 1 <= i && out.Valid() && out.ok
      invariant Below(v, prefix).Some? <==> MembersFrom(v, prefix, i).Some?
      invariant Below(v, prefix).Some? ==> all == out.Text() + MembersText(MembersFrom(v, prefix, i), first)
    {
      MembersStep(v, prefix, i, first);
      var writes := SegmentWins(v, prefix, i);
      if writes {
        ok := WriteMember(out, v, prefix, i, first);
        if !ok { return; }
        first := false;
      }
      i := i + 1;
    }
    MembersEnd(v, prefix, i, first);
    TextFits(out);
    return true;
  }

  lemma MembersEnd(v: Fields, prefix: string, i: nat, first: bool)
    requires i >= |v|
    ensures MembersFrom(v, prefix, i).Some? && MembersText(MembersFrom(v, prefix, i), first) == ""
  {}

  lemma TextFits(out: JsonBuffer)
    requires out.Valid() && out.ok
    ensures |out.Text()| == out.pos < out.capacity
  {}

  function KeyText(segment: string, first: bool): string {
    Comma(first) + Quote(segment) + ":"
  }

  method WriteKey(out: JsonBuffer, segment: string, first: bool) returns (ok: bool)
    requires out.Valid() && out.ok
    modifies out`pos, out`ok, out.dst
    ensures out.Valid() && (ok ==> out.ok)
    ensures ok <==> |segment| < SEGMENT_SIZE && |old(out.Text()) + KeyText(segment, first)| < out.capacity
    ensures ok ==> out.Text() == old(out.Text()) + KeyText(segment, first)
  {
    hide Quote;
    if !first {
      ok := out.AppendBytes(",");
      if !ok { return; }
    }
    if |segment| >= SEGMENT_SIZE { return false; }
    ok := out.AppendQuoted(segment);
    if !ok { return; }
    ok := out.AppendBytes(":");
  }

  method WriteMember(out: JsonBuffer, v: Fields, prefix: string, i: nat, first: bool) returns (ok: bool)
    requires out.Valid() && out.ok && Writes(v, prefix, i)
    modifies out`pos, out`ok, out.dst
    ensures out.Valid() && (ok ==> out.ok)
    ensures ok <==> NodeOf(v, prefix, i).Some? && |old(out.Text()) + MemberText(v, prefix, i, first)| < out.capacity
    ensures ok ==> out.Text() == old(out.Text()) + MemberText(v, prefix, i, first)
    decreases Depth(prefix), 0
  {
    hide Under, PrintChildren, PrintTrie, Quote, MembersFrom, WinsSegment, JsonBuffer.Valid, KeyText;
    var rest := Rest(v, i, prefix);
    var segment := Segment(rest);
    TextOfMember(v, prefix, i, first);
    ok := WriteKey(out, segment, first);
    if !ok { return; }
    if IsLeaf(rest) {
      TextFits(out);
      LeafText(v[i].value.leaf);
      ok := out.AppendBytes(Print(v[i].value.leaf));
      return;
    }
    var child := Joined(prefix, segment);
    if |child| >= PREFIX_SIZE { return false; }
    ok := WriteObject(out, v, child);
  }

  lemma TextOfMember(v: Fields, prefix: string, i: nat, first: bool)
    requires Writes(v, prefix, i)
    ensures var node := NodeOf(v, prefix, i);
            var key := KeyText(Segment(Rest(v, i, prefix)), first);
            |MemberText(v, prefix, i, first)| >= |key| &&
            (node.Some? ==> MemberText(v, prefix, i, first) == key + PrintTrie(node.value))
  {
    hide Under, PrintTrie, Quote, NodeOf;
  }

  lemma LeafText(value: Json)
    ensures PrintTrie(Leaf(value)) == Print(value)
  {}

  lemma BranchText(c: Children)
    ensures PrintTrie(Branch(c)) == "{" + PrintChildren(c, true) + "}"
  {}

  method WriteObject(out: JsonBuffer, v: Fields, prefix: string) returns (ok: bool)
    requires out.Valid() && out.ok
    modifies out`pos, out`ok, out.dst
    ensures out.Valid() && (ok ==> out.ok)
    ensures ok <==>
            Below(v, prefix).Some? && |old(out.Text()) + PrintTrie(Branch(Below(v, prefix).value))| < out.capacity
    ensures ok ==> out.Text() == old(out.Text()) + PrintTrie(Branch(Below(v, prefix).value))
    decreases Depth(prefix), 2
  {
    hide PrintChildren, PrintTrie, MembersFrom;
    TextFits(out);
    ghost var before := out.Text();
    if Below(v, prefix).Some? { BranchText(Below(v, prefix).value); }
    ok := out.AppendBytes("{");
    if !ok { return; }
    ok := WriteBranch(out, v, prefix);
    if !ok { return; }
    ok := out.AppendBytes("}");
  }

  method SegmentWins(v: Fields, prefix: string, i: nat) returns (r: bool)
    requires 1 <= i < |v|
    ensures r <==> Writes(v, prefix, i)
  {
    if v[i].None? || v[i].value.ais || Under(v[i].value.path, prefix).None? { return false; }
    var rest := Under(v[i].value.path, prefix).value;
    if SegmentLength(rest) == 0 { return false; }
    r := IsSelectedSegmentCandidate(v, i, prefix, Segment(rest));
  }

  // ----- Answering a path -----

  datatype WriteResult = Written | WriteFailed | NotFound | InvalidPath

  const DOTTED_SIZE: nat := 256

  function Dotted(path: string): (d: string)
    ensures |d| == |path| && forall i :: 0 <= i < |path| ==> d[i] == if path[i] == '/' then '.' else path[i]
  {
    seq(|path|, i requires 0 <= i < |path| => if path[i] == '/' then '.' else path[i])
  }

  method ToDotted(path: string) returns (d: string)
    ensures d == Dotted(path)
  {
    d := "";
    for i := 0 to |path|
      invariant d == Dotted(path)[..i]
    {
      d := d + [if path[i] == '/' then '.' else path[i]];
    }
    assert Dotted(path)[..|path|] == Dotted(path);
  }

  method HasSelfProjectionValues(v: Fields) returns (r: bool)
    ensures r <==> exists j: nat :: Shown(v, j)
  {
    var i := 1;
    while i < |v|
      invariant 1 <= i && forall j: nat :: j < i ==> !Shown(v, j)
    {
      if v[i].Some? && !v[i].value.ais {
        assert Shown(v, i);
        return true;
      }
      i := i + 1;
    }
    return false;
  }

  /** The self vessel: its identity members, then the tree. */
  function VesselText(identity: string, members: Children): string {
    "{" + identity + (if members.Child? then "," + PrintChildren(members, true) else "") + "}"
  }

  /** Writes the self vessel; `identity` is the text of its identity members. */
  method WriteSelfVessel(out: JsonBuffer, v: Fields, identity: string) returns (ok: bool)
    requires out.Valid() && out.ok && AllWellFormed(v)
    modifies out`pos, out`ok, out.dst
    ensures out.Valid()
    ensures ok <==> Below(v, "").Some? && |old(out.Text()) + VesselText(identity, Below(v, "").value)| < out.capacity
    ensures ok ==> out.Text() == old(out.Text()) + VesselText(identity, Below(v, "").value)
  {
    hide Under, MembersFrom, PrintChildren, AllWellFormed, WellFormed, JsonBuffer.Valid, JsonBuffer.Text;
    ghost var before, members := out.Text(), Below(v, "");
    if members.Some? && members.value.Child? { VesselParts(before, identity, PrintChildren(members.value, true)); }
    VesselAlone(before, identity);
    var any := HasSelfProjectionValues(v);
    if any {
      ghost var j: nat :| Shown(v, j);
      if members.Some? { TopMember(v, j); }
    } else {
      NothingShown(v);
    }
    out.TextSize();
    ok := out.AppendBytes("{" + identity);
    if !ok { return; }
    out.TextSize();
    if any {
      ok := out.AppendBytes(",");
      if !ok { return; }
      out.TextSize();
      ok := WriteBranch(out, v, "");
      if !ok { return; }
      out.TextSize();
    }
    ok := out.AppendBytes("}");
  }

  lemma VesselAlone(before: string, identity: string)
    ensures before + ("{" + identity) + "}" == before + ("{" + identity + "" + "}")
  {}

  lemma VesselParts(before: string, identity: string, members: string)
    ensures before + ("{" + identity) + "," + members + "}" == before + ("{" + identity + ("," + members) + "}")
  {}

  lemma TopMember(v: Fields, j: nat)
    requires AllWellFormed(v) && Shown(v, j) && Below(v, "").Some?
    ensures Below(v, "").value.Child?
  {
    hide MembersFrom, WellFormed;
    SegmentNotEmpty(v[j].value.path);
    assert GoesBelow(v, j, "");
    WrittenIffBelow(v, "");
  }

  lemma NothingShown(v: Fields)
    requires forall j: nat :: !Shown(v, j)
    ensures Below(v, "") == Some(NoChildren)
  {
    NothingFrom(v, 1);
  }

  lemma {:induction false} NothingFrom(v: Fields, i: nat)
    requires forall j: nat :: !Shown(v, j)
    ensures MembersFrom(v, "", i) == Some(NoChildren)
    decreases |v| - i
  {
    if i < |v| { NothingFrom(v, i + 1); }
  }

  /** What a path of the self vessel that is no identity member is answered with. */
  ghost predicate Answers(v: Fields, path: string, text: string) {
    if exists i: nat :: WinsPath(v, i, path) then
      exists i: nat :: WinsPath(v, i, path) && text == Print(v[i].value.leaf)
    else Below(v, path).Some? && text == PrintTrie(Branch(Below(v, path).value))
  }

  ghost predicate Known(v: Fields, path: string) {
    exists j: nat :: Shown(v, j) && (v[j].value.path == path || Under(v[j].value.path, path).Some?)
  }

  /**
   Answers a path. The empty path is the vessel itself; `own` is the text of an
   identity member if the path names one. Any other path is not found exactly
   when it is neither a current value nor above one.
   */
  method WriteSelfPath(out: JsonBuffer, v: Fields, path: string, identity: string, own: Option<string>)
    returns (r: WriteResult)
    requires out.Valid() && out.ok && AllWellFormed(v)
    modifies out`pos, out`ok, out.dst
    ensures out.Valid()
    ensures r == InvalidPath <==> own.None? && |path| >= 256
    ensures r == NotFound <==> own.None? && 0 < |path| < 256 && !Known(v, Dotted(path))
    ensures r == Written && path == "" ==>
              Below(v, "").Some? && out.Text() == old(out.Text()) + VesselText(identity, Below(v, "").value)
    ensures r == Written && path != "" && own.Some? ==> out.Text() == old(out.Text()) + own.value
    ensures r == Written && path != "" && own.None? ==>
              exists text :: Answers(v, Dotted(path), text) && out.Text() == old(out.Text()) + text
    ensures r == WriteFailed && path == "" ==>
              !(Below(v, "").Some? && |old(out.Text()) + VesselText(identity, Below(v, "").value)| < out.capacity)
    ensures r == WriteFailed && path != "" && own.Some? ==> |old(out.Text()) + own.value| >= out.capacity
    ensures r == WriteFailed && path != "" && own.None? ==>
              forall text :: Answers(v, Dotted(path), text) ==> |old(out.Text()) + text| >= out.capacity
    ensures r != Written && r != WriteFailed ==> out.Text() == old(out.Text())
  {
    hide Under, MembersFrom, PrintTrie, AllWellFormed, VesselText;
    out.TextSize();
    var ok;
    if path == "" {
      ok := WriteSelfVessel(out, v, identity);
      return if ok then Written else WriteFailed;
    }
    if own.Some? {
      ok := out.AppendBytes(own.value);
      return if ok then Written else WriteFailed;
    }
    if |path| >= DOTTED_SIZE { return InvalidPath; }
    var dotted := ToDotted(path);
    var found, i := FindExactValue(v, dotted);
    if found {
      ok := out.AppendBytes(Print(v[i].value.leaf));
      if ok { assert Answers(v, dotted, Print(v[i].value.leaf)); }
      forall text | Answers(v, dotted, text) ensures text == Print(v[i].value.leaf) { OneAnswer(v, dotted, i, text); }
      return if ok then Written else WriteFailed;
    }
    var any := HasBranchValues(v, dotted);
    if !any { return NotFound; }
    ok := WriteObject(out, v, dotted);
    if ok { assert Answers(v, dotted, PrintTrie(Branch(Below(v, dotted).value))); }
    return if ok then Written else WriteFailed;
  }

  lemma OneAnswer(v: Fields, path: string, i: nat, text: string)
    requires WinsPath(v, i, path) && Answers(v, path, text)
    ensures text == Print(v[i].value.leaf)
  {
    var k: nat :| WinsPath(v, k, path) && text == Print(v[k].value.leaf);
    OnePathWinner(v, i, k, path);
  }

  /**
   A path's answer is what the whole tree holds there: the leaf of a current
   path, or the object of its descendants.
   */
  lemma AnswerMatchesTree(v: Fields, path: string, text: string)
    requires PrefixFree(v) && AllWellFormed(v) && Below(v, "").Some?
    requires WellFormed(path) && Known(v, path) && Answers(v, path, text)
    ensures var node := FindNode(Below(v, "").value, path);
            node.Some? && text == PrintTrie(node.value)
  {
    hide Under, MembersFrom, PrintTrie, WellFormed, PrefixFree, AllWellFormed, Find, FindNode;
    if exists i: nat :: WinsPath(v, i, path) {
      var i: nat :| WinsPath(v, i, path) && text == Print(v[i].value.leaf);
      FindsWinner(v, "", path);
      FoundNode(Below(v, "").value, path);
      LeafText(v[i].value.leaf);
    } else {
      var j: nat :| Shown(v, j) && (v[j].value.path == path || Under(v[j].value.path, path).Some?);
      if v[j].value.path == path { var i := SomePathWinner(v, j); }
      SubtreeAgrees(v, "", path, j);
    }
  }

  lemma {:induction false} FoundNode(c: Children, rest: string)
    requires Find(c, rest).Some?
    ensures FindNode(c, rest) == Some(Leaf(Find(c, rest).value))
    decreases |rest|
  {
    hide SegmentLength;
    if !IsLeaf(rest) { FoundNode(NodeAt(c, Segment(rest)).children, Tail(rest)); }
  }
}
