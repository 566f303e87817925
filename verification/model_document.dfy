/**
 The full-model document is one printed JSON tree that the REST lexer
 classifies correctly, so what is proved about resumed responses holds for it.
 */
module ModelDocument {
  import opened JsonText
  import opened ModelTree
  import LeafLexer
  import ModelWriter
  import RestRuns

  // ----- The written tree as a JSON tree -----

  function AsJson(t: Trie): Json {
    match t
    case Leaf(value) => value
    case Branch(children) => Obj(AsMembers(children))
  }

  function AsMembers(c: Children): Members {
    match c
    case NoChildren => NoMembers
    case Child(key, node, rest) => Member(key, AsJson(node), AsMembers(rest))
  }

  lemma {:induction false} TrieIsJson(t: Trie)
    ensures PrintTrie(t) == Print(AsJson(t))
  {
    if t.Branch? { ChildrenAreMembers(t.children, true); }
  }

  lemma {:induction false} ChildrenAreMembers(c: Children, first: bool)
    ensures PrintChildren(c, first) == PrintMembers(AsMembers(c), first)
  {
    hide Quote;
    if c.Child? {
      TrieIsJson(c.node);
      ChildrenAreMembers(c.rest, false);
    }
  }

  // ----- The vessel with its identity members -----

  function Append(a: Members, b: Members): Members {
    match a
    case NoMembers => b
    case Member(key, value, rest) => Member(key, value, Append(rest, b))
  }

  lemma {:induction false} PrintAppend(a: Members, b: Members, first: bool)
    ensures PrintMembers(Append(a, b), first) == PrintMembers(a, first) + PrintMembers(b, first && a.NoMembers?)
  {
    hide Quote, Print;
    if a.Member? {
      PrintAppend(a.rest, b, false);
      var lead := Comma(first) + Quote(a.key) + ":" + Print(a.value);
      assert lead + (PrintMembers(a.rest, false) + PrintMembers(b, false)) ==
             lead + PrintMembers(a.rest, false) + PrintMembers(b, false);
    } else {
      assert "" + PrintMembers(b, first) == PrintMembers(b, first);
    }
  }

  lemma LaterMembers(m: Members)
    requires m.Member?
    ensures PrintMembers(m, false) == "," + PrintMembers(m, true)
  {
    hide Quote, Print, PrintMembers;
    MembersStep(m, false);
    MembersStep(m, true);
    CommaFirst(Quote(m.key), Print(m.value), PrintMembers(m.rest, false));
  }

  lemma MembersStep(m: Members, first: bool)
    requires m.Member?
    ensures PrintMembers(m, first) == (if first then "" else ",") + Quote(m.key) + ":" + Print(m.value) +
            PrintMembers(m.rest, false)
  {
    hide Quote, Print;
  }

  lemma CommaFirst(key: string, value: string, rest: string)
    ensures "," + key + ":" + value + rest == "," + ("" + key + ":" + value + rest)
  {
    var text := "" + key + ":" + value;
    assert "," + key + ":" + value == "," + text;
    assert "," + text + rest == "," + (text + rest);
  }

  /** What the writer writes for the vessel is the printed form of one object. */
  lemma VesselIsJson(identity: Members, c: Children)
    requires identity.Member?
    ensures ModelWriter.VesselText(PrintMembers(identity, true), c) == Print(Obj(Append(identity, AsMembers(c))))
  {
    hide PrintMembers, PrintChildren;
    ChildrenAreMembers(c, true);
    PrintAppend(identity, AsMembers(c), true);
    if c.Child? {
      LaterMembers(AsMembers(c));
      var a, b := PrintMembers(identity, true), PrintChildren(c, true);
      assert "{" + a + ("," + b) + "}" == "{" + (a + ("," + b)) + "}";
    } else {
      NothingPrinted();
      var a := PrintMembers(identity, true);
      assert "{" + a + "" + "}" == "{" + (a + "") + "}";
    }
  }

  lemma NothingPrinted()
    ensures PrintMembers(NoMembers, false) == ""
  {}

  // ----- How deep it is -----

  function Segments(path: string): (n: nat)
    ensures n > 0
    decreases |path|
  {
    if IsLeaf(path) then 1 else 1 + Segments(Tail(path))
  }

  /** Every leaf is well-formed, and its path and its own nesting together are at most `limit` deep. */
  predicate Shallow(v: Fields, limit: nat) {
    forall i :: 0 <= i < |v| && Shown(v, i) ==>
      LeafLexer.WellFormed(v[i].value.leaf) && Segments(v[i].value.path) + LeafLexer.Nesting(v[i].value.leaf) <= limit
  }

  /** The same for what lies below a prefix. */
  predicate ShallowBelow(v: Fields, prefix: string, limit: nat) {
    forall i :: 0 <= i < |v| && Shown(v, i) && Under(v[i].value.path, prefix).Some? ==>
      && LeafLexer.WellFormed(v[i].value.leaf)
      && Segments(Rest(v, i, prefix)) + LeafLexer.Nesting(v[i].value.leaf) <= limit
  }

  /** Below a segment the limit is one less. */
  lemma ShallowChild(v: Fields, prefix: string, segment: string, limit: nat)
    requires ShallowBelow(v, prefix, limit) && limit > 0 && segment != "" && '.' !in segment
    ensures ShallowBelow(v, Joined(prefix, segment), limit - 1)
  {
    hide Under, SegmentLength, Segments, LeafLexer.WellFormed, LeafLexer.Nesting;
    var child := Joined(prefix, segment);
    forall i | 0 <= i < |v| && Shown(v, i) && Under(v[i].value.path, child).Some?
      ensures LeafLexer.WellFormed(v[i].value.leaf)
      ensures Segments(Rest(v, i, child)) + LeafLexer.Nesting(v[i].value.leaf) <= limit - 1
    {
      var more := Rest(v, i, child);
      UnderJoins(v[i].value.path, child);
      var rest := segment + "." + more;
      assert Joined(child, more) == Joined(prefix, rest);
      JoinedUnder(prefix, rest);
      SegmentsStep(segment, more);
    }
  }

  lemma SegmentsStep(segment: string, more: string)
    requires '.' !in segment
    ensures Segments(segment + "." + more) == 1 + Segments(more)
  {
    SegmentOfJoined(segment, more);
    assert (segment + "." + more)[|segment| + 1..] == more;
  }

  /** The members below a prefix nest no deeper than the paths and leaves do. */
  lemma {:induction false} MembersShallow(v: Fields, prefix: string, i: nat, limit: nat)
    requires ShallowBelow(v, prefix, limit) && MembersFrom(v, prefix, i).Some?
    ensures var m := AsMembers(MembersFrom(v, prefix, i).value);
            LeafLexer.WellFormedMembers(m) && (m.Member? ==> LeafLexer.NestingMembers(m) + 1 <= limit)
    decreases Depth(prefix), if i <= |v| then |v| - i else 0
  {
    hide Under, WinsSegment, SegmentLength, Segments, LeafLexer.WellFormed, LeafLexer.Nesting, ShallowBelow;
    if i < |v| {
      MembersShallow(v, prefix, i + 1, limit);
      if Writes(v, prefix, i) {
        NodeValue(v, prefix, i);
        NodeShallow(v, prefix, i, limit);
        var rest := Rest(v, i, prefix);
        if !IsLeaf(rest) {
          ShallowChild(v, prefix, Segment(rest), limit);
          MembersShallow(v, Joined(prefix, Segment(rest)), 1, limit - 1);
          ObjectShallow(AsMembers(Below(v, Joined(prefix, Segment(rest))).value), limit);
        }
      }
    }
  }

  lemma NodeShallow(v: Fields, prefix: string, i: nat, limit: nat)
    requires ShallowBelow(v, prefix, limit) && Writes(v, prefix, i)
    ensures limit > 0 && LeafLexer.WellFormed(v[i].value.leaf)
    ensures IsLeaf(Rest(v, i, prefix)) ==> LeafLexer.Nesting(v[i].value.leaf) + 1 <= limit
    ensures !IsLeaf(Rest(v, i, prefix)) ==> limit > 1
  {
    hide Under, WinsSegment, LeafLexer.WellFormed, LeafLexer.Nesting;
  }

  lemma ObjectShallow(m: Members, limit: nat)
    requires LeafLexer.WellFormedMembers(m) && limit > 1 && (m.Member? ==> LeafLexer.NestingMembers(m) + 1 <= limit - 1)
    ensures LeafLexer.WellFormed(Obj(m)) && LeafLexer.Nesting(Obj(m)) + 1 <= limit
  {}

  lemma {:induction false} AppendShallow(a: Members, b: Members)
    ensures LeafLexer.WellFormedMembers(a) && LeafLexer.WellFormedMembers(b) ==>
            LeafLexer.WellFormedMembers(Append(a, b))
    ensures LeafLexer.NestingMembers(Append(a, b)) <=
            LeafLexer.Max(LeafLexer.NestingMembers(a), LeafLexer.NestingMembers(b))
  {
    hide LeafLexer.WellFormed, LeafLexer.Nesting;
    if a.Member? { AppendShallow(a.rest, b); }
  }

  /**
   The vessel document is the printed form of a tree the REST theorems are
   about, as long as paths and leaves together stay within the 32 levels of
   the lexer's mask.
   */
  lemma VesselPrintable(v: Fields, identity: Members)
    requires Below(v, "").Some? && Shallow(v, 32)
    requires identity.Member? && LeafLexer.WellFormedMembers(identity) && LeafLexer.NestingMembers(identity) == 0
    ensures var tree := Obj(Append(identity, AsMembers(Below(v, "").value)));
            && RestRuns.Printable(tree)
            && ModelWriter.VesselText(PrintMembers(identity, true), Below(v, "").value) == Print(tree)
  {
    hide MembersFrom, PrintMembers, PrintChildren, Segments, LeafLexer.WellFormedMembers, LeafLexer.NestingMembers,
         LeafLexer.KeysVisible, LeafLexer.WellFormed, LeafLexer.Nesting;
    var c := Below(v, "").value;
    var tree := Obj(Append(identity, AsMembers(c)));
    MembersShallow(v, "", 1, 32);
    EmptyShallow(AsMembers(c));
    AppendShallow(identity, AsMembers(c));
    TopNesting(tree);
    LeafLexer.ShallowIsVisible(tree, 0);
    VesselIsJson(identity, c);
  }

  lemma EmptyShallow(m: Members)
    ensures m.NoMembers? ==> LeafLexer.NestingMembers(m) == 0
  {}

  lemma TopNesting(tree: Json)
    requires tree.Obj?
    ensures LeafLexer.Nesting(tree) == 1 + LeafLexer.NestingMembers(tree.members)
    ensures LeafLexer.WellFormed(tree) == LeafLexer.WellFormedMembers(tree.members)
  {}
}
