/**
 The Signal K tree of the current model values, and what the treeless writer
 and the other selectors choose for each path.

 A path is C text of segments separated by dots. Several fields may map to one
 path; the newest wins, and among equally new ones the lowest field index.
 */
module ModelTree {
  import opened JsonText

  const SEGMENT_SIZE: nat := 96
  const PREFIX_SIZE: nat := 192

  /** A current field: its path, its time, its leaf object, and whether it is the AIS table. */
  datatype Mapped = Mapped(path: string, stamp: nat, leaf: Json, ais: bool)

  /** The fields by index; index 0 is not a field. */
  type Fields = seq<Option<Mapped>>

  predicate Current(v: Fields, i: nat) {
    1 <= i < |v| && v[i].Some?
  }

  /** Current and part of the self projection. */
  predicate Shown(v: Fields, i: nat) {
    Current(v, i) && !v[i].value.ais
  }

  // ----- Paths -----

  /** `path_under_prefix`: what follows the prefix and its dot, if anything does. */
  function Under(path: string, prefix: string): (r: Option<string>)
    ensures r.Some? ==> r.value != "" && path == Joined(prefix, r.value)
  {
    if prefix == "" then if path != "" then Some(path) else None
    else if |path| > |prefix| + 1 && path[..|prefix|] == prefix && path[|prefix|] == '.' then Some(path[|prefix| + 1..])
    else None
  }

  function Joined(prefix: string, rest: string): string {
    if prefix == "" then rest else prefix + "." + rest
  }

  /** `next_segment_length`: up to the first dot or the end. */
  function SegmentLength(rest: string): (n: nat)
    ensures n <= |rest| && '.' !in rest[..n] && (n < |rest| ==> rest[n] == '.')
  {
    if rest == "" || rest[0] == '.' then 0
    else
      assert rest == [rest[0]] + rest[1..];
      1 + SegmentLength(rest[1..])
  }

  function Segment(rest: string): string {
    rest[..SegmentLength(rest)]
  }

  predicate IsLeaf(rest: string) {
    SegmentLength(rest) == |rest|
  }

  /** What follows the first segment and its dot. */
  function Tail(rest: string): string
    requires !IsLeaf(rest)
  {
    rest[SegmentLength(rest) + 1..]
  }

  /** No segment is empty. */
  predicate WellFormed(path: string)
    decreases |path|
  {
    SegmentLength(path) > 0 && (IsLeaf(path) || WellFormed(Tail(path)))
  }

  lemma JoinedUnder(prefix: string, rest: string)
    requires rest != ""
    ensures Under(Joined(prefix, rest), prefix) == Some(rest)
  {
    if prefix != "" {
      var path := prefix + "." + rest;
      assert path[..|prefix|] == prefix && path[|prefix| + 1..] == rest;
    }
  }

  /** Joining a segment to the prefix and the tail to that gives the same path. */
  lemma JoinedTail(prefix: string, rest: string)
    requires !IsLeaf(rest)
    ensures rest == Segment(rest) + "." + Tail(rest)
    ensures SegmentLength(rest) > 0 ==> Joined(Joined(prefix, Segment(rest)), Tail(rest)) == Joined(prefix, rest)
  {
    var n := SegmentLength(rest);
    assert rest == rest[..n] + [rest[n]] + rest[n + 1..];
  }

  lemma {:induction false} SegmentOfJoined(segment: string, rest: string)
    requires '.' !in segment
    ensures SegmentLength(segment + "." + rest) == |segment|
    ensures SegmentLength(segment) == |segment|
  {
    var all := segment + "." + rest;
    if segment != "" {
      assert all[1..] == segment[1..] + "." + rest && all[0] == segment[0] && segment[0] in segment;
      assert '.' !in segment[1..];
      SegmentOfJoined(segment[1..], rest);
    }
  }

  // ----- Winners -----

  predicate Better(v: Fields, j: nat, i: nat)
    requires Current(v, i) && Current(v, j)
  {
    v[j].value.stamp > v[i].value.stamp || (v[j].value.stamp == v[i].value.stamp && j < i)
  }

  /** A shown field whose path goes through `segment` below `prefix`. */
  predicate Through(v: Fields, j: nat, prefix: string, segment: string) {
    Shown(v, j) && Under(v[j].value.path, prefix).Some? && Segment(Under(v[j].value.path, prefix).value) == segment
  }

  /** Nothing that goes through the same segment beats field `i`. */
  predicate WinsSegment(v: Fields, i: nat, prefix: string, segment: string) {
    Through(v, i, prefix, segment) && forall j :: 0 <= j < |v| && j != i && Through(v, j, prefix, segment) ==>
      !Better(v, j, i)
  }

  /** Nothing shown with the same path beats field `i`. */
  predicate WinsPath(v: Fields, i: nat, path: string) {
    Shown(v, i) && v[i].value.path == path &&
    forall j :: 0 <= j < |v| && j != i && Shown(v, j) && v[j].value.path == path ==> !Better(v, j, i)
  }

  lemma OneWinner(v: Fields, i: nat, k: nat, prefix: string, segment: string)
    requires WinsSegment(v, i, prefix, segment) && WinsSegment(v, k, prefix, segment)
    ensures i == k
  {
    hide Under;
  }

  lemma OnePathWinner(v: Fields, i: nat, k: nat, path: string)
    requires WinsPath(v, i, path) && WinsPath(v, k, path)
    ensures i == k
  {}

  /** The best of the fields before `n` that go through the segment, if any does. */
  lemma {:induction false} BestBefore(v: Fields, prefix: string, segment: string, n: nat) returns (found: bool, i: nat)
    requires n <= |v|
    ensures found ==> i < n && Through(v, i, prefix, segment)
    ensures found ==> forall k :: 0 <= k < n && k != i && Through(v, k, prefix, segment) ==> !Better(v, k, i)
    ensures !found ==> forall k :: 0 <= k < n ==> !Through(v, k, prefix, segment)
    decreases n
  {
    hide Under, Segment;
    if n == 0 { return false, 0; }
    var last := n - 1;
    found, i := BestBefore(v, prefix, segment, last);
    if Through(v, last, prefix, segment) && (!found || Better(v, last, i)) { return true, last; }
  }

  lemma SomeoneWins(v: Fields, prefix: string, segment: string, j: nat) returns (i: nat)
    requires Through(v, j, prefix, segment)
    ensures WinsSegment(v, i, prefix, segment)
  {
    hide Under, Segment;
    var found;
    found, i := BestBefore(v, prefix, segment, |v|);
  }

  // ----- The tree -----

  datatype Trie = Leaf(value: Json) | Branch(children: Children)

  datatype Children = NoChildren | Child(key: string, node: Trie, rest: Children)

  function PrintTrie(t: Trie): string {
    match t
    case Leaf(value) => Print(value)
    case Branch(children) => "{" + PrintChildren(children, true) + "}"
  }

  function PrintChildren(c: Children, first: bool): string {
    match c
    case NoChildren => ""
    case Child(key, node, rest) => Comma(first) + Quote(key) + ":" + PrintTrie(node) + PrintChildren(rest, false)
  }

  predicate HasKey(c: Children, key: string) {
    c.Child? && (c.key == key || HasKey(c.rest, key))
  }

  /** The node under a key; the first one, should there be several. */
  function NodeAt(c: Children, key: string): (node: Trie)
    requires HasKey(c, key)
    ensures node < c
  {
    if c.key == key then c.node else NodeAt(c.rest, key)
  }

  /** Keys are distinct in every object, and no object is empty. */
  predicate Proper(t: Trie) {
    t.Branch? ==> t.children.Child? && ProperChildren(t.children)
  }

  predicate ProperChildren(c: Children) {
    c.Child? ==> !HasKey(c.rest, c.key) && Proper(c.node) && ProperChildren(c.rest)
  }

  /** The leaf at a path below these children. */
  function Find(c: Children, rest: string): Option<Json>
    decreases |rest|
  {
    if !HasKey(c, Segment(rest)) then None
    else
      match NodeAt(c, Segment(rest))
      case Leaf(value) => if IsLeaf(rest) then Some(value) else None
      case Branch(children) => if IsLeaf(rest) then None else Find(children, Tail(rest))
  }

  // ----- What the writer writes -----

  function Rest(v: Fields, i: nat, prefix: string): string
    requires Current(v, i) && Under(v[i].value.path, prefix).Some?
  {
    Under(v[i].value.path, prefix).value
  }

  /** Field `i` gives its segment below `prefix` a member. */
  predicate Writes(v: Fields, prefix: string, i: nat) {
    && Shown(v, i) && Under(v[i].value.path, prefix).Some?
    && SegmentLength(Rest(v, i, prefix)) > 0
    && WinsSegment(v, i, prefix, Segment(Rest(v, i, prefix)))
  }

  function Depth(prefix: string): nat {
    if |prefix| < PREFIX_SIZE then PREFIX_SIZE - |prefix| else 0
  }

  /** The members from field `i` on; None when a name does not fit the writer's buffers. */
  function MembersFrom(v: Fields, prefix: string, i: nat): Option<Children>
    decreases Depth(prefix), if i <= |v| then |v| - i else 0, 1
  {
    if i >= |v| then Some(NoChildren)
    else if !Writes(v, prefix, i) then MembersFrom(v, prefix, i + 1)
    else
      var node, rest := NodeOf(v, prefix, i), MembersFrom(v, prefix, i + 1);
      if node.Some? && rest.Some?
      then Some(Child(Segment(Rest(v, i, prefix)), node.value, rest.value))
      else None
  }

  function NodeOf(v: Fields, prefix: string, i: nat): Option<Trie>
    requires Writes(v, prefix, i)
    decreases Depth(prefix), |v| - i, 0
  {
    var rest := Rest(v, i, prefix);
    var child := Joined(prefix, Segment(rest));
    if SegmentLength(rest) >= SEGMENT_SIZE then None
    else if IsLeaf(rest) then Some(Leaf(v[i].value.leaf))
    else if |child| >= PREFIX_SIZE then None
    else
      var below := MembersFrom(v, child, 1);
      if below.Some? then Some(Branch(below.value)) else None
  }

  /** All members below a prefix. */
  function Below(v: Fields, prefix: string): Option<Children> {
    MembersFrom(v, prefix, 1)
  }

  // ----- The written tree holds exactly the winners -----

  /** No shown path continues another one. */
  predicate PrefixFree(v: Fields) {
    forall i, j :: 0 <= i < |v| && 0 <= j < |v| && Shown(v, i) && Shown(v, j) ==>
      Under(v[j].value.path, v[i].value.path).None?
  }

  predicate AllWellFormed(v: Fields) {
    forall i :: 0 <= i < |v| && Shown(v, i) ==> WellFormed(v[i].value.path)
  }

  /** A field that writes gives its segment a member with its node. */
  lemma {:induction false} MemberOf(v: Fields, prefix: string, i: nat, k: nat)
    requires MembersFrom(v, prefix, i).Some? && i <= k && Writes(v, prefix, k)
    ensures var c := MembersFrom(v, prefix, i).value;
            var key := Segment(Rest(v, k, prefix));
            HasKey(c, key) && NodeOf(v, prefix, k) == Some(NodeAt(c, key))
    decreases |v| - i
  {
    hide Under, NodeOf, Segment, WinsSegment;
    if i < k {
      MemberOf(v, prefix, i + 1, k);
      if Writes(v, prefix, i) && Segment(Rest(v, i, prefix)) == Segment(Rest(v, k, prefix)) {
        OneWinner(v, i, k, prefix, Segment(Rest(v, k, prefix)));
      }
    }
  }

  /** Every member comes from a field that writes. */
  lemma {:induction false} WriterOf(v: Fields, prefix: string, i: nat, key: string) returns (k: nat)
    requires MembersFrom(v, prefix, i).Some? && HasKey(MembersFrom(v, prefix, i).value, key)
    ensures i <= k && Writes(v, prefix, k) && Segment(Rest(v, k, prefix)) == key
    decreases |v| - i
  {
    hide Under, NodeOf, Segment, WinsSegment;
    if Writes(v, prefix, i) && Segment(Rest(v, i, prefix)) == key {
      k := i;
    } else {
      k := WriterOf(v, prefix, i + 1, key);
    }
  }

  lemma {:induction false} WellFormedRest(prefix: string, rest: string)
    requires WellFormed(Joined(prefix, rest))
    ensures WellFormed(rest)
    decreases |prefix|
  {
    hide SegmentLength, WellFormed;
    if prefix != "" {
      var path := prefix + "." + rest;
      TailOfJoined(prefix, rest);
      SegmentNotEmpty(path);
      if !IsLeaf(prefix) {
        SegmentNotEmpty(Tail(path));
        if Tail(prefix) != "" { WellFormedRest(Tail(prefix), rest); } else { LeadingDot(rest); }
      }
    }
  }

  /** The first segment of a joined path is that of its prefix. */
  lemma TailOfJoined(prefix: string, rest: string)
    ensures var path := prefix + "." + rest;
            && Segment(path) == Segment(prefix) && !IsLeaf(path)
            && Tail(path) == if IsLeaf(prefix) then rest else Tail(prefix) + "." + rest
  {
    hide SegmentLength;
    var path := prefix + "." + rest;
    if IsLeaf(prefix) {
      assert prefix[..|prefix|] == prefix;
      SegmentOfJoined(prefix, rest);
    } else {
      JoinedTail("", prefix);
      assert path == Segment(prefix) + "." + (Tail(prefix) + "." + rest);
      SegmentOfJoined(Segment(prefix), Tail(prefix) + "." + rest);
    }
  }

  lemma LeadingDot(rest: string)
    ensures !WellFormed("" + "." + rest)
  {
    assert ("" + "." + rest)[0] == '.';
  }

  /** A member for the segment exists exactly when a shown path goes through it. */
  lemma MemberExists(v: Fields, prefix: string, segment: string, j: nat) returns (k: nat)
    requires Below(v, prefix).Some? && segment != "" && Through(v, j, prefix, segment)
    ensures Writes(v, prefix, k) && Segment(Rest(v, k, prefix)) == segment
    ensures HasKey(Below(v, prefix).value, segment) &&
            NodeOf(v, prefix, k) == Some(NodeAt(Below(v, prefix).value, segment))
  {
    hide Under, NodeOf, MembersFrom;
    k := SomeoneWins(v, prefix, segment, j);
    MemberOf(v, prefix, 1, k);
  }

  /**
   Every path finds the leaf of its winner, and nothing else is found: the
   written tree is the tree of the shown paths.
   */
  lemma {:induction false} FindsWinner(v: Fields, prefix: string, rest: string)
    requires PrefixFree(v) && AllWellFormed(v) && Below(v, prefix).Some? && WellFormed(rest)
    ensures var found := Find(Below(v, prefix).value, rest);
            var path := Joined(prefix, rest);
            && (found.Some? ==> exists i: nat :: WinsPath(v, i, path))
            && (forall i: nat :: WinsPath(v, i, path) ==> found == Some(v[i].value.leaf))
    decreases |rest|
  {
    hide Under, NodeOf, MembersFrom, WellFormed, AllWellFormed, PrefixFree;
    var c := Below(v, prefix).value;
    var segment, path := Segment(rest), Joined(prefix, rest);
    SegmentNotEmpty(rest);
    if HasKey(c, segment) {
      var k := WriterOf(v, prefix, 1, segment);
      MemberOf(v, prefix, 1, k);
      NodeValue(v, prefix, k);
      if IsLeaf(Rest(v, k, prefix)) {
        FindsLeaf(v, prefix, rest, k);
      } else {
        FindsBranch(v, prefix, rest, k);
        if !IsLeaf(rest) {
          FindsWinner(v, Joined(prefix, segment), Tail(rest));
          JoinedTail(prefix, rest);
        }
      }
    } else {
      forall i: nat | WinsPath(v, i, path)
        ensures false
      {
        JoinedUnder(prefix, rest);
        var k := MemberExists(v, prefix, segment, i);
      }
    }
  }

  lemma NodeValue(v: Fields, prefix: string, k: nat)
    requires Writes(v, prefix, k) && NodeOf(v, prefix, k).Some?
    ensures var rest := Rest(v, k, prefix);
            if IsLeaf(rest) then NodeOf(v, prefix, k).value == Leaf(v[k].value.leaf)
            else
              var child := Joined(prefix, Segment(rest));
              Below(v, child).Some? && NodeOf(v, prefix, k).value == Branch(Below(v, child).value)
  {
    hide Under, WinsSegment;
  }

  lemma SegmentNotEmpty(rest: string)
    requires WellFormed(rest)
    ensures rest != "" && Segment(rest) != "" && (IsLeaf(rest) ==> Segment(rest) == rest)
    ensures !IsLeaf(rest) ==> WellFormed(Tail(rest))
  {}

  /** The member is a leaf: it is the winner of exactly its own path. */
  lemma FindsLeaf(v: Fields, prefix: string, rest: string, k: nat)
    requires PrefixFree(v) && WellFormed(rest)
    requires Writes(v, prefix, k) && Segment(Rest(v, k, prefix)) == Segment(rest) && IsLeaf(Rest(v, k, prefix))
    ensures IsLeaf(rest) ==> WinsPath(v, k, Joined(prefix, rest))
    ensures IsLeaf(rest) ==> forall i: nat :: WinsPath(v, i, Joined(prefix, rest)) ==> i == k
    ensures !IsLeaf(rest) ==> forall i: nat :: Shown(v, i) ==> v[i].value.path != Joined(prefix, rest)
  {
    hide WellFormed, Under;
    SegmentNotEmpty(rest);
    var path := Joined(prefix, rest);
    JoinedUnder(prefix, rest);
    UnderJoins(v[k].value.path, prefix);
    var own := Rest(v, k, prefix);
    assert own[..|own|] == own;
    if IsLeaf(rest) {
      forall i: nat | WinsPath(v, i, path) ensures i == k { OnePathWinner(v, i, k, path); }
    } else {
      JoinedTail(prefix, rest);
      SegmentNotEmpty(Tail(rest));
      JoinedUnder(Joined(prefix, Segment(rest)), Tail(rest));
    }
  }

  lemma UnderJoins(path: string, prefix: string)
    ensures Under(path, prefix).Some? ==> path == Joined(prefix, Under(path, prefix).value)
  {}

  /** The member is a branch: no shown path ends at it. */
  lemma FindsBranch(v: Fields, prefix: string, rest: string, k: nat)
    requires PrefixFree(v) && AllWellFormed(v) && WellFormed(rest)
    requires Writes(v, prefix, k) && Segment(Rest(v, k, prefix)) == Segment(rest) && !IsLeaf(Rest(v, k, prefix))
    ensures IsLeaf(rest) ==> forall i: nat :: Shown(v, i) ==> v[i].value.path != Joined(prefix, rest)
    ensures Through(v, k, Joined(prefix, Segment(rest)), Segment(Tail(Rest(v, k, prefix))))
    ensures Segment(Tail(Rest(v, k, prefix))) != ""
  {
    hide WellFormed, Under;
    SegmentNotEmpty(rest);
    var own := Rest(v, k, prefix);
    UnderJoins(v[k].value.path, prefix);
    WellFormedRest(prefix, own);
    SegmentNotEmpty(own);
    SegmentNotEmpty(Tail(own));
    JoinedTail(prefix, own);
    JoinedUnder(Joined(prefix, Segment(own)), Tail(own));
  }

  lemma {:induction false} OddPathNotFound(v: Fields, prefix: string, rest: string)
    requires Below(v, prefix).Some? && !WellFormed(rest)
    ensures Find(Below(v, prefix).value, rest).None?
    decreases |rest|
  {
    hide Under, NodeOf, MembersFrom;
    if HasKey(Below(v, prefix).value, Segment(rest)) {
      var k := WriterOf(v, prefix, 1, Segment(rest));
      MemberOf(v, prefix, 1, k);
      NodeValue(v, prefix, k);
      if !IsLeaf(rest) && !IsLeaf(Rest(v, k, prefix)) { OddPathNotFound(v, Joined(prefix, Segment(rest)), Tail(rest)); }
    }
  }

  /** Two paths of which one continues the other cannot both be leaves of a tree. */
  lemma {:induction false} LeafHasNoBelow(c: Children, path: string, more: string)
    requires WellFormed(path) && Find(c, path).Some?
    ensures Find(c, path + "." + more).None?
    decreases |path|
  {
    hide SegmentLength;
    TailOfJoined(path, more);
    SegmentNotEmpty(path);
    if !IsLeaf(path) { LeafHasNoBelow(NodeAt(c, Segment(path)).children, Tail(path), more); }
  }

  /** Every shown path is found. */
  predicate AllFound(v: Fields, c: Children) {
    forall i :: 0 <= i < |v| && Shown(v, i) ==> Find(c, v[i].value.path).Some?
  }

  lemma SomePathWinner(v: Fields, j: nat) returns (i: nat)
    requires Shown(v, j)
    ensures WinsPath(v, i, v[j].value.path)
  {
    var found;
    found, i := BestOfPath(v, v[j].value.path, |v|);
  }

  lemma {:induction false} BestOfPath(v: Fields, path: string, n: nat) returns (found: bool, i: nat)
    requires n <= |v|
    ensures found ==> i < n && Shown(v, i) && v[i].value.path == path
    ensures found ==> forall k :: 0 <= k < n && k != i && Shown(v, k) && v[k].value.path == path ==> !Better(v, k, i)
    ensures !found ==> forall k :: 0 <= k < n && Shown(v, k) ==> v[k].value.path != path
    decreases n
  {
    if n == 0 { return false, 0; }
    var last := n - 1;
    found, i := BestOfPath(v, path, last);
    if Shown(v, last) && v[last].value.path == path && (!found || Better(v, last, i)) { return true, last; }
  }

  /** The tree shows every path exactly when no path continues another. */
  lemma AllFoundIffPrefixFree(v: Fields)
    requires AllWellFormed(v) && Below(v, "").Some?
    ensures AllFound(v, Below(v, "").value) <==> PrefixFree(v)
  {
    hide Find, MembersFrom, WellFormed, Under;
    var c := Below(v, "").value;
    if PrefixFree(v) {
      forall j | 0 <= j < |v| && Shown(v, j)
        ensures Find(c, v[j].value.path).Some?
      {
        var i := SomePathWinner(v, j);
        FindsWinner(v, "", v[j].value.path);
      }
    }
    if AllFound(v, c) {
      forall i, j | 0 <= i < |v| && 0 <= j < |v| && Shown(v, i) && Shown(v, j)
        ensures Under(v[j].value.path, v[i].value.path).None?
      {
        SegmentNotEmpty(v[i].value.path);
        UnderJoins(v[j].value.path, v[i].value.path);
        if Under(v[j].value.path, v[i].value.path).Some? {
          LeafHasNoBelow(c, v[i].value.path, Under(v[j].value.path, v[i].value.path).value);
        }
      }
    }
  }

  /** Keys are distinct at every level and no object is empty. */
  lemma {:induction false} TreeIsProper(v: Fields, prefix: string, i: nat)
    requires AllWellFormed(v) && MembersFrom(v, prefix, i).Some?
    ensures ProperChildren(MembersFrom(v, prefix, i).value)
    decreases Depth(prefix), if i <= |v| then |v| - i else 0
  {
    hide Under, WellFormed, AllWellFormed, WinsSegment;
    if i < |v| {
      TreeIsProper(v, prefix, i + 1);
      if Writes(v, prefix, i) {
        var rest := Rest(v, i, prefix);
        var key := Segment(rest);
        if HasKey(MembersFrom(v, prefix, i + 1).value, key) {
          var k := WriterOf(v, prefix, i + 1, key);
          OneWinner(v, i, k, prefix, key);
        }
        NodeValue(v, prefix, i);
        if !IsLeaf(rest) {
          TreeIsProper(v, Joined(prefix, key), 1);
          BranchNotEmpty(v, prefix, i);
        }
      }
    }
  }

  lemma BranchNotEmpty(v: Fields, prefix: string, k: nat)
    requires AllWellFormed(v) && Writes(v, prefix, k) && !IsLeaf(Rest(v, k, prefix))
    requires Below(v, Joined(prefix, Segment(Rest(v, k, prefix)))).Some?
    ensures Below(v, Joined(prefix, Segment(Rest(v, k, prefix)))).value.Child?
  {
    hide WellFormed, Under, MembersFrom, NodeOf;
    var own := Rest(v, k, prefix);
    UnderJoins(v[k].value.path, prefix);
    WellFormedRest(prefix, own);
    SegmentNotEmpty(own);
    SegmentNotEmpty(Tail(own));
    JoinedTail(prefix, own);
    JoinedUnder(Joined(prefix, Segment(own)), Tail(own));
    var m := MemberExists(v, Joined(prefix, Segment(own)), Segment(Tail(own)), k);
  }

  /** A shown path lies below the prefix, and its next segment is not empty. */
  predicate GoesBelow(v: Fields, j: nat, prefix: string) {
    Shown(v, j) && Under(v[j].value.path, prefix).Some? && SegmentLength(Rest(v, j, prefix)) > 0
  }

  /** Something is written below a prefix exactly when a shown path goes on there. */
  lemma WrittenIffBelow(v: Fields, prefix: string)
    requires Below(v, prefix).Some?
    ensures Below(v, prefix).value.Child? <==> exists j: nat :: GoesBelow(v, j, prefix)
  {
    hide Under, NodeOf;
    if Below(v, prefix).value.Child? {
      var k := WriterOf(v, prefix, 1, Below(v, prefix).value.key);
      assert GoesBelow(v, k, prefix);
    }
    if exists j: nat :: GoesBelow(v, j, prefix) {
      var j: nat :| GoesBelow(v, j, prefix);
      var k := MemberExists(v, prefix, Segment(Rest(v, j, prefix)), j);
    }
  }

  /** With the paths the server has, something is written below a prefix exactly when a shown path lies below it. */
  lemma WrittenIffUnder(v: Fields, prefix: string)
    requires AllWellFormed(v) && Below(v, prefix).Some?
    ensures Below(v, prefix).value.Child? <==> exists j: nat :: Shown(v, j) && Under(v[j].value.path, prefix).Some?
  {
    hide Under, WellFormed, MembersFrom;
    WrittenIffBelow(v, prefix);
    forall j: nat | Shown(v, j) && Under(v[j].value.path, prefix).Some?
      ensures GoesBelow(v, j, prefix)
    {
      UnderJoins(v[j].value.path, prefix);
      WellFormedRest(prefix, Rest(v, j, prefix));
      SegmentNotEmpty(Rest(v, j, prefix));
    }
  }

  // ----- The selectors agree -----

  /** The snapshot's selector: nothing current with the same path beats field `i`. */
  predicate WinsInView(v: Fields, i: nat) {
    Current(v, i) &&
    forall j :: 0 <= j < |v| && j != i && Current(v, j) && v[j].value.path == v[i].value.path ==> !Better(v, j, i)
  }

  /** Snapshots, exact paths and the tree choose the same field, unless the AIS table takes the path. */
  lemma SelectorsAgree(v: Fields, i: nat, prefix: string, segment: string)
    requires PrefixFree(v) && AllWellFormed(v) && Shown(v, i)
    requires segment != "" && '.' !in segment && v[i].value.path == Joined(prefix, segment)
    ensures WinsPath(v, i, v[i].value.path) <==> WinsSegment(v, i, prefix, segment)
    ensures (forall j: nat :: Current(v, j) && v[j].value.path == v[i].value.path ==> Shown(v, j)) ==>
              (WinsInView(v, i) <==> WinsPath(v, i, v[i].value.path))
  {
    hide Under, WellFormed, AllWellFormed, SegmentLength;
    SegmentOfJoined(segment, "");
    JoinedUnder(prefix, segment);
    assert segment[..|segment|] == segment;
    forall j | 0 <= j < |v| && Through(v, j, prefix, segment)
      ensures v[j].value.path == v[i].value.path
    {
      ThroughLeaf(v, i, j, prefix, segment);
    }
  }

  /** Below prefix-free paths, what goes through a leaf's segment ends there. */
  lemma ThroughLeaf(v: Fields, i: nat, j: nat, prefix: string, segment: string)
    requires PrefixFree(v) && AllWellFormed(v) && Shown(v, i) && Through(v, j, prefix, segment)
    requires segment != "" && v[i].value.path == Joined(prefix, segment)
    ensures v[j].value.path == v[i].value.path
  {
    hide Under, WellFormed;
    var rest := Rest(v, j, prefix);
    UnderJoins(v[j].value.path, prefix);
    if IsLeaf(rest) {
      assert rest[..|rest|] == rest;
    } else {
      WellFormedRest(prefix, rest);
      SegmentNotEmpty(rest);
      SegmentNotEmpty(Tail(rest));
      JoinedTail(prefix, rest);
      JoinedUnder(Joined(prefix, segment), Tail(rest));
    }
  }

  // ----- Subtrees -----

  /** The node at a path below these children. */
  function FindNode(c: Children, rest: string): Option<Trie>
    decreases |rest|
  {
    if !HasKey(c, Segment(rest)) then None
    else if IsLeaf(rest) then Some(NodeAt(c, Segment(rest)))
    else
      match NodeAt(c, Segment(rest))
      case Leaf(_) => None
      case Branch(children) => FindNode(children, Tail(rest))
  }

  /** What is written below a path is the node the whole tree has there. */
  lemma {:induction false} SubtreeAgrees(v: Fields, prefix: string, rest: string, j: nat)
    requires PrefixFree(v) && AllWellFormed(v) && Below(v, prefix).Some? && WellFormed(rest)
    requires Shown(v, j) && Under(v[j].value.path, Joined(prefix, rest)).Some?
    ensures Below(v, Joined(prefix, rest)).Some?
    ensures FindNode(Below(v, prefix).value, rest) == Some(Branch(Below(v, Joined(prefix, rest)).value))
    decreases |rest|
  {
    hide Under, WellFormed, AllWellFormed, PrefixFree, MembersFrom, NodeOf, SegmentLength;
    var segment := Segment(rest);
    SegmentNotEmpty(rest);
    PassesThrough(v, prefix, rest, j);
    var k := MemberExists(v, prefix, segment, j);
    NodeValue(v, prefix, k);
    NotLeafAbove(v, prefix, rest, j, k);
    if !IsLeaf(rest) {
      JoinedTail(prefix, rest);
      SubtreeAgrees(v, Joined(prefix, segment), Tail(rest), j);
    }
  }

  lemma PassesThrough(v: Fields, prefix: string, rest: string, j: nat)
    requires WellFormed(rest) && Shown(v, j) && Under(v[j].value.path, Joined(prefix, rest)).Some?
    ensures Through(v, j, prefix, Segment(rest)) && !IsLeaf(Rest(v, j, prefix))
  {
    hide WellFormed, Under, SegmentLength;
    SegmentNotEmpty(rest);
    var path := Joined(prefix, rest);
    var more := Under(v[j].value.path, path).value;
    UnderJoins(v[j].value.path, path);
    var own := rest + "." + more;
    assert path + "." + more == Joined(prefix, own);
    JoinedUnder(prefix, own);
    TailOfJoined(rest, more);
  }

  /** A field that wins a segment some path goes beyond is not a leaf there. */
  lemma NotLeafAbove(v: Fields, prefix: string, rest: string, j: nat, k: nat)
    requires PrefixFree(v) && AllWellFormed(v) && Writes(v, prefix, k) && Segment(Rest(v, k, prefix)) == Segment(rest)
    requires Through(v, j, prefix, Segment(rest)) && !IsLeaf(Rest(v, j, prefix))
    ensures !IsLeaf(Rest(v, k, prefix))
  {
    hide WellFormed, Under, AllWellFormed, PrefixFree;
    var own := Rest(v, k, prefix);
    if IsLeaf(own) {
      assert own[..|own|] == own;
      UnderJoins(v[k].value.path, prefix);
      UnderJoins(v[j].value.path, prefix);
      ThroughLeaf(v, k, j, prefix, Segment(rest));
    }
  }

  // ----- When the names fit the writer's buffers -----

  /** Every segment is shorter than 96 bytes, and every path above it shorter than 192. */
  ghost predicate NamesFit(path: string) {
    ShortSegments(path) && DotsWithin(path, 192)
  }

  ghost predicate ShortSegments(s: string) {
    forall a, b :: 0 <= a <= b <= |s| && '.' !in s[a..b] ==> b - a < 96
  }

  ghost predicate DotsWithin(s: string, limit: int) {
    forall i :: 0 <= i < |s| && s[i] == '.' ==> i < limit
  }

  /** The same, segment by segment below a prefix. */
  predicate RestFits(prefix: string, rest: string)
    decreases |rest|
  {
    && SegmentLength(rest) < 96
    && (IsLeaf(rest) || (|Joined(prefix, Segment(rest))| < 192 && RestFits(Joined(prefix, Segment(rest)), Tail(rest))))
  }

  function Start(prefix: string): nat {
    if prefix == "" then 0 else |prefix| + 1
  }

  /** The two say the same about well-formed paths. */
  lemma {:induction false} RestFitsIff(prefix: string, rest: string)
    requires WellFormed(rest)
    ensures RestFits(prefix, rest) <==> ShortSegments(rest) && DotsWithin(rest, 192 - Start(prefix))
    decreases |rest|
  {
    hide SegmentLength, WellFormed, ShortSegments, DotsWithin;
    SegmentNotEmpty(rest);
    var n := SegmentLength(rest);
    if IsLeaf(rest) {
      NoDots(rest, 192 - Start(prefix));
    } else {
      var child, tail := Joined(prefix, Segment(rest)), Tail(rest);
      RestFitsIff(child, tail);
      assert Start(child) == Start(prefix) + n + 1;
      SegmentsSplit(rest, n);
      DotsSplit(rest, n, 192 - Start(prefix));
    }
  }

  lemma NoDots(s: string, limit: int)
    requires IsLeaf(s)
    ensures ShortSegments(s) <==> |s| < 96
    ensures DotsWithin(s, limit)
  {
    hide SegmentLength;
    assert s[0..|s|] == s[..SegmentLength(s)] == s;
  }

  lemma SegmentsSplit(s: string, n: nat)
    requires n < |s| && s[n] == '.' && '.' !in s[..n]
    ensures ShortSegments(s) <==> n < 96 && ShortSegments(s[n + 1..])
  {
    hide ShortSegments;
    if ShortSegments(s) {
      ShortSegment(s, 0, n);
      TailShort(s, n);
    }
    if n < 96 && ShortSegments(s[n + 1..]) { WholeShort(s, n); }
  }

  lemma ShortSegment(s: string, a: nat, b: nat)
    requires ShortSegments(s) && a <= b <= |s| && '.' !in s[a..b]
    ensures b - a < 96
  {}

  lemma TailShort(s: string, n: nat)
    requires n < |s| && ShortSegments(s)
    ensures ShortSegments(s[n + 1..])
  {
    var tail := s[n + 1..];
    forall a, b | 0 <= a <= b <= |tail| && '.' !in tail[a..b]
      ensures b - a < 96
    {
      assert tail[a..b] == s[n + 1 + a..n + 1 + b];
      ShortSegment(s, n + 1 + a, n + 1 + b);
    }
  }

  lemma WholeShort(s: string, n: nat)
    requires n < 96 && n < |s| && s[n] == '.' && ShortSegments(s[n + 1..])
    ensures ShortSegments(s)
  {
    var tail := s[n + 1..];
    forall a, b | 0 <= a <= b <= |s|
      ensures '.' !in s[a..b] ==> b - a < 96
    {
      if n < a {
        assert tail[a - n - 1..b - n - 1] == s[a..b];
        if '.' !in s[a..b] { ShortSegment(tail, a - n - 1, b - n - 1); }
      } else if n < b {
        assert s[a..b][n - a] == s[n];
      }
    }
  }

  lemma DotsSplit(s: string, n: nat, limit: int)
    requires n < |s| && s[n] == '.' && '.' !in s[..n]
    ensures DotsWithin(s, limit) <==> n < limit && DotsWithin(s[n + 1..], limit - n - 1)
  {
    var tail := s[n + 1..];
    assert forall i :: 0 <= i < n ==> s[i] == s[..n][i];
    assert forall i :: 0 <= i < |tail| ==> tail[i] == s[n + 1 + i];
    assert forall i :: n < i < |s| ==> s[i] == tail[i - n - 1];
  }

  /** Every shown path below the prefix fits. */
  ghost predicate AllFitBelow(v: Fields, prefix: string) {
    forall i: nat :: Shown(v, i) && Under(v[i].value.path, prefix).Some? ==> RestFits(prefix, Rest(v, i, prefix))
  }

  lemma {:induction false} FitsWrites(v: Fields, prefix: string, i: nat)
    requires AllFitBelow(v, prefix)
    ensures MembersFrom(v, prefix, i).Some?
    decreases Depth(prefix), if i <= |v| then |v| - i else 0
  {
    hide Under, WinsSegment, RestFits, SegmentLength;
    if i < |v| {
      FitsWrites(v, prefix, i + 1);
      if Writes(v, prefix, i) {
        var rest := Rest(v, i, prefix);
        FitsStep(prefix, rest);
        if !IsLeaf(rest) {
          var child := Joined(prefix, Segment(rest));
          FitsChild(v, prefix, child, Segment(rest));
          FitsWrites(v, child, 1);
        }
      }
    }
  }

  lemma FitsStep(prefix: string, rest: string)
    requires RestFits(prefix, rest)
    ensures SegmentLength(rest) < 96
    ensures !IsLeaf(rest) ==> |Joined(prefix, Segment(rest))| < 192
    ensures !IsLeaf(rest) ==> RestFits(Joined(prefix, Segment(rest)), Tail(rest))
  {}

  /** What lies below a member lay below the prefix. */
  lemma FitsChild(v: Fields, prefix: string, child: string, segment: string)
    requires AllFitBelow(v, prefix) && segment != "" && '.' !in segment && child == Joined(prefix, segment)
    ensures AllFitBelow(v, child)
  {
    hide Under, RestFits, SegmentLength;
    forall i: nat | Shown(v, i) && Under(v[i].value.path, child).Some?
      ensures RestFits(child, Rest(v, i, child))
    {
      var more := Rest(v, i, child);
      UnderJoins(v[i].value.path, child);
      var rest := segment + "." + more;
      assert child + "." + more == Joined(prefix, rest);
      JoinedUnder(prefix, rest);
      SegmentOfJoined(segment, more);
      assert Segment(rest) == segment && Tail(rest) == more;
      FitsStep(prefix, rest);
    }
  }

  /** If everything below a prefix is written, the names on the way to every shown path fit. */
  lemma {:induction false} WrittenFits(v: Fields, prefix: string, j: nat)
    requires PrefixFree(v) && AllWellFormed(v) && Below(v, prefix).Some?
    requires Shown(v, j) && Under(v[j].value.path, prefix).Some?
    ensures RestFits(prefix, Rest(v, j, prefix))
    decreases |Rest(v, j, prefix)|
  {
    hide Under, WellFormed, AllWellFormed, PrefixFree, MembersFrom, SegmentLength, WinsSegment;
    var rest := Rest(v, j, prefix);
    UnderJoins(v[j].value.path, prefix);
    assert WellFormed(v[j].value.path) by { ShownWellFormed(v, j); }
    WellFormedRest(prefix, rest);
    SegmentNotEmpty(rest);
    var k := MemberExists(v, prefix, Segment(rest), j);
    SameSegmentLength(rest, Rest(v, k, prefix));
    if !IsLeaf(rest) {
      NotLeafAbove(v, prefix, rest, j, k);
      NodeValue(v, prefix, k);
      JoinedTail(prefix, rest);
      SegmentNotEmpty(Tail(rest));
      JoinedUnder(Joined(prefix, Segment(rest)), Tail(rest));
      WrittenFits(v, Joined(prefix, Segment(rest)), j);
    }
  }

  lemma SameSegmentLength(a: string, b: string)
    requires Segment(a) == Segment(b)
    ensures SegmentLength(a) == SegmentLength(b)
  {
    assert |Segment(a)| == |Segment(b)|;
  }

  lemma ShownWellFormed(v: Fields, i: nat)
    requires AllWellFormed(v) && Shown(v, i)
    ensures WellFormed(v[i].value.path)
  {}

  /**
   The writer's buffers suffice for the whole tree if and only if every segment
   of a shown path is shorter than 96 bytes and every path above one shorter
   than 192.
   */
  lemma WrittenIffNamesFit(v: Fields)
    requires PrefixFree(v) && AllWellFormed(v)
    ensures Below(v, "").Some? <==> forall i: nat :: Shown(v, i) ==> NamesFit(v[i].value.path)
  {
    hide WellFormed, AllWellFormed, PrefixFree, MembersFrom, RestFits, NamesFit;
    forall i: nat | Shown(v, i)
      ensures Under(v[i].value.path, "") == Some(v[i].value.path)
      ensures RestFits("", v[i].value.path) <==> NamesFit(v[i].value.path)
    {
      ShownWellFormed(v, i);
      SegmentNotEmpty(v[i].value.path);
      NamesFitIff(v[i].value.path);
    }
    if Below(v, "").Some? {
      forall i: nat | Shown(v, i) ensures NamesFit(v[i].value.path) { WrittenFits(v, "", i); }
    }
    if forall i: nat :: Shown(v, i) ==> NamesFit(v[i].value.path) { FitsWrites(v, "", 1); }
  }

  lemma NamesFitIff(path: string)
    requires WellFormed(path)
    ensures RestFits("", path) <==> NamesFit(path)
  {
    hide RestFits, WellFormed;
    RestFitsIff("", path);
  }

  /** Paths shorter than 96 bytes always fit, whatever the fields are. */
  lemma ShortPathsWritten(v: Fields)
    requires forall i: nat :: Shown(v, i) ==> |v[i].value.path| < 96
    ensures Below(v, "").Some?
  {
    hide RestFits, MembersFrom;
    forall i: nat | Shown(v, i) && Under(v[i].value.path, "").Some?
      ensures RestFits("", Rest(v, i, ""))
    {
      ShortFits("", Rest(v, i, ""));
    }
    FitsWrites(v, "", 1);
  }

  lemma {:induction false} ShortFits(prefix: string, rest: string)
    requires Start(prefix) + |rest| < 96
    ensures RestFits(prefix, rest)
    decreases |rest|
  {
    if !IsLeaf(rest) { ShortFits(Joined(prefix, Segment(rest)), Tail(rest)); }
  }

  // ----- In plain terms -----

  /** The newest value of a path that is not the AIS table's, the lowest field index among equally new ones. */
  predicate Newest(v: Fields, i: nat, path: string) {
    && 1 <= i < |v| && v[i].Some? && v[i].value.path == path && !v[i].value.ais
    && forall j :: 1 <= j < |v| && v[j].Some? && v[j].value.path == path && !v[j].value.ais ==>
         v[j].value.stamp < v[i].value.stamp || (v[j].value.stamp == v[i].value.stamp && i <= j)
  }

  /** The written tree holds at each path the newest value, and nothing where there is none. */
  lemma FindsNewest(v: Fields, path: string)
    requires PrefixFree(v) && AllWellFormed(v) && Below(v, "").Some? && WellFormed(path)
    ensures var found := Find(Below(v, "").value, path);
            && (forall i: nat :: Newest(v, i, path) ==> found == Some(v[i].value.leaf))
            && (found.Some? ==> exists i: nat :: Newest(v, i, path))
  {
    hide Find, MembersFrom, WellFormed, PrefixFree, AllWellFormed;
    FindsWinner(v, "", path);
    forall i: nat
      ensures Newest(v, i, path) <==> WinsPath(v, i, path)
    {
      NewestWins(v, i, path);
    }
  }

  lemma NewestWins(v: Fields, i: nat, path: string)
    ensures Newest(v, i, path) <==> WinsPath(v, i, path)
  {}
}
