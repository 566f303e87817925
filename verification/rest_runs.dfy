/**
 What a client receives over a whole resumed REST response, however many
 passes it takes: the document itself if it does not change, and otherwise,
 as long as its shape stays the same, a document of that shape whose leaves
 come from the passes that sent them.
 */
module RestRuns {
  import opened JsonText
  import opened LeafLexer
  import opened Crc32
  import opened RestResume

  datatype PassRecord = PassRecord(doc: string, before: Progress, after: Progress, out: string, result: PassResult)

  /** A response: passes follow one another until one does not pause. */
  ghost predicate Response(passes: seq<PassRecord>) {
    && passes != [] && passes[0].before == Progress(0, 0)
    && (forall i :: 0 <= i < |passes| ==>
          PassSpec(passes[i].doc, passes[i].before, passes[i].after, passes[i].out, passes[i].result))
    && (forall i :: 0 <= i < |passes| - 1 ==>
          passes[i].result == Paused && passes[i + 1].before == passes[i].after)
  }

  function Sent(passes: seq<PassRecord>): string {
    if passes == [] then "" else Sent(passes[..|passes| - 1]) + passes[|passes| - 1].out
  }

  lemma ResponsePrefix(passes: seq<PassRecord>)
    requires Response(passes) && |passes| > 1
    ensures Response(passes[..|passes| - 1])
  {
    hide PassSpec;
  }

  // ----- An unchanging document -----

  /** After a pause exactly the first `leaves` leaves are out; the document is never cut anywhere else. */
  lemma {:induction false} UnchangingDocument(doc: string, passes: seq<PassRecord>)
    requires Response(passes) && forall i :: 0 <= i < |passes| ==> passes[i].doc == doc
    ensures var last := passes[|passes| - 1];
            Resumes(doc, last.before) && SentOf(doc, last, Sent(passes))
  {
    hide PassSpec, Resumes, Sent, Cut;
    var n := |passes| - 1;
    var last := passes[n];
    SentStep(passes);
    assert PassSpec(last.doc, last.before, last.after, last.out, last.result);
    if n == 0 {
      StartsFresh(doc, last);
    } else {
      ResponsePrefix(passes);
      UnchangingDocument(doc, passes[..n]);
      assert passes[n - 1] == passes[..n][n - 1];
      PassExtends(doc, last, Sent(passes[..n]));
    }
  }

  lemma SentStep(passes: seq<PassRecord>)
    requires passes != []
    ensures var n := |passes| - 1; Sent(passes) == (if n == 0 then "" else Sent(passes[..n])) + passes[n].out
  {
    assert passes[..0] == [];
  }

  /** What has been sent after a pass over `doc`. */
  ghost predicate SentOf(doc: string, last: PassRecord, sent: string) {
    match last.result
    case Complete => sent == doc
    case Paused => Resumes(doc, last.after) && sent == doc[..Cut(doc, last.after.leaves)]
    case Failed => sent <= doc
  }

  /** A pass continues what was sent up to its resume point. */
  lemma PassExtends(doc: string, last: PassRecord, sent: string)
    requires Resumes(doc, last.before) && sent == doc[..Cut(doc, last.before.leaves)]
    requires PassSpec(doc, last.before, last.after, last.out, last.result)
    ensures SentOf(doc, last, sent + last.out)
  {
    hide Ends, CrcAt, Cut;
    var k := Cut(doc, last.before.leaves);
    assert doc == doc[..k] + doc[k..];
    if last.result == Paused {
      assert doc[..Cut(doc, last.after.leaves)] == doc[..k] + doc[k..Cut(doc, last.after.leaves)];
    }
  }

  lemma StartsFresh(doc: string, last: PassRecord)
    requires last.before == Progress(0, 0) && PassSpec(doc, last.before, last.after, last.out, last.result)
    ensures Resumes(doc, last.before) && SentOf(doc, last, "" + last.out)
  {
    hide Ends, CrcAt, Cut;
    CutZero(doc);
    PassExtends(doc, last, "");
  }

  lemma CutZero(doc: string)
    ensures Cut(doc, 0) == 0 && doc[0..] == doc
  {}

  // ----- Documents of one shape -----

  predicate IsLeaf(j: Json) {
    j.Scalar? || j.Str?
  }

  /** Equal up to the values of leaves. */
  predicate SameShape(a: Json, b: Json) {
    match a
    case Arr(items) => b.Arr? && SameItems(items, b.items)
    case Obj(members) => b.Obj? && SameMembers(members, b.members)
    case _ => IsLeaf(b)
  }

  predicate SameItems(a: Items, b: Items) {
    match a
    case NoItems => b.NoItems?
    case Item(value, rest) => b.Item? && SameShape(value, b.value) && SameItems(rest, b.rest)
  }

  predicate SameMembers(a: Members, b: Members) {
    match a
    case NoMembers => b.NoMembers?
    case Member(key, value, rest) =>
      b.Member? && key == b.key && SameShape(value, b.value) && SameMembers(rest, b.rest)
  }

  /** The leaves in the order they are printed. */
  function Leaves(j: Json): seq<Json> {
    match j
    case Arr(items) => ItemLeaves(items)
    case Obj(members) => MemberLeaves(members)
    case _ => [j]
  }

  function ItemLeaves(items: Items): seq<Json> {
    match items
    case NoItems => []
    case Item(value, rest) => Leaves(value) + ItemLeaves(rest)
  }

  function MemberLeaves(members: Members): seq<Json> {
    match members
    case NoMembers => []
    case Member(_, value, rest) => Leaves(value) + MemberLeaves(rest)
  }

  function Less(m: nat, n: nat): nat {
    if m < n then 0 else m - n
  }

  /** The first `m` leaves of `a`, the others of `b`. */
  function Mix(a: Json, b: Json, m: nat): Json
    requires SameShape(a, b)
  {
    match a
    case Arr(items) => Arr(MixItems(items, b.items, m))
    case Obj(members) => Obj(MixMembers(members, b.members, m))
    case _ => if m > 0 then a else b
  }

  function MixItems(a: Items, b: Items, m: nat): Items
    requires SameItems(a, b)
  {
    match a
    case NoItems => NoItems
    case Item(value, rest) =>
      Item(Mix(value, b.value, m), MixItems(rest, b.rest, Less(m, |Leaves(value)|)))
  }

  function MixMembers(a: Members, b: Members, m: nat): Members
    requires SameMembers(a, b)
  {
    match a
    case NoMembers => NoMembers
    case Member(key, value, rest) =>
      Member(key, Mix(value, b.value, m), MixMembers(rest, b.rest, Less(m, |Leaves(value)|)))
  }

  // ----- A document as a list of structure and leaves -----

  datatype Part = Punctuation(text: string) | Leaf(node: Json)

  function Parts(j: Json): seq<Part> {
    match j
    case Arr(items) => [Punctuation("[")] + ItemParts(items, true) + [Punctuation("]")]
    case Obj(members) => [Punctuation("{")] + MemberParts(members, true) + [Punctuation("}")]
    case _ => [Leaf(j)]
  }

  function ItemParts(items: Items, first: bool): seq<Part> {
    match items
    case NoItems => []
    case Item(value, rest) => [Punctuation(Comma(first))] + Parts(value) + ItemParts(rest, false)
  }

  function MemberParts(members: Members, first: bool): seq<Part> {
    match members
    case NoMembers => []
    case Member(key, value, rest) =>
      [Punctuation(Comma(first) + Quote(key) + ":")] + Parts(value) + MemberParts(rest, false)
  }

  function PartText(p: Part): string {
    match p
    case Punctuation(text) => text
    case Leaf(node) => Print(node)
  }

  function Text(parts: seq<Part>): string {
    if parts == [] then "" else PartText(parts[0]) + Text(parts[1..])
  }

  function PartsMask(parts: seq<Part>): seq<bool> {
    if parts == [] then [] else Marks(|PartText(parts[0])|, parts[0].Punctuation?) + PartsMask(parts[1..])
  }

  function PartsEnds(parts: seq<Part>, at: nat): seq<nat> {
    if parts == [] then []
    else
      var p := at + |PartText(parts[0])|;
      (if parts[0].Leaf? then [p] else []) + PartsEnds(parts[1..], p)
  }

  function PartLeaves(parts: seq<Part>): seq<Json> {
    if parts == [] then []
    else (if parts[0].Leaf? then [parts[0].node] else []) + PartLeaves(parts[1..])
  }

  lemma Assoc<T>(a: seq<T>, b: seq<T>, c: seq<T>)
    ensures a + (b + c) == a + b + c
  {}

  lemma TextStep(parts: seq<Part>)
    ensures parts == [] ==> Text(parts) == "" && PartsMask(parts) == []
    ensures parts != [] ==> Text(parts) == PartText(parts[0]) + Text(parts[1..])
    ensures parts != [] ==>
              PartsMask(parts) == Marks(|PartText(parts[0])|, parts[0].Punctuation?) + PartsMask(parts[1..])
  {
    hide PartText;
  }

  lemma {:induction false} TextConcat(a: seq<Part>, b: seq<Part>)
    ensures Text(a + b) == Text(a) + Text(b)
    ensures PartsMask(a + b) == PartsMask(a) + PartsMask(b)
    ensures |PartsMask(a)| == |Text(a)|
    decreases |a|
  {
    hide PartText, Text, PartsMask;
    TextStep(a);
    if a == [] {
      assert a + b == b;
      assert "" + Text(b) == Text(b) && [] + PartsMask(b) == PartsMask(b);
    } else {
      TextStep(a + b);
      assert (a + b)[1..] == a[1..] + b;
      TextConcat(a[1..], b);
      Assoc(PartText(a[0]), Text(a[1..]), Text(b));
      Assoc(Marks(|PartText(a[0])|, a[0].Punctuation?), PartsMask(a[1..]), PartsMask(b));
    }
  }

  lemma EndsStep(parts: seq<Part>, at: nat)
    ensures parts == [] ==> PartsEnds(parts, at) == [] && PartLeaves(parts) == []
    ensures parts != [] ==>
              var p := at + |PartText(parts[0])|;
              && PartsEnds(parts, at) == (if parts[0].Leaf? then [p] else []) + PartsEnds(parts[1..], p)
              && PartLeaves(parts) == (if parts[0].Leaf? then [parts[0].node] else []) + PartLeaves(parts[1..])
  {
    hide PartText;
  }

  lemma {:induction false} EndsConcat(a: seq<Part>, b: seq<Part>, at: nat)
    ensures PartsEnds(a + b, at) == PartsEnds(a, at) + PartsEnds(b, at + |Text(a)|)
    ensures PartLeaves(a + b) == PartLeaves(a) + PartLeaves(b)
    ensures |PartsEnds(a, at)| == |PartLeaves(a)|
    decreases |a|
  {
    hide PartText, Text, PartsEnds, PartLeaves;
    EndsStep(a, at);
    TextStep(a);
    if a == [] {
      assert a + b == b;
      assert [] + PartsEnds(b, at) == PartsEnds(b, at) && [] + PartLeaves(b) == PartLeaves(b);
    } else {
      EndsStep(a + b, at);
      var p := at + |PartText(a[0])|;
      assert (a + b)[1..] == a[1..] + b;
      EndsConcat(a[1..], b, p);
      Assoc(if a[0].Leaf? then [p] else [], PartsEnds(a[1..], p), PartsEnds(b, at + |Text(a)|));
      Assoc(if a[0].Leaf? then [a[0].node] else [], PartLeaves(a[1..]), PartLeaves(b));
    }
  }

  lemma PartsOne(p: Part, at: nat)
    ensures Text([p]) == PartText(p)
    ensures PartsMask([p]) == Marks(|PartText(p)|, p.Punctuation?)
    ensures PartsEnds([p], at) == if p.Leaf? then [at + |PartText(p)|] else []
    ensures PartLeaves([p]) == if p.Leaf? then [p.node] else []
  {
    assert [p][1..] == [];
  }

  /** The parts give the text, the mask, the leaf ends and the leaves of the tree. */
  ghost predicate Describes(parts: seq<Part>, at: nat, text: string, mask: seq<bool>, ends: seq<nat>,
                            leaves: seq<Json>) {
    Text(parts) == text && PartsMask(parts) == mask && PartsEnds(parts, at) == ends && PartLeaves(parts) == leaves
  }

  lemma DescribesThree(lead: string, at: nat, body: seq<Part>, text: string, mask: seq<bool>, ends: seq<nat>,
                       leaves: seq<Json>, rest: seq<Part>, text': string, mask': seq<bool>, ends': seq<nat>,
                       leaves': seq<Json>)
    requires Describes(body, at + |lead|, text, mask, ends, leaves)
    requires Describes(rest, at + |lead| + |text|, text', mask', ends', leaves')
    ensures Describes([Punctuation(lead)] + body + rest, at, lead + text + text',
                      Marks(|lead|, true) + mask + mask', ends + ends', leaves + leaves')
  {
    hide Text, PartsMask, PartsEnds, PartLeaves, Marks;
    var head := [Punctuation(lead)];
    PartsOne(Punctuation(lead), at);
    TextConcat(head, body);
    TextConcat(head + body, rest);
    EndsConcat(head, body, at);
    EndsConcat(head + body, rest, at);
    assert [] + ends == ends && [] + leaves == leaves;
  }

  lemma {:induction false} TreeParts(j: Json, at: nat)
    ensures Describes(Parts(j), at, Print(j), Mask(j), LeafEnds(j, at), Leaves(j))
    decreases j, 1
  {
    hide Describes, Text, PartsMask, PartsEnds, PartLeaves;
    match j
    case Arr(items) =>
      TreeItems(items, true, at + 1);
      TreeClose("[", at, ItemParts(items, true), PrintItems(items, true), MaskItems(items, true),
                ItemEnds(items, true, at + 1), ItemLeaves(items), "]");
    case Obj(members) =>
      TreeMembers(members, true, at + 1);
      TreeClose("{", at, MemberParts(members, true), PrintMembers(members, true), MaskMembers(members, true),
                MemberEnds(members, true, at + 1), MemberLeaves(members), "}");
    case _ =>
      TreeLeaf(j, at);
  }

  lemma TreeNothing(at: nat)
    ensures Describes([], at, "", [], [], [])
  {}

  lemma TreeLeaf(j: Json, at: nat)
    requires IsLeaf(j)
    ensures Describes([Leaf(j)], at, Print(j), Mask(j), LeafEnds(j, at), [j])
  {
    PartsOne(Leaf(j), at);
  }

  lemma TreeClose(open: string, at: nat, body: seq<Part>, text: string, mask: seq<bool>, ends: seq<nat>,
                  leaves: seq<Json>, close: string)
    requires |open| == |close| == 1 && Describes(body, at + 1, text, mask, ends, leaves)
    ensures Describes([Punctuation(open)] + body + [Punctuation(close)], at, open + text + close,
                      [true] + mask + [true], ends, leaves)
  {
    hide Text, PartsMask, PartsEnds, PartLeaves;
    PartsOne(Punctuation(close), at + 1 + |text|);
    DescribesThree(open, at, body, text, mask, ends, leaves, [Punctuation(close)], close, Marks(1, true), [], []);
    assert Marks(1, true) == [true] && ends + [] == ends && leaves + [] == leaves;
  }

  lemma {:induction false} TreeItems(items: Items, first: bool, at: nat)
    ensures Describes(ItemParts(items, first), at, PrintItems(items, first), MaskItems(items, first),
                      ItemEnds(items, first, at), ItemLeaves(items))
    decreases items, 0
  {
    hide Print, Mask, LeafEnds, Leaves, Parts, Describes;
    match items
    case NoItems => TreeNothing(at);
    case Item(value, rest) =>
      var p := at + |Comma(first)|;
      TreeParts(value, p);
      TreeItems(rest, false, p + |Print(value)|);
      DescribesThree(Comma(first), at, Parts(value), Print(value), Mask(value), LeafEnds(value, p), Leaves(value),
                     ItemParts(rest, false), PrintItems(rest, false), MaskItems(rest, false),
                     ItemEnds(rest, false, p + |Print(value)|), ItemLeaves(rest));
  }

  lemma {:induction false} TreeMembers(members: Members, first: bool, at: nat)
    ensures Describes(MemberParts(members, first), at, PrintMembers(members, first), MaskMembers(members, first),
                      MemberEnds(members, first, at), MemberLeaves(members))
    decreases members, 0
  {
    hide Print, Mask, LeafEnds, Leaves, Parts, Quote, Describes;
    match members
    case NoMembers => TreeNothing(at);
    case Member(key, value, rest) =>
      var lead := Comma(first) + Quote(key) + ":";
      var p := at + |lead|;
      TreeParts(value, p);
      TreeMembers(rest, false, p + |Print(value)|);
      DescribesThree(lead, at, Parts(value), Print(value), Mask(value), LeafEnds(value, p), Leaves(value),
                     MemberParts(rest, false), PrintMembers(rest, false), MaskMembers(rest, false),
                     MemberEnds(rest, false, p + |Print(value)|), MemberLeaves(rest));
  }

  // ----- Splicing two documents of one shape -----

  ghost predicate SameParts(a: seq<Part>, b: seq<Part>) {
    && |a| == |b|
    && forall i :: 0 <= i < |a| ==> if a[i].Leaf? then b[i].Leaf? else a[i] == b[i]
  }

  /** The number of parts up to and including the `m`-th leaf. */
  function SplitAt(parts: seq<Part>, m: nat): (k: nat)
    ensures k <= |parts|
  {
    if m == 0 || parts == [] then 0
    else 1 + SplitAt(parts[1..], if parts[0].Leaf? then m - 1 else m)
  }

  function MixParts(a: seq<Part>, b: seq<Part>, m: nat): seq<Part>
    requires |a| == |b|
  {
    if a == [] then []
    else [if a[0].Leaf? && m == 0 then b[0] else a[0]] +
         MixParts(a[1..], b[1..], if a[0].Leaf? then Less(m, 1) else m)
  }

  lemma MixStep(a: seq<Part>, b: seq<Part>, m: nat)
    requires |a| == |b| && a != []
    ensures MixParts(a, b, m) == [if a[0].Leaf? && m == 0 then b[0] else a[0]] +
                                 MixParts(a[1..], b[1..], if a[0].Leaf? then Less(m, 1) else m)
    ensures SplitAt(a, m) == if m == 0 then 0 else 1 + SplitAt(a[1..], if a[0].Leaf? then m - 1 else m)
  {}

  lemma {:induction false} MixPartsIsSplice(a: seq<Part>, b: seq<Part>, m: nat)
    requires SameParts(a, b)
    ensures SplitAt(a, m) == SplitAt(b, m)
    ensures MixParts(a, b, m) == a[..SplitAt(a, m)] + b[SplitAt(a, m)..]
    decreases |a|
  {
    hide MixParts, SplitAt;
    if a == [] {
      MixNothing(a, b, m);
    } else {
      MixStep(a, b, m);
      MixStep(b, a, m);
      RestSame(a, b);
      if m == 0 {
        MixPartsIsSplice(a[1..], b[1..], 0);
        MixZero(a[1..]);
        assert b == [b[0]] + b[1..];
      } else {
        var m' := if a[0].Leaf? then m - 1 else m;
        MixPartsIsSplice(a[1..], b[1..], m');
        var k := SplitAt(a[1..], m');
        assert a[..k + 1] == [a[0]] + a[1..][..k] && b[k + 1..] == b[1..][k..];
      }
    }
  }

  lemma MixZero(a: seq<Part>)
    ensures SplitAt(a, 0) == 0
  {}

  lemma MixNothing(a: seq<Part>, b: seq<Part>, m: nat)
    requires a == b == []
    ensures MixParts(a, b, m) == [] && SplitAt(a, m) == 0
  {}

  lemma RestSame(a: seq<Part>, b: seq<Part>)
    requires SameParts(a, b) && a != []
    ensures SameParts(a[1..], b[1..]) && a[0].Leaf? == b[0].Leaf? && (a[0].Leaf? || a[0] == b[0])
  {}

  lemma {:induction false} MixPartsConcat(a: seq<Part>, a': seq<Part>, b: seq<Part>, b': seq<Part>, m: nat)
    requires |a| == |b| && |a'| == |b'|
    ensures MixParts(a + a', b + b', m) == MixParts(a, b, m) + MixParts(a', b', Less(m, |PartLeaves(a)|))
    decreases |a|
  {
    hide MixParts, PartLeaves;
    EndsStep(a, 0);
    if a == [] {
      assert a + a' == a' && b + b' == b';
      MixNothing(a, b, m);
      assert [] + MixParts(a', b', m) == MixParts(a', b', m);
    } else {
      var m' := if a[0].Leaf? then Less(m, 1) else m;
      assert (a + a')[1..] == a[1..] + a' && (b + b')[1..] == b[1..] + b';
      MixStep(a + a', b + b', m);
      MixStep(a, b, m);
      MixPartsConcat(a[1..], a', b[1..], b', m');
      Assoc([if a[0].Leaf? && m == 0 then b[0] else a[0]], MixParts(a[1..], b[1..], m'),
            MixParts(a', b', Less(m, |PartLeaves(a)|)));
    }
  }

  /** The cut after `m` leaves is where the first `SplitAt` parts end. */
  lemma {:induction false} CutIsSplit(parts: seq<Part>, m: nat, at: nat)
    requires m <= |PartLeaves(parts)|
    ensures |PartsEnds(parts, at)| == |PartLeaves(parts)|
    ensures m > 0 ==> PartsEnds(parts, at)[m - 1] == at + |Text(parts[..SplitAt(parts, m)])|
    ensures |PartLeaves(parts[..SplitAt(parts, m)])| == m
  {
    hide PartText;
    if parts != [] {
      var p := at + |PartText(parts[0])|;
      if m > 0 {
        var m' := if parts[0].Leaf? then m - 1 else m;
        CutIsSplit(parts[1..], m', p);
        var k := SplitAt(parts[1..], m');
        assert parts[..k + 1][1..] == parts[1..][..k];
        if m' == 0 { assert parts[..1][1..] == []; }
      } else {
        CutIsSplit(parts[1..], 0, p);
      }
    }
  }

  lemma SamePartsThree(lead: string, a: seq<Part>, a': seq<Part>, b: seq<Part>, b': seq<Part>)
    requires SameParts(a, b) && SameParts(a', b')
    ensures SameParts([Punctuation(lead)] + a + a', [Punctuation(lead)] + b + b') && |a| == |b| && |a'| == |b'|
  {}

  lemma SamePartsOne(p: Part)
    ensures SameParts([p], [p])
  {}

  lemma MixThree(lead: string, a: seq<Part>, a': seq<Part>, b: seq<Part>, b': seq<Part>, m: nat)
    requires |a| == |b| && |a'| == |b'|
    ensures MixParts([Punctuation(lead)] + a + a', [Punctuation(lead)] + b + b', m) ==
            [Punctuation(lead)] + MixParts(a, b, m) + MixParts(a', b', Less(m, |PartLeaves(a)|))
  {
    hide MixParts, PartLeaves;
    var head := [Punctuation(lead)];
    PartsOne(head[0], 0);
    MixPartsConcat(head + a, a', head + b, b', m);
    MixPartsConcat(head, a, head, b, m);
    EndsConcat(head, a, 0);
    MixOne(head[0], head[0], m);
    assert [] + PartLeaves(a) == PartLeaves(a);
  }

  lemma MixOne(p: Part, q: Part, m: nat)
    ensures MixParts([p], [q], m) == [if p.Leaf? && m == 0 then q else p]
  {
    assert [p][1..] == [] && [q][1..] == [];
  }

  /** Mixing trees mixes their parts, keeps the shape and keeps scalars well-formed. */
  lemma {:induction false} TreeMix(a: Json, b: Json, m: nat)
    requires SameShape(a, b)
    ensures SameParts(Parts(a), Parts(b))
    ensures Parts(Mix(a, b, m)) == MixParts(Parts(a), Parts(b), m)
    ensures SameShape(a, Mix(a, b, m))
    ensures WellFormed(a) && WellFormed(b) ==> WellFormed(Mix(a, b, m))
    decreases a, 1
  {
    hide MixParts, SameParts, PartLeaves, ItemParts, MemberParts, SameItems, SameMembers, MixItems, MixMembers;
    match a
    case Arr(items) =>
      TreeMixItems(items, b.items, true, m);
      SamePartsOne(Punctuation("]"));
      SamePartsThree("[", ItemParts(items, true), [Punctuation("]")], ItemParts(b.items, true), [Punctuation("]")]);
      MixThree("[", ItemParts(items, true), [Punctuation("]")], ItemParts(b.items, true), [Punctuation("]")], m);
      MixOne(Punctuation("]"), Punctuation("]"), Less(m, |PartLeaves(ItemParts(items, true))|));
    case Obj(members) =>
      TreeMixMembers(members, b.members, true, m);
      SamePartsOne(Punctuation("}"));
      SamePartsThree("{", MemberParts(members, true), [Punctuation("}")], MemberParts(b.members, true),
                     [Punctuation("}")]);
      MixThree("{", MemberParts(members, true), [Punctuation("}")], MemberParts(b.members, true), [Punctuation("}")],
               m);
      MixOne(Punctuation("}"), Punctuation("}"), Less(m, |PartLeaves(MemberParts(members, true))|));
    case _ =>
      MixOne(Leaf(a), Leaf(b), m);
      SameLeaves(a, b);
  }

  lemma SameLeaves(a: Json, b: Json)
    ensures SameParts([Leaf(a)], [Leaf(b)])
  {}

  lemma NothingMixed(m: nat)
    ensures SameParts([], []) && MixParts([], [], m) == []
  {}

  lemma {:induction false} TreeMixItems(a: Items, b: Items, first: bool, m: nat)
    requires SameItems(a, b)
    ensures SameParts(ItemParts(a, first), ItemParts(b, first))
    ensures ItemParts(MixItems(a, b, m), first) == MixParts(ItemParts(a, first), ItemParts(b, first), m)
    ensures SameItems(a, MixItems(a, b, m))
    ensures WellFormedItems(a) && WellFormedItems(b) ==> WellFormedItems(MixItems(a, b, m))
    decreases a, 0
  {
    hide Parts, Mix, SameShape, WellFormed, MixParts, SameParts, PartLeaves, Leaves;
    match a
    case NoItems => NothingMixed(m);
    case Item(value, rest) =>
      TreeMix(value, b.value, m);
      LeavesOfParts(value);
      TreeMixItems(rest, b.rest, false, Less(m, |Leaves(value)|));
      SamePartsThree(Comma(first), Parts(value), ItemParts(rest, false), Parts(b.value), ItemParts(b.rest, false));
      MixThree(Comma(first), Parts(value), ItemParts(rest, false), Parts(b.value), ItemParts(b.rest, false), m);
  }

  lemma {:induction false} TreeMixMembers(a: Members, b: Members, first: bool, m: nat)
    requires SameMembers(a, b)
    ensures SameParts(MemberParts(a, first), MemberParts(b, first))
    ensures MemberParts(MixMembers(a, b, m), first) == MixParts(MemberParts(a, first), MemberParts(b, first), m)
    ensures SameMembers(a, MixMembers(a, b, m))
    ensures WellFormedMembers(a) && WellFormedMembers(b) ==> WellFormedMembers(MixMembers(a, b, m))
    decreases a, 0
  {
    hide Parts, Mix, SameShape, WellFormed, MixParts, SameParts, PartLeaves, Leaves, Quote;
    match a
    case NoMembers => NothingMixed(m);
    case Member(key, value, rest) =>
      TreeMix(value, b.value, m);
      LeavesOfParts(value);
      TreeMixMembers(rest, b.rest, false, Less(m, |Leaves(value)|));
      SamePartsThree(Comma(first) + Quote(key) + ":", Parts(value), MemberParts(rest, false),
                     Parts(b.value), MemberParts(b.rest, false));
      MixThree(Comma(first) + Quote(key) + ":", Parts(value), MemberParts(rest, false),
               Parts(b.value), MemberParts(b.rest, false), m);
  }

  lemma LeavesOfParts(j: Json)
    ensures PartLeaves(Parts(j)) == Leaves(j)
  {
    hide Parts, PartLeaves, Leaves, Print, Mask, LeafEnds, Text, PartsMask, PartsEnds;
    TreeParts(j, 0);
  }

  lemma {:induction false} ShapeTransitive(a: Json, b: Json, c: Json)
    requires SameShape(a, b) && SameShape(a, c)
    ensures SameShape(b, c)
  {
    match a
    case Arr(items) => ItemsTransitive(items, b.items, c.items);
    case Obj(members) => MembersTransitive(members, b.members, c.members);
    case _ =>
  }

  lemma {:induction false} ItemsTransitive(a: Items, b: Items, c: Items)
    requires SameItems(a, b) && SameItems(a, c)
    ensures SameItems(b, c)
  {
    if a.Item? {
      ShapeTransitive(a.value, b.value, c.value);
      ItemsTransitive(a.rest, b.rest, c.rest);
    }
  }

  lemma {:induction false} MembersTransitive(a: Members, b: Members, c: Members)
    requires SameMembers(a, b) && SameMembers(a, c)
    ensures SameMembers(b, c)
  {
    if a.Member? {
      ShapeTransitive(a.value, b.value, c.value);
      MembersTransitive(a.rest, b.rest, c.rest);
    }
  }

  // ----- The structure in front of a leaf depends on the shape only -----

  function PunctuationBytes(parts: seq<Part>): seq<bv8> {
    if parts == [] then []
    else (if parts[0].Leaf? then [] else Structure(parts[0].text, Marks(|parts[0].text|, true))) +
         PunctuationBytes(parts[1..])
  }

  lemma {:induction false} StructureConcat(a: string, ma: seq<bool>, b: string, mb: seq<bool>)
    requires |a| == |ma| && |b| == |mb|
    ensures Structure(a + b, ma + mb) == Structure(a, ma) + Structure(b, mb)
  {
    hide ByteOf;
    if b == "" {
      assert a + b == a && ma + mb == ma;
    } else {
      var n := |b| - 1;
      StructureConcat(a, ma, b[..n], mb[..n]);
      assert (a + b)[..|a| + n] == a + b[..n] && (ma + mb)[..|a| + n] == ma + mb[..n];
    }
  }

  lemma {:induction false} NoStructure(text: string)
    ensures Structure(text, Marks(|text|, false)) == []
  {
    if text != "" {
      var n := |text| - 1;
      NoStructure(text[..n]);
      assert Marks(|text|, false)[..n] == Marks(n, false);
    }
  }

  lemma {:induction false} StructureOfParts(parts: seq<Part>)
    ensures |PartsMask(parts)| == |Text(parts)|
    ensures Structure(Text(parts), PartsMask(parts)) == PunctuationBytes(parts)
  {
    hide PartText;
    if parts != [] {
      var text := PartText(parts[0]);
      StructureOfParts(parts[1..]);
      StructureConcat(text, Marks(|text|, parts[0].Punctuation?), Text(parts[1..]), PartsMask(parts[1..]));
      StructureOfPart(parts[0]);
    }
  }

  lemma StructureOfPart(p: Part)
    ensures var text := PartText(p);
            Structure(text, Marks(|text|, p.Punctuation?)) ==
            if p.Leaf? then [] else Structure(p.text, Marks(|p.text|, true))
  {
    hide Structure, Print;
    if p.Leaf? { NoStructure(PartText(p)); }
  }

  lemma {:induction false} SamePunctuation(a: seq<Part>, b: seq<Part>)
    requires SameParts(a, b)
    ensures PunctuationBytes(a) == PunctuationBytes(b)
  {
    hide Structure;
    if a != [] {
      SamePunctuation(a[1..], b[1..]);
    }
  }

  // ----- A document whose leaf values change between passes -----

  /** Documents the lexer classifies correctly. */
  ghost predicate Printable(j: Json) {
    WellFormed(j) && Nesting(j) <= 255 && KeysVisible(j, 0)
  }

  /** The parts of `j` up to its `m`-th leaf. */
  function Head(j: Json, m: nat): seq<Part> {
    Parts(j)[..SplitAt(Parts(j), m)]
  }

  function Tail(j: Json, m: nat): seq<Part> {
    Parts(j)[SplitAt(Parts(j), m)..]
  }

  lemma DocumentCut(j: Json, m: nat)
    requires Printable(j)
    ensures |Ends(Print(j))| == |Leaves(j)|
    ensures m <= |Leaves(j)| ==>
              && Cut(Print(j), m) == |Text(Head(j, m))|
              && Print(j)[..Cut(Print(j), m)] == Text(Head(j, m))
              && Print(j)[Cut(Print(j), m)..] == Text(Tail(j, m))
              && CrcAt(Print(j), m) == Crc(0, PunctuationBytes(Head(j, m)))
  {
    hide Print, Parts, Text, PartsMask, PartsEnds, PartLeaves, Leaves, Mask, LeafEnds, WellFormed, Nesting, KeysVisible,
         ScanFrom, Structure, Crc, PunctuationBytes, SplitAt;
    LexerClassifiesDocument(j);
    TreeParts(j, 0);
    var parts := Parts(j);
    CutIsSplit(parts, 0, 0);
    if m <= |Leaves(j)| {
      CutIsSplit(parts, m, 0);
      var head, tail := Head(j, m), Tail(j, m);
      assert parts == head + tail;
      TextConcat(head, tail);
      if m == 0 { TextOfNothing(parts); }
      assert Cut(Print(j), m) == |Text(head)|;
      StructureOfParts(head);
    }
  }

  lemma TextOfNothing(parts: seq<Part>)
    ensures SplitAt(parts, 0) == 0 && Text(parts[..0]) == ""
  {}

  lemma {:induction false} SplitMonotone(parts: seq<Part>, m: nat, n: nat)
    requires m <= n
    ensures SplitAt(parts, m) <= SplitAt(parts, n)
  {
    if m > 0 && parts != [] {
      var d := if parts[0].Leaf? then 1 else 0;
      SplitMonotone(parts[1..], m - d, n - d);
    }
  }

  /** Everything a pass needs to know about the tree it continues. */
  lemma MixedTree(a: Json, b: Json, m: nat)
    requires SameShape(a, b) && m <= |Leaves(a)|
    ensures |Leaves(b)| == |Leaves(a)|
    ensures Leaves(Mix(a, b, m)) == Leaves(a)[..m] + Leaves(b)[m..]
    ensures Parts(Mix(a, b, m)) == Head(a, m) + Tail(b, m)
    ensures SameShape(a, Mix(a, b, m))
    ensures SameParts(Parts(Mix(a, b, m)), Parts(b)) && SameParts(Head(a, m), Head(b, m))
  {
    hide Parts, Leaves, PartLeaves, SameShape, Mix, MixParts, SplitAt, SameParts;
    TreeMix(a, b, m);
    var p, q := Parts(a), Parts(b);
    MixPartsIsSplice(p, q, m);
    LeavesOfParts(a);
    LeavesOfParts(b);
    LeavesOfParts(Mix(a, b, m));
    SameLeafCount(p, q);
    MixedLeaves(p, q, m, SplitAt(p, m));
    SpliceSame(p, q, SplitAt(p, m));
  }

  /** Splicing part lists splices their leaves. */
  lemma MixedLeaves(p: seq<Part>, q: seq<Part>, m: nat, k: nat)
    requires m <= |PartLeaves(p)| == |PartLeaves(q)| && k == SplitAt(p, m) == SplitAt(q, m)
    ensures PartLeaves(p[..k] + q[k..]) == PartLeaves(p)[..m] + PartLeaves(q)[m..]
  {
    hide PartLeaves, PartsEnds, Text, SplitAt;
    CutIsSplit(p, m, 0);
    CutIsSplit(q, m, 0);
    assert p == p[..k] + p[k..] && q == q[..k] + q[k..];
    EndsConcat(p[..k], p[k..], 0);
    EndsConcat(q[..k], q[k..], 0);
    EndsConcat(p[..k], q[k..], 0);
    TakeDrop(PartLeaves(p[..k]), PartLeaves(p[k..]), m);
    TakeDrop(PartLeaves(q[..k]), PartLeaves(q[k..]), m);
  }

  lemma TakeDrop<T>(a: seq<T>, b: seq<T>, m: nat)
    requires |a| == m
    ensures (a + b)[..m] == a && (a + b)[m..] == b
  {}

  lemma SpliceSame(p: seq<Part>, q: seq<Part>, k: nat)
    requires SameParts(p, q) && k <= |p|
    ensures SameParts(p[..k] + q[k..], q) && SameParts(p[..k], q[..k])
  {}

  lemma {:induction false} SameLeafCount(a: seq<Part>, b: seq<Part>)
    requires SameParts(a, b)
    ensures |PartLeaves(a)| == |PartLeaves(b)|
  {
    if a != [] { SameLeafCount(a[1..], b[1..]); }
  }

  /** The same shape means the same structure CRC, so the next pass resumes. */
  lemma SameShapeResumes(a: Json, b: Json, p: Progress)
    requires SameShape(a, b) && Printable(a) && Printable(b) && Resumes(Print(a), p)
    ensures Resumes(Print(b), p)
  {
    hide Printable, SameShape, Print, Leaves, Head, PunctuationBytes, Ends, Cut, CrcAt, Parts, Mix;
    DocumentCut(a, p.leaves);
    DocumentCut(b, p.leaves);
    MixedTree(a, b, p.leaves);
    SamePunctuation(Head(a, p.leaves), Head(b, p.leaves));
  }

  ghost predicate ShapedResponse(trees: seq<Json>, passes: seq<PassRecord>) {
    && Response(passes) && |trees| == |passes|
    && forall i :: 0 <= i < |trees| ==>
         Printable(trees[i]) && SameShape(trees[0], trees[i]) && passes[i].doc == Print(trees[i])
  }

  lemma ShapedPrefix(trees: seq<Json>, passes: seq<PassRecord>)
    requires ShapedResponse(trees, passes) && |passes| > 1
    ensures ShapedResponse(trees[..|trees| - 1], passes[..|passes| - 1])
  {
    hide Printable, SameShape, Print, Response;
    ResponsePrefix(passes);
  }

  /** The document the client ends up with: each pass replaces what was not sent before it. */
  ghost function Spliced(trees: seq<Json>, passes: seq<PassRecord>): (t: Json)
    requires ShapedResponse(trees, passes)
    ensures SameShape(trees[0], t)
    decreases |trees|
  {
    var n := |trees| - 1;
    if n == 0 then trees[0]
    else
      ShapedPrefix(trees, passes);
      var t := Spliced(trees[..n], passes[..n]);
      ShapeTransitive(trees[0], t, trees[n]);
      TreeMix(t, trees[n], passes[n].before.leaves);
      var r := Mix(t, trees[n], passes[n].before.leaves);
      ShapeSymmetric(trees[0], t);
      ShapeTransitive(t, trees[0], r);
      r
  }

  lemma {:induction false} ShapeReflexive(a: Json)
    ensures SameShape(a, a)
  {
    match a
    case Arr(items) => ItemsReflexive(items);
    case Obj(members) => MembersReflexive(members);
    case _ =>
  }

  lemma {:induction false} ItemsReflexive(a: Items)
    ensures SameItems(a, a)
  {
    if a.Item? { ShapeReflexive(a.value); ItemsReflexive(a.rest); }
  }

  lemma {:induction false} MembersReflexive(a: Members)
    ensures SameMembers(a, a)
  {
    if a.Member? { ShapeReflexive(a.value); MembersReflexive(a.rest); }
  }

  lemma ShapeSymmetric(a: Json, b: Json)
    requires SameShape(a, b)
    ensures SameShape(b, a)
  {
    ShapeReflexive(a);
    ShapeTransitive(a, b, a);
  }

  /** The pass that sent leaf `i` (the last pass, if it has not been sent). */
  function SentBy(passes: seq<PassRecord>, i: nat): (k: nat)
    requires passes != []
    ensures k < |passes|
  {
    var n := |passes| - 1;
    if n > 0 && i < passes[n].before.leaves then SentBy(passes[..n], i) else n
  }

  /** Passes are non-decreasing along the leaves. */
  lemma {:induction false} SentInOrder(passes: seq<PassRecord>, i: nat, j: nat)
    requires passes != [] && i <= j
    ensures SentBy(passes, i) <= SentBy(passes, j)
  {
    var n := |passes| - 1;
    if n > 0 && j < passes[n].before.leaves {
      SentInOrder(passes[..n], i, j);
    }
  }

  /** What has been sent, in terms of the document `t` the client is receiving. */
  ghost predicate SentSoFar(t: Json, last: PassRecord, sent: string) {
    match last.result
    case Complete => sent == Print(t)
    case Paused => last.after.leaves <= |Leaves(t)| && sent == Text(Head(t, last.after.leaves))
    case Failed => sent <= Print(t)
  }

  lemma FirstPass(j: Json, pass: PassRecord)
    requires Printable(j) && pass.doc == Print(j) && pass.before == Progress(0, 0)
    requires PassSpec(pass.doc, pass.before, pass.after, pass.out, pass.result)
    ensures Resumes(pass.doc, pass.before) && SentSoFar(j, pass, pass.out)
  {
    hide Printable, Print, Leaves, Head, Tail, CrcAt, Ends, Cut, PunctuationBytes, Text;
    DocumentCut(j, pass.after.leaves);
    CutZero(pass.doc);
  }

  /** One more pass over a document of the same shape extends the spliced document. */
  lemma NextPass(t: Json, j: Json, last: PassRecord, pass: PassRecord, sent: string)
    requires Printable(j) && SameShape(t, j) && pass.doc == Print(j) && pass.before == last.after
    requires last.result == Paused && SentSoFar(t, last, sent) && Resumes(pass.doc, pass.before)
    requires PassSpec(pass.doc, pass.before, pass.after, pass.out, pass.result)
    ensures SentSoFar(Mix(t, j, pass.before.leaves), pass, sent + pass.out)
  {
    hide Printable, Print, Leaves, PartLeaves, CrcAt, Ends, Cut, PunctuationBytes, Text, SplitAt, Parts, SameShape, Mix;
    var m := pass.before.leaves;
    var r := Mix(t, j, m);
    MixedTree(t, j, m);
    DocumentCut(j, m);
    TextOfTree(r);
    TextConcat(Head(t, m), Tail(j, m));
    if pass.result == Paused {
      var n := pass.after.leaves;
      DocumentCut(j, n);
      MixPartsIsSplice(Parts(r), Parts(j), n);
      SplitMonotone(Parts(j), m, n);
      MoreParts(Head(t, m), Parts(j), SplitAt(Parts(j), m), SplitAt(Parts(j), n));
      var doc := Print(j);
      assert doc[..Cut(doc, n)][Cut(doc, m)..] == doc[Cut(doc, m)..Cut(doc, n)];
    }
  }

  /** The text between two splits is what the longer head adds. */
  lemma MoreParts(head: seq<Part>, parts: seq<Part>, k: nat, l: nat)
    requires |head| == k <= l <= |parts|
    ensures (head + parts[k..])[..l] == head + parts[k..l]
    ensures Text(head + parts[k..l]) == Text(head) + Text(parts[k..l])
    ensures Text(parts[..l]) == Text(parts[..k]) + Text(parts[k..l])
  {
    hide Text;
    TextConcat(head, parts[k..l]);
    assert parts[..l] == parts[..k] + parts[k..l];
    TextConcat(parts[..k], parts[k..l]);
  }

  lemma TextOfTree(j: Json)
    ensures Text(Parts(j)) == Print(j)
  {
    hide Parts, Text, PartsMask, PartsEnds, PartLeaves, Print, Mask, LeafEnds, Leaves;
    TreeParts(j, 0);
  }

  /**
   However leaf values change, the client receives one document of the common
   shape. No pass is rejected by the structure CRC, and every leaf has the
   value it had in the pass that sent it.
   */
  lemma {:induction false} SplicedResponse(trees: seq<Json>, passes: seq<PassRecord>)
    requires ShapedResponse(trees, passes)
    ensures var t, last := Spliced(trees, passes), passes[|passes| - 1];
            && Resumes(last.doc, last.before)
            && SentSoFar(t, last, Sent(passes))
            && |Leaves(t)| == |Leaves(trees[|trees| - 1])|
    decreases |trees|
  {
    hide Printable, Print, Leaves, SameShape, PassSpec, Resumes, SentSoFar, Mix;
    var n := |trees| - 1;
    assert PassSpec(passes[n].doc, passes[n].before, passes[n].after, passes[n].out, passes[n].result);
    if n == 0 {
      assert passes[..0] == [];
      assert Sent(passes) == passes[0].out;
      FirstPass(trees[0], passes[0]);
    } else {
      ShapedPrefix(trees, passes);
      SplicedResponse(trees[..n], passes[..n]);
      var t := Spliced(trees[..n], passes[..n]);
      var last := passes[n - 1];
      assert passes[..n][n - 1] == last && trees[..n][n - 1] == trees[n - 1];
      PausedResumes(last);
      ShapeTransitive(trees[0], trees[n - 1], trees[n]);
      SameShapeResumes(trees[n - 1], trees[n], last.after);
      ShapeTransitive(trees[0], t, trees[n]);
      NextPass(t, trees[n], last, passes[n], Sent(passes[..n]));
      SentPaused(t, last, Sent(passes[..n]));
      MixedTree(t, trees[n], passes[n].before.leaves);
    }
  }

  lemma PausedResumes(pass: PassRecord)
    requires pass.result == Paused && PassSpec(pass.doc, pass.before, pass.after, pass.out, pass.result)
    ensures Resumes(pass.doc, pass.after)
  {}

  lemma SentPaused(t: Json, last: PassRecord, sent: string)
    requires last.result == Paused && SentSoFar(t, last, sent)
    ensures last.after.leaves <= |Leaves(t)|
  {}

  /** Each pass mixes its document into what the passes before it gave. */
  lemma SplicedStep(trees: seq<Json>, passes: seq<PassRecord>)
    requires ShapedResponse(trees, passes)
    ensures |trees| == |passes| > 0 && (|trees| == 1 ==> Spliced(trees, passes) == trees[0])
    ensures |trees| > 1 ==>
              var n := |trees| - 1;
              && ShapedResponse(trees[..n], passes[..n])
              && (var t := Spliced(trees[..n], passes[..n]);
                  && SameShape(t, trees[n]) && passes[n].before.leaves <= |Leaves(t)|
                  && Spliced(trees, passes) == Mix(t, trees[n], passes[n].before.leaves))
  {
    hide Printable, Print, Leaves, SameShape, PassSpec, Resumes, SentSoFar, Mix, Sent;
    var n := |trees| - 1;
    if n > 0 {
      ShapedPrefix(trees, passes);
      var t := Spliced(trees[..n], passes[..n]);
      SplicedResponse(trees[..n], passes[..n]);
      assert passes[..n][n - 1] == passes[n - 1];
      SentPaused(t, passes[n - 1], Sent(passes[..n]));
      ShapeTransitive(trees[0], t, trees[n]);
    }
  }

  /** Where each leaf of the received document comes from. */
  lemma {:induction false} SplicedLeaves(trees: seq<Json>, passes: seq<PassRecord>, i: nat)
    requires ShapedResponse(trees, passes) && i < |Leaves(Spliced(trees, passes))|
    ensures i < |Leaves(trees[SentBy(passes, i)])|
    ensures Leaves(Spliced(trees, passes))[i] == Leaves(trees[SentBy(passes, i)])[i]
    decreases |trees|
  {
    hide Printable, Print, Leaves, SameShape, PassSpec, Resumes, SentSoFar, Mix, Spliced, ShapedResponse, Sent, Parts;
    var n := |trees| - 1;
    SplicedStep(trees, passes);
    if n > 0 {
      var t := Spliced(trees[..n], passes[..n]);
      MixedTree(t, trees[n], passes[n].before.leaves);
      if i < passes[n].before.leaves {
        SplicedLeaves(trees[..n], passes[..n], i);
      }
    }
  }
}
