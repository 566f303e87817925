/**
 The byte-at-a-time JSON classifier used by resumable REST responses
 (`JsonLeafLexer`), and what it reports about printed JSON documents.
 */
module LeafLexer {
  import opened JsonText

  /** The open containers: `objects` is a 32-bit register whose bit d says whether level d is an object. */
  datatype Levels = Levels(objects: seq<bool>, depth: nat)

  /** The lexer's fields. */
  datatype Lexer = Lexer(
    levels: Levels,
    inString: bool,
    escape: bool,
    stringIsKey: bool,
    inScalar: bool,
    expectKey: bool)

  datatype Step = Step(leafEndsBefore: bool, leafEndsAfter: bool, structural: bool)

  const WIDTH: nat := 32
  const NoStep: Step := Step(false, false, false)

  function NoLevels(): Levels {
    Levels(seq(WIDTH, _ => false), 0)
  }

  function Start(): Lexer {
    Lexer(NoLevels(), false, false, false, false, false)
  }

  ghost predicate Fits(l: Lexer) {
    |l.levels.objects| == WIDTH && l.levels.depth < 256
  }

  predicate EndsScalar(c: char) {
    c == ',' || c == '}' || c == ']'
  }

  predicate TopIsObject(k: Levels) {
    0 < k.depth <= WIDTH && k.depth <= |k.objects| && k.objects[k.depth - 1]
  }

  /** Registers beyond bit 31 are not written; the 8-bit depth wraps. */
  function Push(k: Levels, isObject: bool): Levels {
    Levels(if k.depth < WIDTH && k.depth < |k.objects| then k.objects[k.depth := isObject] else k.objects,
           (k.depth + 1) % 256)
  }

  function Pop(k: Levels): Levels {
    if k.depth > 0 then k.(depth := k.depth - 1) else k
  }

  function FeedString(l: Lexer, c: char): (Lexer, Step) {
    var step := NoStep.(structural := l.stringIsKey);
    if l.escape then (l.(escape := false), step)
    else if c == '\\' then (l.(escape := true), step)
    else if c == '"' then (l.(inString := false), step.(leafEndsAfter := !l.stringIsKey))
    else (l, step)
  }

  function FeedToken(l: Lexer, c: char): (Lexer, Step) {
    var punctuation := NoStep.(structural := true);
    if c == '{' then (l.(levels := Push(l.levels, true), expectKey := true), punctuation)
    else if c == '[' then (l.(levels := Push(l.levels, false), expectKey := false), punctuation)
    else if c == '}' || c == ']' then (l.(levels := Pop(l.levels), expectKey := false), punctuation)
    else if c == ',' then (l.(expectKey := TopIsObject(l.levels)), punctuation)
    else if c == ':' then (l.(expectKey := false), punctuation)
    else if c == '"' then
      var key := l.expectKey && TopIsObject(l.levels);
      (l.(inString := true, stringIsKey := key), NoStep.(structural := key))
    else (l.(inScalar := true), NoStep)
  }

  function Feed(l: Lexer, c: char): (Lexer, Step) {
    if l.inString then FeedString(l, c)
    else if l.inScalar && !EndsScalar(c) then (l, NoStep)
    else
      var (l', step) := FeedToken(l.(inScalar := false), c);
      (l', step.(leafEndsBefore := l.inScalar))
  }

  /** The lexer object; each method is the corresponding step of `Lexer`. */
  class JsonLeafLexer {
    var objects: seq<bool>
    var depth: nat
    var inString: bool
    var escape: bool
    var stringIsKey: bool
    var inScalar: bool
    var expectKey: bool

    ghost function State(): Lexer
      reads this
    {
      Lexer(Levels(objects, depth), inString, escape, stringIsKey, inScalar, expectKey)
    }

    constructor ()
      ensures State() == Start()
    {
      objects := seq(WIDTH, _ => false);
      depth := 0;
      inString, escape, stringIsKey, inScalar, expectKey := false, false, false, false, false;
    }

    method FeedByte(c: char) returns (step: Step)
      requires Fits(State())
      modifies this
      ensures Fits(State())
      ensures (State(), step) == Feed(old(State()), c)
    {
      if inString {
        step := FeedStringByte(c);
        return;
      }
      var ended := false;
      if inScalar {
        if c != ',' && c != '}' && c != ']' { return NoStep; }
        inScalar := false;
        ended := true;
      }
      step := FeedTokenByte(c);
      step := step.(leafEndsBefore := ended);
    }

    method FeedStringByte(c: char) returns (step: Step)
      requires inString
      modifies this`escape, this`inString
      ensures (State(), step) == FeedString(old(State()), c)
    {
      step := NoStep.(structural := stringIsKey);
      if escape {
        escape := false;
      } else if c == '\\' {
        escape := true;
      } else if c == '"' {
        inString := false;
        if !stringIsKey { step := step.(leafEndsAfter := true); }
      }
    }

    method FeedTokenByte(c: char) returns (step: Step)
      requires Fits(State()) && !inString
      modifies this
      ensures Fits(State())
      ensures (State(), step) == FeedToken(old(State()), c)
    {
      step := NoStep.(structural := true);
      if c == '{' || c == '[' {
        PushLevel(c == '{');
        expectKey := c == '{';
      } else if c == '}' || c == ']' {
        PopLevel();
        expectKey := false;
      } else if c == ',' {
        expectKey := TopLevelIsObject();
      } else if c == ':' {
        expectKey := false;
      } else if c == '"' {
        inString := true;
        stringIsKey := expectKey && TopLevelIsObject();
        step := NoStep.(structural := stringIsKey);
      } else {
        inScalar := true;
        step := NoStep;
      }
    }

    method PushLevel(isObject: bool)
      requires Fits(State())
      modifies this`objects, this`depth
      ensures State() == old(State()).(levels := Push(old(State()).levels, isObject)) && Fits(State())
    {
      if depth < WIDTH { objects := objects[depth := isObject]; }
      depth := if depth == 255 then 0 else depth + 1;
    }

    method PopLevel()
      requires Fits(State())
      modifies this`depth
      ensures State() == old(State()).(levels := Pop(old(State()).levels)) && Fits(State())
    {
      if depth > 0 { depth := depth - 1; }
    }

    function TopLevelIsObject(): (b: bool)
      reads this
      ensures b == TopIsObject(State().levels)
    {
      0 < depth <= WIDTH && depth <= |objects| && objects[depth - 1]
    }

    /** A document that ends with a bare number or literal. */
    method FinishLeaf() returns (ended: bool)
      modifies this`inScalar
      ensures ended == old(inScalar) && State() == old(State()).(inScalar := false)
    {
      ended := inScalar;
      inScalar := false;
    }
  }

  // ----- A whole document -----

  /** What the lexer has reported after `pos` bytes: where leaves ended, and which bytes are structural. */
  datatype Scan = Scan(lex: Lexer, pos: nat, ends: seq<nat>, mask: seq<bool>)

  function ScanStart(): Scan {
    Scan(Start(), 0, [], [])
  }

  function EndIf(ends: seq<nat>, ended: bool, at: nat): seq<nat> {
    if ended then ends + [at] else ends
  }

  function ScanByte(s: Scan, c: char): Scan {
    var (lex, step) := Feed(s.lex, c);
    Scan(lex, s.pos + 1,
         EndIf(EndIf(s.ends, step.leafEndsBefore, s.pos), step.leafEndsAfter, s.pos + 1),
         s.mask + [step.structural])
  }

  function ScanFrom(s: Scan, text: string): Scan {
    if text == "" then s
    else ScanByte(ScanFrom(s, text[..|text| - 1]), text[|text| - 1])
  }

  /** `finish_leaf`: a scalar still open at the end of the text ends there. */
  function Settle(s: Scan): Scan {
    s.(lex := s.lex.(inScalar := false), ends := EndIf(s.ends, s.lex.inScalar, s.pos))
  }

  function ScanText(text: string): Scan {
    ScanFrom(ScanStart(), text)
  }

  lemma {:induction false} ScanConcat(s: Scan, a: string, b: string)
    ensures ScanFrom(s, a + b) == ScanFrom(ScanFrom(s, a), b)
  {
    if b == "" {
      assert a + b == a;
    } else {
      var n := |b| - 1;
      assert (a + b)[..|a + b| - 1] == a + b[..n];
      ScanConcat(s, a, b[..n]);
    }
  }

  lemma FeedFits(l: Lexer, c: char)
    requires Fits(l)
    ensures Fits(Feed(l, c).0)
  {}

  lemma {:induction false} ScanKeeps(s: Scan, text: string)
    requires Fits(s.lex) && |s.mask| == s.pos
    ensures var t := ScanFrom(s, text);
            && Fits(t.lex) && t.pos == s.pos + |text| && |t.mask| == t.pos
            && s.ends <= t.ends && s.mask <= t.mask
  {
    hide Feed;
    if text != "" {
      var n := |text| - 1;
      ScanKeeps(s, text[..n]);
      FeedFits(ScanFrom(s, text[..n]).lex, text[n]);
    }
  }

  // ----- What a printed tree looks like -----

  /** A token as printed for a number or literal: it never starts like punctuation or holds a terminator. */
  predicate ScalarText(text: string) {
    && text != ""
    && text[0] !in "{[:\""
    && forall i :: 0 <= i < |text| ==> !EndsScalar(text[i])
  }

  predicate WellFormed(j: Json) {
    match j
    case Scalar(text) => ScalarText(text)
    case Str(_) => true
    case Arr(items) => WellFormedItems(items)
    case Obj(members) => WellFormedMembers(members)
  }

  predicate WellFormedItems(items: Items) {
    items.Item? ==> WellFormed(items.value) && WellFormedItems(items.rest)
  }

  predicate WellFormedMembers(members: Members) {
    members.Member? ==> WellFormed(members.value) && WellFormedMembers(members.rest)
  }

  function Max(a: nat, b: nat): nat {
    if a < b then b else a
  }

  /** Number of nested containers. */
  function Nesting(j: Json): nat {
    match j
    case Scalar(_) => 0
    case Str(_) => 0
    case Arr(items) => 1 + NestingItems(items)
    case Obj(members) => 1 + NestingMembers(members)
  }

  function NestingItems(items: Items): nat {
    match items
    case NoItems => 0
    case Item(value, rest) => Max(Nesting(value), NestingItems(rest))
  }

  function NestingMembers(members: Members): nat {
    match members
    case NoMembers => 0
    case Member(_, value, rest) => Max(Nesting(value), NestingMembers(rest))
  }

  /**
   Every object with members lies within the 32 levels the lexer can mark,
   when the value is printed inside `depth` containers.
   */
  predicate KeysVisible(j: Json, depth: nat) {
    match j
    case Scalar(_) => true
    case Str(_) => true
    case Arr(items) => KeysVisibleItems(items, depth + 1)
    case Obj(members) => (members.Member? ==> depth < 32) && KeysVisibleMembers(members, depth + 1)
  }

  predicate KeysVisibleItems(items: Items, depth: nat) {
    items.Item? ==> KeysVisible(items.value, depth) && KeysVisibleItems(items.rest, depth)
  }

  predicate KeysVisibleMembers(members: Members, depth: nat) {
    members.Member? ==> KeysVisible(members.value, depth) && KeysVisibleMembers(members.rest, depth)
  }

  /** The lexer's levels after a value. */
  function LevelsAfter(j: Json, k: Levels): Levels {
    match j
    case Scalar(_) => k
    case Str(_) => k
    case Arr(items) => Pop(LevelsAfterItems(items, Push(k, false)))
    case Obj(members) => Pop(LevelsAfterMembers(members, Push(k, true)))
  }

  function LevelsAfterItems(items: Items, k: Levels): Levels {
    if items.NoItems? then k else LevelsAfterItems(items.rest, LevelsAfter(items.value, k))
  }

  function LevelsAfterMembers(members: Members, k: Levels): Levels {
    if members.NoMembers? then k else LevelsAfterMembers(members.rest, LevelsAfter(members.value, k))
  }

  /**
   The levels tell right whether a string is a key: before every key they show
   an object, and before a string in an array, unless it is the first item,
   they do not.
   */
  predicate KeysSeen(j: Json, k: Levels) {
    match j
    case Scalar(_) => true
    case Str(_) => true
    case Arr(items) => KeysSeenItems(items, true, Push(k, false))
    case Obj(members) => KeysSeenMembers(members, Push(k, true))
  }

  predicate KeysSeenItems(items: Items, first: bool, k: Levels) {
    items.Item? ==>
      && (!first && items.value.Str? ==> !TopIsObject(k))
      && KeysSeen(items.value, k)
      && KeysSeenItems(items.rest, false, LevelsAfter(items.value, k))
  }

  predicate KeysSeenMembers(members: Members, k: Levels) {
    members.Member? ==>
      TopIsObject(k) && KeysSeen(members.value, k) && KeysSeenMembers(members.rest, LevelsAfter(members.value, k))
  }

  function Marks(n: nat, structural: bool): (m: seq<bool>) {
    seq(n, _ => structural)
  }

  /** Which bytes of `Print(j)` are punctuation or part of an object key. */
  function Mask(j: Json): seq<bool> {
    match j
    case Scalar(text) => Marks(|text|, false)
    case Str(text) => Marks(|Quote(text)|, false)
    case Arr(items) => [true] + MaskItems(items, true) + [true]
    case Obj(members) => [true] + MaskMembers(members, true) + [true]
  }

  function MaskItems(items: Items, first: bool): seq<bool> {
    match items
    case NoItems => []
    case Item(value, rest) => Marks(|Comma(first)|, true) + Mask(value) + MaskItems(rest, false)
  }

  function MaskMembers(members: Members, first: bool): seq<bool> {
    match members
    case NoMembers => []
    case Member(key, value, rest) =>
      Marks(|Comma(first)| + |Quote(key)| + 1, true) + Mask(value) + MaskMembers(rest, false)
  }

  /** Where the leaves of `Print(j)` end when it is printed at offset `at`. */
  function LeafEnds(j: Json, at: nat): seq<nat> {
    match j
    case Scalar(text) => [at + |text|]
    case Str(text) => [at + |Quote(text)|]
    case Arr(items) => ItemEnds(items, true, at + 1)
    case Obj(members) => MemberEnds(members, true, at + 1)
  }

  function ItemEnds(items: Items, first: bool, at: nat): seq<nat> {
    match items
    case NoItems => []
    case Item(value, rest) =>
      var p := at + |Comma(first)|;
      LeafEnds(value, p) + ItemEnds(rest, false, p + |Print(value)|)
  }

  function MemberEnds(members: Members, first: bool, at: nat): seq<nat> {
    match members
    case NoMembers => []
    case Member(key, value, rest) =>
      var p := at + |Comma(first)| + |Quote(key)| + 1;
      LeafEnds(value, p) + MemberEnds(rest, false, p + |Print(value)|)
  }

  lemma {:induction false} MaskLength(j: Json)
    ensures |Mask(j)| == |Print(j)|
  {
    match j
    case Arr(items) => MaskItemsLength(items, true);
    case Obj(members) => MaskMembersLength(members, true);
    case _ =>
  }

  lemma {:induction false} MaskItemsLength(items: Items, first: bool)
    ensures |MaskItems(items, first)| == |PrintItems(items, first)|
  {
    if items.Item? {
      MaskLength(items.value);
      MaskItemsLength(items.rest, false);
    }
  }

  lemma {:induction false} MaskMembersLength(members: Members, first: bool)
    ensures |MaskMembers(members, first)| == |PrintMembers(members, first)|
  {
    if members.Member? {
      MaskLength(members.value);
      MaskMembersLength(members.rest, false);
    }
  }

  // ----- The lexer reports exactly that -----

  ghost predicate Ready(l: Lexer) {
    Fits(l) && !l.inString && !l.escape && !l.inScalar
  }

  /** A string here would be read as a value. */
  ghost predicate ReadyFor(l: Lexer, j: Json) {
    Ready(l) && (j.Str? ==> !(l.expectKey && TopIsObject(l.levels)))
  }

  /** `t` is `s` after some text was read: `mask` and `ends` were reported, and the levels are `k`. */
  ghost predicate Reported(s: Scan, t: Scan, mask: seq<bool>, ends: seq<nat>, k: Levels) {
    && t.pos == s.pos + |mask|
    && t.mask == s.mask + mask
    && t.ends == s.ends + ends
    && t.lex.levels == k
  }

  lemma ReportedThrice(s: Scan, t: Scan, u: Scan, v: Scan, mask1: seq<bool>, k1: Levels,
                       mask2: seq<bool>, ends: seq<nat>, k2: Levels, mask3: seq<bool>, ends3: seq<nat>, k3: Levels)
    requires Reported(s, t, mask1, [], k1) && Reported(t, u, mask2, ends, k2) && Reported(u, v, mask3, ends3, k3)
    ensures Reported(s, v, mask1 + mask2 + mask3, ends + ends3, k3)
  {}

  /** What the next value needs to know about a reported one. */
  lemma ReportedLevels(s: Scan, t: Scan, mask: seq<bool>, ends: seq<nat>, k: Levels)
    requires Reported(s, Settle(t), mask, ends, k)
    ensures t.pos == s.pos + |mask| && t.lex.levels == k
  {}

  /** Separator (and key), value, and what follows, in one go. */
  lemma ScanEntry(s: Scan, lead: string, body: string, rest: string, mask1: seq<bool>, k1: Levels,
                  mask2: seq<bool>, ends2: seq<nat>, k2: Levels, mask3: seq<bool>, ends3: seq<nat>, k3: Levels)
    requires Reported(Settle(s), ScanFrom(s, lead), mask1, [], k1)
    requires var s1 := ScanFrom(s, lead); Reported(s1, Settle(ScanFrom(s1, body)), mask2, ends2, k2)
    requires var s2 := ScanFrom(ScanFrom(s, lead), body);
             Reported(Settle(s2), Settle(ScanFrom(s2, rest)), mask3, ends3, k3)
    ensures ScanFrom(s, lead + body + rest) == ScanFrom(ScanFrom(ScanFrom(s, lead), body), rest)
    ensures Reported(Settle(s), Settle(ScanFrom(s, lead + body + rest)), mask1 + mask2 + mask3, ends2 + ends3, k3)
  {
    hide ScanFrom, Reported;
    ScanContainer(s, lead, body, rest);
    var s1 := ScanFrom(s, lead);
    var s2 := ScanFrom(s1, body);
    ReportedThrice(Settle(s), s1, Settle(s2), Settle(ScanFrom(s2, rest)), mask1, k1, mask2, ends2, k2, mask3, ends3,
                   k3);
  }

  lemma ScanNothing(s: Scan)
    ensures ScanFrom(s, "") == s && Reported(Settle(s), Settle(s), [], [], s.lex.levels)
  {}

  lemma ScanOne(s: Scan, c: char)
    ensures ScanFrom(s, [c]) == ScanByte(s, c)
  {
    hide ScanByte;
    assert [c][..0] == "";
  }

  /** Inside a string: every byte but an unescaped quote or backslash leaves the state alone. */
  lemma {:induction false} ScanPlain(s: Scan, text: string)
    requires s.lex.inString && !s.lex.escape
    requires forall i :: 0 <= i < |text| ==> text[i] != '"' && text[i] != '\\'
    ensures ScanFrom(s, text) == Inside(s, |text|)
  {
    hide FeedToken;
    if text != "" {
      var n := |text| - 1;
      ScanPlain(s, text[..n]);
      ScanByteInside(Inside(s, n), text[n]);
    }
  }

  /** `n` more bytes inside the string being read. */
  function Inside(s: Scan, n: nat): Scan {
    s.(pos := s.pos + n, mask := s.mask + Marks(n, s.lex.stringIsKey))
  }

  lemma ScanByteInside(s: Scan, c: char)
    requires s.lex.inString && !s.lex.escape && c != '"' && c != '\\'
    ensures ScanByte(s, c) == Inside(s, 1)
  {
    hide FeedToken;
  }

  lemma ScanEscapePair(s: Scan, c: char)
    requires s.lex.inString && !s.lex.escape
    ensures ScanFrom(s, ['\\', c]) == Inside(s, 2)
  {
    hide FeedToken;
    assert ['\\', c] == ['\\'] + [c];
    ScanConcat(s, ['\\'], [c]);
    ScanOne(s, '\\');
    ScanOne(ScanByte(s, '\\'), c);
  }

  /** Escaped text never closes the string it is in. */
  lemma ScanEscapedChar(s: Scan, c: char)
    requires s.lex.inString && !s.lex.escape
    ensures ScanFrom(s, EscapeChar(c)) == Inside(s, |EscapeChar(c)|)
  {
    hide ScanByte, ScanFrom;
    var e := EscapeChar(c);
    if |e| == 1 {
      ScanPlain(s, e);
    } else {
      assert e == e[..2] + e[2..] && e[..2] == ['\\', e[1]];
      ScanConcat(s, e[..2], e[2..]);
      ScanEscapePair(s, e[1]);
      ScanPlain(Inside(s, 2), e[2..]);
    }
  }

  lemma {:induction false} ScanEscaped(s: Scan, text: string)
    requires s.lex.inString && !s.lex.escape
    ensures ScanFrom(s, Escape(text)) == Inside(s, |Escape(text)|)
    decreases text
  {
    hide ScanByte, EscapeChar;
    if text != "" && text[0] != '\0' {
      ScanConcat(s, EscapeChar(text[0]), Escape(text[1..]));
      ScanEscapedChar(s, text[0]);
      ScanEscaped(Inside(s, |EscapeChar(text[0])|), text[1..]);
    }
  }

  /** A quoted text is reported as a key or as one leaf. */
  lemma ScanQuoted(s: Scan, text: string)
    requires !s.lex.inString && !s.lex.escape && !s.lex.inScalar
    ensures var key := s.lex.expectKey && TopIsObject(s.lex.levels);
            var n := |Quote(text)|;
            ScanFrom(s, Quote(text)) ==
            Scan(s.lex.(stringIsKey := key), s.pos + n, EndIf(s.ends, !key, s.pos + n), s.mask + Marks(n, key))
  {
    hide ScanFrom, Escape, TopIsObject;
    var key := s.lex.expectKey && TopIsObject(s.lex.levels);
    var quote := ['"'];
    ScanContainer(s, quote, Escape(text), quote);
    ScanOne(s, '"');
    var s1 := ScanByte(s, '"');
    assert s1 == Inside(s.(lex := s.lex.(inString := true, stringIsKey := key)), 1);
    ScanEscaped(s1, text);
    ScanOne(Inside(s1, |Escape(text)|), '"');
  }

  lemma ScanContainer(s: Scan, open: string, body: string, close: string)
    ensures ScanFrom(s, open + body + close) == ScanFrom(ScanFrom(ScanFrom(s, open), body), close)
  {
    hide ScanFrom;
    ScanConcat(s, open + body, close);
    ScanConcat(s, open, body);
  }

  /** A scalar stays open; it ends only with the byte after it. */
  lemma {:induction false} ScanScalar(s: Scan, text: string)
    requires Ready(s.lex) && ScalarText(text)
    ensures ScanFrom(s, text) ==
            s.(lex := s.lex.(inScalar := true), pos := s.pos + |text|, mask := s.mask + Marks(|text|, false))
  {
    hide FeedString;
    var n := |text| - 1;
    if n == 0 {
      assert text == [text[0]];
      ScanOne(s, text[0]);
    } else {
      assert ScalarText(text[..n]);
      ScanScalar(s, text[..n]);
    }
  }

  /** The byte after a scalar ends it first, so it sees the settled state. */
  lemma ScanPunctuation(s: Scan, c: char)
    requires !s.lex.inString && EndsScalar(c)
    ensures ScanFrom(s, [c]) == ScanByte(Settle(s), c)
  {
    hide FeedString, FeedToken;
    ScanOne(s, c);
  }

  lemma ScanOpen(s: Scan, c: char)
    requires Ready(s.lex) && (c == '{' || c == '[')
    ensures ScanFrom(s, [c]) ==
            Scan(s.lex.(levels := Push(s.lex.levels, c == '{'), expectKey := c == '{'), s.pos + 1, s.ends,
                 s.mask + [true])
  {
    hide ScanFrom, Push;
    ScanOne(s, c);
  }

  lemma ScanClose(s: Scan, c: char)
    requires !s.lex.inString && (c == '}' || c == ']')
    ensures ScanFrom(s, [c]) ==
            Scan(Settle(s).lex.(levels := Pop(s.lex.levels), expectKey := false), s.pos + 1, Settle(s).ends,
                 s.mask + [true])
  {
    hide ScanFrom, Pop;
    ScanPunctuation(s, c);
  }

  lemma ScanComma(s: Scan)
    requires !s.lex.inString
    ensures ScanFrom(s, ",") ==
            Scan(Settle(s).lex.(expectKey := TopIsObject(s.lex.levels)), s.pos + 1, Settle(s).ends, s.mask + [true])
  {
    hide ScanFrom, ScanByte, TopIsObject, Settle;
    assert "," == [','];
    ScanPunctuation(s, ',');
    SettleKeeps(s);
    CommaStep(Settle(s));
  }

  lemma SettleKeeps(s: Scan)
    ensures var t := Settle(s);
            && t.pos == s.pos && t.mask == s.mask && !t.lex.inScalar && t.lex.inString == s.lex.inString
            && t.lex.levels == s.lex.levels
  {}

  lemma CommaStep(s: Scan)
    requires !s.lex.inString && !s.lex.inScalar
    ensures ScanByte(s, ',') == Scan(s.lex.(expectKey := TopIsObject(s.lex.levels)), s.pos + 1, s.ends, s.mask + [true])
  {
    hide FeedString, Push, Pop, TopIsObject;
  }

  lemma ScanColon(s: Scan)
    requires !s.lex.inString && !s.lex.inScalar
    ensures ScanFrom(s, ":") == Scan(s.lex.(expectKey := false), s.pos + 1, s.ends, s.mask + [true])
  {
    hide ScanFrom;
    ScanOne(s, ':');
  }

  /** After a value: the settled lexer expects punctuation. */
  ghost predicate Between(s: Scan) {
    !s.lex.inString && Fits(s.lex) && !s.lex.escape
  }

  lemma ScanBracketed(s: Scan, open: char, body: string, close: char, mask: seq<bool>, ends: seq<nat>, k: Levels)
    requires Ready(s.lex)
    requires (open == '[' && close == ']') || (open == '{' && close == '}')
    requires var t := ScanFrom(ScanFrom(s, [open]), body);
             Between(t) && Reported(ScanFrom(s, [open]), Settle(t), mask, ends, k)
    ensures var u := ScanFrom(s, [open] + body + [close]);
            Between(u) && Reported(s, Settle(u), [true] + mask + [true], ends, Pop(k))
  {
    hide ScanFrom;
    ScanContainer(s, [open], body, [close]);
    ScanOpen(s, open);
    var t := ScanFrom(ScanFrom(s, [open]), body);
    ScanClose(t, close);
  }

  /**
   One leaf end per scalar or string value, at its last byte; punctuation and
   key bytes, and no others, are structural.
   */
  lemma {:induction false} ScanValue(s: Scan, j: Json)
    requires ReadyFor(s.lex, j) && WellFormed(j) && KeysSeen(j, s.lex.levels)
    ensures Between(ScanFrom(s, Print(j)))
    ensures Reported(s, Settle(ScanFrom(s, Print(j))), Mask(j), LeafEnds(j, s.pos), LevelsAfter(j, s.lex.levels))
    decreases j, 1
  {
    hide ScanFrom, Quote, ScalarText, TopIsObject, Push, Pop;
    match j
    case Scalar(text) =>
      ScanScalar(s, text);
    case Str(text) =>
      ScanQuoted(s, text);
    case Arr(items) =>
      hide Reported;
      ScanOpen(s, '[');
      OpenFits(s.lex, false);
      ScanItems(ScanFrom(s, "["), items, true);
      ScanBracketed(s, '[', PrintItems(items, true), ']', MaskItems(items, true), ItemEnds(items, true, s.pos + 1),
                    LevelsAfterItems(items, Push(s.lex.levels, false)));
    case Obj(members) =>
      hide Reported;
      ScanOpen(s, '{');
      OpenFits(s.lex, true);
      ScanMembers(ScanFrom(s, "{"), members, true);
      ScanBracketed(s, '{', PrintMembers(members, true), '}', MaskMembers(members, true),
                    MemberEnds(members, true, s.pos + 1), LevelsAfterMembers(members, Push(s.lex.levels, true)));
  }

  lemma OpenFits(l: Lexer, isObject: bool)
    requires Fits(l)
    ensures Fits(l.(levels := Push(l.levels, isObject)))
  {}

  lemma ScanSeparator(s: Scan, first: bool)
    requires !s.lex.inString
    ensures ScanFrom(s, Comma(first)) ==
            if first then s
            else Scan(Settle(s).lex.(expectKey := TopIsObject(s.lex.levels)), s.pos + 1, Settle(s).ends,
                      s.mask + [true])
    ensures (first ==> !s.lex.inScalar) ==>
              Reported(Settle(s), ScanFrom(s, Comma(first)), Marks(|Comma(first)|, true), [], s.lex.levels)
  {
    hide ScanByte, TopIsObject;
    if !first { ScanComma(s); }
  }

  lemma {:induction false} ScanItems(s: Scan, items: Items, first: bool)
    requires Between(s) && (first ==> !s.lex.inScalar && !s.lex.expectKey)
    requires WellFormedItems(items) && KeysSeenItems(items, first, s.lex.levels)
    ensures Between(ScanFrom(s, PrintItems(items, first)))
    ensures Reported(Settle(s), Settle(ScanFrom(s, PrintItems(items, first))),
                     MaskItems(items, first), ItemEnds(items, first, s.pos), LevelsAfterItems(items, s.lex.levels))
    decreases items, 0
  {
    hide ScanFrom, Reported, TopIsObject, Print, Mask, LeafEnds, WellFormed, KeysSeen, LevelsAfter;
    match items
    case NoItems => ScanNothing(s);
    case Item(value, rest) =>
      var comma, tail, k := Comma(first), PrintItems(rest, false), s.lex.levels;
      ScanSeparator(s, first);
      var s1 := ScanFrom(s, comma);
      ReportedLevels(Settle(s), s1, Marks(|comma|, true), [], k);
      ScanValue(s1, value);
      var s2 := ScanFrom(s1, Print(value));
      ReportedLevels(s1, s2, Mask(value), LeafEnds(value, s1.pos), LevelsAfter(value, k));
      MaskLength(value);
      ScanItems(s2, rest, false);
      ScanEntry(s, comma, Print(value), tail, Marks(|comma|, true), k, Mask(value), LeafEnds(value, s1.pos),
                LevelsAfter(value, k),
                MaskItems(rest, false), ItemEnds(rest, false, s2.pos), LevelsAfterItems(items, k));
      assert ItemEnds(items, first, s.pos) == LeafEnds(value, s1.pos) + ItemEnds(rest, false, s2.pos);
      assert PrintItems(items, first) == comma + Print(value) + tail;
  }

  /** A member's key and colon, with the comma before it. */
  lemma ScanKey(s: Scan, key: string, first: bool)
    requires Between(s) && TopIsObject(s.lex.levels)
    requires first ==> !s.lex.inScalar && s.lex.expectKey
    ensures var text := Comma(first) + Quote(key) + ":";
            var t := ScanFrom(s, text);
            Ready(t.lex) && !t.lex.expectKey && Reported(Settle(s), t, Marks(|text|, true), [], s.lex.levels)
  {
    hide ScanFrom, Quote, TopIsObject;
    ScanContainer(s, Comma(first), Quote(key), ":");
    ScanSeparator(s, first);
    var s1 := ScanFrom(s, Comma(first));
    ScanQuoted(s1, key);
    var s2 := ScanFrom(s1, Quote(key));
    ScanColon(s2);
  }

  lemma {:induction false} ScanMembers(s: Scan, members: Members, first: bool)
    requires Between(s) && (first ==> !s.lex.inScalar && s.lex.expectKey)
    requires WellFormedMembers(members) && KeysSeenMembers(members, s.lex.levels)
    ensures Between(ScanFrom(s, PrintMembers(members, first)))
    ensures Reported(Settle(s), Settle(ScanFrom(s, PrintMembers(members, first))),
                     MaskMembers(members, first), MemberEnds(members, first, s.pos),
                     LevelsAfterMembers(members, s.lex.levels))
    decreases members, 0
  {
    hide ScanFrom, Quote, Reported, TopIsObject, Print, Mask, LeafEnds, WellFormed, KeysSeen, LevelsAfter;
    match members
    case NoMembers => ScanNothing(s);
    case Member(key, value, rest) =>
      var lead, tail, k := Comma(first) + Quote(key) + ":", PrintMembers(rest, false), s.lex.levels;
      ScanKey(s, key, first);
      var s1 := ScanFrom(s, lead);
      ReportedLevels(Settle(s), s1, Marks(|lead|, true), [], k);
      ScanValue(s1, value);
      var s2 := ScanFrom(s1, Print(value));
      ReportedLevels(s1, s2, Mask(value), LeafEnds(value, s1.pos), LevelsAfter(value, k));
      MaskLength(value);
      ScanMembers(s2, rest, false);
      ScanEntry(s, lead, Print(value), tail, Marks(|lead|, true), k, Mask(value), LeafEnds(value, s1.pos),
                LevelsAfter(value, k),
                MaskMembers(rest, false), MemberEnds(rest, false, s2.pos), LevelsAfterMembers(members, k));
      assert MemberEnds(members, first, s.pos) == LeafEnds(value, s1.pos) + MemberEnds(rest, false, s2.pos);
      assert PrintMembers(members, first) == lead + Print(value) + tail;
  }

  // ----- And only where the levels tell right -----

  /** Some byte read between `s` and `t` was not reported as `mask` says. */
  ghost predicate Misreported(s: Scan, t: Scan, mask: seq<bool>) {
    exists i :: 0 <= i < |mask| && s.pos + i < |t.mask| && t.mask[s.pos + i] != mask[i]
  }

  /** Text read before and after does not repair it. */
  lemma MisreportedInside(s: Scan, s1: Scan, t: Scan, u: Scan, lead: seq<bool>, mask: seq<bool>, rest: seq<bool>)
    requires Misreported(s1, t, mask) && s1.pos == s.pos + |lead| && t.mask <= u.mask
    ensures Misreported(s, u, lead + mask + rest)
  {
    var i :| 0 <= i < |mask| && s1.pos + i < |t.mask| && t.mask[s1.pos + i] != mask[i];
    var k := |lead| + i;
    assert (lead + mask + rest)[k] == mask[i] && u.mask[s.pos + k] == t.mask[s1.pos + i];
  }

  /** The first byte of a string is reported as what the levels make of it. */
  lemma ScanMistaken(s: Scan, text: string, structural: bool)
    requires Ready(s.lex) && |s.mask| == s.pos && structural != (s.lex.expectKey && TopIsObject(s.lex.levels))
    ensures Misreported(s, ScanFrom(s, Quote(text)), Marks(|Quote(text)|, structural))
  {
    hide ScanFrom, Escape, TopIsObject;
    ScanQuoted(s, text);
    var marks := Marks(|Quote(text)|, structural);
    assert ScanFrom(s, Quote(text)).mask[s.pos + 0] != marks[0];
  }

  /** A key where the levels do not show an object. */
  lemma ScanHiddenKey(s: Scan, key: string, first: bool)
    requires Between(s) && !TopIsObject(s.lex.levels) && (first ==> !s.lex.inScalar) && |s.mask| == s.pos
    ensures var lead := Comma(first) + Quote(key) + ":"; Misreported(s, ScanFrom(s, lead), Marks(|lead|, true))
  {
    hide ScanFrom, Quote, TopIsObject, Misreported;
    ScanContainer(s, Comma(first), Quote(key), ":");
    ScanSeparator(s, first);
    var s1 := ScanFrom(s, Comma(first));
    ScanMistaken(s1, key, true);
    var s2 := ScanFrom(s1, Quote(key));
    ScanKeeps(s, Comma(first));
    ScanKeeps(s1, Quote(key));
    ScanKeeps(s2, ":");
    MisreportedInside(s, s1, s2, ScanFrom(s2, ":"), Marks(|Comma(first)|, true), Marks(|Quote(key)|, true), [true]);
    assert Marks(|Comma(first)|, true) + Marks(|Quote(key)|, true) + [true] ==
           Marks(|Comma(first) + Quote(key) + ":"|, true);
  }

  lemma {:induction false} ScanHiddenValue(s: Scan, j: Json)
    requires ReadyFor(s.lex, j) && |s.mask| == s.pos && WellFormed(j) && !KeysSeen(j, s.lex.levels)
    ensures Misreported(s, ScanFrom(s, Print(j)), Mask(j))
    decreases j, 1
  {
    hide ScanFrom, Quote, ScalarText, Misreported, TopIsObject, Push;
    OpenFits(s.lex, j.Obj?);
    match j
    case Arr(items) =>
      var body := PrintItems(items, true);
      ScanOpen(s, '[');
      var s1 := ScanFrom(s, "[");
      ScanHiddenItems(s1, items, true);
      ScanContainer(s, "[", body, "]");
      ScanKeeps(s1, body);
      ScanKeeps(ScanFrom(s1, body), "]");
      MisreportedInside(s, s1, ScanFrom(s1, body), ScanFrom(s, Print(j)), [true], MaskItems(items, true), [true]);
    case Obj(members) =>
      var body := PrintMembers(members, true);
      ScanOpen(s, '{');
      var s1 := ScanFrom(s, "{");
      ScanHiddenMembers(s1, members, true);
      ScanContainer(s, "{", body, "}");
      ScanKeeps(s1, body);
      ScanKeeps(ScanFrom(s1, body), "}");
      MisreportedInside(s, s1, ScanFrom(s1, body), ScanFrom(s, Print(j)), [true], MaskMembers(members, true), [true]);
  }

  lemma ItemsUnfold(items: Items, first: bool)
    requires items.Item?
    ensures PrintItems(items, first) == Comma(first) + Print(items.value) + PrintItems(items.rest, false)
    ensures MaskItems(items, first) == Marks(|Comma(first)|, true) + Mask(items.value) + MaskItems(items.rest, false)
    ensures items.value.Str? ==>
              Print(items.value) == Quote(items.value.text) &&
                Mask(items.value) == Marks(|Quote(items.value.text)|, false)
  {
    hide Quote;
  }

  lemma {:induction false} ScanHiddenItems(s: Scan, items: Items, first: bool)
    requires Between(s) && (first ==> !s.lex.inScalar && !s.lex.expectKey) && |s.mask| == s.pos
    requires WellFormedItems(items) && !KeysSeenItems(items, first, s.lex.levels)
    ensures Misreported(s, ScanFrom(s, PrintItems(items, first)), MaskItems(items, first))
    decreases items, 0
  {
    hide ScanFrom, Reported, Misreported, TopIsObject, Print, Mask, LeafEnds, WellFormed, KeysSeen, LevelsAfter, Quote,
         PrintItems, MaskItems;
    var Item(value, rest) := items;
    var comma, tail, k := Comma(first), PrintItems(rest, false), s.lex.levels;
    ItemsUnfold(items, first);
    ScanContainer(s, comma, Print(value), tail);
    ScanSeparator(s, first);
    var s1 := ScanFrom(s, comma);
    ReportedLevels(Settle(s), s1, Marks(|comma|, true), [], k);
    var s2 := ScanFrom(s1, Print(value));
    ScanKeeps(s, comma);
    ScanKeeps(s1, Print(value));
    ScanKeeps(s2, tail);
    var m1, m2, m3 := Marks(|comma|, true), Mask(value), MaskItems(rest, false);
    if !first && value.Str? && TopIsObject(k) {
      ScanMistaken(s1, value.text, false);
      MisreportedInside(s, s1, s2, ScanFrom(s2, tail), m1, m2, m3);
    } else if !KeysSeen(value, k) {
      ScanHiddenValue(s1, value);
      MisreportedInside(s, s1, s2, ScanFrom(s2, tail), m1, m2, m3);
    } else {
      ScanValue(s1, value);
      ReportedLevels(s1, s2, m2, LeafEnds(value, s1.pos), LevelsAfter(value, k));
      ScanHiddenItems(s2, rest, false);
      MisreportedInside(s, s2, ScanFrom(s2, tail), ScanFrom(s2, tail), m1 + m2, m3, []);
      assert m1 + m2 + m3 + [] == m1 + m2 + m3;
    }
  }

  lemma MembersUnfold(members: Members, first: bool)
    requires members.Member?
    ensures var lead := Comma(first) + Quote(members.key) + ":";
            && PrintMembers(members, first) == lead + Print(members.value) + PrintMembers(members.rest, false)
            && MaskMembers(members, first) == Marks(|lead|, true) + Mask(members.value) +
               MaskMembers(members.rest, false)
  {
    hide Quote, Print, Mask, Marks;
  }

  lemma {:induction false} ScanHiddenMembers(s: Scan, members: Members, first: bool)
    requires Between(s) && (first ==> !s.lex.inScalar && s.lex.expectKey) && |s.mask| == s.pos
    requires WellFormedMembers(members) && !KeysSeenMembers(members, s.lex.levels)
    ensures Misreported(s, ScanFrom(s, PrintMembers(members, first)), MaskMembers(members, first))
    decreases members, 0
  {
    hide ScanFrom, Quote, Reported, Misreported, TopIsObject, Print, Mask, LeafEnds, WellFormed, KeysSeen, LevelsAfter,
         PrintMembers, MaskMembers;
    var Member(key, value, rest) := members;
    var lead, tail, k := Comma(first) + Quote(key) + ":", PrintMembers(rest, false), s.lex.levels;
    MembersUnfold(members, first);
    ScanContainer(s, lead, Print(value), tail);
    var s1 := ScanFrom(s, lead);
    var s2 := ScanFrom(s1, Print(value));
    ScanKeeps(s, lead);
    ScanKeeps(s1, Print(value));
    ScanKeeps(s2, tail);
    var m1, m2, m3 := Marks(|lead|, true), Mask(value), MaskMembers(rest, false);
    if !TopIsObject(k) {
      ScanHiddenKey(s, key, first);
      MisreportedInside(s, s, s1, ScanFrom(s2, tail), [], m1, m2 + m3);
      assert [] + m1 + (m2 + m3) == m1 + m2 + m3;
    } else {
      ScanKey(s, key, first);
      ReportedLevels(Settle(s), s1, m1, [], k);
      if !KeysSeen(value, k) {
        ScanHiddenValue(s1, value);
        MisreportedInside(s, s1, s2, ScanFrom(s2, tail), m1, m2, m3);
      } else {
        ScanValue(s1, value);
        ReportedLevels(s1, s2, m2, LeafEnds(value, s1.pos), LevelsAfter(value, k));
        ScanHiddenMembers(s2, rest, false);
        MisreportedInside(s, s2, ScanFrom(s2, tail), ScanFrom(s2, tail), m1 + m2, m3, []);
        assert m1 + m2 + m3 + [] == m1 + m2 + m3;
      }
    }
  }

  /**
   A document of any depth is classified correctly exactly when the lexer's
   32-bit register and its 8-bit depth tell keys from values throughout it.
   */
  lemma LexerExactness(j: Json)
    requires WellFormed(j)
    ensures KeysSeen(j, NoLevels()) <==>
            var t := Settle(ScanText(Print(j))); t.ends == LeafEnds(j, 0) && t.mask == Mask(j)
  {
    hide ScanFrom, Mask, Print, LeafEnds, KeysSeen, WellFormed;
    if KeysSeen(j, NoLevels()) {
      ScanValue(ScanStart(), j);
    } else {
      ScanHiddenValue(ScanStart(), j);
    }
  }

  // ----- Documents that do not wrap the depth -----

  /** The container levels below the current depth agree. */
  ghost predicate SameLevels(k: Levels, m: Levels) {
    && |k.objects| == |m.objects| == WIDTH
    && k.depth == m.depth
    && forall i :: 0 <= i < k.depth && i < WIDTH ==> k.objects[i] == m.objects[i]
  }

  lemma PushPop(k: Levels, m: Levels, isObject: bool)
    requires |k.objects| == WIDTH && k.depth < 255 && SameLevels(Push(k, isObject), m)
    ensures SameLevels(k, Pop(m)) && m.depth == k.depth + 1
    ensures TopIsObject(m) == (isObject && k.depth < WIDTH)
  {
    var p, q := Push(k, isObject), Pop(m);
    assert p.depth == k.depth + 1;
    forall i | 0 <= i < k.depth && i < WIDTH
      ensures k.objects[i] == q.objects[i]
    {
      assert k.objects[i] == p.objects[i];
    }
    if k.depth < WIDTH { assert p.objects[k.depth] == m.objects[k.depth]; }
  }

  lemma SameLevelsTop(k: Levels, m: Levels)
    requires SameLevels(k, m)
    ensures TopIsObject(k) == TopIsObject(m)
  {}

  /**
   As long as the depth does not wrap, a value restores the levels, and keys
   are seen if they are within 32 levels.
   */
  lemma {:induction false} UnwrappedValue(j: Json, k: Levels)
    requires |k.objects| == WIDTH && k.depth + Nesting(j) <= 255
    ensures SameLevels(k, LevelsAfter(j, k))
    ensures KeysSeen(j, k) <==> KeysVisible(j, k.depth)
    decreases j, 1
  {
    hide Pop, TopIsObject, Push;
    match j
    case Scalar(_) =>
    case Str(_) =>
    case Arr(items) =>
      OpenLevels(k, false);
      UnwrappedItems(items, true, Push(k, false));
      PushPop(k, LevelsAfterItems(items, Push(k, false)), false);
    case Obj(members) =>
      OpenLevels(k, true);
      UnwrappedMembers(members, Push(k, true));
      PushPop(k, LevelsAfterMembers(members, Push(k, true)), true);
  }

  lemma OpenLevels(k: Levels, isObject: bool)
    requires |k.objects| == WIDTH && k.depth < 255
    ensures |Push(k, isObject).objects| == WIDTH && Push(k, isObject).depth == k.depth + 1
    ensures TopIsObject(Push(k, isObject)) == (isObject && k.depth < WIDTH)
  {}

  lemma {:induction false} UnwrappedItems(items: Items, first: bool, k: Levels)
    requires |k.objects| == WIDTH && k.depth + NestingItems(items) <= 255 && !TopIsObject(k)
    ensures SameLevels(k, LevelsAfterItems(items, k))
    ensures KeysSeenItems(items, first, k) <==> KeysVisibleItems(items, k.depth)
    decreases items, 0
  {
    hide TopIsObject, KeysSeen, KeysVisible, LevelsAfter, Nesting;
    if items.Item? {
      UnwrappedValue(items.value, k);
      var m := LevelsAfter(items.value, k);
      SameLevelsTop(k, m);
      UnwrappedItems(items.rest, false, m);
    }
  }

  lemma {:induction false} UnwrappedMembers(members: Members, k: Levels)
    requires |k.objects| == WIDTH && 0 < k.depth && k.depth + NestingMembers(members) <= 255
    requires TopIsObject(k) == (k.depth <= WIDTH)
    ensures SameLevels(k, LevelsAfterMembers(members, k))
    ensures KeysSeenMembers(members, k) <==>
            KeysVisibleMembers(members, k.depth) && (members.Member? ==> k.depth <= WIDTH)
    decreases members, 0
  {
    hide TopIsObject, KeysSeen, KeysVisible, LevelsAfter, Nesting;
    if members.Member? {
      UnwrappedValue(members.value, k);
      var m := LevelsAfter(members.value, k);
      SameLevelsTop(k, m);
      UnwrappedMembers(members.rest, m);
    }
  }

  /** Up to a nesting of 255, that is when no object with members lies below level 32. */
  lemma SeenIffVisible(j: Json)
    requires WellFormed(j) && Nesting(j) <= 255
    ensures KeysVisible(j, 0) <==>
            var t := Settle(ScanText(Print(j))); t.ends == LeafEnds(j, 0) && t.mask == Mask(j)
  {
    hide ScanFrom, Mask, Print, LeafEnds, KeysVisible, KeysSeen, Nesting, WellFormed;
    UnwrappedValue(j, NoLevels());
    LexerExactness(j);
  }

  /** The documents of the resumed responses. */
  lemma LexerClassifiesDocument(j: Json)
    requires WellFormed(j) && Nesting(j) <= 255 && KeysVisible(j, 0)
    ensures var t := Settle(ScanText(Print(j)));
            t.ends == LeafEnds(j, 0) && t.mask == Mask(j) && |t.mask| == |Print(j)|
  {
    hide ScanFrom, Mask, Print, LeafEnds, KeysVisible, Nesting, WellFormed;
    SeenIffVisible(j);
    MaskLength(j);
  }

  /** Containers no deeper than the 32 levels can all be marked. */
  lemma {:induction false} ShallowIsVisible(j: Json, depth: nat)
    requires depth + Nesting(j) <= 32
    ensures KeysVisible(j, depth)
    decreases j
  {
    match j
    case Arr(items) => ShallowItems(items, depth + 1);
    case Obj(members) => ShallowMembers(members, depth + 1);
    case _ =>
  }

  lemma {:induction false} ShallowItems(items: Items, depth: nat)
    requires depth + NestingItems(items) <= 32
    ensures KeysVisibleItems(items, depth)
    decreases items
  {
    hide KeysVisible, Nesting;
    if items.Item? {
      ShallowIsVisible(items.value, depth);
      ShallowItems(items.rest, depth);
    }
  }

  lemma {:induction false} ShallowMembers(members: Members, depth: nat)
    requires depth + NestingMembers(members) <= 32
    ensures KeysVisibleMembers(members, depth)
    decreases members
  {
    hide KeysVisible, Nesting;
    if members.Member? {
      ShallowIsVisible(members.value, depth);
      ShallowMembers(members.rest, depth);
    }
  }

  /** The documents the server writes: nesting of at most 32 is always classified correctly. */
  lemma ShallowDocument(j: Json)
    requires WellFormed(j) && Nesting(j) <= 32
    ensures var t := Settle(ScanText(Print(j))); t.ends == LeafEnds(j, 0) && t.mask == Mask(j)
  {
    hide ScanFrom, Mask, Print, LeafEnds, KeysVisible;
    ShallowIsVisible(j, 0);
    LexerClassifiesDocument(j);
  }
}
