/**
 What a current-value snapshot consists of: for every position of the snapshot
 cursor, the delta entries its value is broken into.

 How a value is broken up depends only on the value and on the room an empty
 delta has after its header. Paths, keys and texts are C text without NULs.
 */
module Snapshot {
  import opened JsonText
  import opened DeltaFrame

  const MAX_SPLIT_DEPTH: nat := 3
  const CHILD_PATH_SIZE: nat := 160

  /** A mapped model value: how it is written whole, and what it may be broken into. */
  datatype Value =
    | Single(writer: ValueWriter)
    | Text(writer: ValueWriter, text: string)
    | Composite(writer: ValueWriter, tree: Option<Json>)

  predicate Fits(room: int, path: string, w: ValueWriter) {
    w.completes && |EntryText(path, Concat(w.pieces))| < room
  }

  function Whole(path: string, w: ValueWriter): string {
    EntryText(path, Concat(w.pieces))
  }

  function Quoted(text: string): ValueWriter {
    ValueWriter([Quote(text)], true)
  }

  // ----- Shortening text -----

  predicate IsContinuation(c: char) {
    0x80 <= c as int < 0xC0
  }

  function Boundary(text: string, len: nat): (n: nat)
    requires len < |text|
    ensures n <= len && (n == 0 || !IsContinuation(text[n]))
  {
    if len > 0 && IsContinuation(text[len]) then Boundary(text, len - 1) else len
  }

  /** The next length tried: three quarters, or one less when short, moved back to a character start. */
  function Shorter(text: string, len: nat): (n: nat)
    requires 0 < len <= |text|
    ensures n < len && (n == 0 || !IsContinuation(text[n]))
  {
    Boundary(text, if len > 16 then len - len / 4 else len - 1)
  }

  /** The first of the shrinking prefixes that fits an empty delta. */
  function ShortenedLength(room: int, path: string, text: string, len: nat): (n: Option<nat>)
    requires len <= |text|
    ensures n.Some? ==> n.value < len && Fits(room, path, Quoted(text[..n.value]))
    ensures n.Some? ==> n.value == 0 || !IsContinuation(text[n.value])
  {
    if len == 0 then None
    else
      var shorter := Shorter(text, len);
      if Fits(room, path, Quoted(text[..shorter])) then Some(shorter)
      else ShortenedLength(room, path, text, shorter)
  }

  function ShortenedEntries(room: int, path: string, text: string, len: nat): seq<string>
    requires len <= |text|
  {
    match ShortenedLength(room, path, text, len)
    case Some(n) => [Whole(path, Quoted(text[..n]))]
    case None => []
  }

  // ----- Breaking up objects -----

  /** The path of a member; None when it does not fit the path buffer. */
  function ChildPath(path: string, key: string): (p: Option<string>)
    ensures p.Some? ==> 0 < |p.value| < CHILD_PATH_SIZE
  {
    var child := if path != "" then path + "." + key else key;
    if 0 < |child| < CHILD_PATH_SIZE then Some(child) else None
  }

  function Written(tree: Json): ValueWriter {
    ValueWriter([Print(tree)], true)
  }

  function SplitEntries(room: int, path: string, tree: Json, depth: nat): seq<string>
    decreases tree, 0
  {
    if Fits(room, path, Written(tree)) then [Whole(path, Written(tree))]
    else
      match tree
      case Str(text) => ShortenedEntries(room, path, text, |text|)
      case Obj(members) => if depth >= MAX_SPLIT_DEPTH then [] else SplitMembers(room, path, members, depth + 1)
      case _ => []
  }

  function SplitMembers(room: int, path: string, members: Members, depth: nat): seq<string>
    decreases members, 0
  {
    match members
    case NoMembers => []
    case Member(key, value, rest) =>
      MemberEntries(room, path, key, value, depth) + SplitMembers(room, path, rest, depth)
  }

  function MemberEntries(room: int, path: string, key: string, value: Json, depth: nat): seq<string>
    decreases value, 1
  {
    match ChildPath(path, key)
    case Some(child) => SplitEntries(room, child, value, depth)
    case None => []
  }

  lemma MembersUnfold(room: int, path: string, members: Members, depth: nat)
    ensures members.NoMembers? ==> SplitMembers(room, path, members, depth) == []
    ensures members.Member? ==>
              var rest := SplitMembers(room, path, members.rest, depth);
              SplitMembers(room, path, members, depth) ==
                MemberEntries(room, path, members.key, members.value, depth) + rest
  {}

  /** The entries one mapped value is sent as. */
  function ValueEntries(room: int, path: string, value: Value): seq<string> {
    if Fits(room, path, value.writer) then [Whole(path, value.writer)]
    else
      match value
      case Single(_) => []
      case Text(_, text) => ShortenedEntries(room, path, text, |text|)
      case Composite(_, tree) => if tree.None? then [] else SplitEntries(room, path, tree.value, 0)
  }

  function WholeOrNothing(room: int, path: string, w: ValueWriter): seq<string> {
    if Fits(room, path, w) then [Whole(path, w)] else []
  }

  /** Entries that are sent whole or not at all. */
  function PlainEntries(room: int, values: seq<(string, ValueWriter)>): seq<string> {
    if values == [] then []
    else WholeOrNothing(room, values[0].0, values[0].1) + PlainEntries(room, values[1..])
  }

  lemma PlainNone(room: int, values: seq<(string, ValueWriter)>)
    requires values == []
    ensures PlainEntries(room, values) == []
  {}

  lemma PlainUnfold(room: int, values: seq<(string, ValueWriter)>, i: nat)
    requires i < |values|
    ensures PlainEntries(room, values[i..]) ==
            WholeOrNothing(room, values[i].0, values[i].1) + PlainEntries(room, values[i + 1..])
  {
    assert values[i..][1..] == values[i + 1..];
  }

  // ----- Positions, items and cursors -----

  datatype Field = Hidden | Field(source: nat, path: string, value: Value)

  datatype Target = NoTarget | Target(context: string, values: seq<(string, ValueWriter)>)

  /**
   The model as one pass sees it. Cursor positions 1 .. |fields| - 1 are model
   fields; the positions after them are AIS targets, each in its own context.
   */
  datatype View = View(
    context: string,
    timestamp: string,
    labels: seq<string>,
    otherLabel: string,
    fields: seq<Field>,
    sendTargets: bool,
    targetLabel: string,
    targets: seq<Target>)
  {
    function Base(): nat { |fields| }

    function End(): nat { |fields| + |targets| }

    function LabelOf(source: nat): string {
      if source < |labels| then labels[source] else otherLabel
    }

    function FieldHeader(source: nat): string {
      HeaderText(context, timestamp, LabelOf(source))
    }

    function TargetHeader(target: Target): string
      requires target.Target?
    {
      HeaderText(target.context, timestamp, targetLabel)
    }
  }

  /** One value of the snapshot: where it stands, the header of its delta, and its text. */
  datatype Datum = Datum(position: nat, index: nat, header: string, entry: string)

  function Number(position: nat, first: nat, header: string, entries: seq<string>): (items: seq<Datum>)
    ensures |items| == |entries|
    ensures forall i :: 0 <= i < |items| ==> items[i] == Datum(position, first + i, header, entries[i])
  {
    seq(|entries|, i requires 0 <= i < |entries| => Datum(position, first + i, header, entries[i]))
  }

  function FieldEntries(capacity: nat, header: string, field: Field): seq<string> {
    if field.Hidden? || |header| >= capacity then []
    else ValueEntries(capacity - |header|, field.path, field.value)
  }

  function TargetEntries(capacity: nat, header: string, target: Target): seq<string> {
    if target.NoTarget? || |header| >= capacity then []
    else PlainEntries(capacity - |header|, target.values)
  }

  /** The items of one position, for deltas with `capacity` bytes before the trailer. */
  function ItemsAt(v: View, capacity: nat, position: nat): (items: seq<Datum>)
    ensures forall i :: 0 <= i < |items| ==> items[i].position == position && items[i].index == i
  {
    if position == 0 || position >= v.End() then []
    else if position < v.Base() then
      var field := v.fields[position];
      if field.Hidden? then []
      else
        var header := v.FieldHeader(field.source);
        Number(position, 0, header, FieldEntries(capacity, header, field))
    else
      var target := v.targets[position - v.Base()];
      if target.NoTarget? || !v.sendTargets then []
      else Number(position, 0, v.TargetHeader(target), TargetEntries(capacity, v.TargetHeader(target), target))
  }

  function ItemsFrom(v: View, capacity: nat, position: nat): seq<Datum>
    decreases v.End() - position
  {
    if position >= v.End() then [] else ItemsAt(v, capacity, position) + ItemsFrom(v, capacity, position + 1)
  }

  function ItemsTo(v: View, capacity: nat, start: nat, position: nat): seq<Datum> {
    if position <= start then []
    else ItemsTo(v, capacity, start, position - 1) + ItemsAt(v, capacity, position - 1)
  }

  /** Where a resumable snapshot continues; position 0 means it has not started. */
  datatype Cursor = Cursor(position: nat, value: nat)

  function Started(c: Cursor): Cursor {
    if c.position == 0 then Cursor(1, 0) else c
  }

  function Min(a: nat, b: nat): nat {
    if a < b then a else b
  }

  /** The items still to be delivered from `c` on. */
  function After(v: View, capacity: nat, c: Cursor): seq<Datum> {
    ItemsCount(v, capacity, c.position);
    ItemsFrom(v, capacity, c.position)[Min(c.value, |ItemsAt(v, capacity, c.position)|)..]
  }

  lemma ItemsCount(v: View, capacity: nat, position: nat)
    ensures |ItemsAt(v, capacity, position)| <= |ItemsFrom(v, capacity, position)|
  {}

  lemma {:induction false} ItemsJoin(v: View, capacity: nat, start: nat, position: nat)
    requires start <= position <= v.End()
    ensures ItemsTo(v, capacity, start, position) + ItemsFrom(v, capacity, position) == ItemsFrom(v, capacity, start)
    decreases position
  {
    hide ItemsAt;
    if position > start {
      ItemsJoin(v, capacity, start, position - 1);
    }
  }

  /** A cursor made from an item continues exactly at that item. */
  lemma {:induction false} CursorFindsItem(v: View, capacity: nat, start: nat, g: nat)
    requires g < |ItemsFrom(v, capacity, start)|
    ensures var item := ItemsFrom(v, capacity, start)[g];
            && start <= item.position < v.End() && item.index < |ItemsAt(v, capacity, item.position)|
            && After(v, capacity, Cursor(item.position, item.index)) == ItemsFrom(v, capacity, start)[g..]
    decreases v.End() - start
  {
    hide ItemsAt, ItemsFrom, After;
    ItemsUnfold(v, capacity, start);
    var here, rest := ItemsAt(v, capacity, start), ItemsFrom(v, capacity, start + 1);
    var item := ItemsFrom(v, capacity, start)[g];
    AfterValue(v, capacity, Cursor(item.position, item.index));
    if g < |here| {
      assert item == here[g];
    } else {
      CursorFindsItem(v, capacity, start + 1, g - |here|);
      assert (here + rest)[g..] == rest[g - |here|..];
    }
  }

  lemma ItemsUnfold(v: View, capacity: nat, start: nat)
    ensures start < v.End() ==>
              ItemsFrom(v, capacity, start) == ItemsAt(v, capacity, start) + ItemsFrom(v, capacity, start + 1)
    ensures start >= v.End() ==> ItemsFrom(v, capacity, start) == []
  {}

  lemma AfterValue(v: View, capacity: nat, c: Cursor)
    ensures |ItemsAt(v, capacity, c.position)| <= |ItemsFrom(v, capacity, c.position)|
    ensures After(v, capacity, c) ==
            ItemsFrom(v, capacity, c.position)[Min(c.value, |ItemsAt(v, capacity, c.position)|)..]
  {}

  lemma ItemsToNext(v: View, capacity: nat, start: nat, position: nat)
    requires start <= position < v.End()
    ensures ItemsTo(v, capacity, start, position + 1) ==
            ItemsTo(v, capacity, start, position) + ItemsAt(v, capacity, position)
    ensures ItemsTo(v, capacity, start, position) <= ItemsFrom(v, capacity, start)
    ensures ItemsTo(v, capacity, start, position + 1) <= ItemsFrom(v, capacity, start)
    ensures |ItemsAt(v, capacity, start)| <= |ItemsTo(v, capacity, start, position + 1)|
  {
    hide ItemsAt, ItemsFrom;
    ItemsJoin(v, capacity, start, position);
    ItemsJoin(v, capacity, start, position + 1);
    StartCounts(v, capacity, start, position + 1);
  }

  lemma {:induction false} StartCounts(v: View, capacity: nat, start: nat, position: nat)
    requires start < position
    ensures |ItemsAt(v, capacity, start)| <= |ItemsTo(v, capacity, start, position)|
  {
    hide ItemsAt;
    if position > start + 1 { StartCounts(v, capacity, start, position - 1); }
  }

  lemma FieldItems(v: View, capacity: nat, p: nat)
    requires 0 < p < v.Base()
    ensures var field := v.fields[p];
            ItemsAt(v, capacity, p) ==
            if field.Hidden? || |v.FieldHeader(field.source)| >= capacity then []
            else var header := v.FieldHeader(field.source);
                 Number(p, 0, header, ValueEntries(capacity - |header|, field.path, field.value))
  {
    hide HeaderText, ValueEntries;
  }

  lemma TargetItems(v: View, capacity: nat, p: nat)
    requires v.Base() <= p < v.End() && 0 < p && v.sendTargets
    ensures var target := v.targets[p - v.Base()];
            ItemsAt(v, capacity, p) ==
            if target.NoTarget? then []
            else Number(p, 0, v.TargetHeader(target), TargetEntries(capacity, v.TargetHeader(target), target))
  {
    hide HeaderText, TargetEntries;
  }

  /** Nothing follows the fields when targets are not sent. */
  lemma {:induction false} NoTargets(v: View, capacity: nat, position: nat)
    requires !v.sendTargets && v.Base() <= position
    ensures ItemsFrom(v, capacity, position) == []
    decreases v.End() - position
  {
    if position < v.End() { NoTargets(v, capacity, position + 1); }
  }

  /**
   What one pass of the snapshot promises: it delivered everything from its
   cursor on, or exactly what comes before the cursor it leaves.
   */
  predicate PassSpec(v: View, capacity: nat, from: Cursor, sent: seq<Datum>, complete: bool, next: Cursor) {
    if complete then sent == After(v, capacity, from) && next == Cursor(0, 0)
    else
      && sent + After(v, capacity, next) == After(v, capacity, from)
      && After(v, capacity, next) != [] && from.position <= next.position < v.End()
      && next.value < |ItemsAt(v, capacity, next.position)|
  }

  /** A pass stopped while the items of a delta were not delivered. */
  lemma StoppedPass(v: View, capacity: nat, from: Cursor, seen: seq<Datum>, sent: seq<Datum>, items: seq<Datum>)
    requires items != [] && seen <= ItemsFrom(v, capacity, from.position)
    requires var k := Min(from.value, |ItemsAt(v, capacity, from.position)|); k <= |seen| && sent + items == seen[k..]
    ensures var next := Cursor(items[0].position, items[0].index);
            PassSpec(v, capacity, from, sent, false, next) && items <= After(v, capacity, next)
  {
    hide ItemsAt, ItemsFrom, After;
    var all := ItemsFrom(v, capacity, from.position);
    var k := Min(from.value, |ItemsAt(v, capacity, from.position)|);
    var g := k + |sent|;
    AfterValue(v, capacity, from);
    SeenSplit(all, seen, k, sent, items);
    CursorFindsItem(v, capacity, from.position, g);
  }

  lemma SeenSplit(all: seq<Datum>, seen: seq<Datum>, k: nat, sent: seq<Datum>, items: seq<Datum>)
    requires seen <= all && k <= |seen| && sent + items == seen[k..] && items != []
    ensures var g := k + |sent|;
            g < |all| && items[0] == all[g] && all[k..] == sent + all[g..] && items <= all[g..]
  {
    var g := k + |sent|;
    assert |sent| + |items| == |seen| - k;
    forall i | 0 <= i < |sent|
      ensures sent[i] == all[k + i]
    {
      assert (sent + items)[i] == seen[k..][i];
    }
    forall i | 0 <= i < |items|
      ensures items[i] == all[g + i]
    {
      assert (sent + items)[|sent| + i] == seen[k..][|sent| + i];
    }
  }

  // ----- What breaking up a value promises -----

  /** Shortening fails only for text that cannot be sent even empty. */
  lemma {:induction false} ShorteningFindsPrefix(room: int, path: string, text: string, len: nat)
    requires len <= |text|
    ensures ShortenedLength(room, path, text, len).Some? <==> len > 0 && Fits(room, path, Quoted(""))
  {
    hide Fits;
    if len > 0 {
      var n := Shorter(text, len);
      if n == 0 {
        assert text[..0] == "";
      } else {
        ShorteningFindsPrefix(room, path, text, n);
      }
      if Fits(room, path, Quoted(text[..n])) { EmptyTextFits(room, path, text[..n]); }
    }
  }

  // ----- Is the prefix sent the longest one? -----

  /** The length `n` is one of those tried for the text, starting from `len`. */
  predicate Tried(text: string, len: nat, n: nat)
    requires len <= |text|
    decreases len
  {
    len > 0 && (n == Shorter(text, len) || Tried(text, Shorter(text, len), n))
  }

  predicate CharStart(text: string, n: nat) {
    n < |text| && (n == 0 || !IsContinuation(text[n]))
  }

  /** The longest proper prefix at a character start that fits an empty delta. */
  predicate IsLongest(room: int, path: string, text: string, n: nat) {
    && CharStart(text, n) && Fits(room, path, Quoted(text[..n]))
    && forall m :: n < m < |text| && CharStart(text, m) ==> !Fits(room, path, Quoted(text[..m]))
  }

  /**
   The longest fitting prefix is sent if and only if its length is one of those
   tried, which the text alone decides.
   */
  lemma {:induction false} LongestIffTried(room: int, path: string, text: string, len: nat, n: nat)
    requires len <= |text| && IsLongest(room, path, text, n)
    ensures ShortenedLength(room, path, text, len) == Some(n) <==> Tried(text, len, n)
    decreases len
  {
    hide Fits;
    if len > 0 {
      var k := Shorter(text, len);
      LongestIffTried(room, path, text, k, n);
      if Tried(text, k, n) { TriedIsShorter(text, k, n); }
    }
  }

  lemma {:induction false} TriedIsShorter(text: string, len: nat, n: nat)
    requires len <= |text| && Tried(text, len, n)
    ensures n < len
    decreases len
  {
    if n != Shorter(text, len) { TriedIsShorter(text, Shorter(text, len), n); }
  }

  /** For texts of at most 16 bytes every character start is tried, so the longest fitting prefix is sent. */
  lemma {:induction false} ShortTextTried(text: string, len: nat, n: nat)
    requires len <= |text| && len <= 16 && n < len && CharStart(text, n)
    ensures Tried(text, len, n)
    decreases len
  {
    var k := Shorter(text, len);
    BoundarySkips(text, len - 1, n);
    if n != k { ShortTextTried(text, k, n); }
  }

  lemma {:induction false} BoundarySkips(text: string, len: nat, n: nat)
    requires len < |text| && n <= len && CharStart(text, n)
    ensures n <= Boundary(text, len)
  {
    if len > 0 && IsContinuation(text[len]) { BoundarySkips(text, len - 1, n); }
  }

  const TwentyLetters: string := "abcdefghijklmnopqrst"

  /** A longer text may lose more than needed: of 20 letters 19 would fit and 15 are sent. */
  lemma LongestNotSent()
    ensures var room := |EntryText("p", Quote(TwentyLetters))|;
            && Fits(room, "p", Quoted(TwentyLetters[..19]))
            && ShortenedLength(room, "p", TwentyLetters, 20) == Some(15)
  {
    hide Quote, EntryText;
    var text, room := TwentyLetters, |EntryText("p", Quote(TwentyLetters))|;
    assert forall i :: 0 <= i < 20 ==> !IsContinuation(text[i]);
    assert Shorter(text, 20) == 15;
    PlainFits(text, 20, 19);
    PlainFits(text, 20, 15);
  }

  /** A proper prefix of plain text fits where the text just does not. */
  lemma PlainFits(text: string, len: nat, n: nat)
    requires n < len == |text| && Plain(text)
    ensures Fits(|EntryText("p", Quote(text))|, "p", Quoted(text[..n]))
  {
    PlainQuote(text);
    PlainQuote(text[..n]);
    assert [Quote(text[..n])][1..] == [];
    assert Concat([Quote(text[..n])]) == Quote(text[..n]);
  }

  lemma EmptyTextFits(room: int, path: string, text: string)
    requires Fits(room, path, Quoted(text))
    ensures Fits(room, path, Quoted(""))
  {
    hide Escape;
    assert [Quote(text)][1..] == [] && [Quote("")][1..] == [];
    assert Concat([Quote(text)]) == Quote(text) && Concat([Quote("")]) == Quote("");
    NoEscape();
  }

  lemma NoEscape()
    ensures Escape("") == ""
  {}

  /** The length of a UTF-8 character by its first byte (section 4 of RFC 3629). */
  function Utf8Length(c: char): nat {
    var b := c as int;
    if b < 0x80 then 1
    else if 0xC2 <= b < 0xE0 then 2
    else if 0xE0 <= b < 0xF0 then 3
    else if 0xF0 <= b < 0xF5 then 4
    else 0
  }

  /** The second bytes that are neither overlong, nor surrogates, nor beyond the last code point. */
  predicate SecondByte(first: char, c: char) {
    var a, b := first as int, c as int;
    && IsContinuation(c) && (a == 0xE0 ==> b >= 0xA0) && (a == 0xED ==> b < 0xA0)
    && (a == 0xF0 ==> b >= 0x90) && (a == 0xF4 ==> b < 0x90)
  }

  predicate Utf8Char(text: string, n: nat)
    requires 0 < n <= |text|
  {
    (n > 1 ==> SecondByte(text[0], text[1])) && forall i :: 2 <= i < n ==> IsContinuation(text[i])
  }

  predicate Utf8(text: string) {
    text == "" || (var n := Utf8Length(text[0]); 0 < n <= |text| && Utf8Char(text, n) && Utf8(text[n..]))
  }

  /** One character and the rest. */
  lemma Utf8Step(text: string)
    requires text != ""
    ensures var n := Utf8Length(text[0]);
            Utf8(text) <==> 0 < n <= |text| && Utf8Char(text, n) && Utf8(text[n..])
  {
    hide Utf8Length, Utf8Char;
  }

  lemma CharContinues(text: string, n: nat, i: nat)
    requires 0 < n <= |text| && Utf8Char(text, n) && 1 <= i < n
    ensures IsContinuation(text[i])
  {}

  /** Cutting UTF-8 text where no continuation byte follows leaves UTF-8 text. */
  lemma {:induction false} Utf8Cut(text: string, n: nat)
    requires Utf8(text) && n < |text| && (n == 0 || !IsContinuation(text[n]))
    ensures Utf8(text[..n])
    decreases |text|
  {
    hide Utf8, Utf8Length, IsContinuation;
    if n == 0 {
      EmptyUtf8(text[..n]);
    } else {
      var k := Utf8Length(text[0]);
      Utf8Step(text);
      Utf8Step(text[..n]);
      if n < k { CharContinues(text, k, n); }
      var rest := text[k..];
      assert rest[n - k] == text[n] && rest[..n - k] == text[..n][k..];
      Utf8Cut(rest, n - k);
    }
  }

  lemma EmptyUtf8(text: string)
    requires text == ""
    ensures Utf8(text)
  {}

  /** Shortened text is the longest-tried prefix that fits, and still UTF-8. */
  lemma ShortenedIsUtf8(room: int, path: string, text: string)
    requires Utf8(text)
    ensures var n := ShortenedLength(room, path, text, |text|);
            n.Some? ==> n.value < |text| && Utf8(text[..n.value])
  {
    var n := ShortenedLength(room, path, text, |text|);
    if n.Some? { Utf8Cut(text, n.value); }
  }

  lemma {:induction false} SplitFits(room: int, path: string, tree: Json, depth: nat)
    ensures forall e :: e in SplitEntries(room, path, tree, depth) ==> |e| < room
    decreases tree
  {
    if tree.Obj? { MembersFit(room, path, tree.members, depth + 1); }
  }

  lemma {:induction false} MembersFit(room: int, path: string, members: Members, depth: nat)
    ensures forall e :: e in SplitMembers(room, path, members, depth) ==> |e| < room
    decreases members
  {
    hide Fits, SplitEntries;
    if members.Member? {
      MembersFit(room, path, members.rest, depth);
      var child := ChildPath(path, members.key);
      if child.Some? { SplitFits(room, child.value, members.value, depth); }
    }
  }

  /** Every entry of a value fits a delta that holds nothing else. */
  lemma EveryEntryFits(room: int, path: string, value: Value)
    ensures forall e :: e in ValueEntries(room, path, value) ==> |e| < room
  {
    hide SplitEntries;
    if value.Composite? && value.tree.Some? { SplitFits(room, path, value.tree.value, 0); }
  }

  // ----- Sent in full -----

  function Dot(path: string, key: string): string {
    if path != "" then path + "." + key else key
  }

  /** The paths and values a tree stands for: its members under their own paths, everything else as it is. */
  function Meaning(path: string, tree: Json): (m: seq<(string, Json)>)
    ensures m != []
    decreases tree, 0
  {
    if tree.Obj? && tree.members.Member? then MembersMeaning(path, tree.members) else [(path, tree)]
  }

  function MembersMeaning(path: string, members: Members): (m: seq<(string, Json)>)
    ensures members.Member? ==> m != []
    decreases members, 0
  {
    match members
    case NoMembers => []
    case Member(key, value, rest) => Meaning(Dot(path, key), value) + MembersMeaning(path, rest)
  }

  /** The paths and values sent for a tree, before they are written as entries. */
  function SplitValues(room: int, path: string, tree: Json, depth: nat): seq<(string, Json)>
    decreases tree, 0
  {
    if Fits(room, path, Written(tree)) then [(path, tree)]
    else
      match tree
      case Str(text) =>
        (match ShortenedLength(room, path, text, |text|)
         case Some(n) => [(path, Str(text[..n]))]
         case None => [])
      case Obj(members) => if depth >= MAX_SPLIT_DEPTH then [] else MemberValues(room, path, members, depth + 1)
      case _ => []
  }

  function MemberValues(room: int, path: string, members: Members, depth: nat): seq<(string, Json)>
    decreases members, 0
  {
    match members
    case NoMembers => []
    case Member(key, value, rest) =>
      (match ChildPath(path, key)
       case Some(child) => SplitValues(room, child, value, depth)
       case None => []) + MemberValues(room, path, rest, depth)
  }

  function SentMeaning(sent: seq<(string, Json)>): seq<(string, Json)> {
    if sent == [] then [] else Meaning(sent[0].0, sent[0].1) + SentMeaning(sent[1..])
  }

  function EntriesFor(sent: seq<(string, Json)>): seq<string> {
    if sent == [] then [] else [Whole(sent[0].0, Written(sent[0].1))] + EntriesFor(sent[1..])
  }

  /**
   Nothing of the tree is dropped or shortened: what does not fit whole is an
   object at most three levels deep whose member paths are shorter than 160 bytes.
   */
  predicate InFull(room: int, path: string, tree: Json, depth: nat)
    decreases tree, 0
  {
    Fits(room, path, Written(tree)) ||
    (tree.Obj? && tree.members.Member? && depth < 3 && MembersInFull(room, path, tree.members, depth + 1))
  }

  predicate MembersInFull(room: int, path: string, members: Members, depth: nat)
    decreases members, 0
  {
    members.Member? ==>
      && 0 < |Dot(path, members.key)| < 160 && InFull(room, Dot(path, members.key), members.value, depth)
      && MembersInFull(room, path, members.rest, depth)
  }

  lemma SentStep(sent: seq<(string, Json)>)
    ensures sent == [] ==> EntriesFor(sent) == [] && SentMeaning(sent) == []
    ensures sent != [] ==> EntriesFor(sent) == [Whole(sent[0].0, Written(sent[0].1))] + EntriesFor(sent[1..])
    ensures sent != [] ==> SentMeaning(sent) == Meaning(sent[0].0, sent[0].1) + SentMeaning(sent[1..])
  {
    hide Whole, Meaning;
  }

  lemma Assoc<T>(a: seq<T>, b: seq<T>, c: seq<T>)
    ensures a + (b + c) == a + b + c
  {}

  lemma {:induction false} EntriesForConcat(a: seq<(string, Json)>, b: seq<(string, Json)>)
    ensures EntriesFor(a + b) == EntriesFor(a) + EntriesFor(b) && SentMeaning(a + b) == SentMeaning(a) + SentMeaning(b)
    decreases |a|
  {
    hide EntriesFor, SentMeaning, Whole, Meaning;
    SentStep(a);
    if a == [] {
      assert a + b == b;
      assert [] + EntriesFor(b) == EntriesFor(b) && [] + SentMeaning(b) == SentMeaning(b);
    } else {
      SentStep(a + b);
      assert (a + b)[1..] == a[1..] + b;
      EntriesForConcat(a[1..], b);
      Assoc([Whole(a[0].0, Written(a[0].1))], EntriesFor(a[1..]), EntriesFor(b));
      Assoc(Meaning(a[0].0, a[0].1), SentMeaning(a[1..]), SentMeaning(b));
    }
  }

  lemma OneSent(path: string, tree: Json)
    ensures EntriesFor([(path, tree)]) == [Whole(path, Written(tree))] &&
            SentMeaning([(path, tree)]) == Meaning(path, tree)
  {
    hide Whole, Meaning;
    assert [(path, tree)][1..] == [];
  }

  /** The entries of a tree are those of the paths and values sent for it. */
  lemma {:induction false} SplitIsValues(room: int, path: string, tree: Json, depth: nat)
    ensures SplitEntries(room, path, tree, depth) == EntriesFor(SplitValues(room, path, tree, depth))
    decreases tree, 0
  {
    hide Fits, Whole, ShortenedLength, SplitMembers, MemberValues;
    OneSent(path, tree);
    if tree.Str? {
      var n := ShortenedLength(room, path, tree.text, |tree.text|);
      if n.Some? {
        OneSent(path, Str(tree.text[..n.value]));
        assert Written(Str(tree.text[..n.value])) == Quoted(tree.text[..n.value]);
      }
    } else if tree.Obj? {
      MembersAreValues(room, path, tree.members, depth + 1);
    }
  }

  lemma {:induction false} MembersAreValues(room: int, path: string, members: Members, depth: nat)
    ensures SplitMembers(room, path, members, depth) == EntriesFor(MemberValues(room, path, members, depth))
    decreases members, 0
  {
    hide SplitEntries, SplitValues;
    if members.Member? {
      MembersAreValues(room, path, members.rest, depth);
      var child := ChildPath(path, members.key);
      if child.Some? {
        SplitIsValues(room, child.value, members.value, depth);
        EntriesForConcat(SplitValues(room, child.value, members.value, depth),
                         MemberValues(room, path, members.rest, depth));
      } else {
        assert [] + MemberValues(room, path, members.rest, depth) == MemberValues(room, path, members.rest, depth);
      }
    }
  }

  /** Breaking up a tree keeps its meaning if and only if nothing is dropped or shortened. */
  lemma {:induction false} SplitKeepsMeaning(room: int, path: string, tree: Json, depth: nat)
    ensures var sent := SentMeaning(SplitValues(room, path, tree, depth));
            |sent| <= |Meaning(path, tree)| && (sent == Meaning(path, tree) <==> InFull(room, path, tree, depth))
    decreases tree, 0
  {
    hide Fits, MemberValues, MembersMeaning, MembersInFull;
    OneSent(path, tree);
    if !Fits(room, path, Written(tree)) {
      if tree.Str? {
        var n := ShortenedLength(room, path, tree.text, |tree.text|);
        if n.Some? {
          OneSent(path, Str(tree.text[..n.value]));
          assert |tree.text[..n.value]| < |tree.text|;
          assert Meaning(path, Str(tree.text[..n.value]))[0] != Meaning(path, tree)[0];
        }
      } else if tree.Obj? {
        MembersKeepMeaning(room, path, tree.members, depth + 1);
        EmptyMembers(room, path, depth + 1);
      }
    }
  }

  lemma EmptyMembers(room: int, path: string, depth: nat)
    ensures MemberValues(room, path, NoMembers, depth) == []
  {}

  lemma {:induction false} MembersKeepMeaning(room: int, path: string, members: Members, depth: nat)
    ensures var sent := SentMeaning(MemberValues(room, path, members, depth));
            && |sent| <= |MembersMeaning(path, members)|
            && (sent == MembersMeaning(path, members) <==> MembersInFull(room, path, members, depth))
    decreases members, 0
  {
    hide SplitValues, Meaning, InFull;
    if members.Member? {
      MembersKeepMeaning(room, path, members.rest, depth);
      var child := ChildPath(path, members.key);
      var first := if child.Some? then SplitValues(room, child.value, members.value, depth) else [];
      var rest := MemberValues(room, path, members.rest, depth);
      EntriesForConcat(first, rest);
      if child.Some? { SplitKeepsMeaning(room, child.value, members.value, depth); }
      SameHalves(SentMeaning(first), SentMeaning(rest), Meaning(Dot(path, members.key), members.value),
                 MembersMeaning(path, members.rest));
    }
  }

  /** Two halves that are no longer than two others make up the same sequence only if each is the same. */
  lemma SameHalves<T>(a: seq<T>, b: seq<T>, c: seq<T>, d: seq<T>)
    requires |a| <= |c| && |b| <= |d|
    ensures a + b == c + d <==> a == c && b == d
  {
    if a + b == c + d {
      assert |a| + |b| == |c| + |d|;
      assert a == (a + b)[..|a|] == (c + d)[..|c|] == c;
      assert b == (a + b)[|a|..] == (c + d)[|c|..] == d;
    }
  }
}
