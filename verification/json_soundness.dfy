/**
 The framer never makes anything up: whatever bytes arrive, every text it
 emits is a complete value that fits the buffer, and the emitted texts are
 separate pieces of the stream, in order.
 */
module JsonSoundness {
  import opened JsonFramer

  // ----- Values under construction -----

  function Joined(a: Nodes, b: Nodes): Nodes {
    match a
    case End => b
    case Byte(c, rest) => Byte(c, Joined(rest, b))
    case Quoted(body, rest) => Quoted(body, Joined(rest, b))
    case Group(isObject, inside, rest) => Group(isObject, inside, Joined(rest, b))
  }

  lemma Regrouped(a: string, b: string, c: string)
    ensures a + (b + c) == a + b + c
  {}

  lemma {:induction false} JoinedShow(a: Nodes, b: Nodes)
    ensures Show(Joined(a, b)) == Show(a) + Show(b)
    ensures GoodNodes(a) && GoodNodes(b) ==> GoodNodes(Joined(a, b))
    decreases a
  {
    if a.End? {
      assert "" + Show(b) == Show(b);
    } else {
      JoinedShow(a.rest, b);
      var first := match a
        case Byte(c, _) => [c]
        case Quoted(body, _) => "\"" + body + "\""
        case Group(isObject, inside, _) => [Open(isObject)] + Show(inside) + [Close(isObject)];
      Regrouped(first, Show(a.rest), Show(b));
    }
  }

  /** The containers open around the current position, each with what it holds so far. */
  datatype Levels = Top | Level(below: Levels, isObject: bool, nodes: Nodes)

  function StackOf(l: Levels): string {
    match l
    case Top => ""
    case Level(below, isObject, _) => StackOf(below) + [Open(isObject)]
  }

  function TextOf(l: Levels): string {
    match l
    case Top => ""
    case Level(below, isObject, nodes) => TextOf(below) + [Open(isObject)] + Show(nodes)
  }

  predicate GoodLevels(l: Levels) {
    l.Level? ==> GoodNodes(l.nodes) && GoodLevels(l.below)
  }

  /** The beginning of a string, possibly inside an escape. */
  predicate StringStart(text: string, body: string, escape: bool) {
    StringBody(body) && text == "\"" + body + (if escape then "\\" else "")
  }

  ghost predicate ContainerStart(text: string, stack: string, inString: bool, escape: bool, l: Levels, body: string) {
    && l.Level? && GoodLevels(l) && stack == StackOf(l)
    && if inString then exists tail :: StringStart(tail, body, escape) && text == TextOf(l) + tail
       else !escape && text == TextOf(l)
  }

  /** The buffered text is the beginning of a value. */
  ghost predicate Beginning(cfg: Config, s: State) {
    match s
    case Idle => true
    case Container(text, stack, inString, escape) =>
      |text| <= cfg.capacity && exists l, body :: ContainerStart(text, stack, inString, escape, l, body)
    case StringValue(text, escape) => |text| <= cfg.capacity && exists body :: StringStart(text, body, escape)
    case NumberValue(text) => |text| <= cfg.capacity
    case LiteralValue(text, literal) =>
      && |text| <= cfg.capacity && |text| < |literal| && text == literal[..|text|]
      && (literal == Literal('t') || literal == Literal('f') || literal == Literal('n'))
  }

  /** A complete value that fits the buffer. */
  ghost predicate IsValue(cfg: Config, text: string) {
    |text| <= cfg.capacity && exists v :: GoodValue(v) && ValueText(v) == text
  }

  /** A step emits at most one text, and that is a value. */
  ghost predicate SoundStep(cfg: Config, r: Reader, next: Reader) {
    && Beginning(cfg, next.state)
    && (next.emitted == r.emitted ||
        (|next.emitted| == |r.emitted| + 1 && r.emitted == next.emitted[..|r.emitted|] &&
         IsValue(cfg, next.emitted[|r.emitted|])))
  }

  // ----- Strings -----

  lemma {:induction false} BodyAppend(a: string, b: string)
    requires StringBody(a) && StringBody(b)
    ensures StringBody(a + b)
    decreases |a|
  {
    if a == "" {
      assert a + b == b;
    } else {
      var n := if a[0] == '\\' then 2 else 1;
      BodyAppend(a[n..], b);
      assert (a + b)[n..] == a[n..] + b;
    }
  }

  /** One more byte of a string that does not close it. */
  lemma StringGoesOn(text: string, body: string, escape: bool, c: char) returns (next: string)
    requires StringStart(text, body, escape) && (escape || c != '"')
    ensures StringStart(text + [c], next, !escape && c == '\\')
  {
    if escape {
      assert "\\" + [c] == ['\\', c];
      assert StringBody(['\\', c]) by { assert ['\\', c][2..] == ""; }
      BodyAppend(body, ['\\', c]);
      next := body + ['\\', c];
      assert text + [c] == "\"" + next + "";
    } else if c == '\\' {
      next := body;
      assert text + [c] == "\"" + body + "\\";
    } else {
      assert StringBody([c]) by { assert [c][1..] == ""; }
      BodyAppend(body, [c]);
      next := body + [c];
      assert text + [c] == "\"" + next + "";
    }
  }

  lemma StringCloses(text: string, body: string)
    requires StringStart(text, body, false)
    ensures text + ['"'] == "\"" + body + "\""
  {
    assert text == "\"" + body;
  }

  // ----- Containers -----

  lemma Grows(l: Levels, more: Nodes) returns (next: Levels)
    requires l.Level? && GoodLevels(l) && GoodNodes(more)
    ensures next.Level? && GoodLevels(next) && StackOf(next) == StackOf(l) && TextOf(next) == TextOf(l) + Show(more)
  {
    hide Show, GoodNodes;
    JoinedShow(l.nodes, more);
    next := Level(l.below, l.isObject, Joined(l.nodes, more));
    assert TextOf(l.below) + [Open(l.isObject)] + (Show(l.nodes) + Show(more)) == TextOf(l) + Show(more);
  }

  lemma ShowOne(c: char, body: string, isObject: bool, nodes: Nodes)
    ensures Show(Byte(c, End)) == [c]
    ensures Show(Quoted(body, End)) == "\"" + body + "\""
    ensures Show(Group(isObject, nodes, End)) == [Open(isObject)] + Show(nodes) + [Close(isObject)]
  {}

  lemma ContainerStep(cfg: Config, r: Reader, c: char, l: Levels, body: string)
    requires r.state.Container? && |r.state.text| < cfg.capacity
    requires var s := r.state; ContainerStart(s.text, s.stack, s.inString, s.escape, l, body)
    ensures SoundStep(cfg, r, Step(cfg, r, c))
  {
    hide Show, GoodNodes, StringBody, GoodValue, ValueText;
    var s := r.state;
    if s.inString {
      var tail :| StringStart(tail, body, s.escape) && s.text == TextOf(l) + tail;
      if !s.escape && c == '"' {
        StringCloses(tail, body);
        GoodQuoted(body);
        var next := Grows(l, Quoted(body, End));
        ShowOne(c, body, false, End);
        assert s.text + [c] == TextOf(l) + (tail + [c]) == TextOf(next);
        assert ContainerStart(s.text + [c], s.stack, false, false, next, body);
      } else {
        var b := StringGoesOn(tail, body, s.escape, c);
        assert s.text + [c] == TextOf(l) + (tail + [c]);
        assert ContainerStart(s.text + [c], s.stack, true, !s.escape && c == '\\', l, b);
      }
    } else if c == '"' {
      EmptyBody();
      assert StringStart("\"", "", false) by { assert "\"" + "" + "" == "\""; }
      assert ContainerStart(s.text + [c], s.stack, true, false, l, "");
    } else if c == '{' || c == '[' {
      EmptyNodes();
      var next := Level(l, c == '{', End);
      assert TextOf(next) == TextOf(l) + [c] + "" == s.text + [c];
      assert ContainerStart(s.text + [c], s.stack + [c], false, false, next, "");
    } else if c == '}' || c == ']' {
      ContainerCloses(cfg, r, c, l);
    } else {
      GoodByte(c);
      var next := Grows(l, Byte(c, End));
      ShowOne(c, "", false, End);
      assert ContainerStart(s.text + [c], s.stack, false, false, next, "");
    }
  }

  lemma GoodQuoted(body: string)
    requires StringBody(body)
    ensures GoodNodes(Quoted(body, End))
  {}

  lemma GoodByte(c: char)
    requires c != '"' && c != '{' && c != '[' && c != '}' && c != ']'
    ensures GoodNodes(Byte(c, End))
  {}

  lemma EmptyBody()
    ensures StringBody("")
  {}

  lemma EmptyNodes()
    ensures GoodNodes(End) && Show(End) == ""
  {}

  lemma ContainerCloses(cfg: Config, r: Reader, c: char, l: Levels)
    requires r.state.Container? && |r.state.text| < cfg.capacity && !r.state.inString && (c == '}' || c == ']')
    requires var s := r.state; ContainerStart(s.text, s.stack, false, s.escape, l, "")
    ensures SoundStep(cfg, r, Step(cfg, r, c))
  {
    hide Show, GoodNodes, StackOf, TextOf;
    var s := r.state;
    TopLevel(l);
    if Matches(Open(l.isObject), c) {
      assert c == Close(l.isObject);
      var text := s.text + [c];
      var group := [Open(l.isObject)] + Show(l.nodes) + [c];
      assert text == TextOf(l.below) + group;
      if l.below.Top? {
        assert text == group;
        var v := Nested(l.isObject, l.nodes);
        assert GoodValue(v) && ValueText(v) == text;
      } else {
        TopLevel(l.below);
        GroupGood(l.isObject, l.nodes);
        ShowOne(c, "", l.isObject, l.nodes);
        var next := Grows(l.below, Group(l.isObject, l.nodes, End));
        assert ContainerStart(text, StackOf(l.below), false, false, next, "");
      }
    }
  }

  lemma TopLevel(l: Levels)
    requires l.Level?
    ensures StackOf(l) != "" && StackOf(l)[|StackOf(l)| - 1] == Open(l.isObject) &&
            StackOf(l)[..|StackOf(l)| - 1] == StackOf(l.below)
    ensures TextOf(l) == TextOf(l.below) + [Open(l.isObject)] + Show(l.nodes)
    ensures l.below.Top? ==> StackOf(l.below) == "" && TextOf(l.below) == ""
  {
    hide Show;
  }

  lemma GroupGood(isObject: bool, nodes: Nodes)
    requires GoodNodes(nodes)
    ensures GoodNodes(Group(isObject, nodes, End))
  {}

  // ----- One byte -----

  lemma StringStep(cfg: Config, r: Reader, c: char)
    requires r.state.StringValue? && Beginning(cfg, r.state)
    ensures SoundStep(cfg, r, Step(cfg, r, c))
  {
    hide StringBody;
    var s := r.state;
    var body :| StringStart(s.text, body, s.escape);
    if |s.text| >= cfg.capacity {
    } else if !s.escape && c == '"' {
      StringCloses(s.text, body);
      assert GoodValue(Text(body)) && ValueText(Text(body)) == s.text + [c];
    } else {
      var next := StringGoesOn(s.text, body, s.escape, c);
    }
  }

  lemma LiteralStep(cfg: Config, r: Reader, text: string, literal: string, c: char)
    requires |text| <= cfg.capacity && |text| < |literal| && text == literal[..|text|]
    requires literal == Literal('t') || literal == Literal('f') || literal == Literal('n')
    ensures SoundStep(cfg, r, StepLiteral(cfg, r, text, literal, c))
  {
    if literal[|text|] == c && |text| < cfg.capacity {
      assert text + [c] == literal[..|text| + 1];
      assert literal[..|literal|] == literal;
      var v := Word(literal[0]);
      assert GoodValue(v) && ValueText(v) == literal;
    }
  }

  lemma IdleStep(cfg: Config, r: Reader, c: char)
    ensures SoundStep(cfg, r, StepIdle(cfg, r, c))
    ensures StepIdle(cfg, r, c).emitted == r.emitted
  {
    if (cfg.skipSpace && IsSpace(c)) || cfg.capacity == 0 {
    } else if c == '{' || c == '[' {
      var l := Level(Top, c == '{', End);
      assert TextOf(l) == "" + [c] + "" == [c] && StackOf(l) == "" + [c] == [c];
      assert ContainerStart([c], [c], false, false, l, "");
    } else if c == '"' {
      assert StringStart([c], "", false) by { assert "\"" + "" + "" == [c]; }
    } else if c == 't' || c == 'f' || c == 'n' {
      LiteralStep(cfg, r, "", Literal(c), c);
    }
  }

  /** Every byte keeps the buffer the beginning of a value, and emits only values. */
  lemma StepSound(cfg: Config, r: Reader, c: char)
    requires Beginning(cfg, r.state)
    ensures SoundStep(cfg, r, Step(cfg, r, c))
  {
    hide StepIdle, StepContainer, StepString, StepLiteral, IsNumber, Show, StringBody, GoodNodes;
    match r.state
    case Idle => IdleStep(cfg, r, c);
    case Container(text, stack, inString, escape) =>
      if |text| < cfg.capacity {
        var l, body :| ContainerStart(text, stack, inString, escape, l, body);
        ContainerStep(cfg, r, c, l, body);
      }
    case StringValue(_, _) => StringStep(cfg, r, c);
    case NumberValue(text) =>
      if !IsNumberByte(c) {
        var after := if IsNumber(text) then Emit(r, text) else Fail(r);
        IdleStep(cfg, after, c);
        if IsNumber(text) { assert GoodValue(Number(text)) && ValueText(Number(text)) == text; }
      }
    case LiteralValue(text, literal) => LiteralStep(cfg, r, text, literal, c);
  }

  // ----- Pieces of the stream -----

  /** The emitted texts with what was skipped before, between and after them. */
  function Pieces(gaps: seq<string>, emitted: seq<string>): string
    requires |gaps| == |emitted| + 1
  {
    var n := |emitted|;
    if n == 0 then gaps[0] else Pieces(gaps[..n], emitted[..n - 1]) + emitted[n - 1] + gaps[n]
  }

  /** What is buffered. */
  function Pending(s: State): string {
    if s.Idle? then "" else s.text
  }

  ghost predicate CutFrom(r: Reader, s: string, gaps: seq<string>) {
    |gaps| == |r.emitted| + 1 && s == Pieces(gaps, r.emitted) + Pending(r.state)
  }

  /** What becomes of the buffered text and a byte, seen from outside. */
  predicate Outcome(r: Reader, c: char, next: Reader) {
    var text, rest := Pending(r.state), Pending(next.state);
    || (next.emitted == r.emitted && (rest == text + [c] || rest == "" || rest == [c]))
    || (next.emitted == r.emitted + [text + [c]] && rest == "")
    || (next.emitted == r.emitted + [text] && (rest == "" || rest == [c]))
  }

  lemma IdleOutcome(cfg: Config, r: Reader, c: char)
    ensures var next := StepIdle(cfg, r, c);
            next.emitted == r.emitted && (Pending(next.state) == "" || Pending(next.state) == [c])
  {
    assert "" + [c] == [c];
  }

  lemma StepOutcome(cfg: Config, r: Reader, c: char)
    ensures Outcome(r, c, Step(cfg, r, c))
  {
    hide IsNumber, StepIdle;
    match r.state
    case Idle => IdleOutcome(cfg, r, c);
    case NumberValue(text) =>
      if !IsNumberByte(c) { IdleOutcome(cfg, if IsNumber(text) then Emit(r, text) else Fail(r), c); }
    case Container(_, _, _, _) =>
    case StringValue(_, _) =>
    case LiteralValue(_, _) =>
  }

  /** A byte leaves the buffered text, emits it or skips it, from the front. */
  lemma StepCuts(cfg: Config, r: Reader, c: char) returns (text: string, gap: string)
    ensures var next := Step(cfg, r, c);
            && Pending(r.state) + [c] == text + gap + Pending(next.state)
            && (next.emitted == r.emitted + [text] || (next.emitted == r.emitted && text == ""))
  {
    hide Step, Pending;
    StepOutcome(cfg, r, c);
    var next := Step(cfg, r, c);
    var was, rest := Pending(r.state), Pending(next.state);
    if next.emitted == r.emitted {
      text := "";
      gap := if rest == was + [c] then "" else if rest == "" then was + [c] else was;
    } else if next.emitted == r.emitted + [was + [c]] && rest == "" {
      text, gap := was + [c], "";
    } else {
      text, gap := was, if rest == "" then [c] else "";
    }
  }

  lemma LongerGap(gaps: seq<string>, emitted: seq<string>, gap: string)
    requires |gaps| == |emitted| + 1
    ensures var n := |emitted|; Pieces(gaps[n := gaps[n] + gap], emitted) == Pieces(gaps, emitted) + gap
  {
    var n := |emitted|;
    var longer := gaps[n := gaps[n] + gap];
    if n > 0 {
      assert longer[..n] == gaps[..n];
      Regrouped(Pieces(gaps[..n], emitted[..n - 1]) + emitted[n - 1], gaps[n], gap);
    }
  }

  lemma StepCutFrom(cfg: Config, r: Reader, s: string, gaps: seq<string>, c: char) returns (next: seq<string>)
    requires CutFrom(r, s, gaps)
    ensures CutFrom(Step(cfg, r, c), s + [c], next)
  {
    hide Step, Pending;
    var after := Step(cfg, r, c);
    var text, gap := StepCuts(cfg, r, c);
    var done := Pieces(gaps, r.emitted);
    var n := |r.emitted|;
    assert s + [c] == done + text + gap + Pending(after.state) by {
      assert s + [c] == done + (Pending(r.state) + [c]);
    }
    if after.emitted == r.emitted {
      LongerGap(gaps, r.emitted, gap);
      next := gaps[n := gaps[n] + gap];
      assert done + text + gap == done + gap;
    } else {
      next := gaps + [gap];
      assert next[..n + 1] == gaps && after.emitted[..n] == r.emitted;
      assert Pieces(next, after.emitted) == done + text + gap;
    }
  }

  // ----- The stream -----

  lemma {:induction false} RunSound(cfg: Config, r: Reader, before: string, gaps: seq<string>, s: string)
    returns (next: seq<string>)
    requires Beginning(cfg, r.state) && CutFrom(r, before, gaps)
    requires forall text :: text in r.emitted ==> IsValue(cfg, text)
    ensures var end := Run(cfg, r, s);
            && Beginning(cfg, end.state) && CutFrom(end, before + s, next)
            && forall text :: text in end.emitted ==> IsValue(cfg, text)
    decreases |s|
  {
    hide Step, Beginning, CutFrom, IsValue;
    if s == "" {
      assert before + s == before;
      next := gaps;
    } else {
      StepSound(cfg, r, s[0]);
      var after := StepCutFrom(cfg, r, before, gaps, s[0]);
      EmittedGood(cfg, r, Step(cfg, r, s[0]));
      next := RunSound(cfg, Step(cfg, r, s[0]), before + [s[0]], after, s[1..]);
      assert before + [s[0]] + s[1..] == before + s;
    }
  }

  lemma EmittedGood(cfg: Config, r: Reader, next: Reader)
    requires SoundStep(cfg, r, next)
    requires forall text :: text in r.emitted ==> IsValue(cfg, text)
    ensures forall text :: text in next.emitted ==> IsValue(cfg, text)
  {
    hide IsValue, Beginning;
    if next.emitted != r.emitted {
      assert next.emitted == r.emitted + [next.emitted[|r.emitted|]];
    }
  }

  /**
   For any bytes: every emitted text is a complete value within the buffer
   size, and the stream is the emitted texts in order with what was skipped
   around them, then the beginning of a value that is still buffered.
   */
  lemma FramesOnlyValues(cfg: Config, r: Reader, s: string) returns (gaps: seq<string>)
    requires r.state.Idle? && r.emitted == []
    ensures var end := Run(cfg, r, s);
            && (forall text :: text in end.emitted ==> IsValue(cfg, text))
            && |gaps| == |end.emitted| + 1
            && s == Pieces(gaps, end.emitted) + Pending(end.state)
            && Beginning(cfg, end.state)
  {
    assert Pieces([""], r.emitted) + Pending(r.state) == "" + "" == "";
    gaps := RunSound(cfg, r, "", [""], s);
    assert "" + s == s;
  }
}
