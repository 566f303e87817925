/**
 The JSON stream framer: a pushdown automaton that cuts a byte stream into
 complete JSON values without parsing them into a tree.
 */
module JsonFramer {
  import opened JsonText

  // ----- Characters and numbers -----

  predicate IsSpace(c: char) {
    c == ' ' || c == '\t' || c == '\r' || c == '\n'
  }

  predicate IsDigit(c: char) {
    '0' <= c <= '9'
  }

  predicate IsNumberByte(c: char) {
    IsDigit(c) || c == '-' || c == '+' || c == '.' || c == 'e' || c == 'E'
  }

  predicate Digits(s: string) {
    forall i :: 0 <= i < |s| ==> IsDigit(s[i])
  }

  // The grammar of numbers in section 6 of RFC 8259.

  predicate IsInt(s: string) {
    s == "0" || (s != "" && '1' <= s[0] <= '9' && Digits(s))
  }

  predicate IsFrac(s: string) {
    s == "" || (|s| > 1 && s[0] == '.' && Digits(s[1..]))
  }

  predicate IsExp(s: string) {
    s == "" ||
    ((s[0] == 'e' || s[0] == 'E') &&
     (var n := if |s| > 1 && (s[1] == '+' || s[1] == '-') then 2 else 1; |s| > n && Digits(s[n..])))
  }

  predicate IsFracExp(s: string) {
    exists n :: 0 <= n <= |s| && IsFrac(s[..n]) && IsExp(s[n..])
  }

  predicate IsUnsigned(s: string) {
    exists n :: 0 <= n <= |s| && IsInt(s[..n]) && IsFracExp(s[n..])
  }

  predicate IsNumber(s: string) {
    if s != "" && s[0] == '-' then IsUnsigned(s[1..]) else IsUnsigned(s)
  }

  /** Reads digits as far as they go. */
  method SkipDigits(s: string, from: nat) returns (i: nat)
    requires from <= |s|
    ensures from <= i <= |s| && Digits(s[from..i]) && (i < |s| ==> !IsDigit(s[i]))
  {
    i := from;
    while i < |s| && IsDigit(s[i])
      invariant from <= i <= |s| && Digits(s[from..i])
    {
      assert s[from..i + 1] == s[from..i] + [s[i]];
      i := i + 1;
    }
  }

  method ValidNumber(s: string) returns (r: bool)
    ensures r <==> IsNumber(s)
  {
    hide IsUnsigned;
    if |s| == 0 { NotNumber(s); return false; }
    var i := 0;
    if s[0] == '-' {
      i := 1;
      if i == |s| { NotNumber(s[1..]); return false; }
    }
    assert s[0..] == s;
    r := ValidUnsigned(s, i);
  }

  method ValidUnsigned(s: string, from: nat) returns (r: bool)
    requires from < |s|
    ensures r <==> IsUnsigned(s[from..])
  {
    hide IsUnsigned, IsFracExp;
    ghost var t := s[from..];
    var i := from;
    if s[i] == '0' {
      i := i + 1;
      assert t[..1] == "0";
    } else if '1' <= s[i] <= '9' {
      i := SkipDigits(s, i);
    } else {
      IntIsGreedy(t, 0);
      return false;
    }
    assert s[from..i] == t[..i - from] && s[i..] == t[i - from..];
    assert i < |s| ==> s[i] == t[i - from];
    IntIsGreedy(t, i - from);
    r := ValidFracExp(s, i);
  }

  /** The rest after the integer part. */
  method ValidFracExp(s: string, from: nat) returns (r: bool)
    requires from <= |s|
    ensures r <==> IsFracExp(s[from..])
  {
    hide IsExp, IsFracExp;
    var i := from;
    ghost var t := s[from..];
    if i < |s| && s[i] == '.' {
      i := i + 1;
      if i == |s| || !IsDigit(s[i]) {
        FracIsGreedy(t, 0);
        return false;
      }
      i := SkipDigits(s, i);
    }
    assert s[from..i] == t[..i - from] && s[i..] == t[i - from..];
    assert i < |s| ==> s[i] == t[i - from];
    assert i > from ==> s[from + 1..i] == t[1..i - from] == t[..i - from][1..];
    FracIsGreedy(t, i - from);
    r := ValidExp(s, i);
  }

  method ValidExp(s: string, from: nat) returns (r: bool)
    requires from <= |s|
    ensures r <==> IsExp(s[from..])
  {
    hide IsExp, Digits;
    ghost var t := s[from..];
    if from == |s| || !(s[from] == 'e' || s[from] == 'E') {
      NotExp(t);
      return from == |s|;
    }
    var i := from + 1;
    if i < |s| && (s[i] == '+' || s[i] == '-') { i := i + 1; }
    ghost var n := i - from;
    assert t[0] == s[from] && (|t| > 1 ==> t[1] == s[from + 1]);
    var end := SkipDigits(s, i);
    assert s[i..end] == t[n..end - from];
    assert end < |s| ==> t[end - from] == s[end];
    ExpFrom(t, n, end - from);
    return end == |s| && end > i;
  }

  lemma NotExp(t: string)
    requires t == "" || !(t[0] == 'e' || t[0] == 'E')
    ensures IsExp(t) <==> t == ""
  {}

  /** An exponent is its letter, a sign if there is one, and the digits up to the end. */
  lemma ExpFrom(t: string, n: nat, k: nat)
    requires t != "" && (t[0] == 'e' || t[0] == 'E')
    requires n == if |t| > 1 && (t[1] == '+' || t[1] == '-') then 2 else 1
    requires n <= k <= |t| && Digits(t[n..k]) && (k < |t| ==> !IsDigit(t[k]))
    ensures IsExp(t) <==> k == |t| && k > n
  {
    if k < |t| {
      assert t[n..][k - n] == t[k];
    } else {
      assert t[n..k] == t[n..];
    }
  }

  lemma NotNumber(s: string)
    requires s == ""
    ensures !IsUnsigned(s) && (s == "" ==> !IsNumber(s))
  {}

  lemma FracExpStart(s: string)
    requires IsFracExp(s) && s != ""
    ensures !IsDigit(s[0])
  {
    var n :| 0 <= n <= |s| && IsFrac(s[..n]) && IsExp(s[n..]);
    if n > 0 { assert s[..n][0] == s[0]; } else { assert s[n..] == s; }
  }

  /** The integer part cannot end anywhere else than where reading it stops; zero means it does not even start. */
  lemma IntIsGreedy(t: string, n: nat)
    requires n <= |t|
    requires n == 0 ==> t != "" && !IsDigit(t[0])
    requires n > 0 ==> IsInt(t[..n]) && (n < |t| && t[0] != '0' ==> !IsDigit(t[n]))
    ensures IsUnsigned(t) <==> n > 0 && IsFracExp(t[n..])
  {
    hide IsFracExp, IsInt;
    if IsUnsigned(t) {
      var m :| 0 <= m <= |t| && IsInt(t[..m]) && IsFracExp(t[m..]);
      IntDigits(t, m);
      if m < |t| { FracExpStart(t[m..]); }
      if n > 0 { IntDigits(t, n); }
      assert m == n;
    }
  }

  /** An integer part is a lone zero, or digits that do not start with one. */
  lemma IntDigits(t: string, n: nat)
    requires n <= |t| && IsInt(t[..n])
    ensures 0 < n && IsDigit(t[0]) && (t[0] == '0' ==> n == 1) && forall k :: 0 <= k < n ==> IsDigit(t[k])
  {
    assert n > 0 && t[..n][0] == t[0];
    assert forall k :: 0 <= k < n ==> t[..n][k] == t[k];
  }

  lemma FracIsGreedy(t: string, n: nat)
    requires n <= |t| && (n == 0 || IsFrac(t[..n]))
    requires n == 0 && t != "" && t[0] == '.' ==> |t| == 1 || !IsDigit(t[1])
    requires n > 0 && n < |t| ==> !IsDigit(t[n])
    ensures IsFracExp(t) <==> (n > 0 || t == "" || t[0] != '.') && IsExp(t[n..])
  {
    if IsFracExp(t) {
      var m :| 0 <= m <= |t| && IsFrac(t[..m]) && IsExp(t[m..]);
      if m > 0 { assert t[..m][0] == t[0] && t[..m][1] == t[1] && t[..m][1..][0] == t[1]; } else { assert t[m..] == t; }
      if n > 0 { assert t[..n][0] == t[0]; }
      assert forall k :: 1 <= k < m ==> t[..m][1..][k - 1] == t[k];
      assert forall k :: 1 <= k < n ==> t[..n][1..][k - 1] == t[k];
      if m < |t| { assert t[m..][0] == t[m]; }
      if n == 0 && t != "" { assert t[0..] == t; }
    }
  }

  // ----- The automaton -----

  datatype Config = Config(capacity: nat, skipSpace: bool)

  datatype State =
    | Idle
    | Container(text: string, stack: string, inString: bool, escape: bool)
    | StringValue(text: string, escape: bool)
    | NumberValue(text: string)
    | LiteralValue(text: string, literal: string)

  /** The state, the values emitted so far and the error counters. */
  datatype Reader = Reader(state: State, emitted: seq<string>, errors: nat, overflows: nat)

  function Fail(r: Reader): Reader {
    r.(state := Idle, errors := r.errors + 1)
  }

  function Overflow(r: Reader): Reader {
    r.(state := Idle, overflows := r.overflows + 1)
  }

  function Emit(r: Reader, text: string): Reader {
    r.(state := Idle, emitted := r.emitted + [text])
  }

  function Literal(c: char): string {
    if c == 't' then "true" else if c == 'f' then "false" else "null"
  }

  function StepIdle(cfg: Config, r: Reader, c: char): Reader {
    if cfg.skipSpace && IsSpace(c) then r.(state := Idle)
    else if c == '{' || c == '[' || c == '"' || c == '-' || IsDigit(c) then
      if cfg.capacity == 0 then Overflow(r)
      else if c == '{' || c == '[' then r.(state := Container([c], [c], false, false))
      else if c == '"' then r.(state := StringValue([c], false))
      else r.(state := NumberValue([c]))
    else if c == 't' || c == 'f' || c == 'n' then StepLiteral(cfg, r, "", Literal(c), c)
    else Fail(r)
  }

  function StepLiteral(cfg: Config, r: Reader, text: string, literal: string, c: char): Reader {
    if |text| >= |literal| || literal[|text|] != c then Fail(r)
    else if |text| >= cfg.capacity then Overflow(r)
    else if |text| + 1 == |literal| then Emit(r, text + [c])
    else r.(state := LiteralValue(text + [c], literal))
  }

  function StepContainer(r: Reader, text: string, stack: string, inString: bool, escape: bool, c: char): Reader {
    if inString then
      if escape then r.(state := Container(text, stack, true, false))
      else if c == '\\' then r.(state := Container(text, stack, true, true))
      else r.(state := Container(text, stack, c != '"', false))
    else if c == '"' then r.(state := Container(text, stack, true, escape))
    else if c == '{' || c == '[' then r.(state := Container(text, stack + [c], inString, escape))
    else if c == '}' || c == ']' then
      if stack == "" || !Matches(stack[|stack| - 1], c) then Fail(r)
      else if |stack| == 1 then Emit(r, text)
      else r.(state := Container(text, stack[..|stack| - 1], inString, escape))
    else r.(state := Container(text, stack, inString, escape))
  }

  predicate Matches(open: char, c: char) {
    !((open == '{' && c != '}') || (open == '[' && c != ']'))
  }

  function StepString(r: Reader, text: string, escape: bool, c: char): Reader {
    if escape then r.(state := StringValue(text, false))
    else if c == '\\' then r.(state := StringValue(text, true))
    else if c == '"' then Emit(r, text)
    else r.(state := StringValue(text, false))
  }

  function Step(cfg: Config, r: Reader, c: char): Reader {
    match r.state
    case Idle => StepIdle(cfg, r, c)
    case Container(text, stack, inString, escape) =>
      if |text| >= cfg.capacity then Overflow(r) else StepContainer(r, text + [c], stack, inString, escape, c)
    case StringValue(text, escape) =>
      if |text| >= cfg.capacity then Overflow(r) else StepString(r, text + [c], escape, c)
    case NumberValue(text) =>
      if IsNumberByte(c) then
        if |text| >= cfg.capacity then Overflow(r) else r.(state := NumberValue(text + [c]))
      else StepIdle(cfg, if IsNumber(text) then Emit(r, text) else Fail(r), c)
    case LiteralValue(text, literal) => StepLiteral(cfg, r, text, literal, c)
  }

  /**
   A value that has filled the buffer and goes on is dropped and counted as one
   overflow; nothing is emitted for it.
   */
  lemma FullBufferOverflows(cfg: Config, r: Reader, c: char)
    requires !r.state.Idle? && |r.state.text| >= cfg.capacity
    requires r.state.NumberValue? ==> IsNumberByte(c)
    requires r.state.LiteralValue? ==> |r.state.text| < |r.state.literal| && r.state.literal[|r.state.text|] == c
    ensures Step(cfg, r, c) == Reader(Idle, r.emitted, r.errors, r.overflows + 1)
  {
    hide IsNumber;
  }

  function Run(cfg: Config, r: Reader, s: string): Reader
    decreases |s|
  {
    if s == "" then r else Run(cfg, Step(cfg, r, s[0]), s[1..])
  }

  /** However the stream is cut into polls, the reader ends the same. */
  lemma {:induction false} RunConcat(cfg: Config, r: Reader, a: string, b: string)
    ensures Run(cfg, r, a + b) == Run(cfg, Run(cfg, r, a), b)
    decreases |a|
  {
    hide Step;
    if a == "" {
      assert a + b == b;
    } else {
      assert (a + b)[1..] == a[1..] + b;
      RunConcat(cfg, Step(cfg, r, a[0]), a[1..], b);
    }
  }

  lemma RunOne(cfg: Config, r: Reader, c: char)
    ensures Run(cfg, r, [c]) == Step(cfg, r, c)
  {
    hide Step;
    assert [c][1..] == "";
  }

  // ----- Values -----

  /** The inside of a JSON string: no bare quote, and every escape complete. */
  predicate StringBody(s: string) {
    s == "" ||
    (if s[0] == '\\' then |s| >= 2 && StringBody(s[2..]) else s[0] != '"' && StringBody(s[1..]))
  }

  /**
   What stands inside a container: bytes that mean nothing to the framer
   (spaces, separators, numbers, literals), strings, and nested containers.
   */
  datatype Nodes =
    | End
    | Byte(c: char, rest: Nodes)
    | Quoted(body: string, rest: Nodes)
    | Group(isObject: bool, inside: Nodes, rest: Nodes)

  predicate GoodNodes(n: Nodes) {
    match n
    case End => true
    case Byte(c, rest) => c !in "\"{}[]" && GoodNodes(rest)
    case Quoted(body, rest) => StringBody(body) && GoodNodes(rest)
    case Group(_, inside, rest) => GoodNodes(inside) && GoodNodes(rest)
  }

  function Open(isObject: bool): char { if isObject then '{' else '[' }

  function Close(isObject: bool): char { if isObject then '}' else ']' }

  function Show(n: Nodes): string {
    match n
    case End => ""
    case Byte(c, rest) => [c] + Show(rest)
    case Quoted(body, rest) => "\"" + body + "\"" + Show(rest)
    case Group(isObject, inside, rest) => [Open(isObject)] + Show(inside) + [Close(isObject)] + Show(rest)
  }

  datatype Value = Number(text: string) | Word(first: char) | Text(body: string) | Nested(isObject: bool, inside: Nodes)

  predicate GoodValue(v: Value) {
    match v
    case Number(text) => IsNumber(text)
    case Word(first) => first == 't' || first == 'f' || first == 'n'
    case Text(body) => StringBody(body)
    case Nested(_, inside) => GoodNodes(inside)
  }

  function ValueText(v: Value): string {
    match v
    case Number(text) => text
    case Word(first) => if first == 't' then "true" else if first == 'f' then "false" else "null"
    case Text(body) => "\"" + body + "\""
    case Nested(isObject, inside) => [Open(isObject)] + Show(inside) + [Close(isObject)]
  }

  function Inside(r: Reader, text: string, stack: string): Reader {
    r.(state := Container(text, stack, false, false))
  }

  /** A string inside a container is passed through. */
  lemma {:induction false} RunBody(cfg: Config, r: Reader, text: string, stack: string, body: string)
    requires StringBody(body) && |text| + |body| <= cfg.capacity
    ensures Run(cfg, r.(state := Container(text, stack, true, false)), body) ==
            r.(state := Container(text + body, stack, true, false))
    decreases |body|
  {
    if body == "" {
      assert text + body == text;
    } else {
      var start := r.(state := Container(text, stack, true, false));
      var n := if body[0] == '\\' then 2 else 1;
      assert body == body[..n] + body[n..] && text + body == text + body[..n] + body[n..];
      RunConcat(cfg, start, body[..n], body[n..]);
      if n == 1 {
        assert body[..1] == [body[0]];
        RunOne(cfg, start, body[0]);
      } else {
        assert body[..2] == [body[0]] + [body[1]];
        RunConcat(cfg, start, [body[0]], [body[1]]);
        RunOne(cfg, start, body[0]);
        RunOne(cfg, r.(state := Container(text + [body[0]], stack, true, true)), body[1]);
        assert text + [body[0]] + [body[1]] == text + body[..2];
      }
      RunBody(cfg, r, text + body[..n], stack, body[n..]);
    }
  }

  /** What stands inside a container is passed through, and the containers open around it stay open. */
  lemma {:induction false} RunNodes(cfg: Config, r: Reader, text: string, stack: string, n: Nodes)
    requires GoodNodes(n) && |text| + |Show(n)| <= cfg.capacity && stack != ""
    ensures Run(cfg, Inside(r, text, stack), Show(n)) == Inside(r, text + Show(n), stack)
    decreases n
  {
    hide Step, Run;
    var start := Inside(r, text, stack);
    match n
    case End =>
      assert text + "" == text;
      RunNothing(cfg, start);
    case Byte(c, rest) =>
      assert text + Show(n) == text + [c] + Show(rest);
      RunConcat(cfg, start, [c], Show(rest));
      RunByte(cfg, r, text, stack, c);
      RunNodes(cfg, r, text + [c], stack, rest);
    case Quoted(body, rest) =>
      var q := "\"" + body + "\"";
      assert text + Show(n) == text + q + Show(rest);
      RunConcat(cfg, start, q, Show(rest));
      RunQuoted(cfg, r, text, stack, body);
      RunNodes(cfg, r, text + q, stack, rest);
    case Group(isObject, inside, rest) =>
      var o, c := Open(isObject), Close(isObject);
      var g := [o] + Show(inside) + [c];
      assert text + Show(n) == text + g + Show(rest);
      RunConcat(cfg, start, g, Show(rest));
      RunConcat(cfg, start, [o] + Show(inside), [c]);
      RunConcat(cfg, start, [o], Show(inside));
      RunOpen(cfg, r, text, stack, isObject);
      RunNodes(cfg, r, text + [o], stack + [o], inside);
      var t := text + [o] + Show(inside);
      RunClose(cfg, r, t, stack, isObject);
      assert t + [c] == text + g;
      RunNodes(cfg, r, text + g, stack, rest);
  }

  lemma RunNothing(cfg: Config, r: Reader)
    ensures Run(cfg, r, "") == r
  {}

  lemma RunByte(cfg: Config, r: Reader, text: string, stack: string, c: char)
    requires c !in "\"{}[]" && |text| < cfg.capacity
    ensures Run(cfg, Inside(r, text, stack), [c]) == Inside(r, text + [c], stack)
  {
    RunOne(cfg, Inside(r, text, stack), c);
  }

  lemma RunQuoted(cfg: Config, r: Reader, text: string, stack: string, body: string)
    requires StringBody(body) && |text| + |body| + 2 <= cfg.capacity
    ensures Run(cfg, Inside(r, text, stack), "\"" + body + "\"") == Inside(r, text + ("\"" + body + "\""), stack)
  {
    hide Run, StringBody;
    var start := Inside(r, text, stack);
    RunConcat(cfg, start, "\"" + body, "\"");
    RunConcat(cfg, start, "\"", body);
    RunOne(cfg, start, '"');
    RunBody(cfg, r, text + "\"", stack, body);
    var t := text + "\"" + body;
    RunOne(cfg, r.(state := Container(t, stack, true, false)), '"');
    assert t + "\"" == text + ("\"" + body + "\"");
  }

  lemma RunOpen(cfg: Config, r: Reader, text: string, stack: string, isObject: bool)
    requires |text| < cfg.capacity
    ensures Run(cfg, Inside(r, text, stack), [Open(isObject)]) ==
            Inside(r, text + [Open(isObject)], stack + [Open(isObject)])
  {
    RunOne(cfg, Inside(r, text, stack), Open(isObject));
  }

  lemma RunClose(cfg: Config, r: Reader, text: string, stack: string, isObject: bool)
    requires |text| < cfg.capacity
    ensures var c := Close(isObject);
            Run(cfg, Inside(r, text, stack + [Open(isObject)]), [c]) ==
            if stack == "" then Emit(r, text + [c]) else Inside(r, text + [c], stack)
  {
    RunOne(cfg, Inside(r, text, stack + [Open(isObject)]), Close(isObject));
    assert (stack + [Open(isObject)])[..|stack|] == stack;
  }

  /** A value that ends by itself is emitted with its last byte. */
  lemma RunSelfDelimited(cfg: Config, r: Reader, v: Value)
    requires GoodValue(v) && !v.Number? && r.state.Idle? && |ValueText(v)| <= cfg.capacity
    ensures Run(cfg, r, ValueText(v)) == Emit(r, ValueText(v))
  {
    match v
    case Word(first) => RunWord(cfg, r, first);
    case Text(body) => RunText(cfg, r, body);
    case Nested(isObject, inside) => RunNested(cfg, r, isObject, inside);
  }

  lemma RunNested(cfg: Config, r: Reader, isObject: bool, inside: Nodes)
    requires GoodNodes(inside) && r.state.Idle? && |Show(inside)| + 2 <= cfg.capacity
    ensures var all := [Open(isObject)] + Show(inside) + [Close(isObject)];
            Run(cfg, r, all) == Emit(r, all)
  {
    hide Run, Show, GoodNodes;
    var o, c := Open(isObject), Close(isObject);
    RunConcat(cfg, r, [o] + Show(inside), [c]);
    RunConcat(cfg, r, [o], Show(inside));
    RunOne(cfg, r, o);
    assert Step(cfg, r, o) == Inside(r, [o], [o]);
    RunNodes(cfg, r, [o], [o], inside);
    assert [] + [o] == [o];
    RunClose(cfg, r, [o] + Show(inside), "", isObject);
  }

  lemma RunText(cfg: Config, r: Reader, body: string)
    requires StringBody(body) && r.state.Idle? && |body| + 2 <= cfg.capacity
    ensures Run(cfg, r, "\"" + body + "\"") == Emit(r, "\"" + body + "\"")
  {
    hide Run, StringBody;
    RunConcat(cfg, r, "\"" + body, "\"");
    RunConcat(cfg, r, "\"", body);
    RunOne(cfg, r, '"');
    RunStringBody(cfg, r, "\"", body);
    RunOne(cfg, r.(state := StringValue("\"" + body, false)), '"');
  }

  lemma {:induction false} RunStringBody(cfg: Config, r: Reader, text: string, body: string)
    requires StringBody(body) && |text| + |body| <= cfg.capacity
    ensures Run(cfg, r.(state := StringValue(text, false)), body) == r.(state := StringValue(text + body, false))
    decreases |body|
  {
    if body == "" {
      assert text + body == text;
    } else {
      var start := r.(state := StringValue(text, false));
      var n := if body[0] == '\\' then 2 else 1;
      assert body == body[..n] + body[n..] && text + body == text + body[..n] + body[n..];
      RunConcat(cfg, start, body[..n], body[n..]);
      if n == 1 {
        assert body[..1] == [body[0]];
        RunOne(cfg, start, body[0]);
      } else {
        assert body[..2] == [body[0]] + [body[1]];
        RunConcat(cfg, start, [body[0]], [body[1]]);
        RunOne(cfg, start, body[0]);
        RunOne(cfg, r.(state := StringValue(text + [body[0]], true)), body[1]);
        assert text + [body[0]] + [body[1]] == text + body[..2];
      }
      RunStringBody(cfg, r, text + body[..n], body[n..]);
    }
  }

  lemma {:induction false} RunLiteral(cfg: Config, r: Reader, literal: string, n: nat)
    requires 0 < n < |literal| <= cfg.capacity
    ensures Run(cfg, r.(state := LiteralValue(literal[..n], literal)), literal[n..]) == Emit(r, literal)
    decreases |literal| - n
  {
    var start := r.(state := LiteralValue(literal[..n], literal));
    assert literal[n..] == [literal[n]] + literal[n + 1..];
    RunConcat(cfg, start, [literal[n]], literal[n + 1..]);
    RunOne(cfg, start, literal[n]);
    assert literal[..n] + [literal[n]] == literal[..n + 1];
    if n + 1 == |literal| {
      assert literal[..n + 1] == literal && literal[n + 1..] == "";
    } else {
      RunLiteral(cfg, r, literal, n + 1);
    }
  }

  lemma WordStart(cfg: Config, r: Reader, first: char)
    requires (first == 't' || first == 'f' || first == 'n') && r.state.Idle? && 0 < cfg.capacity
    ensures Step(cfg, r, first) == r.(state := LiteralValue("" + [first], Literal(first)))
  {
    assert !IsSpace(first) && !IsDigit(first);
  }

  lemma RunWord(cfg: Config, r: Reader, first: char)
    requires (first == 't' || first == 'f' || first == 'n') && r.state.Idle? && |Literal(first)| <= cfg.capacity
    ensures Run(cfg, r, Literal(first)) == Emit(r, Literal(first))
  {
    hide Run;
    var literal := Literal(first);
    assert literal == [literal[0]] + literal[1..] && literal[0] == first;
    RunConcat(cfg, r, [first], literal[1..]);
    RunOne(cfg, r, first);
    assert literal[..1] == "" + [first];
    WordStart(cfg, r, first);
    RunLiteral(cfg, r, literal, 1);
  }

  /** A number is collected; the byte after it emits it and is then read as if nothing came before. */
  lemma RunNumber(cfg: Config, r: Reader, text: string)
    requires IsNumber(text) && r.state.Idle? && |text| <= cfg.capacity
    ensures Run(cfg, r, text) == r.(state := NumberValue(text))
  {
    hide Run, IsNumber;
    NumberBytes(text);
    assert text == [text[0]] + text[1..] && text[..1] == [text[0]];
    RunConcat(cfg, r, [text[0]], text[1..]);
    RunOne(cfg, r, text[0]);
    RunNumberRest(cfg, r, text, 1);
  }

  lemma {:induction false} RunNumberRest(cfg: Config, r: Reader, text: string, n: nat)
    requires 0 < n <= |text| <= cfg.capacity && NumberBytesOnly(text)
    ensures Run(cfg, r.(state := NumberValue(text[..n])), text[n..]) == r.(state := NumberValue(text))
    decreases |text| - n
  {
    hide IsNumber;
    if n == |text| {
      assert text[..n] == text && text[n..] == "";
    } else {
      var start := r.(state := NumberValue(text[..n]));
      assert text[n..] == [text[n]] + text[n + 1..];
      RunConcat(cfg, start, [text[n]], text[n + 1..]);
      RunOne(cfg, start, text[n]);
      assert text[..n] + [text[n]] == text[..n + 1];
      RunNumberRest(cfg, r, text, n + 1);
    }
  }

  predicate NumberBytesOnly(s: string) {
    forall i :: 0 <= i < |s| ==> IsNumberByte(s[i])
  }

  lemma NumberBytes(text: string)
    requires IsNumber(text)
    ensures text != "" && (text[0] == '-' || IsDigit(text[0])) && NumberBytesOnly(text)
  {
    hide IsUnsigned;
    if text == "" {
      NotNumber(text);
    } else if text[0] == '-' {
      UnsignedBytes(text[1..]);
      assert text == [text[0]] + text[1..];
    } else {
      UnsignedBytes(text);
    }
  }

  lemma UnsignedBytes(t: string)
    requires IsUnsigned(t)
    ensures t != "" && IsDigit(t[0]) && NumberBytesOnly(t)
  {
    hide IsFracExp;
    var n :| 0 <= n <= |t| && IsInt(t[..n]) && IsFracExp(t[n..]);
    assert t == t[..n] + t[n..] && t[..n][0] == t[0];
    assert NumberBytesOnly(t[..n]);
    FracExpBytes(t[n..]);
  }

  lemma FracExpBytes(u: string)
    requires IsFracExp(u)
    ensures NumberBytesOnly(u)
  {
    hide IsFrac, IsExp;
    var m :| 0 <= m <= |u| && IsFrac(u[..m]) && IsExp(u[m..]);
    FracBytes(u[..m]);
    ExpBytes(u[m..]);
    assert u == u[..m] + u[m..];
  }

  lemma FracBytes(s: string)
    requires IsFrac(s)
    ensures NumberBytesOnly(s)
  {
    if s != "" { assert s == [s[0]] + s[1..]; }
  }

  lemma ExpBytes(s: string)
    requires IsExp(s)
    ensures NumberBytesOnly(s)
  {
    if s != "" {
      var n := if |s| > 1 && (s[1] == '+' || s[1] == '-') then 2 else 1;
      assert s == s[..n] + s[n..];
    }
  }

  // ----- Streams of values -----

  /** A value and the spaces before it. */
  datatype Item = Item(space: string, value: Value)

  predicate Spaces(s: string) {
    forall i :: 0 <= i < |s| ==> s[i] in " \t\r\n"
  }

  /** Every value is complete and fits the buffer. */
  predicate GoodItems(cfg: Config, items: seq<Item>) {
    forall i :: 0 <= i < |items| ==>
      Spaces(items[i].space) && GoodValue(items[i].value) && |ValueText(items[i].value)| <= cfg.capacity
  }

  /** What follows the values starts with a byte that cannot belong to a number. */
  predicate Breaks(items: seq<Item>, tail: string) {
    if items == [] then tail != "" else items[0].space != "" || !items[0].value.Number?
  }

  /** A number is followed by a byte that cannot belong to it. */
  predicate Separated(items: seq<Item>, tail: string) {
    items == [] || ((items[0].value.Number? ==> Breaks(items[1..], tail)) && Separated(items[1..], tail))
  }

  function StreamText(items: seq<Item>, tail: string): string {
    if items == [] then tail else items[0].space + ValueText(items[0].value) + StreamText(items[1..], tail)
  }

  function Texts(items: seq<Item>): seq<string> {
    if items == [] then [] else [ValueText(items[0].value)] + Texts(items[1..])
  }

  function SpaceErrors(cfg: Config, items: seq<Item>, tail: string): nat {
    if cfg.skipSpace then 0
    else if items == [] then |tail| else |items[0].space| + SpaceErrors(cfg, items[1..], tail)
  }

  lemma {:induction false} RunSpaces(cfg: Config, r: Reader, s: string)
    requires Spaces(s) && r.state.Idle?
    ensures Run(cfg, r, s) == r.(errors := r.errors + if cfg.skipSpace then 0 else |s|)
    decreases |s|
  {
    if s != "" { RunSpaces(cfg, Step(cfg, r, s[0]), s[1..]); }
  }

  /** The byte after a number is read as if the number had been emitted before. */
  lemma AfterNumber(cfg: Config, r: Reader, text: string, s: string)
    requires IsNumber(text) && r.state.Idle? && s != "" && !IsNumberByte(s[0])
    ensures Run(cfg, r.(state := NumberValue(text)), s) == Run(cfg, Emit(r, text), s)
  {
    hide IsNumber;
    assert Emit(r.(state := NumberValue(text)), text) == Emit(r, text);
  }

  /** What follows a number starts with a byte that is not part of one. */
  lemma NextByte(items: seq<Item>, tail: string)
    requires forall i :: 0 <= i < |items| ==> Spaces(items[i].space) && GoodValue(items[i].value)
    requires Spaces(tail)
    requires Breaks(items, tail)
    ensures StreamText(items, tail) != "" && !IsNumberByte(StreamText(items, tail)[0])
  {
    hide GoodNodes, StringBody, IsNumber, Show;
    if items != [] && items[0].space == "" {
      var v := ValueText(items[0].value);
      assert StreamText(items, tail)[0] == v[0];
    }
  }

  /**
   The framer emits exactly the values of the stream, in order and byte for
   byte, and nothing overflows; spaces between values count as errors only when
   they are not skipped.
   */
  lemma {:induction false} FramesEveryValue(cfg: Config, r: Reader, items: seq<Item>, tail: string)
    requires r.state.Idle? && GoodItems(cfg, items) && Separated(items, tail) && Spaces(tail)
    ensures Run(cfg, r, StreamText(items, tail)) ==
            Reader(Idle, r.emitted + Texts(items), r.errors + SpaceErrors(cfg, items, tail), r.overflows)
    decreases |items|
  {
    hide Run, GoodItems, GoodValue, ValueText;
    if items == [] {
      RunSpaces(cfg, r, tail);
      assert r.emitted + Texts(items) == r.emitted;
    } else {
      var space, v, rest := items[0].space, items[0].value, StreamText(items[1..], tail);
      assert StreamText(items, tail) == space + (ValueText(v) + rest);
      RestGood(cfg, items);
      RunConcat(cfg, r, space, ValueText(v) + rest);
      RunSpaces(cfg, r, space);
      var s := r.(errors := r.errors + if cfg.skipSpace then 0 else |space|);
      RunConcat(cfg, s, ValueText(v), rest);
      RunValue(cfg, s, v, items[1..], tail);
      var t := Emit(s, ValueText(v));
      FramesEveryValue(cfg, t, items[1..], tail);
      assert t.emitted + Texts(items[1..]) == r.emitted + Texts(items);
    }
  }

  lemma RestGood(cfg: Config, items: seq<Item>)
    requires items != [] && GoodItems(cfg, items)
    ensures GoodItems(cfg, items[1..])
    ensures Spaces(items[0].space) && GoodValue(items[0].value) && |ValueText(items[0].value)| <= cfg.capacity
  {
    hide GoodValue, ValueText, Spaces;
    var rest := items[1..];
    forall i | 0 <= i < |rest|
      ensures Spaces(rest[i].space) && GoodValue(rest[i].value) && |ValueText(rest[i].value)| <= cfg.capacity
    {
      assert rest[i] == items[i + 1];
    }
  }

  lemma RunValue(cfg: Config, r: Reader, v: Value, items: seq<Item>, tail: string)
    requires r.state.Idle? && GoodValue(v) && |ValueText(v)| <= cfg.capacity && GoodItems(cfg, items) && Spaces(tail)
    requires v.Number? ==> Breaks(items, tail)
    ensures Run(cfg, Run(cfg, r, ValueText(v)), StreamText(items, tail)) ==
            Run(cfg, Emit(r, ValueText(v)), StreamText(items, tail))
  {
    hide Run, StreamText, IsNumber;
    if v.Number? {
      RunNumber(cfg, r, v.text);
      NextByte(items, tail);
      AfterNumber(cfg, r, v.text, StreamText(items, tail));
    } else {
      RunSelfDelimited(cfg, r, v);
    }
  }

  // ----- Printed trees are framed -----

  /** Numbers and words inside a tree hold no quotes or brackets. */
  predicate PlainScalars(j: Json) {
    match j
    case Scalar(text) => forall i :: 0 <= i < |text| ==> text[i] !in "\"{}[]"
    case Str(_) => true
    case Arr(items) => PlainItems(items)
    case Obj(members) => PlainMembers(members)
  }

  predicate PlainItems(items: Items) {
    items.NoItems? || (PlainScalars(items.value) && PlainItems(items.rest))
  }

  predicate PlainMembers(members: Members) {
    members.NoMembers? || (PlainScalars(members.value) && PlainMembers(members.rest))
  }

  function ByteNodes(text: string, rest: Nodes): Nodes {
    if text == "" then rest else Byte(text[0], ByteNodes(text[1..], rest))
  }

  /** A printed tree as the framer sees it, followed by `rest`. */
  function TreeNodes(j: Json, rest: Nodes): Nodes {
    match j
    case Scalar(text) => ByteNodes(text, rest)
    case Str(text) => Quoted(Escape(text), rest)
    case Arr(items) => Group(false, ItemNodes(items, true), rest)
    case Obj(members) => Group(true, MemberNodes(members, true), rest)
  }

  function ItemNodes(items: Items, first: bool): Nodes {
    match items
    case NoItems => End
    case Item(value, rest) => ByteNodes(Comma(first), TreeNodes(value, ItemNodes(rest, false)))
  }

  function MemberNodes(members: Members, first: bool): Nodes {
    match members
    case NoMembers => End
    case Member(key, value, rest) =>
      ByteNodes(Comma(first), Quoted(Escape(key), Byte(':', TreeNodes(value, MemberNodes(rest, false)))))
  }

  lemma {:induction false} ByteNodesShow(text: string, rest: Nodes)
    requires forall i :: 0 <= i < |text| ==> text[i] !in "\"{}[]"
    ensures Show(ByteNodes(text, rest)) == text + Show(rest)
    ensures GoodNodes(rest) ==> GoodNodes(ByteNodes(text, rest))
  {
    if text == "" {
      assert text + Show(rest) == Show(rest);
    } else {
      ByteNodesShow(text[1..], rest);
      assert text + Show(rest) == [text[0]] + (text[1..] + Show(rest));
    }
  }

  lemma {:induction false} EscapeIsBody(text: string)
    ensures StringBody(Escape(text))
  {
    if text != "" && text[0] != '\0' {
      EscapeIsBody(text[1..]);
      var e, rest := EscapeChar(text[0]), Escape(text[1..]);
      EscapeCharBody(text[0], rest);
    }
  }

  lemma EscapeCharBody(c: char, rest: string)
    requires StringBody(rest)
    ensures StringBody(EscapeChar(c) + rest)
  {
    var e := EscapeChar(c);
    var all := e + rest;
    if e[0] == '\\' {
      assert all[2..] == e[2..] + rest;
      if |e| == 2 { assert e[2..] + rest == rest; } else { PlainBody(e[2..], rest); }
    } else {
      assert all[1..] == rest;
    }
  }

  lemma {:induction false} PlainBody(s: string, rest: string)
    requires StringBody(rest) && forall i :: 0 <= i < |s| ==> s[i] != '"' && s[i] != '\\'
    ensures StringBody(s + rest)
  {
    if s == "" {
      assert s + rest == rest;
    } else {
      PlainBody(s[1..], rest);
      assert (s + rest)[1..] == s[1..] + rest;
    }
  }

  lemma CommaShow(first: bool, rest: Nodes)
    ensures Show(ByteNodes(Comma(first), rest)) == Comma(first) + Show(rest)
    ensures GoodNodes(rest) ==> GoodNodes(ByteNodes(Comma(first), rest))
  {
    ByteNodesShow(Comma(first), rest);
  }

  lemma {:induction false} TreeShow(j: Json, rest: Nodes)
    requires PlainScalars(j) && GoodNodes(rest)
    ensures Show(TreeNodes(j, rest)) == Print(j) + Show(rest) && GoodNodes(TreeNodes(j, rest))
    decreases j
  {
    hide Escape, ItemNodes, MemberNodes, PrintItems, PrintMembers;
    match j
    case Scalar(text) => ByteNodesShow(text, rest);
    case Str(text) => EscapeIsBody(text);
    case Arr(items) => ItemsShow(items, true);
    case Obj(members) => MembersShow(members, true);
  }

  lemma {:induction false} ItemsShow(items: Items, first: bool)
    requires PlainItems(items)
    ensures Show(ItemNodes(items, first)) == PrintItems(items, first) && GoodNodes(ItemNodes(items, first))
    decreases items
  {
    hide Comma, Print, TreeNodes, Show, GoodNodes, ByteNodes, PlainScalars;
    ShowEnd();
    if items.Item? {
      ItemsShow(items.rest, false);
      TreeShow(items.value, ItemNodes(items.rest, false));
      CommaShow(first, TreeNodes(items.value, ItemNodes(items.rest, false)));
    }
  }

  lemma {:induction false} MembersShow(members: Members, first: bool)
    requires PlainMembers(members)
    ensures Show(MemberNodes(members, first)) == PrintMembers(members, first) && GoodNodes(MemberNodes(members, first))
    decreases members
  {
    hide Comma, Print, TreeNodes, Show, GoodNodes, ByteNodes, PlainScalars, Escape;
    ShowEnd();
    if members.Member? {
      MembersShow(members.rest, false);
      var value := TreeNodes(members.value, MemberNodes(members.rest, false));
      TreeShow(members.value, MemberNodes(members.rest, false));
      KeyShow(members.key, value);
      CommaShow(first, Quoted(Escape(members.key), Byte(':', value)));
    }
  }

  lemma ShowEnd()
    ensures Show(End) == "" && GoodNodes(End)
  {}

  lemma KeyShow(key: string, rest: Nodes)
    requires GoodNodes(rest)
    ensures var n := Quoted(Escape(key), Byte(':', rest));
            Show(n) == Quote(key) + ":" + Show(rest) && GoodNodes(n)
  {
    hide Escape;
    EscapeIsBody(key);
    assert Show(Byte(':', rest)) == [':'] + Show(rest);
  }

  /** Every printed object or array is a value the framer passes on whole. */
  lemma TreeIsValue(j: Json)
    requires PlainScalars(j) && (j.Arr? || j.Obj?)
    ensures var v := if j.Arr? then Nested(false, ItemNodes(j.items, true))
                     else Nested(true, MemberNodes(j.members, true));
            GoodValue(v) && ValueText(v) == Print(j)
  {
    hide Show, PrintItems, PrintMembers, GoodNodes, ItemNodes, MemberNodes;
    if j.Arr? { ItemsShow(j.items, true); } else { MembersShow(j.members, true); }
  }
}
