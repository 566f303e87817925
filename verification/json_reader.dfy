/**
 `JsonProtocolReader`: the framer with its fixed buffer and container stack.
 */
module JsonReader {
  import opened JsonFramer

  datatype Mode = IdleMode | ContainerMode | StringMode | NumberMode | LiteralMode

  class JsonProtocolReader {
    const buffer: array<char>
    const stack: array<char>
    const skipSpace: bool
    var mode: Mode
    var size: nat
    var depth: nat
    var inString: bool
    var escape: bool
    var literal: string
    var literalPos: nat
    var emitted: seq<string>
    var errors: nat
    var overflows: nat

    constructor (bufferSize: nat, skipSpace: bool)
      ensures Valid() && Cfg() == Config(bufferSize, skipSpace) && AsReader() == Reader(Idle, [], 0, 0)
      ensures fresh(buffer) && fresh(stack)
    {
      buffer, stack := new char[bufferSize], new char[bufferSize];
      this.skipSpace := skipSpace;
      mode, size, depth, inString, escape, literal, literalPos := IdleMode, 0, 0, false, false, "", 0;
      emitted, errors, overflows := [], 0, 0;
    }

    /** The stack never holds more than was buffered, so it cannot overflow on its own. */
    ghost predicate Valid()
      reads this
    {
      && buffer != stack && buffer.Length == stack.Length && depth <= size <= buffer.Length
      && match mode
         case IdleMode => size == 0 && !inString && !escape
         case ContainerMode => depth > 0
         case StringMode => depth == 0 && !inString
         case NumberMode => depth == 0 && !inString && !escape
         case LiteralMode => depth == 0 && !inString && !escape && literalPos == size
    }

    ghost function Cfg(): Config {
      Config(buffer.Length, skipSpace)
    }

    ghost function Text(): string
      reads this, buffer
      requires size <= buffer.Length
    {
      buffer[..size]
    }

    ghost function AsState(): State
      reads this, buffer, stack
      requires Valid()
    {
      match mode
      case IdleMode => Idle
      case ContainerMode => Container(Text(), stack[..depth], inString, escape)
      case StringMode => StringValue(Text(), escape)
      case NumberMode => NumberValue(Text())
      case LiteralMode => LiteralValue(Text(), literal)
    }

    ghost function AsReader(): Reader
      reads this, buffer, stack
      requires Valid()
    {
      Reader(AsState(), emitted, errors, overflows)
    }

    method Reset()
      modifies this`mode, this`size, this`depth, this`inString, this`escape, this`literal, this`literalPos
      ensures mode == IdleMode && size == 0 && depth == 0 && !inString && !escape
    {
      mode, size, depth, inString, escape, literal, literalPos := IdleMode, 0, 0, false, false, "", 0;
    }

    method FailReset()
      requires Valid()
      modifies this`mode, this`size, this`depth, this`inString, this`escape, this`literal, this`literalPos, this`errors
      ensures Valid() && AsReader() == Fail(old(AsReader()))
    {
      errors := errors + 1;
      Reset();
    }

    /** Stores a byte, or drops everything when the buffer is full. */
    method Append(c: char) returns (ok: bool)
      requires size <= buffer.Length && buffer != stack
      modifies this`mode, this`size, this`depth, this`inString, this`escape, this`literal, this`literalPos,
               this`overflows, buffer
      ensures ok == (old(size) < buffer.Length)
      ensures ok ==> size == old(size) + 1 && Text() == old(Text()) + [c] && mode == old(mode) && depth == old(depth)
      ensures ok ==> inString == old(inString) && escape == old(escape) && literal == old(literal)
      ensures ok ==> literalPos == old(literalPos) && overflows == old(overflows)
      ensures !ok ==> mode == IdleMode && size == 0 && depth == 0 && !inString && !escape
      ensures !ok ==> overflows == old(overflows) + 1
    {
      if size >= buffer.Length {
        overflows := overflows + 1;
        Reset();
        return false;
      }
      buffer[size] := c;
      size := size + 1;
      return true;
    }

    /** Opens a container, or drops everything when the stack is full. */
    method PushContainer(c: char) returns (ok: bool)
      requires depth <= stack.Length && buffer != stack
      modifies this`mode, this`size, this`depth, this`inString, this`escape, this`literal, this`literalPos,
               this`overflows, stack
      ensures ok == (old(depth) < stack.Length)
      ensures ok ==> depth == old(depth) + 1 && stack[..depth] == old(stack[..depth]) + [c]
      ensures ok ==> mode == old(mode) && size == old(size) && inString == old(inString) && escape == old(escape)
      ensures ok ==> overflows == old(overflows)
      ensures !ok ==> mode == IdleMode && size == 0 && depth == 0 && !inString && !escape
      ensures !ok ==> overflows == old(overflows) + 1
    {
      if depth >= stack.Length {
        overflows := overflows + 1;
        Reset();
        return false;
      }
      stack[depth] := c;
      depth := depth + 1;
      return true;
    }

    /** Closes a container if the bracket matches. */
    method PopContainer(c: char) returns (ok: bool)
      requires depth <= stack.Length
      modifies this`mode, this`size, this`depth, this`inString, this`escape, this`literal, this`literalPos, this`errors
      ensures ok == (old(depth) > 0 && Matches(stack[old(depth) - 1], c))
      ensures ok ==> depth == old(depth) - 1 && mode == old(mode) && size == old(size) && errors == old(errors)
      ensures ok ==> inString == old(inString) && escape == old(escape)
      ensures !ok ==> mode == IdleMode && size == 0 && depth == 0 && !inString && !escape && errors == old(errors) + 1
    {
      if depth == 0 {
        errors := errors + 1;
        Reset();
        return false;
      }
      var open := stack[depth - 1];
      if (open == '{' && c != '}') || (open == '[' && c != ']') {
        errors := errors + 1;
        Reset();
        return false;
      }
      depth := depth - 1;
      return true;
    }

    method EmitJson()
      requires size <= buffer.Length == stack.Length && buffer != stack
      modifies this`mode, this`size, this`depth, this`inString, this`escape, this`literal, this`literalPos, this`emitted
      ensures mode == IdleMode && size == 0 && depth == 0 && !inString && !escape &&
              emitted == old(emitted) + [old(Text())]
    {
      emitted := emitted + [buffer[..size]];
      Reset();
    }

    method ConsumeIdle(c: char)
      requires Valid() && mode == IdleMode
      modifies this, buffer, stack
      ensures Valid() && AsReader() == StepIdle(Cfg(), old(AsReader()), c)
    {
      if skipSpace && IsSpace(c) { return; }
      assert Text() + [c] == [c];
      if c == '{' || c == '[' {
        assert stack[..depth] + [c] == [c];
        var ok := Append(c);
        if !ok { return; }
        ok := PushContainer(c);
        if !ok { return; }
        mode, inString, escape := ContainerMode, false, false;
      } else if c == '"' {
        var ok := Append(c);
        if !ok { return; }
        mode, escape := StringMode, false;
      } else if c == '-' || IsDigit(c) {
        var ok := Append(c);
        if !ok { return; }
        mode := NumberMode;
      } else if c == 't' || c == 'f' || c == 'n' {
        StartLiteral(Literal(c), c);
      } else {
        FailReset();
      }
    }

    method StartLiteral(word: string, first: char)
      requires Valid() && mode == IdleMode
      modifies this, buffer
      ensures Valid() && AsReader() == StepLiteral(Cfg(), old(AsReader()), "", word, first)
    {
      assert Text() == "";
      literal, literalPos, mode := word, 0, LiteralMode;
      ConsumeLiteral(first);
    }

    method ConsumeLiteral(c: char)
      requires Valid() && mode == LiteralMode
      modifies this, buffer
      ensures Valid() && AsReader() == StepLiteral(Cfg(), old(AsReader()), old(Text()), old(literal), c)
    {
      if literalPos >= |literal| || literal[literalPos] != c {
        FailReset();
        return;
      }
      var ok := Append(c);
      if !ok { return; }
      literalPos := literalPos + 1;
      if literalPos == |literal| { EmitJson(); }
    }

    method ConsumeContainer(c: char)
      requires Valid() && mode == ContainerMode
      modifies this, buffer, stack
      ensures Valid() && AsReader() == Step(Cfg(), old(AsReader()), c)
    {
      var ok := Append(c);
      if !ok { return; }
      if inString {
        if escape {
          escape := false;
        } else if c == '\\' {
          escape := true;
        } else if c == '"' {
          inString := false;
        }
        return;
      }
      if c == '"' {
        inString := true;
        return;
      }
      if c == '{' || c == '[' {
        ok := PushContainer(c);
        return;
      }
      if c == '}' || c == ']' {
        assert stack[depth - 1] == old(stack[..depth])[depth - 1];
        assert stack[..depth - 1] == old(stack[..depth])[..depth - 1];
        ok := PopContainer(c);
        if ok && depth == 0 { EmitJson(); }
      }
    }

    method ConsumeString(c: char)
      requires Valid() && mode == StringMode
      modifies this, buffer
      ensures Valid() && AsReader() == Step(Cfg(), old(AsReader()), c)
    {
      var ok := Append(c);
      if !ok { return; }
      if escape {
        escape := false;
        return;
      }
      if c == '\\' {
        escape := true;
        return;
      }
      if c == '"' { EmitJson(); }
    }

    method ConsumeNumber(c: char)
      requires Valid() && mode == NumberMode
      modifies this, buffer, stack
      ensures Valid() && AsReader() == Step(Cfg(), old(AsReader()), c)
    {
      hide IsNumber, StepIdle;
      if IsNumberByte(c) {
        var ok := Append(c);
        return;
      }
      var valid := ValidNumber(buffer[..size]);
      if valid { EmitJson(); } else { FailReset(); }
      ConsumeIdle(c);
    }

    method Consume(c: char)
      requires Valid()
      modifies this, buffer, stack
      ensures Valid() && AsReader() == Step(Cfg(), old(AsReader()), c)
    {
      hide StepIdle, StepContainer, StepString, StepLiteral;
      match mode
      case IdleMode => ConsumeIdle(c);
      case ContainerMode => ConsumeContainer(c);
      case StringMode => ConsumeString(c);
      case NumberMode => ConsumeNumber(c);
      case LiteralMode => ConsumeLiteral(c);
    }

    /** Reads whatever the stream has at the moment. */
    method Poll(available: string)
      requires Valid()
      modifies this, buffer, stack
      ensures Valid() && AsReader() == Run(Cfg(), old(AsReader()), available)
    {
      hide Step;
      assert available[..0] == "";
      for i := 0 to |available|
        invariant Valid() && AsReader() == Run(Cfg(), old(AsReader()), available[..i])
      {
        Consume(available[i]);
        assert available[..i + 1] == available[..i] + [available[i]];
        RunConcat(Cfg(), old(AsReader()), available[..i], [available[i]]);
        RunOne(Cfg(), Run(Cfg(), old(AsReader()), available[..i]), available[i]);
      }
      assert available[..|available|] == available;
    }
  }
}
