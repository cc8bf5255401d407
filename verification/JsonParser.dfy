/** The recursive-descent parser with its cursor. Every method agrees with the function that says what is
    read from the text at the cursor. */
module JsonParser {
  import opened Wrappers
  import opened Decimals
  import opened JsonValue
  import opened JsonSyntax

  class Parser<F(==)> {
    const wire: string
    const fl: Floats<F>
    var pos: nat

    constructor (fl: Floats<F>, wire: string)
      ensures Valid() && this.wire == wire && this.fl == fl && pos == 0
    {
      this.fl, this.wire, pos := fl, wire, 0;
    }

    ghost predicate Valid()
      reads this
    {
      pos <= |wire|
    }

    /** The text at the cursor. */
    ghost function Rest(): string
      requires Valid()
      reads this
    {
      wire[pos..]
    }

    /** The result is the expected one, and after a success the cursor stands where it says. */
    ghost predicate Agrees<T>(r: Result<T, ErrorKind>, expected: Parsed<T>)
      reads this
    {
      Valid() &&
      match expected
      case Ok((v, rest)) => r == Ok(v) && Rest() == rest
      case Err(e) => r == Err(e)
    }

    function Peek(): Option<char>
      reads this
    {
      if pos < |wire| then Some(wire[pos]) else None
    }

    method Consume(c: char) returns (ok: bool)
      requires Valid()
      modifies this`pos
      ensures Valid() && ok == (old(Rest()) != [] && old(Rest())[0] == c)
      ensures Rest() == if ok then old(Rest())[1..] else old(Rest())
      ensures pos == if ok then old(pos) + 1 else old(pos)
    {
      ok := Peek() == Some(c);
      if ok {
        pos := pos + 1;
      }
    }

    method Require(c: char) returns (e: Option<ErrorKind>)
      requires Valid()
      modifies this`pos
      ensures Valid() && pos >= old(pos)
      ensures match Expect(c, old(Rest()))
              case Ok(rest) => e == None && Rest() == rest && pos > old(pos)
              case Err(k) => e == Some(k)
    {
      var ok := Consume(c);
      e := if ok then None else Some(InvalidSyntax);
    }

    method SkipWs()
      requires Valid()
      modifies this`pos
      ensures Valid() && Rest() == SkipSpace(old(Rest())) && pos >= old(pos)
    {
      while pos < |wire| && IsSpace(wire[pos])
        invariant Valid() && pos >= old(pos) && SkipSpace(Rest()) == SkipSpace(old(Rest()))
      {
        assert Rest()[1..] == wire[pos + 1..];
        pos := pos + 1;
      }
    }

    method TakeDigits()
      requires Valid()
      modifies this`pos
      ensures Valid() && Rest() == SkipDigits(old(Rest())) && pos >= old(pos)
    {
      while pos < |wire| && IsDigit(wire[pos])
        invariant Valid() && pos >= old(pos) && SkipDigits(Rest()) == SkipDigits(old(Rest()))
      {
        assert Rest()[1..] == wire[pos + 1..];
        pos := pos + 1;
      }
    }

    method NextChar() returns (c: Option<char>)
      requires Valid()
      modifies this`pos
      ensures Valid() && (c.None? <==> old(Rest()) == [])
      ensures c.None? ==> pos == old(pos)
      ensures c.Some? ==> c.value == old(Rest())[0] && Rest() == old(Rest())[1..] && pos == old(pos) + 1
    {
      c := Peek();
      if c.Some? {
        pos := pos + 1;
      }
    }

    method ParseHexQuad() returns (r: Result<nat, ErrorKind>)
      requires Valid()
      modifies this`pos
      ensures Agrees(r, HexRun(old(Rest()), 4, 0)) && pos >= old(pos)
    {
      hide HexValue;
      var value: nat := 0;
      var i := 0;
      while i < 4
        invariant 0 <= i <= 4 && Valid() && pos >= old(pos)
        invariant HexRun(Rest(), 4 - i, value) == HexRun(old(Rest()), 4, 0)
      {
        var c := NextChar();
        if c.None? || HexValue(c.value).None? {
          return Err(InvalidSyntax);
        }
        value := 16 * value + HexValue(c.value).value;
        i := i + 1;
      }
      r := Ok(value);
    }

    method ParseUnicodeEscape() returns (r: Result<char, ErrorKind>)
      requires Valid()
      modifies this`pos
      ensures Agrees(r, UnicodeEscape(old(Rest()))) && pos >= old(pos)
    {
      hide HexRun;
      var first := ParseHexQuad();
      if first.Err? {
        return Err(first.error);
      }
      var high := first.value;
      if !(0xd800 <= high <= 0xdbff) {
        return if IsSurrogate(high) || high > 0x10ffff then Err(InvalidSyntax) else Ok(high as char);
      }
      var save := pos;
      var c1 := NextChar();
      if c1 != Some('\\') {
        pos := save;
        return Err(InvalidSyntax);
      }
      var c2 := NextChar();
      if c2 != Some('u') {
        pos := save;
        return Err(InvalidSyntax);
      }
      var second := ParseHexQuad();
      if second.Err? {
        return Err(second.error);
      }
      var low := second.value;
      if !(0xdc00 <= low <= 0xdfff) {
        return Err(InvalidSyntax);
      }
      r := Ok((0x10000 + (high - 0xd800) * 0x400 + (low - 0xdc00)) as char);
    }

    method ParseEscape() returns (r: Result<char, ErrorKind>)
      requires Valid()
      modifies this`pos
      ensures Agrees(r, Escape(old(Rest()))) && pos >= old(pos)
    {
      hide UnicodeEscape;
      var c := NextChar();
      if c.None? {
        return Err(InvalidSyntax);
      }
      match c.value {
        case '"' => r := Ok('"');
        case '\\' => r := Ok('\\');
        case '/' => r := Ok('/');
        case 'b' => r := Ok('\U{8}');
        case 'f' => r := Ok('\U{c}');
        case 'n' => r := Ok('\n');
        case 'r' => r := Ok('\r');
        case 't' => r := Ok('\t');
        case 'u' => r := ParseUnicodeEscape();
        case _ => r := Err(InvalidSyntax);
      }
    }

    method ParseString() returns (r: Result<string, ErrorKind>)
      requires Valid()
      modifies this`pos
      ensures Agrees(r, StringToken(old(Rest()))) && pos >= old(pos)
    {
      hide Escape;
      var e := Require('"');
      if e.Some? {
        return Err(e.value);
      }
      var out := "";
      while true
        invariant Valid() && pos >= old(pos)
        invariant Chars(Rest(), out) == StringToken(old(Rest()))
        decreases |wire| - pos
      {
        var c := NextChar();
        if c.None? {
          return Err(InvalidSyntax);
        }
        if c.value == '"' {
          return Ok(out);
        } else if c.value == '\\' {
          var escaped := ParseEscape();
          if escaped.Err? {
            return Err(escaped.error);
          }
          out := out + [escaped.value];
        } else if IsControl(c.value) {
          return Err(InvalidSyntax);
        } else {
          out := out + [c.value];
        }
      }
    }

    method ParseLiteral(expected: string, value: Valor<F>) returns (r: Result<Valor<F>, ErrorKind>)
      requires Valid() && expected != []
      modifies this`pos
      ensures Agrees(r, Literal(expected, value, old(Rest()))) && pos >= old(pos)
    {
      if expected <= wire[pos..] {
        pos := pos + |expected|;
        r := Ok(value);
      } else {
        r := Err(InvalidSyntax);
      }
    }

    /** The text from `start` to the cursor. */
    function Token(start: nat): string
      requires start <= pos <= |wire|
      reads this
    {
      wire[start..pos]
    }

    /** Where the integer part, the fraction or the exponent of a number stops; false when it is broken. */
    method IntegerEnd() returns (ok: bool)
      requires Valid()
      modifies this`pos
      ensures Valid() && pos >= old(pos)
      ensures IntegerPart(old(Rest())) == if ok then Ok(Rest()) else Err(Rest())
    {
      match Peek() {
        case Some(c) =>
          if c == '0' {
            pos := pos + 1;
            ok := !(pos < |wire| && IsDigit(wire[pos]));
          } else if IsDigit(c) {
            TakeDigits();
            ok := true;
          } else {
            ok := false;
          }
        case None =>
          ok := false;
      }
    }

    method FractionEnd() returns (ok: bool, present: bool)
      requires Valid()
      modifies this`pos
      ensures Valid() && pos >= old(pos)
      ensures FractionPart(old(Rest())) == if ok then Ok(Rest()) else Err(Rest())
      ensures ok ==> (present <==> Rest() != old(Rest()))
    {
      present := Consume('.');
      ok := true;
      if present {
        if pos < |wire| && IsDigit(wire[pos]) {
          TakeDigits();
        } else {
          ok := false;
        }
      }
    }

    method ExponentEnd() returns (ok: bool, present: bool)
      requires Valid()
      modifies this`pos
      ensures Valid() && pos >= old(pos)
      ensures ExponentPart(old(Rest())) == if ok then Ok(Rest()) else Err(Rest())
      ensures ok ==> (present <==> Rest() != old(Rest()))
    {
      hide SkipDigits;
      ok := true;
      present := Consume('e');
      if !present {
        present := Consume('E');
      }
      if present {
        var signed := Consume('+');
        if !signed {
          signed := Consume('-');
        }
        assert Rest() == if signed then old(Rest())[2..] else old(Rest())[1..];
        if pos < |wire| && IsDigit(wire[pos]) {
          TakeDigits();
        } else {
          ok := false;
        }
      }
    }

    lemma TokenIsTaken(start: nat, s: string)
      requires Valid() && start <= pos && s == wire[start..]
      ensures Taken(s, Rest()) == Token(start)
    {
    }

    method ParseNumber() returns (r: Result<Valor<F>, ErrorKind>)
      requires Valid()
      modifies this`pos
      ensures Agrees(r, Number(fl, old(Rest()))) && pos >= old(pos)
    {
      hide IntegerPart, FractionPart, ExponentPart, ReadI64, Taken;
      var start := pos;
      var minus := Consume('-');
      var ok := IntegerEnd();
      var fraction, exponent := false, false;
      if ok {
        ok, fraction := FractionEnd();
      }
      if ok {
        ok, exponent := ExponentEnd();
      }
      TokenIsTaken(start, old(Rest()));
      if !ok {
        return Err(InvalidNumber(Token(start)));
      }
      r := NumberValue(fl, Token(start), fraction || exponent);
    }

    method ParseValue() returns (r: Result<Valor<F>, ErrorKind>)
      requires Valid()
      modifies this`pos
      ensures Agrees(r, Value(fl, old(Rest()))) && pos >= old(pos)
      decreases |wire| - pos, 1
    {
      hide Object, Array, StringToken, Literal, Number, SkipSpace;
      SkipWs();
      if Peek().None? {
        return Err(InvalidSyntax);
      }
      var c := Peek().value;
      if c == '{' {
        r := ParseObject();
      } else if c == '[' {
        r := ParseArray();
      } else if c == '"' {
        var text := ParseString();
        r := if text.Ok? then Ok(Textus(text.value)) else Err(text.error);
      } else if c == 't' {
        r := ParseLiteral("true", Bivalens(true));
      } else if c == 'f' {
        r := ParseLiteral("false", Bivalens(false));
      } else if c == 'n' {
        r := ParseLiteral("null", Nihil);
      } else if c == '-' || IsDigit(c) {
        r := ParseNumber();
      } else {
        r := Err(InvalidSyntax);
      }
    }

    method ParseArray() returns (r: Result<Valor<F>, ErrorKind>)
      requires Valid() && Peek() == Some('[')
      modifies this`pos
      ensures Agrees(r, Array(fl, old(Rest()))) && pos >= old(pos)
      decreases |wire| - pos, 0
    {
      hide Value, SkipSpace;
      var _ := Consume('[');
      var items := [];
      SkipWs();
      var closed := Consume(']');
      if closed {
        return Ok(Lista(items));
      }
      while true
        invariant Valid() && pos > old(pos)
        invariant Elements(fl, Rest(), items) == Array(fl, old(Rest()))
        decreases |wire| - pos
      {
        var value := ParseValue();
        if value.Err? {
          return Err(value.error);
        }
        items := items + [value.value];
        SkipWs();
        closed := Consume(']');
        if closed {
          return Ok(Lista(items));
        }
        var e := Require(',');
        if e.Some? {
          return Err(e.value);
        }
      }
    }

    method ParseMember() returns (r: Result<Field<F>, ErrorKind>)
      requires Valid()
      modifies this`pos
      ensures Agrees(r, Member(fl, old(Rest()))) && pos >= old(pos)
      decreases |wire| - pos, 2
    {
      hide Value, StringToken, SkipSpace;
      SkipWs();
      var key := ParseString();
      if key.Err? {
        return Err(key.error);
      }
      SkipWs();
      var e := Require(':');
      if e.Some? {
        return Err(e.value);
      }
      var value := ParseValue();
      if value.Err? {
        return Err(value.error);
      }
      r := Ok(Field(key.value, value.value));
    }

    method ParseObject() returns (r: Result<Valor<F>, ErrorKind>)
      requires Valid() && Peek() == Some('{')
      modifies this`pos
      ensures Agrees(r, Object(fl, old(Rest()))) && pos >= old(pos)
      decreases |wire| - pos, 0
    {
      hide Member, SkipSpace, Insert, HasKey;
      var _ := Consume('{');
      var fields := [];
      SkipWs();
      var closed := Consume('}');
      if closed {
        return Ok(Tabula(fields));
      }
      while true
        invariant Valid() && pos > old(pos)
        invariant Members(fl, Rest(), fields) == Object(fl, old(Rest()))
        decreases |wire| - pos
      {
        var member := ParseMember();
        if member.Err? {
          return Err(member.error);
        }
        if HasKey(fields, member.value.key) {
          return Err(DuplicateKey(member.value.key));
        }
        fields := Insert(fields, member.value);
        SkipWs();
        closed := Consume('}');
        if closed {
          return Ok(Tabula(fields));
        }
        var e := Require(',');
        if e.Some? {
          return Err(e.value);
        }
      }
    }
  }

  /** `Json::parse`. */
  method Parse<F(==)>(fl: Floats<F>, wire: string) returns (r: Result<Valor<F>, ErrorKind>)
    ensures r == Document(fl, wire)
  {
    hide Value, ValidateValue;
    var parser := new Parser(fl, wire);
    var value := parser.ParseValue();
    if value.Err? {
      return Err(value.error);
    }
    parser.SkipWs();
    if parser.pos != |wire| {
      return Err(TrailingCharacters);
    }
    var invalid := ValidateRoot(fl, value.value);
    r := if invalid.Some? then Err(invalid.value) else Ok(value.value);
  }
}
