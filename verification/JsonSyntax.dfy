/** What the parser computes, as functions from the text still to be read to a value and the text left
    over. A character is a Unicode scalar value. */
module JsonSyntax {
  import opened Wrappers
  import opened Decimals
  import opened JsonValue

  type Parsed<T> = Result<(T, string), ErrorKind>

  /** `n` is consumed by what was read. */
  predicate Shorter<T>(r: Parsed<T>, s: string) {
    r.Ok? ==> |r.value.1| < |s|
  }

  predicate IsSpace(c: char) {
    c == ' ' || c == '\n' || c == '\r' || c == '\t'
  }

  function SkipSpace(s: string): (r: string)
    ensures |r| <= |s|
    ensures r != [] ==> !IsSpace(r[0])
  {
    if s != [] && IsSpace(s[0]) then SkipSpace(s[1..]) else s
  }

  function Expect(c: char, s: string): (r: Result<string, ErrorKind>)
    ensures r.Ok? ==> |r.value| < |s|
  {
    if s != [] && s[0] == c then Ok(s[1..]) else Err(InvalidSyntax)
  }

  // ----- strings

  function HexValue(c: char): (v: Option<nat>)
    ensures v.Some? ==> v.value < 16
  {
    if IsDigit(c) then Some(c as int - '0' as int)
    else if 'a' <= c <= 'f' then Some(c as int - 'a' as int + 10)
    else if 'A' <= c <= 'F' then Some(c as int - 'A' as int + 10)
    else None
  }

  /** The next `digits` characters as hexadecimal digits after those that gave `value`. */
  function HexRun(s: string, digits: nat, value: nat): (r: Parsed<nat>)
    ensures r.Ok? ==> |r.value.1| == |s| - digits
    decreases digits
  {
    if digits == 0 then Ok((value, s))
    else if s == [] || HexValue(s[0]).None? then Err(InvalidSyntax)
    else HexRun(s[1..], digits - 1, 16 * value + HexValue(s[0]).value)
  }

  predicate IsSurrogate(n: int) {
    0xd800 <= n <= 0xdfff
  }

  /** `char::from_u32`. */
  function FromScalar(n: nat, rest: string): Parsed<char> {
    if n <= 0x10ffff && !IsSurrogate(n) then Ok((n as char, rest)) else Err(InvalidSyntax)
  }

  /** After `\\u`: one quad, or a high and a low surrogate. */
  function UnicodeEscape(s: string): (r: Parsed<char>)
    ensures Shorter(r, s)
  {
    var (high, r1) :- HexRun(s, 4, 0);
    if !(0xd800 <= high <= 0xdbff) then FromScalar(high, r1)
    else if |r1| < 2 || r1[0] != '\\' || r1[1] != 'u' then Err(InvalidSyntax)
    else
      var (low, r2) :- HexRun(r1[2..], 4, 0);
      if !(0xdc00 <= low <= 0xdfff) then Err(InvalidSyntax)
      else FromScalar(0x10000 + (high - 0xd800) * 0x400 + (low - 0xdc00), r2)
  }

  /** After a backslash. */
  function Escape(s: string): (r: Parsed<char>)
    ensures Shorter(r, s)
  {
    if s == [] then Err(InvalidSyntax)
    else if s[0] == '"' || s[0] == '\\' || s[0] == '/' then Ok((s[0], s[1..]))
    else if s[0] == 'b' then Ok(('\U{8}', s[1..]))
    else if s[0] == 'f' then Ok(('\U{c}', s[1..]))
    else if s[0] == 'n' then Ok(('\n', s[1..]))
    else if s[0] == 'r' then Ok(('\r', s[1..]))
    else if s[0] == 't' then Ok(('\t', s[1..]))
    else if s[0] == 'u' then UnicodeEscape(s[1..])
    else Err(InvalidSyntax)
  }

  /** After the opening quote, when `out` has been read. */
  function Chars(s: string, out: string): (r: Parsed<string>)
    ensures Shorter(r, s)
    decreases |s|
  {
    if s == [] then Err(InvalidSyntax)
    else if s[0] == '"' then Ok((out, s[1..]))
    else if s[0] == '\\' then
      var (c, rest) :- Escape(s[1..]);
      Chars(rest, out + [c])
    else if IsControl(s[0]) then Err(InvalidSyntax)
    else Chars(s[1..], out + [s[0]])
  }

  function StringToken(s: string): (r: Parsed<string>)
    ensures Shorter(r, s)
  {
    var rest :- Expect('"', s);
    Chars(rest, "")
  }

  // ----- numbers

  predicate StartsDigit(s: string) {
    s != [] && IsDigit(s[0])
  }

  function SkipDigits(s: string): (r: string)
    ensures |r| <= |s| && !StartsDigit(r)
    ensures StartsDigit(s) ==> |r| < |s|
  {
    if StartsDigit(s) then SkipDigits(s[1..]) else s
  }

  function SkipSign(s: string): (r: string)
    ensures |r| <= |s|
  {
    if s != [] && s[0] == '-' then s[1..] else s
  }

  /** What was read when `rest` is left of `s`. */
  function Taken(s: string, rest: string): string
    requires |rest| <= |s|
  {
    s[..|s| - |rest|]
  }

  /** The integer part: a zero that no digit follows, or digits that start with another one. On failure,
      where the cursor stands. */
  function IntegerPart(s: string): (r: Result<string, string>)
    ensures r.Ok? ==> |r.value| < |s|
    ensures r.Err? ==> |r.error| <= |s|
  {
    if s != [] && s[0] == '0' then (if StartsDigit(s[1..]) then Err(s[1..]) else Ok(s[1..]))
    else if StartsDigit(s) then Ok(SkipDigits(s))
    else Err(s)
  }

  /** A point and digits, if there is a point. */
  function FractionPart(s: string): (r: Result<string, string>)
    ensures r.Ok? ==> |r.value| <= |s|
    ensures r.Err? ==> |r.error| <= |s|
  {
    if s != [] && s[0] == '.' then (if StartsDigit(s[1..]) then Ok(SkipDigits(s[1..])) else Err(s[1..])) else Ok(s)
  }

  /** An exponent mark, perhaps a sign, and digits, if there is a mark. */
  function ExponentPart(s: string): (r: Result<string, string>)
    ensures r.Ok? ==> |r.value| <= |s|
    ensures r.Err? ==> |r.error| <= |s|
  {
    if s != [] && (s[0] == 'e' || s[0] == 'E') then
      var digits := if |s| > 1 && (s[1] == '+' || s[1] == '-') then s[2..] else s[1..];
      if StartsDigit(digits) then Ok(SkipDigits(digits)) else Err(digits)
    else Ok(s)
  }

  /** Where a number that starts `s` ends, and whether it has a fraction or an exponent. */
  function Numeral(s: string): (r: Result<(string, bool), string>)
    ensures r.Ok? ==> |r.value.0| < |s|
    ensures r.Err? ==> |r.error| <= |s|
  {
    match IntegerPart(SkipSign(s))
    case Err(at) => Err(at)
    case Ok(r1) =>
      match FractionPart(r1)
      case Err(at) => Err(at)
      case Ok(r2) =>
        match ExponentPart(r2)
        case Err(at) => Err(at)
        case Ok(r3) => Ok((r3, r1 != r2 || r2 != r3))
  }

  /** `parse::<i64>` of a numeral without fraction and exponent. */
  function ReadI64(token: string): Option<I64> {
    var digits := if token != [] && token[0] == '-' then token[1..] else token;
    if digits == [] || !AllDigits(digits) then None
    else
      var n: int := if token[0] == '-' then -(DigitsValue(digits) as int) else DigitsValue(digits);
      if -0x8000_0000_0000_0000 <= n <= 0x7fff_ffff_ffff_ffff then Some(n) else None
  }

  /** The value of a numeral. */
  function NumberValue<F>(fl: Floats<F>, token: string, fractional: bool): (r: Result<Valor<F>, ErrorKind>) {
    if fractional then
      match fl.read(token)
      case Some(x) => if fl.finite(x) then Ok(Fractus(x)) else Err(InvalidNumber(token))
      case None => Err(InvalidNumber(token))
    else
      match ReadI64(token)
      case Some(n) => Ok(Numerus(n))
      case None => Err(InvalidNumber(token))
  }

  function Number<F>(fl: Floats<F>, s: string): (r: Parsed<Valor<F>>)
    ensures Shorter(r, s)
  {
    match Numeral(s)
    case Err(at) => Err(InvalidNumber(Taken(s, at)))
    case Ok((rest, fractional)) =>
      var v :- NumberValue(fl, Taken(s, rest), fractional);
      Ok((v, rest))
  }

  /** Digits of a whole number: no zero in front of another digit. */
  predicate IsWhole(digits: string) {
    digits != [] && AllDigits(digits) && (digits[0] == '0' ==> |digits| == 1)
  }

  function Sign(negative: bool): string {
    if negative then ['-'] else []
  }

  // ----- values

  function Literal<F>(word: string, v: Valor<F>, s: string): (r: Parsed<Valor<F>>)
    requires word != []
    ensures Shorter(r, s)
  {
    if word <= s then Ok((v, s[|word|..])) else Err(InvalidSyntax)
  }

  function Value<F>(fl: Floats<F>, text: string): (r: Parsed<Valor<F>>)
    ensures Shorter(r, text)
    decreases |text|, 1
  {
    var s := SkipSpace(text);
    if s == [] then Err(InvalidSyntax)
    else if s[0] == '{' then Object(fl, s)
    else if s[0] == '[' then Array(fl, s)
    else if s[0] == '"' then
      var (t, rest) :- StringToken(s);
      Ok((Textus(t), rest))
    else if s[0] == 't' then Literal("true", Bivalens(true), s)
    else if s[0] == 'f' then Literal("false", Bivalens(false), s)
    else if s[0] == 'n' then Literal("null", Nihil, s)
    else if s[0] == '-' || IsDigit(s[0]) then Number(fl, s)
    else Err(InvalidSyntax)
  }

  function Array<F>(fl: Floats<F>, s: string): (r: Parsed<Valor<F>>)
    requires s != [] && s[0] == '['
    ensures Shorter(r, s)
    decreases |s|, 0
  {
    var inner := SkipSpace(s[1..]);
    if inner != [] && inner[0] == ']' then Ok((Lista([]), inner[1..]))
    else Elements(fl, inner, [])
  }

  /** The elements from here on, when `items` have been read. */
  function Elements<F>(fl: Floats<F>, s: string, items: seq<Valor<F>>): (r: Parsed<Valor<F>>)
    ensures Shorter(r, s)
    decreases |s|, 2
  {
    var (v, after) :- Value(fl, s);
    var rest := SkipSpace(after);
    if rest != [] && rest[0] == ']' then Ok((Lista(items + [v]), rest[1..]))
    else
      var next :- Expect(',', rest);
      Elements(fl, next, items + [v])
  }

  function Object<F>(fl: Floats<F>, s: string): (r: Parsed<Valor<F>>)
    requires s != [] && s[0] == '{'
    ensures Shorter(r, s)
    decreases |s|, 0
  {
    var inner := SkipSpace(s[1..]);
    if inner != [] && inner[0] == '}' then Ok((Tabula([]), inner[1..]))
    else Members(fl, inner, [])
  }

  /** A key, a colon and a value. */
  function Member<F>(fl: Floats<F>, s: string): (r: Parsed<Field<F>>)
    ensures Shorter(r, s)
    decreases |s|, 1
  {
    var (key, afterKey) :- StringToken(SkipSpace(s));
    var beforeValue :- Expect(':', SkipSpace(afterKey));
    var (v, rest) :- Value(fl, beforeValue);
    Ok((Field(key, v), rest))
  }

  /** The members from here on, when `fields` have been read; a key may come once. */
  function Members<F>(fl: Floats<F>, s: string, fields: seq<Field<F>>): (r: Parsed<Valor<F>>)
    ensures Shorter(r, s)
    decreases |s|, 2
  {
    var (field, after) :- Member(fl, s);
    if HasKey(fields, field.key) then Err(DuplicateKey(field.key))
    else
      var rest := SkipSpace(after);
      if rest != [] && rest[0] == '}' then Ok((Tabula(Insert(fields, field)), rest[1..]))
      else
        var next :- Expect(',', rest);
        Members(fl, next, Insert(fields, field))
  }

  /** `Json::parse`. */
  function Document<F>(fl: Floats<F>, wire: string): Result<Valor<F>, ErrorKind> {
    var (v, rest) :- Value(fl, wire);
    if SkipSpace(rest) != [] then Err(TrailingCharacters)
    else match ValidateRoot(fl, v)
      case Some(e) => Err(e)
      case None => Ok(v)
  }
}
