/** Rendering a valid value and parsing the text gives the value back. */
module JsonRoundTrip {
  import opened Wrappers
  import opened Decimals
  import opened JsonValue
  import opened JsonSyntax

  // ----- strings

  lemma HexDigitReads(n: nat)
    requires n < 16
    ensures HexValue(HexDigit(n)) == Some(n)
  {
  }

  lemma HexSum(n: nat)
    requires n < 0x10000
    ensures 16 * (16 * (16 * (n / 0x1000) + n / 0x100 % 16) + n / 16 % 16) + n % 16 == n
    ensures n / 0x1000 < 16
  {
  }

  lemma HexStep(d: nat, rest: string, digits: nat, value: nat)
    requires d < 16 && digits > 0
    ensures HexRun([HexDigit(d)] + rest, digits, value) == HexRun(rest, digits - 1, 16 * value + d)
  {
    hide HexDigit;
    HexDigitReads(d);
    assert ([HexDigit(d)] + rest)[1..] == rest;
  }

  lemma Hex4Reads(n: nat, rest: string)
    requires n < 0x10000
    ensures HexRun(Hex4(n) + rest, 4, 0) == Ok((n, rest))
  {
    HexSum(n);
    var a, b, c, d := n / 0x1000, n / 0x100 % 16, n / 16 % 16, n % 16;
    Hex4Steps(a, b, c, d, rest);
  }

  lemma Hex4Steps(a: nat, b: nat, c: nat, d: nat, rest: string)
    requires a < 16 && b < 16 && c < 16 && d < 16
    ensures HexRun([HexDigit(a), HexDigit(b), HexDigit(c), HexDigit(d)] + rest, 4, 0)
         == Ok((16 * (16 * (16 * a + b) + c) + d, rest))
  {
    hide HexDigit, HexValue;
    var r3 := [HexDigit(d)] + rest;
    var r2 := [HexDigit(c)] + r3;
    var r1 := [HexDigit(b)] + r2;
    assert [HexDigit(a), HexDigit(b), HexDigit(c), HexDigit(d)] + rest == [HexDigit(a)] + r1;
    HexStep(a, r1, 4, 0);
    HexStep(b, r2, 3, a);
    HexStep(c, r3, 2, 16 * a + b);
    HexStep(d, rest, 1, 16 * (16 * a + b) + c);
  }

  /** A control character is escaped and read back. */
  lemma ControlReads(c: char, rest: string)
    requires IsControl(c)
    ensures Escape(['u'] + Hex4(c as int) + rest) == Ok((c, rest))
  {
    hide HexRun, Hex4;
    var s := ['u'] + Hex4(c as int) + rest;
    assert s[1..] == Hex4(c as int) + rest;
    Hex4Reads(c as int, rest);
  }

  lemma CharReads(c: char, rest: string, out: string)
    ensures Chars(RenderChar(c) + rest, out) == Chars(rest, out + [c])
  {
    hide Hex4, UnicodeEscape;
    var s := RenderChar(c) + rest;
    if |RenderChar(c)| == 2 {
      assert s[1..][1..] == rest;
    } else if IsControl(c) {
      assert s[1..] == ['u'] + Hex4(c as int) + rest;
      ControlReads(c, rest);
    } else {
      assert s[1..] == rest;
    }
  }

  lemma {:induction false} CharsRead(text: string, rest: string, out: string)
    ensures Chars(RenderChars(text) + ['"'] + rest, out) == Ok((out + text, rest))
    decreases |text|
  {
    hide RenderChar, Escape;
    var s := RenderChars(text) + ['"'] + rest;
    if text == [] {
      assert s == ['"'] + rest && s[1..] == rest && out + text == out;
    } else {
      assert s == RenderChar(text[0]) + (RenderChars(text[1..]) + ['"'] + rest);
      CharReads(text[0], RenderChars(text[1..]) + ['"'] + rest, out);
      CharsRead(text[1..], rest, out + [text[0]]);
      assert out + [text[0]] + text[1..] == out + text;
    }
  }

  lemma StringReads(text: string, rest: string)
    ensures StringToken(RenderString(text) + rest) == Ok((text, rest))
  {
    hide RenderChars, Chars;
    var s := RenderString(text) + rest;
    assert s[1..] == RenderChars(text) + ['"'] + rest;
    CharsRead(text, rest, "");
    assert "" + text == text;
  }

  // ----- numbers

  /** No character of a number can come next. */
  predicate Ends(rest: string) {
    rest == [] || !(IsDigit(rest[0]) || rest[0] == '.' || rest[0] == 'e' || rest[0] == 'E')
  }

  lemma {:induction false} DigitsSkipped(digits: string, rest: string)
    requires AllDigits(digits) && !StartsDigit(rest)
    ensures SkipDigits(digits + rest) == rest
    decreases |digits|
  {
    if digits == [] {
      assert digits + rest == rest;
    } else {
      assert (digits + rest)[1..] == digits[1..] + rest;
      DigitsSkipped(digits[1..], rest);
    }
  }

  lemma WholeReads(digits: string, rest: string)
    requires IsWhole(digits) && !StartsDigit(rest)
    ensures IntegerPart(digits + rest) == Ok(rest)
  {
    var s := digits + rest;
    if digits[0] == '0' {
      assert s[1..] == rest;
    } else {
      DigitsSkipped(digits, rest);
    }
  }

  lemma SignSkipped(negative: bool, digits: string, rest: string)
    requires IsWhole(digits)
    ensures SkipSign(Sign(negative) + digits + rest) == digits + rest
  {
    var s := Sign(negative) + digits + rest;
    if negative {
      assert s[1..] == digits + rest;
    } else {
      assert s == digits + rest;
    }
  }

  lemma DecimalIsWhole(n: nat)
    ensures IsWhole(Decimal(n))
  {
    DecimalValue(n);
  }

  lemma I64Reads<F>(fl: Floats<F>, n: I64, rest: string)
    requires Ends(rest)
    ensures Number(fl, RenderI64(n) + rest) == Ok((Numerus(n), rest))
  {
    hide Decimal, DigitsValue, IntegerPart, SkipSign;
    var k: int := n;
    var digits := if k < 0 then Decimal(-k) else Decimal(k);
    var negative := k < 0;
    DecimalIsWhole(if k < 0 then -k else k);
    DecimalValue(if k < 0 then -k else k);
    var token := RenderI64(n);
    assert token == Sign(negative) + digits;
    SignSkipped(negative, digits, rest);
    WholeReads(digits, rest);
    assert Numeral(token + rest) == Ok((rest, false));
    assert Taken(token + rest, rest) == token;
    assert negative ==> token[1..] == digits;
    assert IsDigit(digits[0]);
    assert negative <==> token[0] == '-';
  }

  /** How the language shows a finite float: a sign, a whole number and perhaps a fraction, never an
      exponent; and reading it gives the same float, also when a fraction of zero is added. */
  ghost predicate ShowsAndReads<F(!new)>(fl: Floats<F>) {
    forall x :: fl.finite(x) ==> IsPlain(fl.show(x)) && fl.read(RenderFractus(fl, x)) == Some(x)
  }

  ghost predicate IsPlain(shown: string) {
    exists negative: bool, whole: string, fraction: string :: shown == Plain(negative, whole, fraction) &&
        IsWhole(whole) && AllDigits(fraction)
  }

  function Plain(negative: bool, whole: string, fraction: string): string {
    Sign(negative) + whole + (if fraction == [] then [] else ['.'] + fraction)
  }

  /** A point shows in a plain numeral exactly when it has a fraction, and an exponent mark never does. */
  lemma PointShows(negative: bool, whole: string, fraction: string)
    requires AllDigits(whole) && AllDigits(fraction)
    ensures var s := Plain(negative, whole, fraction);
            ('.' in s || 'e' in s || 'E' in s) <==> fraction != []
  {
    var s := Plain(negative, whole, fraction);
    if fraction == [] {
      assert s == Sign(negative) + whole;
    } else {
      assert s[|Sign(negative)| + |whole|] == '.';
    }
  }

  /** A rendered float has a fraction. */
  lemma FractusHasPoint<F>(fl: Floats<F>, x: F) returns (negative: bool, whole: string, fraction: string)
    requires IsPlain(fl.show(x))
    ensures IsWhole(whole) && AllDigits(fraction) && fraction != []
    ensures RenderFractus(fl, x) == Plain(negative, whole, fraction)
  {
    hide IsWhole;
    negative, whole, fraction :|
      fl.show(x) == Plain(negative, whole, fraction) && IsWhole(whole) && AllDigits(fraction);
    WholeIsDigits(whole);
    PointShows(negative, whole, fraction);
    if fraction == [] {
      fraction := "0";
      assert fl.show(x) + ".0" == Sign(negative) + whole + (['.'] + "0");
    }
  }

  lemma WholeIsDigits(whole: string)
    requires IsWhole(whole)
    ensures AllDigits(whole)
  {
  }

  lemma PlainReads(negative: bool, whole: string, fraction: string, rest: string)
    requires IsWhole(whole) && AllDigits(fraction) && fraction != [] && Ends(rest)
    ensures Numeral(Plain(negative, whole, fraction) + rest) == Ok((rest, true))
  {
    hide IntegerPart, SkipSign, SkipDigits;
    var tail := ['.'] + fraction + rest;
    assert Plain(negative, whole, fraction) + rest == Sign(negative) + whole + tail;
    SignSkipped(negative, whole, tail);
    WholeReads(whole, tail);
    assert tail[1..] == fraction + rest;
    DigitsSkipped(fraction, rest);
    assert FractionPart(tail) == Ok(rest);
  }

  lemma FractusReads<F(!new)>(fl: Floats<F>, x: F, rest: string)
    requires ShowsAndReads(fl) && fl.finite(x) && Ends(rest)
    ensures Number(fl, RenderFractus(fl, x) + rest) == Ok((Fractus(x), rest))
    ensures var s := RenderFractus(fl, x); s != [] && (s[0] == '-' || IsDigit(s[0]))
  {
    hide RenderFractus, Numeral;
    var negative, whole, fraction := FractusHasPoint(fl, x);
    PlainReads(negative, whole, fraction, rest);
    assert Taken(RenderFractus(fl, x) + rest, rest) == RenderFractus(fl, x);
  }

  // ----- values

  /** What a rendered value starts with decides how it is parsed. */
  lemma ScalarReads<F(!new)>(fl: Floats<F>, v: Valor<F>, rest: string)
    requires ShowsAndReads(fl) && ValidateValue(fl, v) == None && !v.Lista? && !v.Tabula? && Ends(rest)
    ensures Value(fl, RenderValor(fl, v) + rest) == Ok((v, rest))
  {
    hide RenderFractus, RenderI64, RenderChars, StringToken, Number, Object, Array;
    var s := RenderValor(fl, v) + rest;
    match v {
      case Nihil => assert "null" <= s && s[4..] == rest;
      case Bivalens(b) => if b { assert "true" <= s && s[4..] == rest; } else { assert "false" <= s && s[5..] == rest; }
      case Numerus(n) => I64Starts(n); I64Reads(fl, n, rest);
      case Fractus(x) => FractusReads(fl, x, rest);
      case Textus(text) => StringReads(text, rest);
    }
  }

  lemma I64Starts(n: I64)
    ensures RenderI64(n) != [] && (RenderI64(n)[0] == '-' || IsDigit(RenderI64(n)[0]))
  {
  }

  /** Rendering starts with no space. */
  lemma RenderStarts<F(!new)>(fl: Floats<F>, v: Valor<F>)
    requires ShowsAndReads(fl) && ValidateValue(fl, v) == None
    ensures RenderValor(fl, v) != [] && !IsSpace(RenderValor(fl, v)[0]) && RenderValor(fl, v)[0] != ']'
  {
    match v {
      case Numerus(n) => I64Starts(n);
      case Fractus(x) => FractusReads(fl, x, []);
      case _ =>
    }
  }

  /** Parsing undoes rendering, with anything after it that cannot continue a number. */
  lemma {:induction false} ValueReads<F(!new)>(fl: Floats<F>, v: Valor<F>, rest: string)
    requires ShowsAndReads(fl) && ValidateValue(fl, v) == None && WellSorted(v) && Ends(rest)
    ensures Value(fl, RenderValor(fl, v) + rest) == Ok((v, rest))
    decreases v
  {
    hide ShowsAndReads, Elements, Members, Value, RenderItems, RenderFields;
    match v {
      case Lista(items) =>
        if items != [] {
          ItemsRead(fl, items, [], rest);
        }
        ListReads(fl, items, rest);
      case Tabula(fields) =>
        if fields != [] {
          assert [] + fields == fields;
          FieldsRead(fl, fields, [], rest);
        }
        TableReads(fl, fields, rest);
      case _ => ScalarReads(fl, v, rest);
    }
  }

  lemma ListReads<F(!new)>(fl: Floats<F>, items: seq<Valor<F>>, rest: string)
    requires ShowsAndReads(fl) && ValidateItems(fl, items) == None
    requires items != [] ==> Elements(fl, RenderItems(fl, items) + "]" + rest, []) == Ok((Lista([] + items), rest))
    ensures Value(fl, "[" + RenderItems(fl, items) + "]" + rest) == Ok((Lista(items), rest))
  {
    hide ShowsAndReads, Elements, RenderItems;
    var body := RenderItems(fl, items) + "]" + rest;
    var s := "[" + RenderItems(fl, items) + "]" + rest;
    assert s == "[" + body && s[1..] == body;
    if items == [] {
      NoItems(fl);
      assert body == "]" + rest && body[1..] == rest;
    } else {
      ItemsStart(fl, items);
      assert [] + items == items;
    }
  }

  lemma NoItems<F>(fl: Floats<F>)
    ensures RenderItems(fl, []) == "" && RenderFields(fl, []) == ""
  {
  }

  lemma TableReads<F(!new)>(fl: Floats<F>, fields: seq<Field<F>>, rest: string)
    requires ShowsAndReads(fl) && ValidateFields(fl, fields) == None
    requires fields != [] ==> Members(fl, RenderFields(fl, fields) + "}" + rest, []) == Ok((Tabula([] + fields), rest))
    ensures Value(fl, "{" + RenderFields(fl, fields) + "}" + rest) == Ok((Tabula(fields), rest))
  {
    hide ShowsAndReads, Members, RenderFields;
    var body := RenderFields(fl, fields) + "}" + rest;
    var s := "{" + RenderFields(fl, fields) + "}" + rest;
    assert s == "{" + body && s[1..] == body;
    if fields == [] {
      NoItems(fl);
      assert body == "}" + rest && body[1..] == rest;
    } else {
      FieldsStart(fl, fields);
      assert [] + fields == fields;
    }
  }

  lemma ItemsStart<F(!new)>(fl: Floats<F>, items: seq<Valor<F>>)
    requires ShowsAndReads(fl) && ValidateItems(fl, items) == None && items != []
    ensures var s := RenderItems(fl, items); s != [] && !IsSpace(s[0]) && s[0] != ']'
  {
    hide ShowsAndReads, RenderValor;
    RenderStarts(fl, items[0]);
  }

  lemma FieldsStart<F(!new)>(fl: Floats<F>, fields: seq<Field<F>>)
    requires ValidateFields(fl, fields) == None && fields != []
    ensures var s := RenderFields(fl, fields); s != [] && s[0] == '"'
  {
    hide RenderChars, RenderValor;
  }

  lemma {:induction false} ItemsRead<F(!new)>(fl: Floats<F>, items: seq<Valor<F>>, read: seq<Valor<F>>, rest: string)
    requires ShowsAndReads(fl) && ValidateItems(fl, items) == None && items != []
    requires forall i :: 0 <= i < |items| ==> WellSorted(items[i])
    ensures Elements(fl, RenderItems(fl, items) + "]" + rest, read) == Ok((Lista(read + items), rest))
    decreases items
  {
    hide ShowsAndReads, Value, RenderValor, WellSorted;
    var more := if |items| == 1 then "]" + rest else "," + RenderItems(fl, items[1..]) + "]" + rest;
    var s := RenderItems(fl, items) + "]" + rest;
    assert s == RenderValor(fl, items[0]) + more;
    ValueReads(fl, items[0], more);
    if |items| == 1 {
      assert more[1..] == rest && items == [items[0]];
    } else {
      assert more[1..] == RenderItems(fl, items[1..]) + "]" + rest;
      ItemsRead(fl, items[1..], read + [items[0]], rest);
      assert read + [items[0]] + items[1..] == read + items;
    }
  }

  /** The key of one member, its colon and its value. */
  lemma MemberReads<F(!new)>(fl: Floats<F>, field: Field<F>, more: string)
    requires ShowsAndReads(fl) && ValidateValue(fl, field.value) == None && WellSorted(field.value) && Ends(more)
    requires Value(fl, RenderValor(fl, field.value) + more) == Ok((field.value, more))
    ensures Member(fl, RenderString(field.key) + ":" + RenderValor(fl, field.value) + more) == Ok((field, more))
  {
    hide ShowsAndReads, Value, RenderValor, WellSorted, RenderChars, StringToken;
    var value := RenderValor(fl, field.value) + more;
    var s := RenderString(field.key) + ":" + RenderValor(fl, field.value) + more;
    assert s == RenderString(field.key) + (":" + value);
    StringReads(field.key, ":" + value);
    assert (":" + value)[1..] == value;
  }

  lemma NextIsLast<F>(read: seq<Field<F>>, fields: seq<Field<F>>)
    requires Sorted(read + fields) && fields != []
    ensures Insert(read, fields[0]) == read + [fields[0]] && !HasKey(read, fields[0].key)
  {
    hide Before;
    forall i | 0 <= i < |read| ensures Before(read[i].key, fields[0].key) {
      assert (read + fields)[i] == read[i] && (read + fields)[|read|] == fields[0];
    }
    InsertLast(read, fields[0]);
  }

  /** The first field of a rendered table, and what comes after it. */
  lemma FirstField<F>(fl: Floats<F>, fields: seq<Field<F>>, rest: string) returns (more: string)
    requires ValidateFields(fl, fields) == None && fields != []
    ensures RenderFields(fl, fields) + "}" + rest ==
            RenderString(fields[0].key) + ":" + RenderValor(fl, fields[0].value) + more
    ensures more == if |fields| == 1 then "}" + rest else "," + (RenderFields(fl, fields[1..]) + "}" + rest)
  {
    hide RenderValor, RenderString;
    var first := RenderString(fields[0].key) + ":" + RenderValor(fl, fields[0].value);
    if |fields| == 1 {
      more := "}" + rest;
      assert first + "}" + rest == first + more;
    } else {
      var others := RenderFields(fl, fields[1..]);
      more := "," + (others + "}" + rest);
      assert first + "," + others + "}" + rest == first + more;
    }
  }

  lemma {:induction false} FieldsRead<F(!new)>(fl: Floats<F>, fields: seq<Field<F>>, read: seq<Field<F>>, rest: string)
    requires ShowsAndReads(fl) && ValidateFields(fl, fields) == None && fields != [] && Sorted(read + fields)
    requires forall i :: 0 <= i < |fields| ==> WellSorted(fields[i].value)
    ensures Members(fl, RenderFields(fl, fields) + "}" + rest, read) == Ok((Tabula(read + fields), rest))
    decreases fields
  {
    hide ShowsAndReads, Value, RenderValor, WellSorted, Member, RenderString, RenderFields, Before, Sorted, Insert,
        HasKey;
    var more := FirstField(fl, fields, rest);
    ValueReads(fl, fields[0].value, more);
    MemberReads(fl, fields[0], more);
    NextIsLast(read, fields);
    if |fields| == 1 {
      assert more[1..] == rest && fields == [fields[0]];
    } else {
      assert more[1..] == RenderFields(fl, fields[1..]) + "}" + rest;
      assert read + [fields[0]] + fields[1..] == read + fields;
      FieldsRead(fl, fields[1..], read + [fields[0]], rest);
    }
  }

  /** Rendering any valid carrier and parsing the text gives the same carrier. */
  lemma DocumentReads<F(!new)>(fl: Floats<F>, v: Valor<F>)
    requires ShowsAndReads(fl) && ValidateRoot(fl, v) == None && WellSorted(v)
    ensures Document(fl, RenderValor(fl, v)) == Ok(v)
  {
    hide ShowsAndReads, Value, RenderValor;
    ValueReads(fl, v, []);
    assert RenderValor(fl, v) + [] == RenderValor(fl, v);
  }

  /** Two valid carriers that render alike are the same. */
  lemma RenderInjective<F(!new)>(fl: Floats<F>, v: Valor<F>, w: Valor<F>)
    requires ShowsAndReads(fl) && ValidateRoot(fl, v) == None && WellSorted(v) && ValidateRoot(fl, w) == None &&
             WellSorted(w)
    requires RenderValor(fl, v) == RenderValor(fl, w)
    ensures v == w
  {
    hide RenderValor, Document, WellSorted;
    DocumentReads(fl, v);
    DocumentReads(fl, w);
  }
}
