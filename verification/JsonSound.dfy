/** Every accepted text is a JSON text of the grammar and denotes the value returned. Each lemma gives
    the tree of what was read. */
module JsonSound {
  import opened Wrappers
  import opened Decimals
  import opened JsonValue
  import opened JsonSyntax
  import opened JsonGrammar

  lemma {:induction false} SpaceRead(s: string) returns (space: string)
    ensures IsBlank(space) && s == space + SkipSpace(s)
  {
    if s != [] && IsSpace(s[0]) {
      var more := SpaceRead(s[1..]);
      space := [s[0]] + more;
      assert s == [s[0]] + s[1..];
    } else {
      space := [];
    }
  }

  // ----- strings

  lemma HexStepRead(s: string, digits: nat, value: nat)
    requires digits > 0 && HexRun(s, digits, value).Ok?
    ensures s != [] && HexValue(s[0]).Some? && s == [s[0]] + s[1..]
    ensures HexRun(s, digits, value) == HexRun(s[1..], digits - 1, 16 * value + HexValue(s[0]).value)
  {
  }

  lemma QuadRead(s: string) returns (q: string)
    requires HexRun(s, 4, 0).Ok?
    ensures IsQuad(q) && HexRun(s, 4, 0).value.0 == QuadValue(q) && s == q + HexRun(s, 4, 0).value.1
  {
    hide HexValue, HexRun, IsQuad, QuadValue, IsHex, Digit16;
    HexStepRead(s, 4, 0);
    var s1, v1 := s[1..], 16 * 0 + HexValue(s[0]).value;
    HexStepRead(s1, 3, v1);
    var s2, v2 := s1[1..], 16 * v1 + HexValue(s1[0]).value;
    HexStepRead(s2, 2, v2);
    var s3, v3 := s2[1..], 16 * v2 + HexValue(s2[0]).value;
    HexStepRead(s3, 1, v3);
    var s4, v4 := s3[1..], 16 * v3 + HexValue(s3[0]).value;
    LastHex(s4, v4);
    q := [s[0], s1[0], s2[0], s3[0]];
    FourDigits(s[0], s1[0], s2[0], s3[0]);
    FourChars(s[0], s1[0], s2[0], s3[0], s4);
  }

  lemma FourChars(a: char, b: char, c: char, d: char, rest: string)
    ensures [a] + ([b] + ([c] + ([d] + rest))) == [a, b, c, d] + rest
  {
  }

  lemma FourDigits(a: char, b: char, c: char, d: char)
    requires HexValue(a).Some? && HexValue(b).Some? && HexValue(c).Some? && HexValue(d).Some?
    ensures IsQuad([a, b, c, d])
    ensures QuadValue([a, b, c, d])
         == 16 * (16 * (16 * (16 * 0 + HexValue(a).value) + HexValue(b).value) + HexValue(c).value) + HexValue(d).value
  {
    hide HexValue, Digit16, IsHex;
    HexMeans(a);
    HexMeans(b);
    HexMeans(c);
    HexMeans(d);
    var q := [a, b, c, d];
    assert q[0] == a && q[1] == b && q[2] == c && q[3] == d;
  }

  lemma LastHex(s: string, value: nat)
    ensures HexRun(s, 0, value) == Ok((value, s))
  {
  }

  /** What stands for one character: a piece that is no surrogate, or two that are a pair. */
  ghost predicate IsUnit(unit: seq<Piece>, c: char) {
    PiecesFine(unit) && unit != [] && PiecesString(unit) == [c] && |unit| == (if IsHigh(unit[0]) then 2 else 1)
  }

  lemma OnePiece(p: Piece) returns (unit: seq<Piece>)
    requires PieceValid(p) && !IsHigh(p) && !IsLow(p) && (p.Plain? ==> !IsControl(p.c))
    ensures unit == [p] && IsUnit(unit, PieceChar(p)) && PiecesText(unit) == PieceText(p)
  {
    hide PieceText, PieceValid, PieceChar;
    unit := [p];
    assert unit[1..] == [];
    NoPieces();
    assert PieceText(p) + [] == PieceText(p);
    assert Paired(unit) && PiecesValid(unit) && NoControls(unit);
  }

  lemma TwoPieces(high: Piece, low: Piece) returns (unit: seq<Piece>)
    requires IsHigh(high) && IsLow(low)
    ensures unit == [high, low] && IsUnit(unit, PairChar(high, low))
    ensures PiecesText(unit) == PieceText(high) + PieceText(low)
  {
    hide IsQuad, QuadValue, IsHex, Digit16, PieceText;
    unit := [high, low];
    SurrogateFacts(high, low);
    assert unit[2..] == [];
    assert unit[1..] == [low] && [low][1..] == [];
    assert PieceText(low) + [] == PieceText(low);
    NoPieces();
    assert PiecesText([low]) == PieceText(low);
    assert Paired(unit) && PiecesValid(unit) && NoControls(unit);
  }

  lemma SurrogateFacts(high: Piece, low: Piece)
    requires IsHigh(high) && IsLow(low)
    ensures !IsHigh(low) && PieceValid(high) && PieceValid(low)
  {
  }

  lemma EscapeRead(s: string) returns (unit: seq<Piece>)
    requires Escape(s).Ok?
    ensures IsUnit(unit, Escape(s).value.0)
    ensures ['\\'] + s == PiecesText(unit) + Escape(s).value.1
  {
    hide PiecesText, IsUnit, UnicodeEscape;
    if s[0] == 'u' {
      assert s == ['u'] + s[1..];
      unit := UnicodeRead(s[1..]);
      Grouped(['\\'], ['u'], s[1..]);
    } else {
      unit := OnePiece(Short(s[0]));
      assert s == [s[0]] + s[1..];
      Grouped(['\\'], [s[0]], s[1..]);
    }
  }

  lemma UnicodeRead(t: string) returns (unit: seq<Piece>)
    requires UnicodeEscape(t).Ok?
    ensures IsUnit(unit, UnicodeEscape(t).value.0)
    ensures ['\\'] + ['u'] + t == PiecesText(unit) + UnicodeEscape(t).value.1
  {
    hide HexRun, HexValue, QuadValue, IsQuad, IsHex, Digit16, IsUnit, PiecesText;
    var q := QuadRead(t);
    var after := HexRun(t, 4, 0).value.1;
    assert ['\\'] + ['u'] + t == PieceText(Quad(q)) + after;
    if 0xd800 <= QuadValue(q) <= 0xdbff {
      var low := QuadRead(after[2..]);
      var rest := HexRun(after[2..], 4, 0).value.1;
      assert after == PieceText(Quad(low)) + rest;
      unit := TwoPieces(Quad(q), Quad(low));
    } else {
      unit := OnePiece(Quad(q));
    }
  }

  lemma {:induction false} CharsRead(s: string, out: string) returns (ps: seq<Piece>)
    requires Chars(s, out).Ok?
    ensures PiecesFine(ps) && Chars(s, out).value.0 == out + PiecesString(ps)
    ensures s == PiecesText(ps) + ['"'] + Chars(s, out).value.1
    decreases |s|
  {
    hide Escape, PieceValid, PieceChar, PieceText, IsUnit, PiecesFine, PiecesText, PiecesString;
    NoPieces();
    if s[0] == '"' {
      ps := [];
      assert s == [] + ['"'] + s[1..];
    } else {
      var unit, c, rest;
      if s[0] == '\\' {
        c, rest := Escape(s[1..]).value.0, Escape(s[1..]).value.1;
        unit := EscapeRead(s[1..]);
        assert s == ['\\'] + s[1..];
      } else {
        c, rest := s[0], s[1..];
        unit := PlainRead(c);
        assert s == [c] + rest;
      }
      var more := CharsRead(rest, out + [c]);
      ps := ConsUnit(unit, c, more);
      Grouped(out, [c], PiecesString(more));
      Grouped(PiecesText(unit), PiecesText(more), ['"'] + Chars(s, out).value.1);
    }
  }

  lemma NoPieces()
    ensures PiecesFine([]) && PiecesText([]) == [] && PiecesString([]) == []
  {
  }

  lemma PlainRead(c: char) returns (unit: seq<Piece>)
    requires c != '"' && c != '\\' && !IsControl(c)
    ensures IsUnit(unit, c) && PiecesText(unit) == [c]
  {
    unit := OnePiece(Plain(c));
  }

  lemma ConsUnit(unit: seq<Piece>, c: char, more: seq<Piece>) returns (ps: seq<Piece>)
    requires IsUnit(unit, c) && PiecesFine(more)
    ensures PiecesFine(ps) && PiecesText(ps) == PiecesText(unit) + PiecesText(more)
    ensures PiecesString(ps) == [c] + PiecesString(more)
  {
    ps := unit + more;
    TextAppend(unit, more);
    UnitInFront(unit, more);
    hide IsQuad, QuadValue, IsHex, Digit16, PieceText, PieceValid, PieceChar, PairChar, IsHigh, IsLow, PiecesText;
    hide PiecesValid, NoControls;
    NoPieces();
    assert ps[|unit|..] == more && unit[|unit|..] == [];
  }

  lemma UnitInFront(unit: seq<Piece>, more: seq<Piece>)
    requires PiecesFine(unit) && PiecesFine(more) && unit != [] && |unit| == (if IsHigh(unit[0]) then 2 else 1)
    ensures PiecesFine(unit + more)
  {
    hide IsQuad, QuadValue, IsHex, Digit16, IsCc, PieceValid, IsHigh, IsLow;
    var ps := unit + more;
    assert forall i :: 0 <= i < |ps| ==> ps[i] == if i < |unit| then unit[i] else more[i - |unit|];
    assert ps[|unit|..] == more;
  }

  lemma {:induction false} TextAppend(ps: seq<Piece>, more: seq<Piece>)
    ensures PiecesText(ps + more) == PiecesText(ps) + PiecesText(more)
  {
    hide PieceText;
    if ps == [] {
      assert ps + more == more;
    } else {
      assert (ps + more)[1..] == ps[1..] + more;
      TextAppend(ps[1..], more);
      Grouped(PieceText(ps[0]), PiecesText(ps[1..]), PiecesText(more));
    }
  }

  lemma StringRead(s: string) returns (ps: seq<Piece>)
    requires StringToken(s).Ok?
    ensures PiecesFine(ps) && StringToken(s).value.0 == PiecesString(ps)
    ensures s == Quoted(ps) + StringToken(s).value.1
  {
    hide Chars, PiecesText, PiecesString, PiecesFine;
    ps := CharsRead(s[1..], "");
    assert s == ['"'] + s[1..];
    assert "" + PiecesString(ps) == PiecesString(ps);
    Grouped(['"'], PiecesText(ps), ['"'] + StringToken(s).value.1);
    Grouped(['"'] + PiecesText(ps), ['"'], StringToken(s).value.1);
  }

  // ----- numbers

  lemma {:induction false} DigitsRead(s: string)
    ensures SkipDigits(s) == s[|s| - |SkipDigits(s)|..] && AllDigits(Taken(s, SkipDigits(s)))
    ensures s == Taken(s, SkipDigits(s)) + SkipDigits(s)
  {
    if StartsDigit(s) {
      var rest := SkipDigits(s[1..]);
      DigitsRead(s[1..]);
      hide SkipDigits;
      FrontTaken(s, rest);
    }
  }

  lemma FrontTaken(s: string, rest: string)
    requires s != [] && |rest| < |s| && rest == s[1..][|s| - 1 - |rest|..]
    ensures rest == s[|s| - |rest|..] && Taken(s, rest) == [s[0]] + Taken(s[1..], rest)
    ensures s == Taken(s, rest) + rest
  {
  }

  lemma WholeRead(s: string) returns (whole: string)
    requires IntegerPart(s).Ok?
    ensures IsWhole(whole) && s == whole + IntegerPart(s).value
  {
    if s[0] == '0' {
      whole := "0";
    } else {
      DigitsRead(s);
      whole := Taken(s, SkipDigits(s));
      assert whole[0] == s[0];
    }
  }

  lemma FractionRead(s: string) returns (fraction: string)
    requires FractionPart(s).Ok?
    ensures AllDigits(fraction) && s == (if fraction == [] then [] else ['.'] + fraction) + FractionPart(s).value
    ensures fraction == [] <==> FractionPart(s).value == s
  {
    hide SkipDigits, Taken, StartsDigit;
    fraction := [];
    if s != [] && s[0] == '.' {
      SomeDigits(s[1..]);
      fraction := Taken(s[1..], SkipDigits(s[1..]));
      assert s == ['.'] + s[1..];
      Grouped(['.'], fraction, SkipDigits(s[1..]));
    }
  }

  lemma SomeDigits(s: string)
    requires StartsDigit(s)
    ensures var digits := Taken(s, SkipDigits(s)); digits != [] && AllDigits(digits) && s == digits + SkipDigits(s)
    ensures |SkipDigits(s)| < |s|
  {
    hide SkipDigits;
    DigitsRead(s);
  }

  lemma ExponentRead(s: string) returns (mark: string, exponent: string)
    requires ExponentPart(s).Ok?
    ensures AllDigits(exponent) && (if mark == [] then exponent == [] else IsMark(mark) && exponent != [])
    ensures s == mark + exponent + ExponentPart(s).value
    ensures mark == [] <==> ExponentPart(s).value == s
  {
    mark, exponent := [], [];
    if s != [] && (s[0] == 'e' || s[0] == 'E') {
      var digits;
      if |s| > 1 && (s[1] == '+' || s[1] == '-') {
        mark, digits := [s[0], s[1]], s[2..];
      } else {
        mark, digits := [s[0]], s[1..];
      }
      assert s == mark + digits;
      DigitsRead(digits);
      exponent := Taken(digits, SkipDigits(digits));
      Grouped(mark, exponent, SkipDigits(digits));
    }
  }

  lemma Grouped<T>(a: seq<T>, b: seq<T>, c: seq<T>)
    ensures a + (b + c) == a + b + c
  {
  }

  lemma Bracketed(open: string, space: string, body: string, close: string, rest: string)
    ensures open + (space + (body + close + rest)) == open + space + body + close + rest
  {
  }

  lemma TakenFront(front: string, rest: string)
    ensures Taken(front + rest, rest) == front
  {
  }

  lemma NumeralRead(s: string) returns (d: Digits)
    requires Numeral(s).Ok?
    ensures var (rest, fractional) := Numeral(s).value;
            s == DigitsText(d) + rest && Taken(s, rest) == DigitsText(d) && Fractional(d) == fractional
    ensures IsWhole(d.whole) && AllDigits(d.fraction) && AllDigits(d.exponent)
    ensures if d.mark == [] then d.exponent == [] else IsMark(d.mark) && d.exponent != []
  {
    hide IntegerPart, FractionPart, ExponentPart, IsWhole, IsMark, Taken;
    var negative := s != [] && s[0] == '-';
    var unsigned := SkipSign(s);
    assert s == Sign(negative) + unsigned;
    var whole := WholeRead(unsigned);
    var r1 := IntegerPart(unsigned).value;
    var fraction := FractionRead(r1);
    var r2 := FractionPart(r1).value;
    var mark, exponent := ExponentRead(r2);
    var rest := ExponentPart(r2).value;
    d := Digits(negative, whole, fraction, mark, exponent);
    var point := if fraction == [] then [] else ['.'] + fraction;
    var token := Sign(negative) + whole + point + mark + exponent;
    assert s == token + rest by {
      Grouped(Sign(negative), whole, r1);
      Grouped(Sign(negative) + whole, point, r2);
      Grouped(Sign(negative) + whole + point, mark, exponent + rest);
      Grouped(Sign(negative) + whole + point + mark, exponent, rest);
      Grouped(mark, exponent, rest);
    }
    TakenFront(token, rest);
  }

  lemma NumberRead<F>(fl: Floats<F>, s: string) returns (d: Digits)
    requires Number(fl, s).Ok?
    ensures DigitsFine(fl, d) && s == DigitsText(d) + Number(fl, s).value.1
    ensures Number(fl, s).value.0 == Meaning(fl, Num(d))
  {
    hide Numeral;
    d := NumeralRead(s);
    if !Fractional(d) {
      WholeValue(d);
    }
  }

  lemma WholeValue(d: Digits)
    requires IsWhole(d.whole) && d.fraction == [] && d.mark == [] && d.exponent == []
    ensures ReadI64(DigitsText(d)) == if InI64(d) then Some(Signed(d)) else None
  {
    var token := DigitsText(d);
    assert token == Sign(d.negative) + d.whole;
    assert IsDigit(d.whole[0]);
    if d.negative {
      assert token[1..] == d.whole;
    } else {
      assert token == d.whole;
    }
  }

  // ----- values

  /** The tree of the value read from the front of a text. */
  lemma {:induction false} ValueRead<F>(fl: Floats<F>, text: string) returns (space: string, n: Node)
    requires Value(fl, text).Ok?
    ensures IsBlank(space) && Fine(fl, n) && text == space + Text(n) + Value(fl, text).value.1
    ensures Value(fl, text).value.0 == Meaning(fl, n)
    decreases |text|, 1
  {
    hide Number, StringToken, Text, Fine, Meaning;
    space := SpaceRead(text);
    var s := SkipSpace(text);
    if s[0] == '{' {
      n := ObjectRead(fl, s);
    } else if s[0] == '[' {
      n := ArrayRead(fl, s);
    } else if s[0] == '"' {
      n := StrRead(fl, s);
    } else if s[0] == '-' || IsDigit(s[0]) {
      n := NumRead(fl, s);
    } else {
      n := WordRead(fl, s);
    }
    assert text == space + s;
  }

  lemma StrRead<F>(fl: Floats<F>, s: string) returns (n: Node)
    requires s != [] && s[0] == '"' && StringToken(s).Ok?
    ensures Fine(fl, n) && s == Text(n) + StringToken(s).value.1 && Textus(StringToken(s).value.0) == Meaning(fl, n)
  {
    hide StringToken, Quoted, PiecesValid, PiecesCarried, PiecesString;
    var pieces := StringRead(s);
    n := Str(pieces);
  }

  lemma NumRead<F>(fl: Floats<F>, s: string) returns (n: Node)
    requires Number(fl, s).Ok?
    ensures Fine(fl, n) && s == Text(n) + Number(fl, s).value.1 && Number(fl, s).value.0 == Meaning(fl, n)
  {
    hide Number, DigitsValid, DigitsFit, DigitsText;
    var d := NumberRead(fl, s);
    n := Num(d);
  }

  lemma WordRead<F>(fl: Floats<F>, s: string) returns (n: Node)
    requires s != [] && (s[0] == 't' || s[0] == 'f' || s[0] == 'n') && Value(fl, s).Ok?
    ensures Fine(fl, n) && s == Text(n) + Value(fl, s).value.1 && Value(fl, s).value.0 == Meaning(fl, n)
  {
    n := Word(if s[0] == 't' then "true" else if s[0] == 'f' then "false" else "null");
    assert SkipSpace(s) == s;
    assert n.word <= s && s == n.word + s[|n.word|..];
  }

  lemma {:induction false} ArrayRead<F>(fl: Floats<F>, s: string) returns (n: Node)
    requires s != [] && s[0] == '[' && Array(fl, s).Ok?
    ensures Fine(fl, n) && s == Text(n) + Array(fl, s).value.1 && Array(fl, s).value.0 == Meaning(fl, n)
    decreases |s|, 0
  {
    hide Elements, Text, Fine, Meaning, ItemsText, Meanings, SkipSpace, ItemFine;
    var space := SpaceRead(s[1..]);
    var inner := SkipSpace(s[1..]);
    assert s == ['['] + (space + inner);
    if inner != [] && inner[0] == ']' {
      n := NoItems(fl, space);
      assert inner == [] + [']'] + inner[1..];
      Bracketed(['['], space, [], [']'], inner[1..]);
    } else {
      var items := ElementsRead(fl, inner, []);
      n := LeadSpace(fl, space, items);
      Bracketed(['['], space, ItemsText(items), [']'], Array(fl, s).value.1);
      assert [] + Meanings(fl, items) == Meanings(fl, items);
    }
  }

  lemma NoItems<F>(fl: Floats<F>, space: string) returns (n: Node)
    requires IsBlank(space)
    ensures Fine(fl, n) && Text(n) == ['['] + space + [']'] && Meaning(fl, n) == Lista([])
  {
    n := Arr(space, []);
  }

  lemma ConsItem<F>(fl: Floats<F>, item: Item, more: seq<Item>)
    requires ItemFine(fl, item) && forall i :: 0 <= i < |more| ==> ItemFine(fl, more[i])
    ensures forall i :: 0 <= i <= |more| ==> ItemFine(fl, ([item] + more)[i])
    ensures ItemsText([item] + more) == ItemText(item) + (if more == [] then [] else [','] + ItemsText(more))
    ensures Meanings(fl, [item] + more) == [ItemMeaning(fl, item)] + Meanings(fl, more)
  {
    hide ItemText, ItemFine, ItemMeaning;
    var all := [item] + more;
    assert all[0] == item && all[1..] == more;
  }

  /** Space after the bracket belongs to the first element. */
  lemma LeadSpace<F>(fl: Floats<F>, space: string, items: seq<Item>) returns (n: Node)
    requires IsBlank(space) && items != [] && forall i :: 0 <= i < |items| ==> ItemFine(fl, items[i])
    ensures Fine(fl, n) && Text(n) == ['['] + space + ItemsText(items) + [']']
    ensures Meaning(fl, n) == Lista(Meanings(fl, items))
  {
    hide ItemsText, Meanings, ItemFine, ItemMeaning, Text, Fine, Meaning;
    var rest := items[1..];
    var first := WithSpace(fl, space, items[0]);
    assert items == [items[0]] + rest;
    ConsItem(fl, items[0], rest);
    ConsItem(fl, first, rest);
    n := ArrOf(fl, [first] + rest);
    Grouped(space, ItemText(items[0]), if rest == [] then [] else [','] + ItemsText(rest));
    Grouped(['['], space, ItemsText(items));
  }

  lemma ArrOf<F>(fl: Floats<F>, items: seq<Item>) returns (n: Node)
    requires items != [] && forall i :: 0 <= i < |items| ==> ItemFine(fl, items[i])
    ensures Fine(fl, n) && Text(n) == ['['] + ItemsText(items) + [']'] && Meaning(fl, n) == Lista(Meanings(fl, items))
  {
    hide ItemsText, ItemFine, Meanings, Fine;
    n := Arr([], items);
    ItemsAreFine(fl, n);
  }

  lemma ObjOf<F>(fl: Floats<F>, members: seq<NodeMember>) returns (n: Node)
    requires members != [] && forall i :: 0 <= i < |members| ==> MemberFine(fl, members[i])
    requires KeysDiffer(members)
    ensures n.Obj? && Fine(fl, n) && Text(n) == ['{'] + MembersText(members) + ['}']
    ensures Meaning(fl, n) == Tabula(Table([], Pairs(fl, members)))
  {
    hide MembersText, MemberFine, Pairs, KeysDiffer, Table, Fine;
    n := Obj([], members);
    MembersAreFine(fl, n);
  }

  lemma WithSpace<F>(fl: Floats<F>, space: string, item: Item) returns (first: Item)
    requires IsBlank(space) && ItemFine(fl, item)
    ensures ItemFine(fl, first) && ItemText(first) == space + ItemText(item) &&
            ItemMeaning(fl, first) == ItemMeaning(fl, item)
  {
    hide Fine, Text, Meaning;
    first := item.(before := space + item.before);
    Grouped(space, item.before, Text(item.node) + item.after);
    Grouped(item.before, Text(item.node), item.after);
    Grouped(space + item.before, Text(item.node), item.after);
  }

  lemma {:induction false} ElementsRead<F>(fl: Floats<F>, s: string, read: seq<Valor<F>>) returns (items: seq<Item>)
    requires Elements(fl, s, read).Ok?
    ensures items != [] && forall i :: 0 <= i < |items| ==> ItemFine(fl, items[i])
    ensures s == ItemsText(items) + [']'] + Elements(fl, s, read).value.1
    ensures Elements(fl, s, read).value.0 == Lista(read + Meanings(fl, items))
    decreases |s|, 2
  {
    hide Value, Fine, Text, Meaning, ItemsText, Meanings, SkipSpace, ItemFine, ItemText, ItemMeaning;
    var (v, after) := Value(fl, s).value;
    var item := ItemRead(fl, s);
    var rest := SkipSpace(after);
    if rest != [] && rest[0] == ']' {
      ConsItem(fl, item, []);
      items := [item] + [];
      assert rest == [']'] + rest[1..];
      NoMeanings(fl);
      Grouped(ItemText(item), [']'], rest[1..]);
    } else {
      var more := ElementsRead(fl, rest[1..], read + [v]);
      ConsItem(fl, item, more);
      items := [item] + more;
      assert rest == [','] + rest[1..];
      ItemThenMore(ItemText(item), ItemsText(more), Elements(fl, s, read).value.1);
      Grouped(read, [v], Meanings(fl, more));
    }
  }

  lemma ItemThenMore(first: string, more: string, rest: string)
    ensures first + ([','] + (more + [']'] + rest)) == first + ([','] + more) + [']'] + rest
  {
  }

  lemma NoMeanings<F>(fl: Floats<F>)
    ensures Meanings(fl, []) == []
  {
  }

  lemma {:induction false} ItemRead<F>(fl: Floats<F>, s: string) returns (item: Item)
    requires Value(fl, s).Ok?
    ensures ItemFine(fl, item) && ItemMeaning(fl, item) == Value(fl, s).value.0
    ensures s == ItemText(item) + SkipSpace(Value(fl, s).value.1)
    decreases |s|, 2, 0
  {
    hide Value, Fine, Text, Meaning;
    var before, node := ValueRead(fl, s);
    var space := SpaceRead(Value(fl, s).value.1);
    item := Item(before, node, space);
    InnerFine(fl, item);
  }

  lemma {:induction false} ObjectRead<F>(fl: Floats<F>, s: string) returns (n: Node)
    requires s != [] && s[0] == '{' && Object(fl, s).Ok?
    ensures n.Obj? && Fine(fl, n) && s == Text(n) + Object(fl, s).value.1 && Object(fl, s).value.0 == Meaning(fl, n)
    decreases |s|, 0
  {
    hide Members, Text, Fine, Meaning, MembersText, SkipSpace, Table, Pairs, NewKeys, MemberFine;
    var space := SpaceRead(s[1..]);
    var inner := SkipSpace(s[1..]);
    assert s == ['{'] + (space + inner);
    if inner != [] && inner[0] == '}' {
      n := NoMembers(fl, space);
      assert inner == [] + ['}'] + inner[1..];
      Bracketed(['{'], space, [], ['}'], inner[1..]);
    } else {
      var members := MembersRead(fl, inner, []);
      n := LeadSpaceMembers(fl, space, members);
      Bracketed(['{'], space, MembersText(members), ['}'], Object(fl, s).value.1);
    }
  }

  lemma NoMembers<F>(fl: Floats<F>, space: string) returns (n: Node)
    requires IsBlank(space)
    ensures n.Obj? && Fine(fl, n) && Text(n) == ['{'] + space + ['}'] && Meaning(fl, n) == Tabula([])
  {
    n := Obj(space, []);
  }

  lemma ConsMember<F>(fl: Floats<F>, m: NodeMember, more: seq<NodeMember>)
    requires MemberFine(fl, m) && forall i :: 0 <= i < |more| ==> MemberFine(fl, more[i])
    ensures forall i :: 0 <= i <= |more| ==> MemberFine(fl, ([m] + more)[i])
    ensures MembersText([m] + more) == MemberText(m) + (if more == [] then [] else [','] + MembersText(more))
    ensures Pairs(fl, [m] + more) == [PairOf(fl, m)] + Pairs(fl, more)
  {
    hide MemberText, MemberFine, PairOf;
    var all := [m] + more;
    assert all[0] == m && all[1..] == more;
  }

  lemma LeadSpaceMembers<F>(fl: Floats<F>, space: string, members: seq<NodeMember>) returns (n: Node)
    requires IsBlank(space) && members != [] && forall i :: 0 <= i < |members| ==> MemberFine(fl, members[i])
    requires NewKeys([], Pairs(fl, members))
    ensures n.Obj? && Fine(fl, n) && Text(n) == ['{'] + space + MembersText(members) + ['}']
    ensures Meaning(fl, n) == Tabula(Table([], Pairs(fl, members)))
  {
    hide MembersText, Pairs, MemberFine, PairOf, Table, NewKeys, KeysDiffer, MemberText, Text, Fine, Meaning;
    var rest := members[1..];
    var first := WithSpaceMember(fl, space, members[0]);
    assert members == [members[0]] + rest;
    ConsMember(fl, members[0], rest);
    ConsMember(fl, first, rest);
    var all := [first] + rest;
    PairsKeys(fl, all);
    n := ObjOf(fl, all);
    Grouped(space, MemberText(members[0]), if rest == [] then [] else [','] + MembersText(rest));
    Grouped(['{'], space, MembersText(members));
  }

  lemma WithSpaceMember<F>(fl: Floats<F>, space: string, m: NodeMember) returns (first: NodeMember)
    requires IsBlank(space) && MemberFine(fl, m)
    ensures MemberFine(fl, first) && MemberText(first) == space + MemberText(m) && PairOf(fl, first) == PairOf(fl, m)
  {
    hide ItemFine, ItemText, ItemMeaning, Quoted, PiecesFine, PiecesString;
    first := m.(before := space + m.before);
    MemberParts(space + m.before, Quoted(m.key), m.beforeColon, ItemText(m.item), []);
    MemberParts(m.before, Quoted(m.key), m.beforeColon, ItemText(m.item), []);
    Grouped(space, m.before, Quoted(m.key) + (m.beforeColon + ([':'] + (ItemText(m.item) + []))));
    assert MemberText(first) + [] == space + (MemberText(m) + []);
  }

  lemma PairsKeys<F>(fl: Floats<F>, members: seq<NodeMember>)
    requires forall i :: 0 <= i < |members| ==> MemberFine(fl, members[i])
    requires NewKeys([], Pairs(fl, members))
    ensures KeysDiffer(members)
  {
    var pairs := Pairs(fl, members);
    forall i | 0 <= i < |members|
      ensures PiecesFine(members[i].key) && pairs[i].key == PiecesString(members[i].key)
    {
      assert MemberFine(fl, members[i]);
      PairAt(fl, members, i);
    }
  }

  lemma {:induction false} MemberRead<F>(fl: Floats<F>, s: string) returns (m: NodeMember)
    requires Member(fl, s).Ok?
    ensures MemberFine(fl, m) && PairOf(fl, m) == Member(fl, s).value.0 && m.item.after == []
    ensures s == MemberText(m) + Member(fl, s).value.1
    decreases |s|, 1
  {
    hide Value, StringToken, Fine, Text, Meaning, SkipSpace, Quoted, PiecesFine, PiecesString;
    var before := SpaceRead(s);
    var t := SkipSpace(s);
    var key := StringRead(t);
    var afterKey := StringToken(t).value.1;
    var beforeColon := SpaceRead(afterKey);
    var colon := SkipSpace(afterKey);
    assert colon == [':'] + colon[1..];
    var space, node := ValueRead(fl, colon[1..]);
    var rest := Value(fl, colon[1..]).value.1;
    m := NodeMember(before, key, beforeColon, Item(space, node, []));
    assert ItemText(m.item) == space + Text(node);
    InnerFine(fl, m.item);
    InnerItemFine(fl, m);
    MemberParts(before, Quoted(key), beforeColon, ItemText(m.item), rest);
  }

  lemma MemberParts(before: string, key: string, beforeColon: string, item: string, rest: string)
    ensures before + (key + (beforeColon + ([':'] + (item + rest)))) == before + key + beforeColon + [':'] + item + rest
  {
  }

  lemma {:induction false} MembersRead<F>(fl: Floats<F>, s: string, read: seq<Field<F>>)
    returns (members: seq<NodeMember>)
    requires Members(fl, s, read).Ok?
    ensures members != [] && forall i :: 0 <= i < |members| ==> MemberFine(fl, members[i])
    ensures s == MembersText(members) + ['}'] + Members(fl, s, read).value.1
    ensures NewKeys(read, Pairs(fl, members))
    ensures Members(fl, s, read).value.0 == Tabula(Table(read, Pairs(fl, members)))
    decreases |s|, 2
  {
    hide Member, MemberFine, MemberText, PairOf, Insert, Before, MembersText, Pairs, NewKeys, SkipSpace, HasKey;
    var (field, after) := Member(fl, s).value;
    var m := MemberRead(fl, s);
    var space := SpaceRead(after);
    var rest := SkipSpace(after);
    var full := TrailSpace(fl, m, space);
    assert s == MemberText(full) + rest;
    if rest != [] && rest[0] == '}' {
      ConsMember(fl, full, []);
      members := [full] + [];
      assert rest == ['}'] + rest[1..];
      NoPairs(fl);
      assert Pairs(fl, members) == [field];
      assert Table(read, [field]) == Insert(read, field);
      NoNewKeys(Insert(read, field));
      NewKeysCons(read, field, []);
    } else {
      var more := MembersRead(fl, rest[1..], Insert(read, field));
      ConsMember(fl, full, more);
      members := [full] + more;
      assert rest == [','] + (MembersText(more) + ['}'] + Members(fl, s, read).value.1);
      MemberThenMore(MemberText(full), MembersText(more), Members(fl, s, read).value.1);
      assert ([field] + Pairs(fl, more))[1..] == Pairs(fl, more);
      NewKeysCons(read, field, Pairs(fl, more));
    }
  }

  lemma MemberThenMore(first: string, more: string, rest: string)
    ensures first + ([','] + (more + ['}'] + rest)) == first + ([','] + more) + ['}'] + rest
  {
  }

  lemma TrailSpace<F>(fl: Floats<F>, m: NodeMember, space: string) returns (full: NodeMember)
    requires MemberFine(fl, m) && m.item.after == [] && IsBlank(space)
    ensures MemberFine(fl, full) && PairOf(fl, full) == PairOf(fl, m) && MemberText(full) == MemberText(m) + space
  {
    full := m.(item := m.item.(after := space));
    InnerItemFine(fl, m);
    assert ItemText(full.item) == ItemText(m.item) + space;
  }

  lemma NoNewKeys<F>(fields: seq<Field<F>>)
    ensures NewKeys(fields, [])
  {
  }

  lemma NoPairs<F>(fl: Floats<F>)
    ensures Pairs(fl, []) == []
  {
  }

  lemma NewKeysCons<F>(read: seq<Field<F>>, field: Field<F>, more: seq<Field<F>>)
    requires !HasKey(read, field.key) && NewKeys(Insert(read, field), more)
    ensures NewKeys(read, [field] + more)
  {
    hide Before, Insert, HasKey;
    var all := [field] + more;
    assert forall i :: 0 < i < |all| ==> all[i] == more[i - 1];
    forall i | 0 < i < |all| ensures all[i].key != field.key && !HasKey(read, all[i].key) {
      assert !HasKey(Insert(read, field), more[i - 1].key);
      InsertHasKey(read, field, all[i].key);
    }
    forall i, j | 0 <= i < j < |all| ensures all[i].key != all[j].key {
      if i > 0 {
        assert more[i - 1].key != more[j - 1].key;
      }
    }
  }

  /** An accepted document is a JSON text: space, one object without a key that comes twice at any depth,
      and space, up to the end of the input; and it denotes the value returned. */
  lemma DocumentRead<F>(fl: Floats<F>, wire: string) returns (before: string, n: Node, after: string)
    requires Document(fl, wire).Ok?
    ensures IsBlank(before) && IsBlank(after) && n.Obj? && Fine(fl, n)
    ensures wire == before + Text(n) + after
    ensures Document(fl, wire).value == Meaning(fl, n)
  {
    hide Value, Fine, Text;
    before, n := ValueRead(fl, wire);
    var rest := Value(fl, wire).value.1;
    after := SpaceRead(rest);
    OnlyObjects(fl, n);
  }

  lemma OnlyObjects<F>(fl: Floats<F>, n: Node)
    requires Fine(fl, n) && Meaning(fl, n).Tabula?
    ensures n.Obj?
  {
  }
}
