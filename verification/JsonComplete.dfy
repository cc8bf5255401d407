/** What the parser does with every text of the grammar: it is accepted, and gives what its tree denotes,
    exactly when the carrier takes the tree; otherwise it is refused. With JsonSound this says which texts
    the parser accepts. */
module JsonComplete {
  import opened Wrappers
  import opened Decimals
  import opened JsonValue
  import opened JsonSyntax
  import opened JsonGrammar
  import JsonSound
  import R = JsonRoundTrip

  // ----- space

  lemma {:induction false} SpaceSkipped(space: string, rest: string)
    requires IsBlank(space) && (rest != [] ==> !IsSpace(rest[0]))
    ensures SkipSpace(space + rest) == rest
    decreases |space|
  {
    if space == [] {
      assert space + rest == rest;
    } else {
      assert (space + rest)[1..] == space[1..] + rest;
      SpaceSkipped(space[1..], rest);
    }
  }

  lemma {:induction false} SkipTwice(s: string)
    ensures SkipSpace(SkipSpace(s)) == SkipSpace(s)
  {
    if s != [] && IsSpace(s[0]) {
      SkipTwice(s[1..]);
    }
  }

  // ----- strings

  lemma HexTaken(c: char, rest: string, digits: nat, value: nat)
    requires digits > 0 && HexValue(c).Some?
    ensures HexRun([c] + rest, digits, value) == HexRun(rest, digits - 1, 16 * value + HexValue(c).value)
  {
    assert ([c] + rest)[1..] == rest;
  }

  lemma QuadTaken(q: string, rest: string)
    requires IsQuad(q)
    ensures HexRun(q + rest, 4, 0) == Ok((QuadValue(q), rest))
  {
    hide HexValue, HexRun, Digit16, IsHex;
    var a, b, c, d := q[0], q[1], q[2], q[3];
    HexMeans(a);
    HexMeans(b);
    HexMeans(c);
    HexMeans(d);
    JsonSound.FourChars(a, b, c, d, rest);
    assert q == [a, b, c, d];
    var v1 := 16 * 0 + HexValue(a).value;
    var v2 := 16 * v1 + HexValue(b).value;
    var v3 := 16 * v2 + HexValue(c).value;
    HexTaken(a, [b] + ([c] + ([d] + rest)), 4, 0);
    HexTaken(b, [c] + ([d] + rest), 3, v1);
    HexTaken(c, [d] + rest, 2, v2);
    HexTaken(d, rest, 1, v3);
    JsonSound.LastHex(rest, 16 * v3 + HexValue(d).value);
  }

  /** An escape or a plain character that is no part of a surrogate pair, in front of any text. */
  lemma PieceTaken(p: Piece, rest: string, out: string)
    requires PieceValid(p) && !IsHigh(p)
    ensures var r := Chars(PieceText(p) + rest, out);
            if IsLow(p) || (p.Plain? && IsControl(p.c)) then r == Err(InvalidSyntax)
                else r == Chars(rest, out + [PieceChar(p)])
  {
    hide HexRun, HexValue, QuadValue, IsHex, Digit16;
    var s := PieceText(p) + rest;
    match p {
      case Plain(c) => assert s[1..] == rest;
      case Short(c) => assert s[1..] == [c] + rest && s[1..][1..] == rest;
      case Quad(q) =>
        assert s[1..] == ['u'] + (q + rest) && s[1..][1..] == q + rest;
        QuadTaken(q, rest);
    }
  }

  /** A high surrogate needs the escape of a low one right after it. */
  lemma HighTaken(high: Piece, after: string, out: string)
    requires IsHigh(high) && (|after| < 2 || after[0] != '\\' || after[1] != 'u')
    ensures Chars(PieceText(high) + after, out) == Err(InvalidSyntax)
  {
    hide HexRun, HexValue, QuadValue, IsHex, Digit16;
    var s := PieceText(high) + after;
    assert s[1..] == ['u'] + (high.q + after) && s[1..][1..] == high.q + after;
    QuadTaken(high.q, after);
  }

  lemma PairTaken(high: Piece, next: Piece, rest: string, out: string)
    requires IsHigh(high) && next.Quad? && PieceValid(next)
    ensures var r := Chars(PieceText(high) + (PieceText(next) + rest), out);
            if IsLow(next) then r == Chars(rest, out + [PairChar(high, next)]) else r == Err(InvalidSyntax)
  {
    hide HexRun, HexValue, QuadValue, IsHex, Digit16;
    var after := PieceText(next) + rest;
    var s := PieceText(high) + after;
    assert s[1..] == ['u'] + (high.q + after) && s[1..][1..] == high.q + after;
    QuadTaken(high.q, after);
    assert after[2..] == next.q + rest;
    QuadTaken(next.q, rest);
  }

  /** What follows a high surrogate begins an escape of four digits only if the next piece is one. */
  lemma PiecesStart(ps: seq<Piece>, rest: string)
    requires PiecesValid(ps) && (ps != [] ==> !ps[0].Quad?)
    ensures var s := PiecesText(ps) + ['"'] + rest; |s| < 2 || s[0] != '\\' || s[1] != 'u'
  {
    if ps != [] {
      var s := PiecesText(ps) + ['"'] + rest;
      assert PieceText(ps[0]) <= s;
      assert s[0] == PieceText(ps[0])[0];
    }
  }

  lemma CarriedOne(ps: seq<Piece>)
    requires ps != [] && PiecesValid(ps) && !IsHigh(ps[0])
    ensures PiecesValid(ps[1..])
    ensures PiecesCarried(ps) <==>
              !IsLow(ps[0]) && !(ps[0].Plain? && IsControl(ps[0].c)) && PiecesCarried(ps[1..])
  {
    hide IsQuad, QuadValue, IsHex, Digit16, IsControl, IsCc, PieceValid;
    if ps[0].Plain? {
      CcMeans(ps[0].c);
    }
    var more := ps[1..];
    assert forall i :: 1 <= i < |ps| ==> ps[i] == more[i - 1];
  }

  lemma CarriedTwo(ps: seq<Piece>)
    requires |ps| > 1 && PiecesValid(ps) && IsHigh(ps[0]) && IsLow(ps[1])
    ensures PiecesValid(ps[2..])
    ensures PiecesCarried(ps) <==> PiecesCarried(ps[2..])
  {
    hide IsQuad, QuadValue, IsHex, Digit16, IsControl, PieceValid;
    var more := ps[2..];
    assert forall i :: 2 <= i < |ps| ==> ps[i] == more[i - 2];
  }

  /** The characters of a string, up to the closing quote. */
  lemma {:induction false} PiecesTaken(ps: seq<Piece>, rest: string, out: string)
    requires PiecesValid(ps)
    ensures var r := Chars(PiecesText(ps) + ['"'] + rest, out);
            if PiecesCarried(ps) then r == Ok((out + PiecesString(ps), rest)) else r == Err(InvalidSyntax)
    decreases |ps|
  {
    hide PieceText, PieceChar, PairChar, PieceValid, Escape, Chars, IsHigh, IsLow, PiecesCarried;
    JsonSound.NoPieces();
    var s := PiecesText(ps) + ['"'] + rest;
    if ps == [] {
      ClosingQuote(rest, out);
      assert s == ['"'] + rest;
      assert out + PiecesString(ps) == out;
    } else {
      var p, more := ps[0], PiecesText(ps[1..]) + ['"'] + rest;
      FrontPiece(PieceText(p), PiecesText(ps[1..]), rest);
      if !IsHigh(p) {
        PieceTaken(p, more, out);
        CarriedOne(ps);
        if PiecesCarried(ps) || (!IsLow(p) && !(p.Plain? && IsControl(p.c))) {
          PiecesTaken(ps[1..], rest, out + [PieceChar(p)]);
        }
        if PiecesCarried(ps) {
          JsonSound.Grouped(out, [PieceChar(p)], PiecesString(ps[1..]));
        }
      } else {
        HighFirstTaken(ps, rest, out);
      }
    }
  }

  lemma {:induction false} HighFirstTaken(ps: seq<Piece>, rest: string, out: string)
    requires ps != [] && PiecesValid(ps) && IsHigh(ps[0])
    ensures var r := Chars(PiecesText(ps) + ['"'] + rest, out);
            if PiecesCarried(ps) then r == Ok((out + PiecesString(ps), rest)) else r == Err(InvalidSyntax)
    decreases |ps|, 0
  {
    hide PieceText, PieceChar, PairChar, PieceValid, Escape, Chars, IsHigh, IsLow, NoControls;
    var p, others := ps[0], ps[1..];
    var more := PiecesText(others) + ['"'] + rest;
    FrontPiece(PieceText(p), PiecesText(others), rest);
    if others == [] || !others[0].Quad? {
      PiecesStart(others, rest);
      HighTaken(p, more, out);
      NotLow(ps);
    } else {
      var next, last := others[0], PiecesText(others[1..]) + ['"'] + rest;
      FrontPiece(PieceText(next), PiecesText(others[1..]), rest);
      PairTaken(p, next, last, out);
      if IsLow(next) {
        CarriedTwo(ps);
        assert others[1..] == ps[2..];
        PiecesTaken(ps[2..], rest, out + [PairChar(p, next)]);
        if PiecesCarried(ps) {
          JsonSound.Grouped(out, [PairChar(p, next)], PiecesString(ps[2..]));
        }
      }
    }
  }

  lemma NotLow(ps: seq<Piece>)
    ensures forall i :: 0 <= i < |ps| && IsLow(ps[i]) ==> ps[i].Quad?
  {
  }

  lemma ClosingQuote(rest: string, out: string)
    ensures Chars(['"'] + rest, out) == Ok((out, rest))
  {
    assert (['"'] + rest)[1..] == rest;
  }

  lemma FrontPiece(piece: string, others: string, rest: string)
    ensures piece + others + ['"'] + rest == piece + (others + ['"'] + rest)
  {
  }

  lemma QuotedTaken(ps: seq<Piece>, rest: string)
    requires PiecesValid(ps)
    ensures var r := StringToken(Quoted(ps) + rest);
            if PiecesCarried(ps) then r == Ok((PiecesString(ps), rest)) else r == Err(InvalidSyntax)
  {
    hide Chars, PiecesText, PiecesValid, PiecesCarried, PiecesString;
    var s := Quoted(ps) + rest;
    assert s[1..] == PiecesText(ps) + ['"'] + rest;
    PiecesTaken(ps, rest, "");
    if PiecesCarried(ps) {
      assert "" + PiecesString(ps) == PiecesString(ps);
    }
  }

  // ----- numbers

  lemma FractionTaken(fraction: string, rest: string)
    requires AllDigits(fraction) && !StartsDigit(rest) && (rest != [] ==> rest[0] != '.')
    ensures FractionPart((if fraction == [] then [] else ['.'] + fraction) + rest) == Ok(rest)
  {
    if fraction == [] {
      assert [] + rest == rest;
    } else {
      var s := ['.'] + fraction + rest;
      assert s[1..] == fraction + rest;
      R.DigitsSkipped(fraction, rest);
    }
  }

  lemma ExponentTaken(mark: string, exponent: string, rest: string)
    requires AllDigits(exponent) && (if mark == [] then exponent == [] else IsMark(mark) && exponent != [])
    requires R.Ends(rest)
    ensures ExponentPart(mark + exponent + rest) == Ok(rest)
  {
    var s := mark + exponent + rest;
    if mark == [] {
      assert s == rest;
    } else {
      var digits := exponent + rest;
      assert s == mark + digits;
      assert if |mark| == 2 then s[2..] == digits else s[1..] == digits && s[1] == exponent[0];
      R.DigitsSkipped(exponent, rest);
    }
  }

  /** What follows the whole part of a numeral does not continue it. */
  lemma TailsEnd(d: Digits, rest: string) returns (tail: string, point: string, last: string)
    requires IsWhole(d.whole) && AllDigits(d.fraction) && R.Ends(rest)
    requires if d.mark == [] then d.exponent == [] else IsMark(d.mark)
    ensures last == d.mark + d.exponent + rest && point == (if d.fraction == [] then [] else ['.'] + d.fraction)
    ensures tail == point + last && !StartsDigit(tail) && !StartsDigit(last) && (last != [] ==> last[0] != '.')
    ensures DigitsText(d) + rest == Sign(d.negative) + d.whole + tail
    ensures (tail != last <==> d.fraction != []) && (last != rest <==> d.mark != [])
  {
    point := if d.fraction == [] then [] else ['.'] + d.fraction;
    last := d.mark + d.exponent + rest;
    tail := point + last;
    if d.mark == [] {
      assert last == rest;
    } else {
      assert last[0] == d.mark[0];
    }
    var front := Sign(d.negative) + d.whole;
    JsonSound.Grouped(front + point, d.mark + d.exponent, rest);
    JsonSound.Grouped(front + point, d.mark, d.exponent);
    JsonSound.Grouped(front, point, last);
  }

  lemma NumberTaken<F>(fl: Floats<F>, d: Digits, rest: string)
    requires DigitsValid(d) && R.Ends(rest)
    ensures var r := Number(fl, DigitsText(d) + rest);
            if DigitsFit(fl, d) then r == Ok((Meaning(fl, Num(d)), rest))
            else r == Err(InvalidNumber(DigitsText(d)))
  {
    hide IntegerPart, FractionPart, ExponentPart, SkipSign, IsWhole, IsMark, Taken, DigitsText, InI64, ReadI64;
    var tail, point, last := TailsEnd(d, rest);
    R.SignSkipped(d.negative, d.whole, tail);
    R.WholeReads(d.whole, tail);
    FractionTaken(d.fraction, last);
    ExponentTaken(d.mark, d.exponent, rest);
    JsonSound.TakenFront(DigitsText(d), rest);
    WholeDigits(d);
    if !Fractional(d) {
      JsonSound.WholeValue(d);
    }
  }

  lemma WholeDigits(d: Digits)
    requires DigitsValid(d)
    ensures AllDigits(d.whole)
  {
  }

  // ----- values

  /** How a node's text begins. */
  lemma NodeStarts(n: Node)
    requires NodeValid(n)
    ensures Text(n) != [] && !IsSpace(Text(n)[0]) && Text(n)[0] != ']'
    ensures n.Num? ==> Text(n)[0] == '-' || IsDigit(Text(n)[0])
  {
    if n.Num? {
      var d := n.digits;
      assert Text(n)[0] == if d.negative then '-' else d.whole[0];
    }
  }

  /** Space before a value makes no difference. */
  lemma ValueAfterSpace<F>(fl: Floats<F>, space: string, text: string)
    requires IsBlank(space) && text != [] && !IsSpace(text[0])
    ensures Value(fl, space + text) == Value(fl, text)
  {
    SpaceSkipped(space, text);
    SkipTwice(text);
    assert SkipSpace(text) == text;
  }

  /** Reading a tree's text gives what the tree denotes and leaves `rest`, or is refused if the carrier
      cannot take the tree. */
  ghost predicate Took<F(!new)>(fl: Floats<F>, n: Node, rest: string, r: Parsed<Valor<F>>) {
    if Fine(fl, n) then r == Ok((Meaning(fl, n), rest)) else r.Err?
  }

  lemma ScalarTaken<F(!new)>(fl: Floats<F>, n: Node, rest: string)
    requires NodeValid(n) && !n.Arr? && !n.Obj? && R.Ends(rest)
    ensures Took(fl, n, rest, Value(fl, Text(n) + rest))
  {
    hide Number, StringToken, Quoted, PiecesValid, PiecesCarried, PiecesString, Object, Array, DigitsValid, DigitsFit;
    hide DigitsText;
    NodeStarts(n);
    var s := Text(n) + rest;
    assert SkipSpace(s) == s;
    match n {
      case Word(word) => assert word <= s && s[|word|..] == rest;
      case Num(d) => NumberTaken(fl, d, rest);
      case Str(pieces) =>
        QuotedTaken(pieces, rest);
        QuotedStarts(pieces);
    }
  }

  lemma QuotedStarts(ps: seq<Piece>)
    ensures Quoted(ps) != [] && Quoted(ps)[0] == '"'
  {
  }

  /** What comes after an item cannot continue a number. */
  lemma AfterItem(after: string, rest: string)
    requires IsBlank(after) && rest != [] && (rest[0] == ',' || rest[0] == ']' || rest[0] == '}')
    ensures R.Ends(after + rest) && SkipSpace(after + rest) == rest
  {
    SpaceSkipped(after, rest);
    if after != [] {
      assert (after + rest)[0] == after[0] && IsSpace(after[0]);
    } else {
      assert after + rest == rest;
    }
  }

  /** Every tree's text, whatever space is in front of it. */
  lemma {:induction false} NodeTaken<F(!new)>(fl: Floats<F>, space: string, n: Node, rest: string)
    requires IsBlank(space) && NodeValid(n) && R.Ends(rest)
    ensures Took(fl, n, rest, Value(fl, space + (Text(n) + rest)))
    decreases n, 1
  {
    hide Value, Text, Took;
    NodeStarts(n);
    ValueAfterSpace(fl, space, Text(n) + rest);
    match n {
      case Arr(inner, items) => ArrayTaken(fl, n, rest);
      case Obj(inner, members) => ObjectTaken(fl, n, rest);
      case _ => ScalarTaken(fl, n, rest);
    }
  }

  lemma {:induction false} ArrayTaken<F(!new)>(fl: Floats<F>, n: Node, rest: string)
    requires n.Arr? && NodeValid(n)
    ensures Took(fl, n, rest, Value(fl, Text(n) + rest))
    decreases n, 0
  {
    hide Elements, ItemsText, Meanings, ItemFine, ItemValid, Fine;
    ItemsAreFine(fl, n);
    var s := Text(n) + rest;
    if n.items == [] {
      assert s[1..] == n.space + ([']'] + rest);
      SpaceSkipped(n.space, [']'] + rest);
      assert ([']'] + rest)[1..] == rest;
      JsonSound.NoMeanings(fl);
    } else {
      var body := ItemsText(n.items) + [']'] + rest;
      assert s[1..] == body;
      ItemsTaken(fl, n.items, [], rest);
      ItemsStart(n.items, [']'] + rest);
      JsonSound.Grouped(ItemsText(n.items), [']'], rest);
      ElementsAfterSpace(fl, body, []);
      if AllFine(fl, n.items) {
        assert [] + Meanings(fl, n.items) == Meanings(fl, n.items);
      }
    }
  }

  lemma ElementsAfterSpace<F>(fl: Floats<F>, s: string, read: seq<Valor<F>>)
    ensures Elements(fl, SkipSpace(s), read) == Elements(fl, s, read)
  {
    SkipTwice(s);
    ValueSkips(fl, s);
    hide Value;
  }

  lemma ValueSkips<F>(fl: Floats<F>, s: string)
    ensures Value(fl, SkipSpace(s)) == Value(fl, s)
  {
    SkipTwice(s);
  }

  /** Items begin, after space, with something other than a closing bracket. */
  lemma ItemsStart(items: seq<Item>, rest: string)
    requires items != [] && forall i :: 0 <= i < |items| ==> ItemValid(items[i])
    ensures var t := SkipSpace(ItemsText(items) + rest); t != [] && t[0] != ']'
  {
    hide Text, NodeValid;
    var i := items[0];
    var tail := if |items| == 1 then i.after + rest else i.after + [','] + ItemsText(items[1..]) + rest;
    NodeStarts(i.node);
    assert ItemsText(items) + rest == i.before + (Text(i.node) + tail);
    SpaceSkipped(i.before, Text(i.node) + tail);
  }

  /** The text of an item and what follows it, in the shape the parser meets it. */
  lemma ItemParts(i: Item, more: string)
    ensures ItemText(i) + more == i.before + (Text(i.node) + (i.after + more))
  {
    hide Text;
  }

  predicate AllFine<F>(fl: Floats<F>, items: seq<Item>) {
    forall i :: 0 <= i < |items| ==> ItemFine(fl, items[i])
  }

  lemma AllFineCons<F>(fl: Floats<F>, items: seq<Item>)
    requires items != []
    ensures AllFine(fl, items) <==> ItemFine(fl, items[0]) && AllFine(fl, items[1..])
  {
    hide ItemFine;
    assert forall i :: 1 <= i < |items| ==> items[i] == items[1..][i - 1];
  }

  lemma {:induction false} ItemTaken<F(!new)>(fl: Floats<F>, i: Item, more: string)
    requires ItemValid(i) && more != [] && (more[0] == ',' || more[0] == ']' || more[0] == '}')
    ensures var r := Value(fl, ItemText(i) + more);
            if ItemFine(fl, i) then r == Ok((ItemMeaning(fl, i), i.after + more)) else r.Err?
    ensures SkipSpace(i.after + more) == more
    decreases i
  {
    hide Value, Fine, Meaning, Text, SkipSpace, NodeValid, ItemFine;
    InnerFine(fl, i);
    ItemParts(i, more);
    AfterItem(i.after, more);
    NodeTaken(fl, i.before, i.node, i.after + more);
  }

  lemma OneMeaning<F>(fl: Floats<F>, items: seq<Item>)
    requires |items| == 1
    ensures AllFine(fl, items) <==> ItemFine(fl, items[0])
    ensures AllFine(fl, items) ==> Meanings(fl, items) == [ItemMeaning(fl, items[0])]
  {
    hide ItemFine, ItemMeaning;
    assert items[1..] == [];
  }

  lemma MeaningsCons<F>(fl: Floats<F>, read: seq<Valor<F>>, items: seq<Item>)
    requires items != [] && AllFine(fl, items)
    ensures AllFine(fl, items[1..]) && ItemFine(fl, items[0])
    ensures read + Meanings(fl, items) == read + [ItemMeaning(fl, items[0])] + Meanings(fl, items[1..])
  {
    hide ItemFine, ItemMeaning;
    JsonSound.Grouped(read, [ItemMeaning(fl, items[0])], Meanings(fl, items[1..]));
  }

  lemma {:induction false} ItemsTaken<F(!new)>(fl: Floats<F>, items: seq<Item>, read: seq<Valor<F>>, rest: string)
    requires items != [] && forall i :: 0 <= i < |items| ==> ItemValid(items[i])
    ensures var r := Elements(fl, ItemsText(items) + [']'] + rest, read);
            if AllFine(fl, items) then r == Ok((Lista(read + Meanings(fl, items)), rest)) else r.Err?
    decreases items
  {
    hide Value, ItemValid, ItemFine, ItemMeaning, ItemText, SkipSpace, AllFine;
    AllFineCons(fl, items);
    var i := items[0];
    var others := ItemsText(items[1..]);
    var more := if |items| == 1 then [']'] + rest else [','] + (others + [']'] + rest);
    var s := ItemsText(items) + [']'] + rest;
    assert s == ItemText(i) + more;
    ItemTaken(fl, i, more);
    if ItemFine(fl, i) {
      var v := ItemMeaning(fl, i);
      if |items| == 1 {
        assert more[1..] == rest;
        OneMeaning(fl, items);
      } else {
        assert more[1..] == others + [']'] + rest;
        ItemsTaken(fl, items[1..], read + [v], rest);
        if AllFine(fl, items) {
          MeaningsCons(fl, read, items);
        }
      }
    }
  }

  lemma {:induction false} ObjectTaken<F(!new)>(fl: Floats<F>, n: Node, rest: string)
    requires n.Obj? && NodeValid(n)
    ensures Took(fl, n, rest, Value(fl, Text(n) + rest))
    decreases n, 0
  {
    hide Members, MembersText, Pairs, MemberFine, MemberValid, NewKeys, KeysDiffer, Table, Fine, MembersFit;
    MembersAreFine(fl, n);
    var s := Text(n) + rest;
    if n.members == [] {
      assert s[1..] == n.space + (['}'] + rest);
      SpaceSkipped(n.space, ['}'] + rest);
      assert (['}'] + rest)[1..] == rest;
      NoMembersFine(fl, n.members);
    } else {
      var body := MembersText(n.members) + ['}'] + rest;
      assert s[1..] == body;
      FitAtFirst(fl, n.members);
      MembersTaken(fl, n.members, [], rest);
      MembersStart(n.members, ['}'] + rest);
      JsonSound.Grouped(MembersText(n.members), ['}'], rest);
      MembersAfterSpace(fl, body, []);
    }
  }

  lemma NoMembersFine<F>(fl: Floats<F>, members: seq<NodeMember>)
    requires members == []
    ensures KeysDiffer(members) && Table([], Pairs(fl, members)) == []
  {
  }

  lemma MembersAfterSpace<F>(fl: Floats<F>, s: string, fields: seq<Field<F>>)
    ensures Members(fl, SkipSpace(s), fields) == Members(fl, s, fields)
  {
    SkipTwice(s);
    MemberSkips(fl, s);
    hide Member;
  }

  lemma MemberSkips<F>(fl: Floats<F>, s: string)
    ensures Member(fl, SkipSpace(s)) == Member(fl, s)
  {
    SkipTwice(s);
  }

  lemma MembersStart(members: seq<NodeMember>, rest: string)
    requires members != [] && forall i :: 0 <= i < |members| ==> MemberValid(members[i])
    ensures var t := SkipSpace(MembersText(members) + rest); t != [] && t[0] != '}'
  {
    hide ItemText, ItemValid, Quoted, PiecesValid;
    var m := members[0];
    var tail := m.beforeColon + [':'] + ItemText(m.item) +
                (if |members| == 1 then rest else [','] + MembersText(members[1..]) + rest);
    QuotedStarts(m.key);
    assert MembersText(members) + rest == m.before + (Quoted(m.key) + tail);
    SpaceSkipped(m.before, Quoted(m.key) + tail);
  }

  lemma {:induction false} MemberTaken<F(!new)>(fl: Floats<F>, m: NodeMember, more: string)
    requires MemberValid(m) && more != [] && (more[0] == ',' || more[0] == '}')
    ensures var r := Member(fl, MemberText(m) + more);
            if MemberFine(fl, m) then r == Ok((PairOf(fl, m), m.item.after + more)) else r.Err?
    ensures SkipSpace(m.item.after + more) == more
    decreases m
  {
    hide Value, ItemFine, ItemValid, ItemMeaning, ItemText, SkipSpace, StringToken, Quoted, PiecesString, PiecesValid;
    hide PiecesCarried, MemberFine;
    InnerItemFine(fl, m);
    var colon := [':'] + (ItemText(m.item) + more);
    var afterKey := m.beforeColon + colon;
    JsonSound.MemberParts(m.before, Quoted(m.key), m.beforeColon, ItemText(m.item), more);
    assert MemberText(m) + more == m.before + (Quoted(m.key) + afterKey);
    QuotedStarts(m.key);
    SpaceSkipped(m.before, Quoted(m.key) + afterKey);
    QuotedTaken(m.key, afterKey);
    SpaceSkipped(m.beforeColon, colon);
    assert colon[1..] == ItemText(m.item) + more;
    ItemTaken(fl, m.item, more);
  }

  /** Every member can be taken, and no key is in the table or comes twice. */
  ghost predicate MembersFit<F(!new)>(fl: Floats<F>, fields: seq<Field<F>>, members: seq<NodeMember>) {
    (forall i :: 0 <= i < |members| ==> MemberFine(fl, members[i])) && NewKeys(fields, Pairs(fl, members))
  }

  lemma FitCons<F(!new)>(fl: Floats<F>, fields: seq<Field<F>>, members: seq<NodeMember>)
    requires members != [] && MemberFine(fl, members[0])
    ensures var pair := PairOf(fl, members[0]);
            MembersFit(fl, fields, members) <==>
              !HasKey(fields, pair.key) && MembersFit(fl, Insert(fields, pair), members[1..])
  {
    hide MemberFine, PairOf, HasKey, Insert, NewKeys;
    var pair, more := PairOf(fl, members[0]), members[1..];
    assert forall i :: 1 <= i < |members| ==> members[i] == more[i - 1];
    if forall i :: 0 <= i < |more| ==> MemberFine(fl, more[i]) {
      var pairs := Pairs(fl, more);
      if MembersFit(fl, fields, members) {
        assert Pairs(fl, members) == [pair] + pairs;
        assert ([pair] + pairs)[1..] == pairs;
        NewKeysAfter(fields, [pair] + pairs);
      } else if !HasKey(fields, pair.key) && MembersFit(fl, Insert(fields, pair), more) {
        JsonSound.NewKeysCons(fields, pair, pairs);
        assert false;
      }
    }
  }

  lemma FitFirst<F(!new)>(fl: Floats<F>, fields: seq<Field<F>>, members: seq<NodeMember>)
    requires members != [] && MembersFit(fl, fields, members)
    ensures MemberFine(fl, members[0])
  {
  }

  lemma NothingFits<F(!new)>(fl: Floats<F>, fields: seq<Field<F>>)
    ensures MembersFit(fl, fields, [])
  {
  }

  lemma PairsCons<F(!new)>(fl: Floats<F>, fields: seq<Field<F>>, members: seq<NodeMember>)
    requires members != [] && MembersFit(fl, fields, members)
    ensures MembersFit(fl, Insert(fields, PairOf(fl, members[0])), members[1..])
    ensures Table(fields, Pairs(fl, members))
         == Table(Insert(fields, PairOf(fl, members[0])), Pairs(fl, members[1..]))
  {
    hide MemberFine, PairOf, Insert, NewKeys;
    assert MemberFine(fl, members[0]);
    FitCons(fl, fields, members);
    var pairs := Pairs(fl, members);
    assert pairs[0] == PairOf(fl, members[0]) && pairs[1..] == Pairs(fl, members[1..]);
  }

  lemma FitAtFirst<F(!new)>(fl: Floats<F>, members: seq<NodeMember>)
    ensures MembersFit(fl, [], members) <==>
              (forall i :: 0 <= i < |members| ==> MemberFine(fl, members[i])) && KeysDiffer(members)
  {
    hide MemberFine, NewKeys, KeysDiffer;
    if forall i :: 0 <= i < |members| ==> MemberFine(fl, members[i]) {
      if KeysDiffer(members) {
        KeysAreNew(fl, members);
      }
      if NewKeys([], Pairs(fl, members)) {
        JsonSound.PairsKeys(fl, members);
      }
    }
  }

  lemma KeysAreNew<F>(fl: Floats<F>, members: seq<NodeMember>)
    requires (forall i :: 0 <= i < |members| ==> MemberFine(fl, members[i])) && KeysDiffer(members)
    ensures NewKeys([], Pairs(fl, members))
  {
    hide MemberFine, PiecesString;
    forall i | 0 <= i < |members| ensures Pairs(fl, members)[i].key == PiecesString(members[i].key) {
      PairAt(fl, members, i);
    }
  }

  lemma {:induction false} MembersTaken<F(!new)>(
    fl: Floats<F>, members: seq<NodeMember>, fields: seq<Field<F>>, rest: string)
    requires members != [] && forall i :: 0 <= i < |members| ==> MemberValid(members[i])
    ensures var r := Members(fl, MembersText(members) + ['}'] + rest, fields);
            if MembersFit(fl, fields, members) then r == Ok((Tabula(Table(fields, Pairs(fl, members))), rest))
            else r.Err?
    decreases members
  {
    hide Member, MemberText, SkipSpace, PairOf, Insert, HasKey, MemberFine, MemberValid, MembersFit;
    var m := members[0];
    var others := MembersText(members[1..]);
    var more := if |members| == 1 then ['}'] + rest else [','] + (others + ['}'] + rest);
    var s := MembersText(members) + ['}'] + rest;
    assert s == MemberText(m) + more;
    MemberTaken(fl, m, more);
    if MembersFit(fl, fields, members) {
      FitFirst(fl, fields, members);
      PairsCons(fl, fields, members);
    }
    if MemberFine(fl, m) {
      FitCons(fl, fields, members);
      var pair := PairOf(fl, m);
      if |members| == 1 {
        assert more[1..] == rest;
        assert members[1..] == [];
        NothingFits(fl, Insert(fields, pair));
      } else if !HasKey(fields, pair.key) {
        assert more[1..] == others + ['}'] + rest;
        MembersTaken(fl, members[1..], Insert(fields, pair), rest);
      }
    }
  }

  lemma NewKeysAfter<F>(fields: seq<Field<F>>, more: seq<Field<F>>)
    requires more != [] && NewKeys(fields, more)
    ensures NewKeys(Insert(fields, more[0]), more[1..]) && !HasKey(fields, more[0].key)
  {
    hide Insert, HasKey;
    forall i | 0 <= i < |more[1..]| ensures !HasKey(Insert(fields, more[0]), more[1..][i].key) {
      InsertHasKey(fields, more[0], more[i + 1].key);
    }
  }

  // ----- documents

  ghost predicate ValueAdmitted<F(!new)>(fl: Floats<F>, f: Field<F>) {
    ValidateValue(fl, f.value) == None && WellSorted(f.value)
  }

  lemma {:induction false} FieldsAdmitted<F(!new)>(fl: Floats<F>, fields: seq<Field<F>>)
    requires forall i :: 0 <= i < |fields| ==> ValueAdmitted(fl, fields[i])
    ensures ValidateFields(fl, fields) == None
    decreases fields
  {
    if fields != [] {
      assert ValueAdmitted(fl, fields[0]);
      FieldsAdmitted(fl, fields[1..]);
    }
  }

  lemma AdmittedTable<F(!new)>(fl: Floats<F>, fields: seq<Field<F>>)
    requires Sorted(fields) && forall i :: 0 <= i < |fields| ==> ValueAdmitted(fl, fields[i])
    ensures ValidateValue(fl, Tabula(fields)) == None && WellSorted(Tabula(fields))
  {
    hide Before;
    FieldsAdmitted(fl, fields);
    forall i | 0 <= i < |fields| ensures WellSorted(fields[i].value) {
      assert ValueAdmitted(fl, fields[i]);
    }
  }

  lemma SameFields<F(!new)>(fl: Floats<F>, fields: seq<Field<F>>, pairs: seq<Field<F>>)
    requires multiset(fields) == multiset(pairs) && forall i :: 0 <= i < |pairs| ==> ValueAdmitted(fl, pairs[i])
    ensures forall i :: 0 <= i < |fields| ==> ValueAdmitted(fl, fields[i])
  {
    hide ValueAdmitted;
    forall i | 0 <= i < |fields| ensures ValueAdmitted(fl, fields[i]) {
      assert fields[i] in multiset(pairs);
      var j :| 0 <= j < |pairs| && pairs[j] == fields[i];
    }
  }

  /** What a carried tree denotes is a value the carrier admits. */
  lemma {:induction false} MeaningAdmitted<F(!new)>(fl: Floats<F>, n: Node)
    requires Fine(fl, n)
    ensures ValidateValue(fl, Meaning(fl, n)) == None && WellSorted(Meaning(fl, n))
    decreases n, 1
  {
    match n {
      case Arr(space, items) =>
        ItemsAreFine(fl, n);
        ItemsAdmitted(fl, items);
      case Obj(space, members) => ObjectAdmitted(fl, n);
      case _ =>
    }
  }

  lemma {:induction false} ItemsAdmitted<F(!new)>(fl: Floats<F>, items: seq<Item>)
    requires AllFine(fl, items)
    ensures ValidateItems(fl, Meanings(fl, items)) == None
    ensures forall i :: 0 <= i < |Meanings(fl, items)| ==> WellSorted(Meanings(fl, items)[i])
    decreases items
  {
    hide Fine, Meaning, ValidateValue, WellSorted;
    if items != [] {
      assert ItemFine(fl, items[0]);
      InnerFine(fl, items[0]);
      MeaningAdmitted(fl, items[0].node);
      ItemsAdmitted(fl, items[1..]);
    }
  }

  lemma {:induction false} ObjectAdmitted<F(!new)>(fl: Floats<F>, n: Node)
    requires n.Obj? && Fine(fl, n)
    ensures ValidateValue(fl, Meaning(fl, n)) == None && WellSorted(Meaning(fl, n))
    decreases n, 0
  {
    hide ValidateFields, ValidateValue, Meaning, Before, Fine, MemberFine, Pairs;
    MembersAreFine(fl, n);
    MeaningIsTable(fl, n);
    var fields, pairs := Meaning(fl, n).fields, Pairs(fl, n.members);
    ObjectDenotes(fl, n);
    forall i | 0 <= i < |pairs| ensures ValueAdmitted(fl, pairs[i]) {
      PairAt(fl, n.members, i);
      assert MemberFine(fl, n.members[i]);
      MemberAdmitted(fl, n.members[i]);
    }
    SameFields(fl, fields, pairs);
    AdmittedTable(fl, fields);
  }

  lemma {:induction false} MemberAdmitted<F(!new)>(fl: Floats<F>, m: NodeMember)
    requires MemberFine(fl, m)
    ensures ValueAdmitted(fl, PairOf(fl, m))
    decreases m
  {
    InnerItemFine(fl, m);
    InnerFine(fl, m.item);
    MeaningAdmitted(fl, m.item.node);
  }

  /** A text of the grammar: a value with space around it (section 2). */
  predicate IsText(wire: string, before: string, n: Node, after: string) {
    IsBlank(before) && IsBlank(after) && NodeValid(n) && wire == before + Text(n) + after
  }

  /** The text of an object that the carrier takes. */
  predicate IsDocument<F>(fl: Floats<F>, wire: string, before: string, n: Node, after: string) {
    IsText(wire, before, n, after) && n.Obj? && Carried(fl, n)
  }

  /** Of the texts of the grammar exactly the objects the carrier can take are accepted: no control
      character stands for itself, surrogates are paired, numbers fit and keys differ, at any depth. */
  lemma DocumentTaken<F(!new)>(fl: Floats<F>, wire: string, before: string, n: Node, after: string)
    requires IsText(wire, before, n, after)
    ensures Document(fl, wire).Ok? <==> n.Obj? && Carried(fl, n)
    ensures Document(fl, wire).Ok? ==> Document(fl, wire).value == Meaning(fl, n)
    ensures Carried(fl, n) && !n.Obj? ==> Document(fl, wire) == Err(ExpectedObjectRoot)
  {
    hide Value, Text, NodeValid, Carried, Meaning, ValidateValue;
    assert after + [] == after;
    SpaceSkipped(after, []);
    BlankEnds(after);
    NodeTaken(fl, before, n, after);
    JsonSound.Grouped(before, Text(n), after);
    if Carried(fl, n) {
      MeaningAdmitted(fl, n);
      MeaningIsTable(fl, n);
    }
  }

  lemma BlankEnds(s: string)
    requires IsBlank(s)
    ensures R.Ends(s)
  {
    assert s != [] ==> IsSpace(s[0]);
  }

  lemma MeaningIsTable<F>(fl: Floats<F>, n: Node)
    requires Fine(fl, n)
    ensures Meaning(fl, n).Tabula? <==> n.Obj?
  {
  }

  // ----- texts of the grammar that are refused, one for each condition

  function OneMember(value: Node): Node {
    Obj([], [NodeMember([], [Plain('a')], [], Item([], value, []))])
  }

  lemma OneMemberText(value: Node)
    requires NodeValid(value)
    ensures NodeValid(OneMember(value)) && Text(OneMember(value)) == "{\"a\":" + Text(value) + "}"
    ensures IsText(Text(OneMember(value)), [], OneMember(value), [])
  {
    hide Text, NodeValid;
    var n := OneMember(value);
    var m := n.members[0];
    OnlyMember(n);
    assert Quoted(m.key) == "\"a\"" by {
      assert m.key[1..] == [];
    }
    assert ItemText(m.item) == Text(value);
    assert Text(n) == [] + Text(n) + [];
  }

  lemma OnlyMember(n: Node)
    requires n.Obj? && |n.members| == 1
    ensures Text(n) == ['{'] + MemberText(n.members[0]) + ['}']
    ensures NodeValid(n) <==> IsBlank(n.space) && MemberValid(n.members[0])
  {
    hide MemberText, MemberValid;
  }

  lemma OneMemberRefused<F(!new)>(fl: Floats<F>, value: Node, written: string) returns (n: Node)
    requires NodeValid(value) && !Carried(fl, value) && Text(value) == written
    ensures IsText("{\"a\":" + written + "}", [], n, []) && Document(fl, "{\"a\":" + written + "}").Err?
  {
    hide Document, Text, NodeValid;
    n := OneMember(value);
    OneMemberText(value);
    assert n.members[0].item.node == value;
    assert !MemberCarried(fl, n.members[0]);
    DocumentTaken(fl, Text(n), [], n, []);
  }

  lemma RefusesDelete<F(!new)>(fl: Floats<F>) returns (n: Node)
    ensures IsText("{\"a\":\"\U{7f}\"}", [], n, []) && Document(fl, "{\"a\":\"\U{7f}\"}").Err?
  {
    var ps := [Plain('\U{7f}')];
    assert ps[0].Plain? && IsControl(ps[0].c) && ps[1..] == [];
    n := OneMemberRefused(fl, Str(ps), "\"\U{7f}\"");
  }

  lemma RefusesLoneSurrogate<F(!new)>(fl: Floats<F>) returns (n: Node)
    ensures IsText("{\"a\":\"\\ud800\"}", [], n, []) && Document(fl, "{\"a\":\"\\ud800\"}").Err?
  {
    hide Document, IsQuad, QuadValue, IsHex, Digit16, IsText, Quoted, PiecesText, PiecesValid;
    var ps := [Quad("d800")];
    SomeQuads();
    LonePiece(ps[0]);
    assert IsHigh(ps[0]);
    n := OneMemberRefused(fl, Str(ps), ['"'] + (['\\', 'u'] + "d800") + ['"']);
    assert "{\"a\":" + (['"'] + (['\\', 'u'] + "d800") + ['"']) + "}" == "{\"a\":\"\\ud800\"}";
  }

  lemma SomeQuads()
    ensures IsQuad("d800") && QuadValue("d800") == 0xd800
    ensures IsQuad("0061") && QuadValue("0061") == 'a' as int
  {
    HexMeans('d');
    HexMeans('8');
    HexMeans('0');
    HexMeans('6');
    HexMeans('1');
    hide IsHex, Digit16;
  }

  lemma LonePiece(p: Piece)
    requires PieceValid(p)
    ensures Quoted([p]) == ['"'] + PieceText(p) + ['"'] && PiecesValid([p])
  {
    hide PieceText;
    assert [p][1..] == [];
    JsonSound.NoPieces();
    assert PieceText(p) + [] == PieceText(p);
  }

  /** A whole number beyond the largest i64. */
  lemma RefusesBigNumber<F(!new)>(fl: Floats<F>, k: nat) returns (n: Node)
    requires k > 0x7fff_ffff_ffff_ffff
    ensures IsText("{\"a\":" + Decimal(k) + "}", [], n, []) && Document(fl, "{\"a\":" + Decimal(k) + "}").Err?
  {
    var d := Digits(false, Decimal(k), [], [], []);
    DecimalValue(k);
    hide Decimal, Document;
    assert DigitsText(d) == Decimal(k);
    n := OneMemberRefused(fl, Num(d), Decimal(k));
  }

  /** The keys differ as they are written, and are the same string. */
  lemma RefusesSameKey<F(!new)>(fl: Floats<F>) returns (n: Node)
    ensures IsText("{\"a\":null,\"\\u0061\":null}", [], n, [])
    ensures Document(fl, "{\"a\":null,\"\\u0061\":null}").Err?
  {
    var first, second := SameKeys();
    hide Document, PiecesFine, PiecesString, Quoted, Text, IsText;
    n := Nulls(fl, first, second);
    SameKeyText();
  }

  lemma SameKeys() returns (first: seq<Piece>, second: seq<Piece>)
    ensures PiecesFine(first) && PiecesFine(second) && PiecesString(first) == PiecesString(second)
    ensures Quoted(first) == ['"'] + ['a'] + ['"'] && Quoted(second) == ['"'] + (['\\', 'u'] + "0061") + ['"']
  {
    var plain, quad := Plain('a'), Quad("0061");
    SomeQuads();
    hide IsQuad, QuadValue, IsHex, Digit16, PiecesFine, PiecesString, Quoted;
    first := JsonSound.OnePiece(plain);
    second := JsonSound.OnePiece(quad);
    LonePiece(plain);
    LonePiece(quad);
  }

  lemma SameKeyText()
    ensures ['{'] + (['"'] + ['a'] + ['"']) + ":null," + (['"'] + (['\\', 'u'] + "0061") + ['"']) + ":null}"
         == "{\"a\":null,\"\\u0061\":null}"
  {
  }

  /** Two members whose keys are the same string are refused. */
  lemma Nulls<F(!new)>(fl: Floats<F>, first: seq<Piece>, second: seq<Piece>) returns (n: Node)
    requires PiecesFine(first) && PiecesFine(second) && PiecesString(first) == PiecesString(second)
    ensures Text(n) == ['{'] + Quoted(first) + ":null," + Quoted(second) + ":null}"
    ensures IsText(Text(n), [], n, []) && Document(fl, Text(n)).Err?
  {
    hide PiecesString, Document, PiecesCarried, PiecesValid, MemberText, Quoted, Text, Carried, MembersText;
    var nil := Item([], Word("null"), []);
    var a, b := NodeMember([], first, [], nil), NodeMember([], second, [], nil);
    n := Obj([], [a, b]);
    NullMember(a);
    NullMember(b);
    TwoMembers(fl, n);
    assert Text(n) == ['{'] + (Quoted(first) + ":null" + [','] + (Quoted(second) + ":null")) + ['}'];
    assert Text(n) == [] + Text(n) + [];
    DocumentTaken(fl, Text(n), [], n, []);
  }

  lemma NullMember(m: NodeMember)
    requires m == NodeMember([], m.key, [], Item([], Word("null"), [])) && PiecesValid(m.key)
    ensures MemberValid(m) && MemberText(m) == Quoted(m.key) + ":null"
  {
    hide Quoted, PiecesValid;
    assert ItemText(m.item) == "null";
  }

  lemma TwoMembers<F>(fl: Floats<F>, n: Node)
    requires n.Obj? && |n.members| == 2 && PiecesFine(n.members[0].key) && PiecesFine(n.members[1].key)
    ensures Text(n) == ['{'] + (MemberText(n.members[0]) + [','] + MemberText(n.members[1])) + ['}']
    ensures NodeValid(n) <==> IsBlank(n.space) && MemberValid(n.members[0]) && MemberValid(n.members[1])
    ensures Carried(fl, n) ==> PiecesString(n.members[0].key) != PiecesString(n.members[1].key)
  {
    hide MemberText, MemberValid, PiecesString, PiecesFine, MemberCarried;
    var last := [n.members[1]];
    assert n.members[1..] == last;
    assert MembersText(last) == MemberText(last[0]);
    assert MembersText(n.members) == MemberText(n.members[0]) + [','] + MemberText(n.members[1]);
  }

  /** And nothing else is accepted. */
  lemma AcceptsExactly<F(!new)>(fl: Floats<F>, wire: string)
    ensures Document(fl, wire).Ok? <==> exists before, n, after :: IsDocument(fl, wire, before, n, after)
  {
    hide Document, NodeValid, Carried, Text;
    if Document(fl, wire).Ok? {
      var before, n, after := JsonSound.DocumentRead(fl, wire);
      assert IsDocument(fl, wire, before, n, after);
    }
    if exists before, n, after :: IsDocument(fl, wire, before, n, after) {
      var before, n, after :| IsDocument(fl, wire, before, n, after);
      DocumentTaken(fl, wire, before, n, after);
    }
  }

  /** Rendering what was parsed gives a text that parses to the same value. */
  lemma ParsedRendersBack<F(!new)>(fl: Floats<F>, wire: string)
    requires R.ShowsAndReads(fl) && Document(fl, wire).Ok?
    ensures var v := Document(fl, wire).value;
            ValidateRoot(fl, v) == None && WellSorted(v) && Document(fl, RenderValor(fl, v)) == Ok(v)
  {
    hide NodeValid, Text, Meaning, R.ShowsAndReads, ValidateValue, RenderValor, WellSorted, Value;
    var before, n, after := JsonSound.DocumentRead(fl, wire);
    MeaningAdmitted(fl, n);
    MeaningIsTable(fl, n);
    R.DocumentReads(fl, Meaning(fl, n));
  }
}
