/** What rendering writes: for every value one tree of the grammar, without a blank, with the members in the
    order of the table and every character in its shortest spelling. */
module JsonRender {
  import opened Wrappers
  import opened Decimals
  import opened JsonValue
  import opened JsonSyntax
  import opened JsonGrammar
  import R = JsonRoundTrip

  // ----- characters

  /** The characters that have a short escape other than the solidus, quote and backslash. */
  predicate HasShort(c: char) {
    c == '\U{8}' || c == '\U{c}' || c == '\U{a}' || c == '\U{d}' || c == '\U{9}'
  }

  /** A character stands for itself if the grammar and the parser allow it, else it has its short escape, else
      four lower-case digits. */
  ghost predicate Spells(c: char, p: Piece) {
    match p
    case Plain(d) => d == c && !IsCc(c) && c != '"' && c != '\\'
    case Short(x) => PieceValid(p) && PieceChar(p) == c && (HasShort(c) || c == '"' || c == '\\')
    case Quad(q) =>
      && IsCc(c) && !HasShort(c) && IsQuad(q) && QuadValue(q) == c as int
      && forall i :: 0 <= i < 4 ==> q[i] in LowerHex()
  }

  ghost predicate SpellsAll(s: string, ps: seq<Piece>) {
    |s| == |ps| && forall i :: 0 <= i < |s| ==> Spells(s[i], ps[i])
  }

  lemma LowerDigit(n: nat)
    requires n < 16
    ensures HexDigit(n) == LowerHex()[n] && HexDigit(n) in LowerHex() && IsHex(HexDigit(n)) && Digit16(HexDigit(n)) == n
  {
    assert HexDigit(n) == LowerHex()[n];
    R.HexDigitReads(n);
    HexMeans(HexDigit(n));
    hide IsHex, Digit16, HexValue;
  }

  lemma QuadSpells(n: nat)
    requires n < 0x10000
    ensures IsQuad(Hex4(n)) && QuadValue(Hex4(n)) == n && forall i :: 0 <= i < 4 ==> Hex4(n)[i] in LowerHex()
  {
    R.HexSum(n);
    LowerDigit(n / 0x1000);
    LowerDigit(n / 0x100 % 16);
    LowerDigit(n / 16 % 16);
    LowerDigit(n % 16);
    hide HexDigit, LowerHex, IsHex, Digit16;
  }

  lemma CharSpelled(c: char) returns (p: Piece)
    ensures Spells(c, p) && PieceText(p) == RenderChar(c)
  {
    hide IsHex, Digit16, LowerHex, IsQuad, QuadValue, Hex4;
    CcMeans(c);
    if HasShort(c) || c == '"' || c == '\\' {
      p := Short(if c == '\U{8}' then 'b' else if c == '\U{c}' then 'f' else if c == '\U{a}' then 'n'
                 else if c == '\U{d}' then 'r' else if c == '\U{9}' then 't' else c);
    } else if IsCc(c) {
      QuadSpells(c as int);
      p := Quad(Hex4(c as int));
    } else {
      p := Plain(c);
    }
  }

  lemma {:induction false} StringSpelled(s: string) returns (ps: seq<Piece>)
    ensures SpellsAll(s, ps) && PiecesText(ps) == RenderChars(s)
  {
    hide Spells, RenderChar, PieceText;
    if s == [] {
      ps := [];
    } else {
      var first := CharSpelled(s[0]);
      var more := StringSpelled(s[1..]);
      ps := [first] + more;
      assert ps[1..] == more;
      assert forall i :: 1 <= i < |s| ==> s[i] == s[1..][i - 1] && ps[i] == more[i - 1];
    }
  }

  // ----- values

  /** No blank at either side. */
  predicate Bare(i: Item) {
    i.before == [] && i.after == []
  }

  predicate BareMember(m: NodeMember) {
    m.before == [] && m.beforeColon == [] && Bare(m.item)
  }

  /** The tree that stands for a value in its canonical form. */
  ghost predicate Renders<F>(fl: Floats<F>, v: Valor<F>, n: Node)
    decreases v
  {
    match v
    case Nihil => n == Word("null")
    case Bivalens(b) => n == Word(if b then "true" else "false")
    case Numerus(k) => WholeNumeral(n) && Signed(n.digits) == k && (k == 0 ==> !n.digits.negative)
    case Fractus(x) =>
      && n.Num? && DigitsValid(n.digits) && n.digits.fraction != [] && n.digits.mark == []
      && (DigitsText(n.digits) == fl.show(x) || DigitsText(n.digits) == fl.show(x) + ".0")
    case Textus(text) => n.Str? && SpellsAll(text, n.pieces)
    case Lista(items) =>
      && n.Arr? && n.space == [] && |n.items| == |items|
      && forall i :: 0 <= i < |items| ==> Bare(n.items[i]) && Renders(fl, items[i], n.items[i].node)
    case Tabula(fields) =>
      && n.Obj? && n.space == [] && |n.members| == |fields|
      && forall i :: 0 <= i < |fields| ==>
           BareMember(n.members[i]) && SpellsAll(fields[i].key, n.members[i].key) &&
           Renders(fl, fields[i].value, n.members[i].item.node)
    case _ => false
  }

  predicate WholeNumeral(n: Node) {
    n.Num? && DigitsValid(n.digits) && !Fractional(n.digits) && AllDigits(n.digits.whole)
  }

  lemma I64Rendered(k: I64) returns (n: Node)
    ensures WholeNumeral(n) && Signed(n.digits) == k && (k == 0 ==> !n.digits.negative) && Text(n) == RenderI64(k)
  {
    var i: int := k;
    var m: nat := if i < 0 then -i else i;
    R.DecimalIsWhole(m);
    DecimalValue(m);
    hide Decimal, DigitsValue, IsWhole;
    n := Num(Digits(i < 0, Decimal(m), [], [], []));
    assert DigitsText(n.digits) == Sign(i < 0) + Decimal(m);
  }

  lemma FractusRendered<F(!new)>(fl: Floats<F>, x: F) returns (n: Node)
    requires R.ShowsAndReads(fl) && fl.finite(x)
    ensures Renders(fl, Fractus(x), n) && Text(n) == RenderFractus(fl, x)
  {
    var negative, whole, fraction := R.FractusHasPoint(fl, x);
    n := Num(Digits(negative, whole, fraction, [], []));
    assert DigitsText(n.digits) == R.Plain(negative, whole, fraction);
  }

  lemma Unspaced(n: Node)
    ensures ItemText(Item([], n, [])) == Text(n)
  {
    hide Text;
  }

  /** Rendering a valid value writes the text of such a tree. */
  lemma {:induction false} RendersTree<F(!new)>(fl: Floats<F>, v: Valor<F>) returns (n: Node)
    requires R.ShowsAndReads(fl) && ValidateValue(fl, v) == None
    ensures Renders(fl, v, n) && Text(n) == RenderValor(fl, v)
    decreases v, 1
  {
    match v {
      case Nihil => n := Word("null");
      case Bivalens(b) => n := Word(if b then "true" else "false");
      case Numerus(k) => n := I64Rendered(k);
      case Fractus(x) => n := FractusRendered(fl, x);
      case Textus(text) =>
        var ps := StringSpelled(text);
        n := Str(ps);
      case Lista(items) =>
        var trees := ItemsRendered(fl, items);
        n := Arr([], trees);
      case Tabula(fields) =>
        var trees := FieldsRendered(fl, fields);
        n := Obj([], trees);
    }
  }

  lemma {:induction false} ItemsRendered<F(!new)>(fl: Floats<F>, items: seq<Valor<F>>) returns (trees: seq<Item>)
    requires R.ShowsAndReads(fl) && ValidateItems(fl, items) == None
    ensures |trees| == |items|
    ensures forall i :: 0 <= i < |items| ==> Bare(trees[i]) && Renders(fl, items[i], trees[i].node)
    ensures ItemsText(trees) == RenderItems(fl, items)
    decreases items
  {
    hide Text, RenderValor, Renders, ValidateValue, R.ShowsAndReads;
    if items == [] {
      trees := [];
    } else {
      var n := RendersTree(fl, items[0]);
      var more := ItemsRendered(fl, items[1..]);
      trees := [Item([], n, [])] + more;
      Unspaced(n);
      assert trees[1..] == more;
      assert forall i :: 1 <= i < |items| ==> items[i] == items[1..][i - 1] && trees[i] == more[i - 1];
    }
  }

  lemma BareMemberText(key: seq<Piece>, n: Node)
    ensures MemberText(NodeMember([], key, [], Item([], n, []))) == Quoted(key) + [':'] + Text(n)
  {
    hide Text, Quoted;
    Unspaced(n);
  }

  lemma {:induction false} FieldsRendered<F(!new)>(fl: Floats<F>, fields: seq<Field<F>>)
    returns (trees: seq<NodeMember>)
    requires R.ShowsAndReads(fl) && ValidateFields(fl, fields) == None
    ensures |trees| == |fields|
    ensures forall i :: 0 <= i < |fields| ==>
              BareMember(trees[i]) && SpellsAll(fields[i].key, trees[i].key) &&
              Renders(fl, fields[i].value, trees[i].item.node)
    ensures MembersText(trees) == RenderFields(fl, fields)
    decreases fields
  {
    hide Text, RenderValor, Renders, ValidateValue, R.ShowsAndReads, SpellsAll, RenderChars, PiecesText;
    if fields == [] {
      trees := [];
    } else {
      var key := StringSpelled(fields[0].key);
      var n := RendersTree(fl, fields[0].value);
      var more := FieldsRendered(fl, fields[1..]);
      var first := NodeMember([], key, [], Item([], n, []));
      trees := [first] + more;
      BareMemberText(key, n);
      assert MemberText(first) == RenderString(fields[0].key) + ":" + RenderValor(fl, fields[0].value);
      assert trees[1..] == more;
      assert forall i :: 1 <= i < |fields| ==> fields[i] == fields[1..][i - 1] && trees[i] == more[i - 1];
    }
  }
}
