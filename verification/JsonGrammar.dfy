/** The grammar of RFC 8259, sections 2 to 7, as concrete trees and the text each of them has; which of the
    texts this carrier can take; and what value such a tree denotes. */
module JsonGrammar {
  import opened Wrappers
  import opened Decimals
  import opened JsonValue
  import opened JsonSyntax

  // ----- strings (section 7)

  /** A character of a string as it is written: itself, a short escape, or four hexadecimal digits. */
  datatype Piece = Plain(c: char) | Short(c: char) | Quad(q: string)

  function LowerHex(): string { "0123456789abcdef" }

  function UpperHex(): string { "0123456789ABCDEF" }

  predicate IsHex(c: char) {
    c in LowerHex() || c in UpperHex()
  }

  function Position(c: char, s: string): (i: nat)
    requires c in s
    ensures i < |s| && s[i] == c
  {
    if s[0] == c then 0 else 1 + Position(c, s[1..])
  }

  /** What a hexadecimal digit stands for, in either case: its position among the sixteen. */
  function Digit16(c: char): (v: nat)
    requires IsHex(c)
    ensures v < 16 && (LowerHex()[v] == c || UpperHex()[v] == c)
  {
    if c in LowerHex() then Position(c, LowerHex()) else Position(c, UpperHex())
  }

  /** The digits of the parser are those of the grammar. */
  lemma HexMeans(c: char)
    ensures HexValue(c).Some? <==> IsHex(c)
    ensures IsHex(c) ==> HexValue(c).value == Digit16(c)
  {
    if HexValue(c).Some? {
      HexIsAt(c);
      hide HexValue;
      HexDistinct(HexValue(c).value, Digit16(c));
    } else {
      NotHex(c);
    }
  }

  lemma HexIsAt(c: char)
    requires HexValue(c).Some?
    ensures var v := HexValue(c).value; LowerHex()[v] == c || UpperHex()[v] == c
    ensures IsHex(c)
  {
    var v := HexValue(c).value;
    assert LowerHex()[v] == c || UpperHex()[v] == c;
  }

  lemma NotHex(c: char)
    requires HexValue(c).None?
    ensures !IsHex(c)
  {
  }

  lemma HexDistinct(v: nat, w: nat)
    requires v < 16 && w < 16
    requires LowerHex()[v] == LowerHex()[w] || LowerHex()[v] == UpperHex()[w] || UpperHex()[v] == UpperHex()[w] ||
             UpperHex()[v] == LowerHex()[w]
    ensures v == w
  {
  }

  predicate IsQuad(q: string) {
    |q| == 4 && forall i :: 0 <= i < 4 ==> IsHex(q[i])
  }

  function QuadValue(q: string): (n: nat)
    requires IsQuad(q)
    ensures n < 0x10000
  {
    0x1000 * Digit16(q[0]) + 0x100 * Digit16(q[1]) + 0x10 * Digit16(q[2]) + Digit16(q[3])
  }

  function PieceText(p: Piece): string {
    match p
    case Plain(c) => [c]
    case Short(c) => ['\\', c]
    case Quad(q) => ['\\', 'u'] + q
  }

  predicate PieceValid(p: Piece) {
    match p
    case Plain(c) => c >= ' ' && c != '"' && c != '\\'
    case Short(c) => c == '"' || c == '\\' || c == '/' || c == 'b' || c == 'f' || c == 'n' || c == 'r' || c == 't'
    case Quad(q) => IsQuad(q)
  }

  function PiecesText(ps: seq<Piece>): string {
    if ps == [] then [] else PieceText(ps[0]) + PiecesText(ps[1..])
  }

  predicate PiecesValid(ps: seq<Piece>) {
    forall i :: 0 <= i < |ps| ==> PieceValid(ps[i])
  }

  // ----- numbers (section 6)

  datatype Digits = Digits(negative: bool, whole: string, fraction: string, mark: string, exponent: string)

  function DigitsText(d: Digits): string {
    Sign(d.negative) + d.whole + (if d.fraction == [] then [] else ['.'] + d.fraction) + d.mark + d.exponent
  }

  predicate IsMark(mark: string) {
    mark == "e" || mark == "E" || mark == "e+" || mark == "E+" || mark == "e-" || mark == "E-"
  }

  predicate DigitsValid(d: Digits) {
    && IsWhole(d.whole) && AllDigits(d.fraction) && AllDigits(d.exponent)
    && if d.mark == [] then d.exponent == [] else IsMark(d.mark) && d.exponent != []
  }

  // ----- values (sections 2 to 5)

  datatype Node =
    | Word(word: string)
    | Num(digits: Digits)
    | Str(pieces: seq<Piece>)
    | Arr(space: string, items: seq<Item>)
    | Obj(space: string, members: seq<NodeMember>)

  /** A value with the space around it. */
  datatype Item = Item(before: string, node: Node, after: string)

  datatype NodeMember = NodeMember(before: string, key: seq<Piece>, beforeColon: string, item: Item)

  /** Space, tab, line feed or carriage return. */
  predicate IsWs(c: char) {
    c == '\U{20}' || c == '\U{9}' || c == '\U{a}' || c == '\U{d}'
  }

  predicate IsBlank(s: string) {
    forall i :: 0 <= i < |s| ==> IsWs(s[i])
  }

  function Quoted(ps: seq<Piece>): string {
    ['"'] + PiecesText(ps) + ['"']
  }

  function Text(n: Node): string
    decreases n
  {
    match n
    case Word(word) => word
    case Num(digits) => DigitsText(digits)
    case Str(pieces) => Quoted(pieces)
    case Arr(space, items) => ['['] + (if items == [] then space else ItemsText(items)) + [']']
    case Obj(space, members) => ['{'] + (if members == [] then space else MembersText(members)) + ['}']
  }

  function ItemText(i: Item): string
    decreases i
  {
    i.before + Text(i.node) + i.after
  }

  function ItemsText(items: seq<Item>): string
    decreases items
  {
    if items == [] then []
    else if |items| == 1 then ItemText(items[0])
    else ItemText(items[0]) + [','] + ItemsText(items[1..])
  }

  function MemberText(m: NodeMember): string
    decreases m
  {
    m.before + Quoted(m.key) + m.beforeColon + [':'] + ItemText(m.item)
  }

  function MembersText(members: seq<NodeMember>): string
    decreases members
  {
    if members == [] then []
    else if |members| == 1 then MemberText(members[0])
    else MemberText(members[0]) + [','] + MembersText(members[1..])
  }

  /** A value of the grammar; nothing more is asked than the grammar asks. */
  predicate NodeValid(n: Node)
    decreases n
  {
    match n
    case Word(word) => word == "null" || word == "true" || word == "false"
    case Num(digits) => DigitsValid(digits)
    case Str(pieces) => PiecesValid(pieces)
    case Arr(space, items) => IsBlank(space) && forall i :: 0 <= i < |items| ==> ItemValid(items[i])
    case Obj(space, members) => IsBlank(space) && forall i :: 0 <= i < |members| ==> MemberValid(members[i])
  }

  predicate ItemValid(i: Item)
    decreases i
  {
    IsBlank(i.before) && IsBlank(i.after) && NodeValid(i.node)
  }

  predicate MemberValid(m: NodeMember)
    decreases m
  {
    IsBlank(m.before) && PiecesValid(m.key) && IsBlank(m.beforeColon) && ItemValid(m.item)
  }

  // ----- what the carrier takes

  predicate IsHigh(p: Piece) {
    p.Quad? && IsQuad(p.q) && 0xd800 <= QuadValue(p.q) <= 0xdbff
  }

  predicate IsLow(p: Piece) {
    p.Quad? && IsQuad(p.q) && 0xdc00 <= QuadValue(p.q) <= 0xdfff
  }

  /** Surrogates come in pairs, a high one and a low one. */
  predicate Paired(ps: seq<Piece>)
    decreases |ps|
  {
    if ps == [] then true
    else if IsHigh(ps[0]) then |ps| > 1 && IsLow(ps[1]) && Paired(ps[2..])
    else !IsLow(ps[0]) && Paired(ps[1..])
  }

  /** Unicode general category Cc: U+0000 to U+001F and U+007F to U+009F. */
  predicate IsCc(c: char) {
    c < '\U{20}' || '\U{7f}' <= c <= '\U{9f}'
  }

  lemma CcMeans(c: char)
    ensures IsControl(c) <==> IsCc(c)
  {
  }

  /** No control character stands for itself; the grammar forbids only those below U+0020. */
  predicate NoControls(ps: seq<Piece>) {
    forall i :: 0 <= i < |ps| && ps[i].Plain? ==> !IsCc(ps[i].c)
  }

  predicate PiecesCarried(ps: seq<Piece>) {
    NoControls(ps) && Paired(ps)
  }

  /** Pairing, position by position: after every high surrogate comes a low one, and before every low one a
      high one. */
  lemma {:induction false} PairedMeans(ps: seq<Piece>)
    ensures Paired(ps) <==>
              (forall i :: 0 <= i < |ps| && IsHigh(ps[i]) ==> i + 1 < |ps| && IsLow(ps[i + 1])) &&
              (forall i :: 0 <= i < |ps| && IsLow(ps[i]) ==> 0 < i && IsHigh(ps[i - 1]))
    decreases |ps|
  {
    hide IsQuad, QuadValue, IsHex, Digit16;
    if ps != [] && IsHigh(ps[0]) && |ps| > 1 && IsLow(ps[1]) {
      var rest := ps[2..];
      PairedMeans(rest);
      assert forall i :: 0 <= i < |rest| ==> rest[i] == ps[i + 2];
      assert forall i :: 2 <= i < |ps| ==> ps[i] == rest[i - 2];
    } else if ps != [] && !IsHigh(ps[0]) && !IsLow(ps[0]) {
      var rest := ps[1..];
      PairedMeans(rest);
      assert forall i :: 0 <= i < |rest| ==> rest[i] == ps[i + 1];
      assert forall i :: 1 <= i < |ps| ==> ps[i] == rest[i - 1];
    }
  }

  predicate Fractional(d: Digits) {
    d.fraction != [] || d.mark != []
  }

  /** A number without fraction and exponent fits an i64, any other is read as a finite float. */
  predicate DigitsFit<F>(fl: Floats<F>, d: Digits) {
    if Fractional(d) then fl.read(DigitsText(d)).Some? && fl.finite(fl.read(DigitsText(d)).value)
    else AllDigits(d.whole) && InI64(d)
  }

  predicate InI64(d: Digits)
    requires AllDigits(d.whole)
  {
    -0x8000_0000_0000_0000 <= Signed(d) <= 0x7fff_ffff_ffff_ffff
  }

  function Signed(d: Digits): int
    requires AllDigits(d.whole)
  {
    if d.negative then -(DigitsValue(d.whole) as int) else DigitsValue(d.whole)
  }

  /** Strings without stray surrogates and control characters, numbers that fit, and no key twice in an
      object, at any depth. */
  predicate Carried<F>(fl: Floats<F>, n: Node)
    decreases n
  {
    match n
    case Word(_) => true
    case Num(digits) => DigitsFit(fl, digits)
    case Str(pieces) => PiecesCarried(pieces)
    case Arr(_, items) => forall i :: 0 <= i < |items| ==> ItemCarried(fl, items[i])
    case Obj(_, members) => (forall i :: 0 <= i < |members| ==> MemberCarried(fl, members[i])) && KeysDiffer(members)
  }

  predicate ItemCarried<F>(fl: Floats<F>, i: Item)
    decreases i
  {
    Carried(fl, i.node)
  }

  predicate MemberCarried<F>(fl: Floats<F>, m: NodeMember)
    decreases m
  {
    PiecesCarried(m.key) && ItemCarried(fl, m.item)
  }

  // ----- what a carried tree denotes

  predicate PiecesFine(ps: seq<Piece>) {
    PiecesValid(ps) && PiecesCarried(ps)
  }

  /** The character a piece stands for by itself. */
  function PieceChar(p: Piece): char
    requires PieceValid(p) && !IsHigh(p) && !IsLow(p)
  {
    match p
    case Plain(c) => c
    case Short(c) =>
      (if c == 'b' then '\U{8}' else if c == 'f' then '\U{c}' else if c == 'n' then '\n'
       else if c == 'r' then '\r' else if c == 't' then '\t' else c)
    case Quad(q) => QuadValue(q) as char
  }

  /** The character a surrogate pair stands for. */
  function PairChar(high: Piece, low: Piece): char
    requires IsHigh(high) && IsLow(low)
  {
    (0x10000 + (QuadValue(high.q) - 0xd800) * 0x400 + (QuadValue(low.q) - 0xdc00)) as char
  }

  /** It is the character whose UTF-16 encoding the pair is. */
  lemma PairIsUtf16(high: Piece, low: Piece)
    requires IsHigh(high) && IsLow(low)
    ensures var code := PairChar(high, low) as int - 0x10000;
            0 <= code < 0x100000 && QuadValue(high.q) == 0xd800 + code / 0x400 &&
                QuadValue(low.q) == 0xdc00 + code % 0x400
  {
    hide IsQuad, QuadValue, IsHex, Digit16;
    var a, b := QuadValue(high.q) - 0xd800, QuadValue(low.q) - 0xdc00;
    assert 0 <= a < 0x400 && 0 <= b < 0x400;
  }

  function PiecesString(ps: seq<Piece>): string
    requires PiecesFine(ps)
    decreases |ps|
  {
    if ps == [] then []
    else if IsHigh(ps[0]) then [PairChar(ps[0], ps[1])] + PiecesString(ps[2..])
    else [PieceChar(ps[0])] + PiecesString(ps[1..])
  }

  /** The keys, as strings, are different. */
  predicate KeysDiffer(members: seq<NodeMember>) {
    (forall i :: 0 <= i < |members| ==> PiecesFine(members[i].key)) &&
    forall i, j :: 0 <= i < j < |members| ==> PiecesString(members[i].key) != PiecesString(members[j].key)
  }

  predicate DigitsFine<F>(fl: Floats<F>, d: Digits) {
    DigitsValid(d) && DigitsFit(fl, d)
  }

  predicate Fine<F>(fl: Floats<F>, n: Node) {
    NodeValid(n) && Carried(fl, n)
  }

  predicate ItemFine<F>(fl: Floats<F>, i: Item) {
    ItemValid(i) && ItemCarried(fl, i)
  }

  predicate MemberFine<F>(fl: Floats<F>, m: NodeMember) {
    MemberValid(m) && MemberCarried(fl, m)
  }

  lemma InnerFine<F>(fl: Floats<F>, i: Item)
    ensures ItemFine(fl, i) <==> IsBlank(i.before) && IsBlank(i.after) && Fine(fl, i.node)
  {
  }

  lemma InnerItemFine<F>(fl: Floats<F>, m: NodeMember)
    ensures MemberFine(fl, m) <==>
            IsBlank(m.before) && PiecesFine(m.key) && IsBlank(m.beforeColon) && ItemFine(fl, m.item)
  {
  }

  lemma ItemsAreFine<F>(fl: Floats<F>, n: Node)
    requires n.Arr?
    ensures Fine(fl, n) <==> IsBlank(n.space) && forall i :: 0 <= i < |n.items| ==> ItemFine(fl, n.items[i])
  {
  }

  lemma MembersAreFine<F>(fl: Floats<F>, n: Node)
    requires n.Obj?
    ensures Fine(fl, n) <==>
              IsBlank(n.space) && (forall i :: 0 <= i < |n.members| ==> MemberFine(fl, n.members[i])) &&
                  KeysDiffer(n.members)
  {
  }

  function Meaning<F>(fl: Floats<F>, n: Node): Valor<F>
    requires Fine(fl, n)
    decreases n
  {
    match n
    case Word(word) => if word == "null" then Nihil else Bivalens(word == "true")
    case Num(d) => if Fractional(d) then Fractus(fl.read(DigitsText(d)).value) else Numerus(Signed(d))
    case Str(pieces) => Textus(PiecesString(pieces))
    case Arr(_, items) =>
      ItemsAreFine(fl, n);
      Lista(Meanings(fl, items))
    case Obj(_, members) =>
      MembersAreFine(fl, n);
      Tabula(Table([], Pairs(fl, members)))
  }

  function ItemMeaning<F>(fl: Floats<F>, i: Item): Valor<F>
    requires ItemFine(fl, i)
    decreases i
  {
    InnerFine(fl, i);
    Meaning(fl, i.node)
  }

  function Meanings<F>(fl: Floats<F>, items: seq<Item>): seq<Valor<F>>
    requires forall i :: 0 <= i < |items| ==> ItemFine(fl, items[i])
    decreases items
  {
    if items == [] then [] else [ItemMeaning(fl, items[0])] + Meanings(fl, items[1..])
  }

  function Pairs<F>(fl: Floats<F>, members: seq<NodeMember>): (r: seq<Field<F>>)
    requires forall i :: 0 <= i < |members| ==> MemberFine(fl, members[i])
    ensures |r| == |members|
    decreases members
  {
    if members == [] then [] else [PairOf(fl, members[0])] + Pairs(fl, members[1..])
  }

  function PairOf<F>(fl: Floats<F>, m: NodeMember): Field<F>
    requires MemberFine(fl, m)
    decreases m
  {
    InnerItemFine(fl, m);
    Field(PiecesString(m.key), ItemMeaning(fl, m.item))
  }

  /** The fields put into a table one after the other. */
  function Table<F>(fields: seq<Field<F>>, more: seq<Field<F>>): seq<Field<F>>
    decreases |more|
  {
    if more == [] then fields else Table(Insert(fields, more[0]), more[1..])
  }

  ghost predicate NewKeys<F>(fields: seq<Field<F>>, more: seq<Field<F>>) {
    (forall i :: 0 <= i < |more| ==> !HasKey(fields, more[i].key)) &&
    forall i, j :: 0 <= i < j < |more| ==> more[i].key != more[j].key
  }

  /** A table of different keys holds exactly the given fields, in key order. */
  lemma {:induction false} TableHolds<F>(fields: seq<Field<F>>, more: seq<Field<F>>)
    requires Sorted(fields) && NewKeys(fields, more)
    ensures Sorted(Table(fields, more)) && multiset(Table(fields, more)) == multiset(fields) + multiset(more)
    decreases |more|
  {
    hide Before, Insert, HasKey;
    if more != [] {
      var next := Insert(fields, more[0]);
      InsertSorted(fields, more[0]);
      forall i | 0 < i < |more| ensures !HasKey(next, more[i].key) {
        InsertHasKey(fields, more[0], more[i].key);
      }
      TableHolds(next, more[1..]);
      assert more == [more[0]] + more[1..];
    }
  }

  lemma {:induction false} PairAt<F>(fl: Floats<F>, members: seq<NodeMember>, i: nat)
    requires i < |members| && forall k :: 0 <= k < |members| ==> MemberFine(fl, members[k])
    ensures Pairs(fl, members)[i] == PairOf(fl, members[i])
    decreases i
  {
    if i > 0 {
      PairAt(fl, members[1..], i - 1);
    }
  }

  /** The table an object denotes: its members, each once, in key order. */
  lemma ObjectDenotes<F>(fl: Floats<F>, n: Node)
    requires n.Obj? && Fine(fl, n)
    ensures Meaning(fl, n).Tabula? && Sorted(Meaning(fl, n).fields)
    ensures multiset(Meaning(fl, n).fields) == multiset(Pairs(fl, n.members))
  {
    hide Before, Insert;
    MembersAreFine(fl, n);
    var pairs := Pairs(fl, n.members);
    forall i, j | 0 <= i < j < |pairs| ensures pairs[i].key != pairs[j].key {
      PairAt(fl, n.members, i);
      PairAt(fl, n.members, j);
    }
    TableHolds([], pairs);
  }
}
