/** The dynamic values a `json` carries, their validation and their rendering. The 64-bit floats are a
    type of their own, read and shown by two functions that stand for those of the language. */
module JsonValue {
  import opened Wrappers
  import opened Decimals

  /** `f64`: its `parse`, its `Display` and `is_finite`. */
  datatype Floats<!F> = Floats(read: string -> Option<F>, show: F -> string, finite: F -> bool)

  /** A table is a `BTreeMap`, here its fields in key order. */
  datatype Valor<F> =
    | Nihil
    | Bivalens(b: bool)
    | Numerus(n: I64)
    | Fractus(x: F)
    | Textus(text: string)
    | Octeti(bytes: seq<nat>)
    | Lista(items: seq<Valor<F>>)
    | Tabula(fields: seq<Field<F>>)
    | Instans(wire: string)

  datatype Field<F> = Field(key: string, value: Valor<F>)

  datatype ErrorKind =
    | ExpectedObjectRoot
    | UnsupportedVariant(name: string)
    | NonFiniteNumber
    | DuplicateKey(key: string)
    | InvalidSyntax
    | InvalidNumber(token: string)
    | TrailingCharacters

  // ----- key order

  /** The order of strings, character by character. */
  predicate Before(a: string, b: string)
    decreases |a|
  {
    b != [] && (a == [] || a[0] < b[0] || (a[0] == b[0] && Before(a[1..], b[1..])))
  }

  /** The order of dictionaries: after a common front the one with the lesser character, or that ends, is
      before the other. */
  lemma {:induction false} BeforeMeans(a: string, b: string)
    ensures Before(a, b) <==>
              exists k :: 0 <= k <= |a| && k < |b| && a[..k] == b[..k] && (k == |a| || a[k] as int < b[k] as int)
    decreases |a|
  {
    if a != [] && b != [] && a[0] == b[0] {
      BeforeMeans(a[1..], b[1..]);
      if Before(a, b) {
        var k :| 0 <= k <= |a[1..]| && k < |b[1..]| && a[1..][..k] == b[1..][..k] &&
                 (k == |a[1..]| || a[1..][k] as int < b[1..][k] as int);
        assert a[..k + 1] == [a[0]] + a[1..][..k] && b[..k + 1] == [b[0]] + b[1..][..k];
      }
      if k :| 0 <= k <= |a| && k < |b| && a[..k] == b[..k] && (k == |a| || a[k] as int < b[k] as int) {
        assert k > 0;
        assert a[1..][..k - 1] == a[..k][1..] && b[1..][..k - 1] == b[..k][1..];
      }
    } else if Before(a, b) {
      assert a[..0] == b[..0];
    } else {
      forall k | 0 < k <= |a| && k < |b| ensures a[..k] != b[..k] {
        assert a[..k][0] == a[0] && b[..k][0] == b[0];
      }
    }
  }

  lemma {:induction false} BeforeAsymmetric(a: string, b: string)
    requires Before(a, b)
    ensures a != b && !Before(b, a)
    decreases |a|
  {
    if a != [] && a[0] == b[0] {
      BeforeAsymmetric(a[1..], b[1..]);
    }
  }

  lemma {:induction false} BeforeTotal(a: string, b: string)
    requires a != b
    ensures Before(a, b) || Before(b, a)
    decreases |a|
  {
    if a != [] && b != [] && a[0] == b[0] {
      assert a == [a[0]] + a[1..] && b == [b[0]] + b[1..];
      BeforeTotal(a[1..], b[1..]);
    }
  }

  lemma {:induction false} BeforeTransitive(a: string, b: string, c: string)
    requires Before(a, b) && Before(b, c)
    ensures Before(a, c)
    decreases |a|
  {
    if a != [] && a[0] == b[0] && b[0] == c[0] {
      BeforeTransitive(a[1..], b[1..], c[1..]);
    }
  }

  // ----- tables

  predicate Sorted<F>(fields: seq<Field<F>>) {
    forall i, j :: 0 <= i < j < |fields| ==> Before(fields[i].key, fields[j].key)
  }

  predicate HasKey<F>(fields: seq<Field<F>>, key: string) {
    exists i :: 0 <= i < |fields| && fields[i].key == key
  }

  /** `BTreeMap::insert` of a key that is not in the table. */
  function Insert<F>(fields: seq<Field<F>>, field: Field<F>): (r: seq<Field<F>>)
    ensures |r| == |fields| + 1
    ensures multiset(r) == multiset(fields) + multiset{field}
  {
    if fields == [] then [field]
    else if Before(field.key, fields[0].key) then [field] + fields
    else
      assert fields == [fields[0]] + fields[1..];
      [fields[0]] + Insert(fields[1..], field)
  }

  lemma InsertMember<F>(fields: seq<Field<F>>, field: Field<F>, f: Field<F>)
    requires f in Insert(fields, field)
    ensures f == field || f in fields
  {
    assert f in multiset(Insert(fields, field));
  }

  /** A field whose key comes before all the others keeps the order in front. */
  lemma ConsSorted<F>(first: Field<F>, rest: seq<Field<F>>)
    requires Sorted(rest) && forall f :: f in rest ==> Before(first.key, f.key)
    ensures Sorted([first] + rest)
  {
    var r := [first] + rest;
    forall i, j | 0 <= i < j < |r| ensures Before(r[i].key, r[j].key) {
      assert r[j] == rest[j - 1] && rest[j - 1] in rest;
    }
  }

  /** Inserting a new key keeps a table in order. */
  lemma {:induction false} InsertSorted<F>(fields: seq<Field<F>>, field: Field<F>)
    requires Sorted(fields) && !HasKey(fields, field.key)
    ensures Sorted(Insert(fields, field))
  {
    hide Before;
    if fields == [] {
    } else if Before(field.key, fields[0].key) {
      forall f | f in fields ensures Before(field.key, f.key) {
        var j :| 0 <= j < |fields| && fields[j] == f;
        if j > 0 {
          BeforeTransitive(field.key, fields[0].key, f.key);
        }
      }
      ConsSorted(field, fields);
    } else {
      var rest := fields[1..];
      assert !HasKey(rest, field.key) by {
        assert forall i :: 0 <= i < |rest| ==> rest[i] == fields[i + 1];
      }
      InsertSorted(rest, field);
      assert fields[0].key != field.key;
      BeforeTotal(field.key, fields[0].key);
      forall f | f in Insert(rest, field) ensures Before(fields[0].key, f.key) {
        InsertMember(rest, field, f);
        if f != field {
          var j :| 0 <= j < |rest| && rest[j] == f;
          assert fields[j + 1] == f;
        }
      }
      ConsSorted(fields[0], Insert(rest, field));
    }
  }

  lemma {:induction false} InsertHasKey<F>(fields: seq<Field<F>>, field: Field<F>, key: string)
    ensures HasKey(Insert(fields, field), key) <==> key == field.key || HasKey(fields, key)
    decreases |fields|
  {
    hide Before;
    if fields == [] {
      assert [field][0] == field;
    } else if Before(field.key, fields[0].key) {
      ConsHasKey(field, fields, key);
    } else {
      InsertHasKey(fields[1..], field, key);
      ConsHasKey(fields[0], Insert(fields[1..], field), key);
      ConsHasKey(fields[0], fields[1..], key);
      assert fields == [fields[0]] + fields[1..];
    }
  }

  lemma ConsHasKey<F>(first: Field<F>, rest: seq<Field<F>>, key: string)
    ensures HasKey([first] + rest, key) <==> key == first.key || HasKey(rest, key)
  {
    var r := [first] + rest;
    assert r[0] == first && forall i :: 0 <= i < |rest| ==> r[i + 1] == rest[i];
    if HasKey(rest, key) {
      var i :| 0 <= i < |rest| && rest[i].key == key;
      assert r[i + 1].key == key;
    }
  }

  /** A key after all the others goes to the end. */
  lemma {:induction false} InsertLast<F>(fields: seq<Field<F>>, field: Field<F>)
    requires forall i :: 0 <= i < |fields| ==> Before(fields[i].key, field.key)
    ensures Insert(fields, field) == fields + [field] && !HasKey(fields, field.key)
  {
    forall i | 0 <= i < |fields| ensures fields[i].key != field.key {
      BeforeAsymmetric(fields[i].key, field.key);
    }
    if fields != [] {
      BeforeAsymmetric(fields[0].key, field.key);
      InsertLast(fields[1..], field);
      assert fields == [fields[0]] + fields[1..];
    }
  }

  // ----- validation

  /** `validate_value`, which stops at the first value it refuses. */
  function ValidateValue<F>(fl: Floats<F>, v: Valor<F>): Option<ErrorKind>
    decreases v
  {
    match v
    case Fractus(x) => if fl.finite(x) then None else Some(NonFiniteNumber)
    case Lista(items) => ValidateItems(fl, items)
    case Tabula(fields) => ValidateFields(fl, fields)
    case Octeti(_) => Some(UnsupportedVariant("octeti"))
    case Instans(_) => Some(UnsupportedVariant("instans"))
    case _ => None
  }

  function ValidateItems<F>(fl: Floats<F>, items: seq<Valor<F>>): Option<ErrorKind>
    decreases items
  {
    if items == [] then None
    else
      var first := ValidateValue(fl, items[0]);
      if first.Some? then first else ValidateItems(fl, items[1..])
  }

  function ValidateFields<F>(fl: Floats<F>, fields: seq<Field<F>>): Option<ErrorKind>
    decreases fields
  {
    if fields == [] then None
    else
      var first := ValidateValue(fl, fields[0].value);
      if first.Some? then first else ValidateFields(fl, fields[1..])
  }

  function ValidateRoot<F>(fl: Floats<F>, v: Valor<F>): Option<ErrorKind> {
    if v.Tabula? then ValidateValue(fl, v) else Some(ExpectedObjectRoot)
  }

  /** Every table in the value is one. */
  predicate WellSorted<F>(v: Valor<F>)
    decreases v
  {
    match v
    case Lista(items) => forall i :: 0 <= i < |items| ==> WellSorted(items[i])
    case Tabula(fields) => Sorted(fields) && forall i :: 0 <= i < |fields| ==> WellSorted(fields[i].value)
    case _ => true
  }

  // ----- rendering

  /** Unicode category Cc. */
  predicate IsControl(c: char) {
    c < ' ' || '\U{7f}' <= c <= '\U{9f}'
  }

  function HexDigit(n: nat): (c: char)
    requires n < 16
  {
    if n < 10 then ('0' as int + n) as char else ('a' as int + n - 10) as char
  }

  function Hex4(n: nat): (s: string)
    requires n < 0x10000
    ensures |s| == 4
  {
    [HexDigit(n / 0x1000), HexDigit(n / 0x100 % 16), HexDigit(n / 16 % 16), HexDigit(n % 16)]
  }

  function RenderChar(c: char): (s: string)
    ensures s != []
  {
    if c == '"' then ['\\', '"']
    else if c == '\\' then ['\\', '\\']
    else if c == '\U{8}' then ['\\', 'b']
    else if c == '\U{c}' then ['\\', 'f']
    else if c == '\n' then ['\\', 'n']
    else if c == '\r' then ['\\', 'r']
    else if c == '\t' then ['\\', 't']
    else if IsControl(c) then ['\\', 'u'] + Hex4(c as int)
    else [c]
  }

  function RenderChars(s: string): string {
    if s == [] then [] else RenderChar(s[0]) + RenderChars(s[1..])
  }

  function RenderString(s: string): string {
    ['"'] + RenderChars(s) + ['"']
  }

  function RenderI64(n: I64): string {
    var k: int := n;
    if k < 0 then ['-'] + Decimal(-k) else Decimal(k)
  }

  /** A float always shows that it is one. */
  function RenderFractus<F>(fl: Floats<F>, x: F): string {
    var shown := fl.show(x);
    if '.' in shown || 'e' in shown || 'E' in shown then shown else shown + ".0"
  }

  /** `render_valor`, of a value that validation accepts. */
  function RenderValor<F>(fl: Floats<F>, v: Valor<F>): string
    requires ValidateValue(fl, v) == None
    decreases v
  {
    match v
    case Nihil => "null"
    case Bivalens(b) => if b then "true" else "false"
    case Numerus(n) => RenderI64(n)
    case Fractus(x) => RenderFractus(fl, x)
    case Textus(text) => RenderString(text)
    case Lista(items) => "[" + RenderItems(fl, items) + "]"
    case Tabula(fields) => "{" + RenderFields(fl, fields) + "}"
  }

  function RenderItems<F>(fl: Floats<F>, items: seq<Valor<F>>): string
    requires ValidateItems(fl, items) == None
    decreases items
  {
    if items == [] then ""
    else if |items| == 1 then RenderValor(fl, items[0])
    else RenderValor(fl, items[0]) + "," + RenderItems(fl, items[1..])
  }

  function RenderFields<F>(fl: Floats<F>, fields: seq<Field<F>>): string
    requires ValidateFields(fl, fields) == None
    decreases fields
  {
    if fields == [] then ""
    else if |fields| == 1 then RenderString(fields[0].key) + ":" + RenderValor(fl, fields[0].value)
    else RenderString(fields[0].key) + ":" + RenderValor(fl, fields[0].value) + "," + RenderFields(fl, fields[1..])
  }

  lemma {:induction false} RenderCharsAppend(s: string, c: char)
    ensures RenderChars(s + [c]) == RenderChars(s) + RenderChar(c)
  {
    if s == [] {
      assert s + [c] == [c] && [c][1..] == [];
    } else {
      assert (s + [c])[1..] == s[1..] + [c];
      RenderCharsAppend(s[1..], c);
    }
  }

  /** `render_string`: one character after the other. */
  method WriteString(s: string) returns (out: string)
    ensures out == RenderString(s)
  {
    hide RenderChar;
    out := ['"'];
    var i := 0;
    while i < |s|
      invariant 0 <= i <= |s| && out == ['"'] + RenderChars(s[..i])
    {
      assert s[..i + 1] == s[..i] + [s[i]];
      RenderCharsAppend(s[..i], s[i]);
      out := out + RenderChar(s[i]);
      i := i + 1;
    }
    assert s[..i] == s;
    out := out + ['"'];
  }
}
