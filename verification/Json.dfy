/** JSON values with exact number text, and their canonical printing. */
module Json {
  import opened Prelude

  datatype Value =
    | Null
    | Bool(b: bool)
    | Number(text: string)
    | Text(s: string)
    | Arr(items: seq<Value>)
    | Obj(fields: map<string, Value>)

  // ---- decimal numerals

  function Digit(n: nat): char
    requires n < 10
  {
    ['0', '1', '2', '3', '4', '5', '6', '7', '8', '9'][n]
  }

  function Decimal(n: nat): (s: string)
    ensures s != [] && forall i :: 0 <= i < |s| ==> '0' <= s[i] <= '9'
  {
    if n < 10 then [Digit(n)] else Decimal(n / 10) + [Digit(n % 10)]
  }

  lemma DecimalStep(n: nat)
    ensures n < 10 ==> Decimal(n) == [Digit(n)]
    ensures n >= 10 ==> Decimal(n) == Decimal(n / 10) + [Digit(n % 10)] && |Decimal(n)| > 1
  {
  }

  lemma DigitInjective(a: nat, b: nat)
    requires a < 10 && b < 10 && Digit(a) == Digit(b)
    ensures a == b
  {
  }

  lemma {:induction false} DecimalInjective(a: nat, b: nat)
    requires Decimal(a) == Decimal(b)
    ensures a == b
  {
    hide Decimal, Digit;
    DecimalStep(a);
    DecimalStep(b);
    var s := Decimal(a);
    if a < 10 {
      assert |s| == 1;
      DigitInjective(a, b);
    } else {
      var n := |s| - 1;
      assert Decimal(a / 10) == s[..n] == Decimal(b / 10);
      assert Digit(a % 10) == s[n] == Digit(b % 10);
      DecimalInjective(a / 10, b / 10);
      DigitInjective(a % 10, b % 10);
    }
  }

  // ---- key order

  predicate IsLeast(k: string, keys: set<string>) {
    k in keys && forall o :: o in keys ==> o == k || Less(k, o)
  }

  lemma {:induction false} LeastExists(keys: set<string>)
    requires keys != {}
    ensures exists k :: IsLeast(k, keys)
  {
    var x :| x in keys;
    if keys == {x} {
      assert IsLeast(x, keys);
    } else {
      LeastExists(keys - {x});
      var m :| IsLeast(m, keys - {x});
      LessTotal(x, m);
      if Less(x, m) {
        forall o | o in keys ensures o == x || Less(x, o) {
          if o != x && o != m { LessTransitive(x, m, o); }
        }
        assert IsLeast(x, keys);
      } else {
        assert IsLeast(m, keys);
      }
    }
  }

  lemma LeastUnique(a: string, b: string, keys: set<string>)
    requires IsLeast(a, keys) && IsLeast(b, keys)
    ensures a == b
  {
    LessTotal(a, b);
  }

  function Least(keys: set<string>): (k: string)
    requires keys != {}
    ensures IsLeast(k, keys)
  {
    LeastExists(keys);
    assert forall a, b | IsLeast(a, keys) && IsLeast(b, keys) :: a == b by {
      forall a, b | IsLeast(a, keys) && IsLeast(b, keys) ensures a == b { LeastUnique(a, b, keys); }
    }
    var k :| k in keys && IsLeast(k, keys);
    k
  }

  /** Python's `sorted` on a set of strings. */
  function SortedKeys(keys: set<string>): (ks: seq<string>)
    ensures forall k :: k in ks <==> k in keys
    ensures forall i, j :: 0 <= i < j < |ks| ==> Less(ks[i], ks[j])
    decreases |keys|
  {
    if keys == {} then []
    else
      var k := Least(keys);
      [k] + SortedKeys(keys - {k})
  }

  // ---- canonical printing

  function HexDigit(n: nat): char
    requires n < 16
  {
    ['0', '1', '2', '3', '4', '5', '6', '7', '8', '9', 'a', 'b', 'c', 'd', 'e', 'f'][n]
  }

  /** json.dumps with ensure_ascii off escapes only these. */
  function EscapeChar(c: char): (r: string)
    ensures r != []
  {
    if c == '\"' then "\\\""
    else if c == '\\' then "\\\\"
    else if c == '\n' then "\\n"
    else if c == '\r' then "\\r"
    else if c == '\t' then "\\t"
    else if c == '\U{000C}' then "\\f"
    else if c == '\U{0008}' then "\\b"
    else if c < ' ' then "\\u00" + [HexDigit((c as int) / 16), HexDigit((c as int) % 16)]
    else [c]
  }

  function EscapeText(s: string): string {
    if s == [] then [] else EscapeChar(s[0]) + EscapeText(s[1..])
  }

  function Quote(s: string): string {
    "\"" + EscapeText(s) + "\""
  }

  /** `_canonical_value`: sorted keys, compact separators, numbers by their text. */
  function Canonical(v: Value): string
    decreases v
  {
    match v
    case Null => "null"
    case Bool(b) => if b then "true" else "false"
    case Number(text) => text
    case Text(s) => Quote(s)
    case Arr(items) => "[" + PrintItems(items) + "]"
    case Obj(fields) => "{" + PrintFields(v, SortedKeys(fields.Keys)) + "}"
  }

  function PrintItems(items: seq<Value>): string
    decreases items
  {
    if items == [] then []
    else Canonical(items[0]) + (if |items| == 1 then [] else "," + PrintItems(items[1..]))
  }

  function PrintFields(v: Value, ks: seq<string>): string
    requires v.Obj? && forall k :: k in ks ==> k in v.fields
    decreases v, |ks|
  {
    if ks == [] then []
    else
      Quote(ks[0]) + ":" + Canonical(v.fields[ks[0]])
      + (if |ks| == 1 then [] else "," + PrintFields(v, ks[1..]))
  }

  // ---- the text determines the value

  predicate NumberChar(c: char) {
    '0' <= c <= '9' || c == '-' || c == '+' || c == '.' || c == 'e' || c == 'E'
  }

  /** What a JSON number's text looks like; every literal the decoder keeps does. */
  predicate NumberText(t: string) {
    t != [] && (t[0] == '-' || '0' <= t[0] <= '9') && forall i :: 0 <= i < |t| ==> NumberChar(t[i])
  }

  predicate WellFormed(v: Value) {
    match v
    case Number(text) => NumberText(text)
    case Arr(items) => forall i :: 0 <= i < |items| ==> WellFormed(items[i])
    case Obj(fields) => forall k :: k in fields ==> WellFormed(fields[k])
    case _ => true
  }

  /** What can follow a value: nothing, or a separator or closing bracket. */
  predicate Follows(r: string) {
    r == [] || r[0] == ',' || r[0] == ']' || r[0] == '}'
  }

  lemma Cancel(a: string, x: string, b: string, y: string)
    requires a + x == b + y && |a| == |b|
    ensures a == b && x == y
  {
    assert a == (a + x)[..|a|] && b == (b + y)[..|b|];
    assert x == (a + x)[|a|..] && y == (b + y)[|b|..];
  }

  // ---- the text is JSON for the value

  function DigitValue(c: char): int {
    if '0' <= c <= '9' then c as int - '0' as int else if 'a' <= c <= 'f' then c as int - 'a' as int + 10 else -1
  }

  /** The number a numeral denotes, read from the left. */
  function NumeralValue(s: string): int {
    if s == [] then 0 else 10 * NumeralValue(s[..|s| - 1]) + DigitValue(s[|s| - 1])
  }

  /** The numeral of a number denotes it and has no leading zero. */
  lemma {:induction false} DecimalIs(n: nat)
    ensures NumeralValue(Decimal(n)) == n && (n > 0 ==> Decimal(n)[0] != '0') && (n == 0 ==> Decimal(n) == "0")
  {
    hide NumeralValue, Decimal;
    DecimalStep(n);
    if n < 10 {
      assert [Digit(n)][..0] == [];
      OneMoreDigit([], n);
      NoDigits();
    } else {
      DecimalIs(n / 10);
      OneMoreDigit(Decimal(n / 10), n % 10);
    }
  }

  lemma NoDigits()
    ensures NumeralValue([]) == 0
  {
  }

  lemma OneMoreDigit(s: string, d: nat)
    requires d < 10
    ensures NumeralValue(s + [Digit(d)]) == 10 * NumeralValue(s) + d
    ensures [] + [Digit(d)] == [Digit(d)] && (d > 0 ==> Digit(d) != '0')
  {
    assert (s + [Digit(d)])[..|s|] == s;
  }

  /** One character of a string, plain or escaped, denotes `c` (section 7 of RFC 8259). */
  predicate Denotes(e: string, c: char) {
    || (|e| == 1 && e[0] == c && c != '\"' && c != '\\' && c >= ' ')
    || (&& |e| == 2 && e[0] == '\\'
        && (e[1], c) in {('\"', '\"'), ('\\', '\\'), ('/', '/'), ('b', '\U{0008}'), ('f', '\U{000C}'),
                         ('n', '\U{000A}'), ('r', '\U{000D}'), ('t', '\U{0009}')})
    || (&& |e| == 6 && e[0] == '\\' && e[1] == 'u'
        && (forall i :: 2 <= i < 6 ==> DigitValue(e[i]) >= 0)
        && 4096 * DigitValue(e[2]) + 256 * DigitValue(e[3]) + 16 * DigitValue(e[4]) + DigitValue(e[5]) == c as int)
  }

  /** Each character is printed as a shortest text that denotes it. */
  lemma EscapeDenotes(c: char)
    ensures Denotes(EscapeChar(c), c)
    ensures forall e :: Denotes(e, c) ==> |EscapeChar(c)| <= |e|
  {
    if c < ' ' {
      HexDenotes((c as int) / 16);
      HexDenotes((c as int) % 16);
    }
  }

  lemma HexDenotes(n: nat)
    requires n < 16
    ensures DigitValue(HexDigit(n)) == n
  {
  }

  /** The text between the quotes is the characters' texts, one after the other. */
  lemma {:induction false} TextDenotes(s: string) returns (parts: seq<string>)
    ensures |parts| == |s| && Concat(parts) == EscapeText(s)
    ensures forall i :: 0 <= i < |s| ==> Denotes(parts[i], s[i])
  {
    hide EscapeChar, Denotes;
    if s == [] {
      parts := [];
    } else {
      var rest := TextDenotes(s[1..]);
      EscapeDenotes(s[0]);
      parts := [EscapeChar(s[0])] + rest;
      assert parts[1..] == rest;
    }
  }

  function Concat(parts: seq<string>): string {
    if parts == [] then [] else parts[0] + Concat(parts[1..])
  }

  /** How long an escape is shows in its first two characters. */
  lemma EscapeShape(c: char)
    ensures var e := EscapeChar(c);
      && (|e| == 1 || |e| == 2 || |e| == 6)
      && (|e| == 1 <==> e[0] != '\\')
      && (|e| == 6 ==> e[1] == 'u')
      && (|e| == 2 ==> e[1] != 'u')
  {
  }

  lemma EscapeCharInjective(c: char, d: char)
    requires EscapeChar(c) == EscapeChar(d)
    ensures c == d
  {
    var e := EscapeChar(c);
    assert |e| == 6 ==> e[4] == HexDigit((c as int) / 16) && e[5] == HexDigit((c as int) % 16);
    assert |e| == 6 ==> e[4] == HexDigit((d as int) / 16) && e[5] == HexDigit((d as int) % 16);
  }

  lemma EscapeCharUnique(c: char, x: string, d: char, y: string)
    requires EscapeChar(c) + x == EscapeChar(d) + y
    ensures c == d && x == y
  {
    hide EscapeChar;
    var e, f := EscapeChar(c), EscapeChar(d);
    EscapeShape(c);
    EscapeShape(d);
    assert (e + x)[0] == e[0] && (f + y)[0] == f[0];
    assert |e| > 1 ==> (e + x)[1] == e[1];
    assert |f| > 1 ==> (f + y)[1] == f[1];
    Cancel(e, x, f, y);
    EscapeCharInjective(c, d);
  }

  lemma {:induction false} QuotedUnique(s: string, x: string, t: string, y: string)
    requires EscapeText(s) + "\"" + x == EscapeText(t) + "\"" + y
    ensures s == t && x == y
  {
    hide EscapeChar;
    var w, z := EscapeText(s) + "\"" + x, EscapeText(t) + "\"" + y;
    var p := if s == [] then [] else EscapeText(s[1..]) + "\"" + x;
    var q := if t == [] then [] else EscapeText(t[1..]) + "\"" + y;
    assert s != [] ==> w == EscapeChar(s[0]) + p;
    assert t != [] ==> z == EscapeChar(t[0]) + q;
    assert s == [] ==> w[0] == '\"';
    assert t == [] ==> z[0] == '\"';
    if s != [] { EscapedNotQuote(s[0]); }
    if t != [] { EscapedNotQuote(t[0]); }
    assert s == [] <==> t == [];
    if s == [] {
      assert x == w[1..] && y == z[1..];
    } else {
      EscapeCharUnique(s[0], p, t[0], q);
      QuotedUnique(s[1..], x, t[1..], y);
      assert s == [s[0]] + s[1..] && t == [t[0]] + t[1..];
    }
  }

  lemma EscapedNotQuote(c: char)
    ensures EscapeChar(c)[0] != '\"'
  {
  }

  lemma QuoteUnique(s: string, x: string, t: string, y: string)
    requires Quote(s) + x == Quote(t) + y
    ensures s == t && x == y
  {
    hide EscapeText;
    assert (Quote(s) + x)[1..] == EscapeText(s) + "\"" + x;
    assert (Quote(t) + y)[1..] == EscapeText(t) + "\"" + y;
    QuotedUnique(s, x, t, y);
  }

  lemma NumberUnique(s: string, x: string, t: string, y: string)
    requires NumberText(s) && NumberText(t) && Follows(x) && Follows(y) && s + x == t + y
    ensures s == t && x == y
  {
    var w, z := s + x, t + y;
    assert forall i :: 0 <= i < |s| ==> NumberChar(w[i]);
    assert forall i :: 0 <= i < |t| ==> NumberChar(z[i]);
    assert |s| == |w| || !NumberChar(w[|s|]);
    assert |t| == |z| || !NumberChar(z[|t|]);
    assert |s| == |t|;
    Cancel(s, x, t, y);
  }

  /** The first character names the kind of value. */
  function Lead(v: Value): char
    requires WellFormed(v)
  {
    match v
    case Null => 'n'
    case Bool(b) => if b then 't' else 'f'
    case Number(text) => text[0]
    case Text(_) => '\"'
    case Arr(_) => '['
    case Obj(_) => '{'
  }

  lemma CanonicalLead(v: Value)
    requires WellFormed(v)
    ensures Canonical(v) != [] && Canonical(v)[0] == Lead(v)
    ensures Lead(v) != ',' && Lead(v) != ']' && Lead(v) != '}'
  {
  }

  predicate SameKind(v: Value, w: Value) {
    || (v.Null? && w.Null?) || (v.Bool? && w.Bool?) || (v.Number? && w.Number?)
    || (v.Text? && w.Text?) || (v.Arr? && w.Arr?) || (v.Obj? && w.Obj?)
  }

  lemma LeadKind(v: Value, x: string, w: Value, y: string)
    requires WellFormed(v) && WellFormed(w) && Canonical(v) + x == Canonical(w) + y
    ensures SameKind(v, w) && (v.Bool? ==> v == w)
  {
    hide Canonical;
    CanonicalLead(v);
    CanonicalLead(w);
    assert (Canonical(v) + x)[0] == Lead(v) && (Canonical(w) + y)[0] == Lead(w);
  }

  /** Unique readability: a value's text followed by anything that may follow a value is read one way. */
  lemma {:induction false} CanonicalUnique(v: Value, x: string, w: Value, y: string)
    requires WellFormed(v) && WellFormed(w) && Follows(x) && Follows(y)
    requires Canonical(v) + x == Canonical(w) + y
    ensures v == w && x == y
    decreases v
  {
    hide PrintItems, PrintFields, SortedKeys, Quote, Follows, NumberText;
    LeadKind(v, x, w, y);
    match v
    case Null => Cancel("null", x, "null", y);
    case Bool(b) => Cancel(Canonical(v), x, Canonical(w), y);
    case Number(text) => NumberUnique(text, x, w.text, y);
    case Text(s) => QuoteUnique(s, x, w.s, y);
    case Arr(items) =>
      assert (Canonical(v) + x)[1..] == PrintItems(items) + "]" + x;
      assert (Canonical(w) + y)[1..] == PrintItems(w.items) + "]" + y;
      ItemsUnique(items, x, w.items, y);
    case Obj(fields) =>
      var ks, ls := SortedKeys(fields.Keys), SortedKeys(w.fields.Keys);
      assert (Canonical(v) + x)[1..] == PrintFields(v, ks) + "}" + x;
      assert (Canonical(w) + y)[1..] == PrintFields(w, ls) + "}" + y;
      FieldsUnique(v, ks, x, w, ls, y);
      SameFields(fields, w.fields);
  }

  lemma SameFields(f: map<string, Value>, g: map<string, Value>)
    requires SortedKeys(f.Keys) == SortedKeys(g.Keys)
    requires forall k :: k in SortedKeys(f.Keys) ==> k in f && k in g && f[k] == g[k]
    ensures f == g
  {
    assert forall k :: k in f <==> k in SortedKeys(f.Keys);
    assert forall k :: k in g <==> k in SortedKeys(g.Keys);
  }

  /** The text of a list after its first element. */
  function ItemsTail(a: seq<Value>, x: string): string
    requires a != []
  {
    (if |a| == 1 then [] else "," + PrintItems(a[1..])) + "]" + x
  }

  lemma {:induction false} ItemsSplit(a: seq<Value>, x: string)
    ensures a == [] ==> PrintItems(a) + "]" + x == "]" + x
    ensures a != [] ==> PrintItems(a) + "]" + x == Canonical(a[0]) + ItemsTail(a, x)
    ensures a != [] ==> ItemsTail(a, x)[0] == if |a| == 1 then ']' else ','
    ensures |a| == 1 ==> ItemsTail(a, x)[1..] == x
    ensures |a| > 1 ==> ItemsTail(a, x)[1..] == PrintItems(a[1..]) + "]" + x
  {
    hide Canonical;
    if |a| == 1 {
      assert PrintItems(a) == Canonical(a[0]) + [];
      assert ItemsTail(a, x) == "]" + x;
      assert PrintItems(a) + "]" + x == Canonical(a[0]) + ("]" + x);
    } else if |a| > 1 {
      var rest := PrintItems(a[1..]);
      assert PrintItems(a) == Canonical(a[0]) + ("," + rest);
      assert ItemsTail(a, x) == "," + rest + "]" + x;
      assert PrintItems(a) + "]" + x == Canonical(a[0]) + ("," + rest + "]" + x);
    }
  }

  lemma {:induction false} ItemsUnique(a: seq<Value>, x: string, b: seq<Value>, y: string)
    requires forall i :: 0 <= i < |a| ==> WellFormed(a[i])
    requires forall i :: 0 <= i < |b| ==> WellFormed(b[i])
    requires PrintItems(a) + "]" + x == PrintItems(b) + "]" + y
    ensures a == b && x == y
    decreases a
  {
    hide Canonical, PrintItems, ItemsTail, WellFormed, Lead;
    var t, u := PrintItems(a) + "]" + x, PrintItems(b) + "]" + y;
    ItemsSplit(a, x);
    ItemsSplit(b, y);
    if a != [] { CanonicalLead(a[0]); }
    if b != [] { CanonicalLead(b[0]); }
    assert a == [] <==> t[0] == ']';
    assert b == [] <==> u[0] == ']';
    if a == [] {
      assert x == t[1..] && y == u[1..];
    } else {
      var p, q := ItemsTail(a, x), ItemsTail(b, y);
      CanonicalUnique(a[0], p, b[0], q);
      assert |a| == 1 <==> |b| == 1;
      if |a| > 1 { ItemsUnique(a[1..], x, b[1..], y); }
      assert a == [a[0]] + a[1..] && b == [b[0]] + b[1..];
    }
  }

  /** The text of an object after its first field. */
  function FieldsTail(v: Value, ks: seq<string>, x: string): string
    requires v.Obj? && ks != [] && forall k :: k in ks ==> k in v.fields
  {
    (if |ks| == 1 then [] else "," + PrintFields(v, ks[1..])) + "}" + x
  }

  lemma {:induction false} FieldsSplit(v: Value, ks: seq<string>, x: string)
    requires v.Obj? && forall k :: k in ks ==> k in v.fields
    ensures ks == [] ==> PrintFields(v, ks) + "}" + x == "}" + x
    ensures ks != [] ==>
      PrintFields(v, ks) + "}" + x == Quote(ks[0]) + (":" + (Canonical(v.fields[ks[0]]) + FieldsTail(v, ks, x)))
    ensures ks != [] ==> FieldsTail(v, ks, x)[0] == if |ks| == 1 then '}' else ','
    ensures |ks| == 1 ==> FieldsTail(v, ks, x)[1..] == x
    ensures |ks| > 1 ==> FieldsTail(v, ks, x)[1..] == PrintFields(v, ks[1..]) + "}" + x
  {
    hide Canonical, Quote;
  }

  lemma {:induction false} FieldsUnique(v: Value, ks: seq<string>, x: string, w: Value, ls: seq<string>, y: string)
    requires v.Obj? && w.Obj? && WellFormed(v) && WellFormed(w)
    requires (forall k :: k in ks ==> k in v.fields) && (forall k :: k in ls ==> k in w.fields)
    requires PrintFields(v, ks) + "}" + x == PrintFields(w, ls) + "}" + y
    ensures ks == ls && x == y && forall k :: k in ks ==> v.fields[k] == w.fields[k]
    decreases v, |ks|
  {
    hide Canonical, PrintFields, FieldsTail, EscapeText;
    var t, u := PrintFields(v, ks) + "}" + x, PrintFields(w, ls) + "}" + y;
    FieldsSplit(v, ks, x);
    FieldsSplit(w, ls, y);
    assert ks == [] <==> t[0] == '}';
    assert ls == [] <==> u[0] == '}';
    if ks == [] {
      assert x == t[1..] && y == u[1..];
    } else {
      var p, q := FieldsTail(v, ks, x), FieldsTail(w, ls, y);
      var a, b := v.fields[ks[0]], w.fields[ls[0]];
      QuoteUnique(ks[0], ":" + (Canonical(a) + p), ls[0], ":" + (Canonical(b) + q));
      Cancel(":", Canonical(a) + p, ":", Canonical(b) + q);
      CanonicalUnique(a, p, b, q);
      assert |ks| == 1 <==> |ls| == 1;
      if |ks| > 1 { FieldsUnique(v, ks[1..], x, w, ls[1..], y); }
      assert ks == [ks[0]] + ks[1..] && ls == [ls[0]] + ls[1..];
    }
  }

  /** Two trees with the same canonical text are the same tree. */
  lemma CanonicalInjective(v: Value, w: Value)
    requires WellFormed(v) && WellFormed(w) && Canonical(v) == Canonical(w)
    ensures v == w
  {
    assert Canonical(v) + [] == Canonical(v) && Canonical(w) + [] == Canonical(w);
    CanonicalUnique(v, [], w, []);
  }
}
