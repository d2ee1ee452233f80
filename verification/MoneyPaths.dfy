/** JSON Pointer display paths (sections 3 and 4 of RFC 6901) and the digests of raw paths with values. */
module MoneyPaths {
  import opened Prelude
  import opened Json

  // ---- Python's str.replace for the two pattern lengths used

  function ReplaceChar(s: string, c: char, with: string): string {
    if s == [] then [] else (if s[0] == c then with else [s[0]]) + ReplaceChar(s[1..], c, with)
  }

  function ReplacePair(s: string, a: char, b: char, with: char): string {
    if |s| >= 2 && s[0] == a && s[1] == b then [with] + ReplacePair(s[2..], a, b, with)
    else if s == [] then []
    else [s[0]] + ReplacePair(s[1..], a, b, with)
  }

  /** The name part of `child`: "~" first, then "/". */
  function EscapeLabel(name: string): string {
    ReplaceChar(ReplaceChar(name, '~', "~0"), '/', "~1")
  }

  function Child(path: string, name: string): string {
    path + "/" + EscapeLabel(name)
  }

  /** What follows the last "/", as `rsplit` with one cut gives it. */
  function AfterLastSlash(path: string): string {
    if path == [] then []
    else if path[|path| - 1] == '/' then []
    else AfterLastSlash(path[..|path| - 1]) + [path[|path| - 1]]
  }

  /** The leaf decoding of the signed-entry check: "~1" first, then "~0". */
  function Leaf(path: string): string {
    ReplacePair(ReplacePair(AfterLastSlash(path), '~', '1', '/'), '~', '0', '~')
  }

  // ---- escaping, character by character

  function EscapeOne(c: char): string {
    if c == '~' then "~0" else if c == '/' then "~1" else [c]
  }

  lemma {:induction false} EscapeCons(name: string)
    requires name != []
    ensures EscapeLabel(name) == EscapeOne(name[0]) + EscapeLabel(name[1..])
  {
    var t := ReplaceChar(name[1..], '~', "~0");
    if name[0] == '~' {
      assert ReplaceChar(name, '~', "~0") == "~0" + t;
      var u := "~0" + t;
      assert u[1..] == "0" + t && ("0" + t)[1..] == t;
      assert ReplaceChar(u, '/', "~1") == "~" + ReplaceChar("0" + t, '/', "~1");
      assert ReplaceChar("0" + t, '/', "~1") == "0" + ReplaceChar(t, '/', "~1");
      assert "~" + ("0" + ReplaceChar(t, '/', "~1")) == "~0" + ReplaceChar(t, '/', "~1");
    } else {
      var u := [name[0]] + t;
      assert ReplaceChar(name, '~', "~0") == u && u[0] == name[0] && u[1..] == t;
    }
  }

  lemma {:induction false} EscapedHasNoSlash(name: string)
    ensures '/' !in EscapeLabel(name)
  {
    if name != [] {
      EscapeCons(name);
      EscapedHasNoSlash(name[1..]);
    }
  }

  /** A decoding pass consumes a matching pair, and copies any other first character. */
  lemma {:induction false} PairStep(c: char, r: string, a: char, b: char, with: char)
    ensures c != a ==> ReplacePair([c] + r, a, b, with) == [c] + ReplacePair(r, a, b, with)
    ensures r != [] && r[0] != b ==> ReplacePair([c] + r, a, b, with) == [c] + ReplacePair(r, a, b, with)
    ensures c == a && r != [] && r[0] == b ==>
      ReplacePair([c] + r, a, b, with) == [with] + ReplacePair(r[1..], a, b, with)
  {
    var w := [c] + r;
    assert w[0] == c && w[1..] == r;
    if r != [] { assert w[1] == r[0] && w[2..] == r[1..]; }
  }

  lemma {:induction false} PassEscaped(c: char, r: string)
    ensures ReplacePair(EscapeOne(c) + r, '~', '1', '/') ==
      (if c == '~' then "~0" else [c]) + ReplacePair(r, '~', '1', '/')
  {
    if c == '/' {
      assert "~1" + r == ['~'] + ("1" + r) && ("1" + r)[1..] == r;
      PairStep('~', "1" + r, '~', '1', '/');
    } else if c == '~' {
      assert "~0" + r == ['~'] + ("0" + r) && "0" + r == ['0'] + r;
      PairStep('0', r, '~', '1', '/');
      PairStep('~', "0" + r, '~', '1', '/');
    } else {
      PairStep(c, r, '~', '1', '/');
    }
  }

  /** After the first decoding pass "/" is back and "~" is still "~0". */
  lemma {:induction false} FirstPass(name: string)
    ensures ReplacePair(EscapeLabel(name), '~', '1', '/') == ReplaceChar(name, '~', "~0")
  {
    if name != [] {
      hide EscapeLabel, ReplacePair, EscapeOne;
      EscapeCons(name);
      PassEscaped(name[0], EscapeLabel(name[1..]));
      FirstPass(name[1..]);
    }
  }

  lemma {:induction false} SecondPass(name: string)
    ensures ReplacePair(ReplaceChar(name, '~', "~0"), '~', '0', '~') == name
  {
    if name != [] {
      SecondPass(name[1..]);
      var e, r := ReplaceChar(name, '~', "~0"), ReplaceChar(name[1..], '~', "~0");
      if name[0] == '~' {
        assert e[0] == '~' && e[1] == '0' && e[2..] == r;
      } else {
        assert e[0] == name[0] && e[1..] == r;
      }
      assert name == [name[0]] + name[1..];
    }
  }

  lemma {:induction false} LastSegment(path: string, seg: string)
    requires '/' !in seg
    ensures AfterLastSlash(path + "/" + seg) == seg
  {
    var p := path + "/" + seg;
    if seg == [] {
      assert p[|p| - 1] == '/';
    } else {
      var n := |seg| - 1;
      assert p[..|p| - 1] == path + "/" + seg[..n];
      assert p[|p| - 1] == seg[n];
      LastSegment(path, seg[..n]);
      assert seg == seg[..n] + [seg[n]];
    }
  }

  /** Escaping a name and decoding the leaf gives the name back, for every string. */
  lemma LeafRoundTrip(path: string, name: string)
    ensures Leaf(Child(path, name)) == name
  {
    EscapedHasNoSlash(name);
    LastSegment(path, EscapeLabel(name));
    FirstPass(name);
    SecondPass(name);
  }

  lemma EscapeInjective(a: string, b: string)
    requires EscapeLabel(a) == EscapeLabel(b)
    ensures a == b
  {
    LeafRoundTrip("", a);
    LeafRoundTrip("", b);
  }

  // ---- whole paths

  function Pointer(labels: seq<string>): string {
    if labels == [] then [] else Child(Pointer(labels[..|labels| - 1]), labels[|labels| - 1])
  }

  lemma {:induction false} SplitUnique(p: string, a: string, q: string, b: string)
    requires '/' !in a && '/' !in b && p + "/" + a == q + "/" + b
    ensures p == q && a == b
  {
    LastSegment(p, a);
    LastSegment(q, b);
    assert p == (p + "/" + a)[..|p|] && q == (q + "/" + b)[..|q|];
  }

  /** One more name is one more segment: the path before it and the name can both be read off. */
  lemma ChildInjective(p: string, a: string, q: string, b: string)
    requires Child(p, a) == Child(q, b)
    ensures p == q && a == b
  {
    EscapedHasNoSlash(a);
    EscapedHasNoSlash(b);
    SplitUnique(p, EscapeLabel(a), q, EscapeLabel(b));
    EscapeInjective(a, b);
  }

  /** Distinct name sequences give distinct path strings. */
  lemma {:induction false} PointerInjective(a: seq<string>, b: seq<string>)
    requires Pointer(a) == Pointer(b)
    ensures a == b
  {
    if a != [] && b != [] {
      var m, n := |a| - 1, |b| - 1;
      ChildInjective(Pointer(a[..m]), a[m], Pointer(b[..n]), b[n]);
      PointerInjective(a[..m], b[..n]);
      assert a == a[..m] + [a[m]] && b == b[..n] + [b[n]];
    }
  }

  // ---- raw paths and entry digests

  /** A real key or index on the way from the receipt root. */
  datatype Seg = Key(name: string) | Index(at: nat)

  type Path = seq<Seg>

  function SegValue(s: Seg): (v: Value)
    ensures WellFormed(v)
  {
    match s
    case Key(name) => Text(name)
    case Index(at) => Number(Decimal(at))
  }

  function PathValue(p: Path): (v: Value)
    ensures WellFormed(v)
  {
    Arr(seq(|p|, i requires 0 <= i < |p| => SegValue(p[i])))
  }

  function EntryValue(raw: Path, value: Value): Value {
    Obj(map["path" := PathValue(raw), "value" := value])
  }

  /** `entry_sha256` for a given hash of texts. */
  function EntryDigest<D>(hash: string -> D, raw: Path, value: Value): D {
    hash(Canonical(EntryValue(raw, value)))
  }

  ghost predicate CollisionFree<D(!new)>(hash: string -> D) {
    forall s, t :: hash(s) == hash(t) ==> s == t
  }

  lemma PathValueInjective(p: Path, q: Path)
    requires PathValue(p) == PathValue(q)
    ensures p == q
  {
    assert |PathValue(p).items| == |p| && |PathValue(q).items| == |q|;
    forall i | 0 <= i < |p| ensures p[i] == q[i] {
      assert PathValue(p).items[i] == SegValue(p[i]) && PathValue(q).items[i] == SegValue(q[i]);
      if p[i].Index? && q[i].Index? { DecimalInjective(p[i].at, q[i].at); }
    }
  }

  /** With a collision-free hash an entry digest identifies both the raw path and the value. */
  lemma DigestIdentifies<D(!new)>(hash: string -> D, p: Path, v: Value, q: Path, w: Value)
    requires CollisionFree(hash) && WellFormed(v) && WellFormed(w)
    requires EntryDigest(hash, p, v) == EntryDigest(hash, q, w)
    ensures p == q && v == w
  {
    var a, b := EntryValue(p, v), EntryValue(q, w);
    CanonicalInjective(a, b);
    assert a.fields["path"] == PathValue(p) && b.fields["path"] == PathValue(q);
    assert a.fields["value"] == v && b.fields["value"] == w;
    PathValueInjective(p, q);
  }
}
