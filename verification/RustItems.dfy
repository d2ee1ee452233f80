/** Splitting a file's tokens into items, recursively inside `mod` and `impl` bodies. */
module RustItems {
  import opened Prelude
  import opened RustPattern
  import opened RustGrammar
  import opened RustTokens
  import opened RustBrackets

  datatype ItemKind = Impl | Mod | ModDecl | InnerAttr | InnerDocs | Comments | Named(word: string)

  datatype Class = ImplClass | ModClass | NamedClass(word: string)

  datatype Rule = AnyEnd | StructEnd | SemiEnd

  datatype Item = Item(kind: ItemKind, start: nat, lead: nat, end: nat, depth: nat, attrs: seq<(nat, nat)>,
                       members: Members, bodyOpen: int, bodyClose: int, first: nat, last: nat)

  datatype Members = NoBody | Inside(items: seq<Item>)

  datatype Lexed = Lexed(text: string, tokens: seq<Token>, pairs: Pairs, classify: Classify)

  /** How deep a range lies in `mod` and `impl` bodies, and where it stops. */
  datatype Level = Level(depth: nat, hi: int)

  /** Classification of the item starting at a token, any function of the position and the end of the range;
      none where it raises. */
  type Classify = (nat, nat) -> Option<(Class, Rule)>

  ghost predicate Spans(lx: Lexed) {
    && (forall i :: 0 <= i < |lx.tokens| ==> lx.tokens[i].start < lx.tokens[i].end <= |lx.text|)
    && (forall i, j :: 0 <= i < j < |lx.tokens| ==> lx.tokens[i].end <= lx.tokens[j].start)
  }

  ghost predicate Valid(lx: Lexed) {
    Spans(lx) && Matched(Syms(lx.text, lx.tokens), lx.pairs)
  }

  predicate IsPunct(lx: Lexed, i: nat, c: char) {
    && i < |lx.tokens| && lx.tokens[i].kind.Punct?
    && lx.tokens[i].start < |lx.text| && lx.text[lx.tokens[i].start] == c
  }

  function Tok(lx: Lexed, i: nat): string
    requires Spans(lx) && i < |lx.tokens|
  {
    lx.text[lx.tokens[i].start..lx.tokens[i].end]
  }

  // ---- ranges that no bracket pair crosses

  /** A bracket in the range has its partner in the range. */
  ghost predicate Closed(lx: Lexed, lo: int, hi: int) {
    && (forall o :: o in lx.pairs.close && lo <= o < hi ==> lx.pairs.close[o] < hi)
    && (forall c :: c in lx.pairs.open && lo <= c < hi ==> lo <= lx.pairs.open[c])
  }

  /** A whole file, or the inside of a braces pair. */
  ghost predicate Range(lx: Lexed, lo: int, hi: int) {
    0 <= lo <= hi <= |lx.tokens| && Closed(lx, lo, hi) && (hi == |lx.tokens| || IsPunct(lx, hi, '}'))
  }

  lemma ClosedJoin(lx: Lexed, lo: int, mid: int, hi: int)
    requires Valid(lx) && lo <= mid <= hi && Closed(lx, lo, mid) && Closed(lx, mid, hi)
    ensures Closed(lx, lo, hi)
  {
    hide Spans, Matched;
  }

  lemma ClosedRest(lx: Lexed, lo: int, mid: int, hi: int)
    requires Valid(lx) && lo <= mid <= hi && Closed(lx, lo, mid) && Closed(lx, lo, hi)
    ensures Closed(lx, mid, hi)
  {
    hide Spans, Laminar, Complete, Syms;
  }

  /** Tokens that are no brackets never break a range. */
  lemma ClosedPlain(lx: Lexed, lo: nat, hi: nat)
    requires Valid(lx) && lo <= hi <= |lx.tokens|
    requires forall i :: lo <= i < hi ==> !lx.tokens[i].kind.Punct?
    ensures Closed(lx, lo, hi)
  {
    hide Laminar, Inverse;
    var ss := Syms(lx.text, lx.tokens);
    assert forall i :: lo <= i < hi ==> !Opening(ss, i) && !Closing(ss, i);
  }

  /** A bracket pair, with everything in it. */
  lemma ClosedPair(lx: Lexed, o: nat)
    requires Valid(lx) && o in lx.pairs.close
    ensures Closed(lx, o, lx.pairs.close[o] + 1) && Closed(lx, o + 1, lx.pairs.close[o])
  {
    hide Spans, Matched, Syms, Laminar, Complete;
    var p, c := lx.pairs, lx.pairs.close[o];
    forall q | q in p.close && o < q < c ensures p.close[q] < c { InnerOpen(lx, o, q); }
    forall d | d in p.open && o < d < c ensures o < p.open[d] { InnerClose(lx, o, d); }
    assert Closed(lx, o + 1, c);
    PairFacts(lx, o);
    OneRole(lx, o);
    OneRole(lx, c);
    assert Closed(lx, o, c + 1);
  }

  lemma OneRole(lx: Lexed, i: nat)
    requires Valid(lx)
    ensures !(i in lx.pairs.close && i in lx.pairs.open)
  {
    hide Laminar, Inverse, Syms;
    assert !(Opening(Syms(lx.text, lx.tokens), i) && Closing(Syms(lx.text, lx.tokens), i));
  }

  lemma InnerOpen(lx: Lexed, o: nat, q: nat)
    requires Valid(lx) && o in lx.pairs.close && q in lx.pairs.close && o < q < lx.pairs.close[o]
    ensures lx.pairs.close[q] < lx.pairs.close[o]
  {
    hide Spans, Complete, Syms, Inverse, Laminar;
    NoCrossing(lx.pairs, o, q);
  }

  lemma InnerClose(lx: Lexed, o: nat, d: nat)
    requires Valid(lx) && o in lx.pairs.close && d in lx.pairs.open && o < d < lx.pairs.close[o]
    ensures o < lx.pairs.open[d]
  {
    hide Spans, Complete, Syms, Laminar;
    var q := lx.pairs.open[d];
    assert q in lx.pairs.close && lx.pairs.close[q] == d;
    if q < o { NoCrossing(lx.pairs, q, o); }
  }

  /** Outside all brackets opened in a closed range, no bracket closes. */
  lemma NotCloser(lx: Lexed, lo: nat, i: nat, hi: nat)
    requires Valid(lx) && lo <= i < hi && Closed(lx, lo, i) && Closed(lx, lo, hi)
    ensures i !in lx.pairs.open
  {
    hide Spans, Laminar, Complete, Syms;
  }

  lemma ClosedOne(lx: Lexed, i: nat)
    requires Valid(lx) && i < |lx.tokens| && i !in lx.pairs.close && i !in lx.pairs.open
    ensures Closed(lx, i, i + 1)
  {
    hide Valid;
  }

  /** The tables hold exactly the bracket tokens. */
  lemma WhereBrackets(lx: Lexed, i: nat)
    requires Valid(lx) && i < |lx.tokens|
    ensures i in lx.pairs.close <==> IsPunct(lx, i, '(') || IsPunct(lx, i, '[') || IsPunct(lx, i, '{')
    ensures i in lx.pairs.open <==> IsPunct(lx, i, ')') || IsPunct(lx, i, ']') || IsPunct(lx, i, '}')
  {
    hide Laminar, Inverse;
    var ss := Syms(lx.text, lx.tokens);
    assert ss[i] == SymOf(lx.text, lx.tokens[i]);
    assert Opening(ss, i) <==> i in lx.pairs.close;
    assert Closing(ss, i) <==> i in lx.pairs.open;
  }

  lemma PairFacts(lx: Lexed, o: nat)
    requires Valid(lx) && o in lx.pairs.close
    ensures o < lx.pairs.close[o] < |lx.tokens|
    ensures lx.pairs.close[o] in lx.pairs.open && lx.pairs.open[lx.pairs.close[o]] == o
    ensures IsPunct(lx, o, '{') <==> IsPunct(lx, lx.pairs.close[o], '}')
    ensures IsPunct(lx, o, '[') <==> IsPunct(lx, lx.pairs.close[o], ']')
  {
    hide Laminar, Complete;
    var ss := Syms(lx.text, lx.tokens);
    var c := lx.pairs.close[o];
    assert ss[o] == SymOf(lx.text, lx.tokens[o]) && ss[c] == SymOf(lx.text, lx.tokens[c]);
  }

  // ---- where items end

  /** A token that ends an item under a rule. */
  predicate Ends(lx: Lexed, p: nat, rule: Rule) {
    IsPunct(lx, p, ';') || (IsPunct(lx, p, '{') && !rule.SemiEnd?)
  }

  /** The first token of the range, outside all brackets opened in it, that ends the item. */
  ghost predicate FirstEnd(lx: Lexed, from: nat, p: nat, rule: Rule) {
    && from <= p && Closed(lx, from, p) && Ends(lx, p, rule)
    && forall q :: from <= q < p && Closed(lx, from, q) ==> !Ends(lx, q, rule)
  }

  /** An item that ends at a braces group ends where the group does. */
  function EndOf(lx: Lexed, p: nat): nat {
    if IsPunct(lx, p, '{') && p in lx.pairs.close then lx.pairs.close[p] else p
  }

  // ---- tilings

  ghost predicate Blank(lx: Lexed, lo: int, hi: int) {
    forall i :: lo <= i < hi && 0 <= i < |lx.tokens| ==> lx.tokens[i].kind.Ws?
  }

  ghost predicate AllKinds(lx: Lexed, lo: int, hi: int, kinds: set<Kind>) {
    forall i :: lo <= i < hi && 0 <= i < |lx.tokens| ==> lx.tokens[i].kind in kinds
  }

  /** A comment within the range that starts on the line where an item ends. */
  ghost predicate Trails(lx: Lexed, end: nat, c: nat, hi: int)
    requires Spans(lx)
  {
    && end < c <= end + 2 && c < hi <= |lx.tokens|
    && lx.tokens[c].kind.Comment? && '\n' !in Tok(lx, c)
    && (c == end + 2 ==> lx.tokens[end + 1].kind.Ws? && '\n' !in Tok(lx, end + 1))
  }

  /** An item takes such a comment if there is one. */
  ghost predicate SameLine(lx: Lexed, end: nat, last: nat, hi: int)
    requires Spans(lx)
  {
    Trails(lx, end, last, hi) || (last == end && forall c: nat :: !Trails(lx, end, c, hi))
  }

  function Newlines(s: string): nat {
    if s == [] then 0 else (if s[0] == '\n' then 1 else 0) + Newlines(s[1..])
  }

  /** No two line breaks. */
  predicate OneBreak(s: string) {
    forall i, j :: 0 <= i < j < |s| ==> !(s[i] == '\n' && s[j] == '\n')
  }

  lemma {:induction false} NewlinesIs(s: string)
    ensures Newlines(s) == 0 <==> '\n' !in s
    ensures Newlines(s) <= 1 <==> OneBreak(s)
  {
    if s != [] {
      var rest := s[1..];
      NewlinesIs(rest);
      assert s == [s[0]] + rest;
      if OneBreak(rest) && (s[0] == '\n' ==> '\n' !in rest) {
        forall i, j | 0 <= i < j < |s| ensures !(s[i] == '\n' && s[j] == '\n') {
          assert s[j] == rest[j - 1];
          if i > 0 { assert s[i] == rest[i - 1]; }
        }
      }
      if OneBreak(s) {
        assert forall i :: 0 <= i < |rest| ==> rest[i] == s[i + 1];
      }
    }
  }

  /** White space without an empty line. */
  predicate Tight(lx: Lexed, i: nat)
    requires Spans(lx)
  {
    i < |lx.tokens| && lx.tokens[i].kind.Ws? && OneBreak(Tok(lx, i))
  }

  /** An inner doc that continues a run which ended at `last`. */
  ghost predicate Continues(lx: Lexed, last: nat, b: nat)
    requires Spans(lx)
  {
    last < b < |lx.tokens| && lx.tokens[b].kind.InnerDoc? && forall i :: last < i < b ==> Tight(lx, i)
  }

  /** A run of inner docs without empty lines, as long as possible within the range. */
  ghost predicate DocRun(lx: Lexed, first: nat, last: nat, hi: int)
    requires Spans(lx)
  {
    && first <= last < hi <= |lx.tokens| && lx.tokens[first].kind.InnerDoc? && lx.tokens[last].kind.InnerDoc?
    && (forall i :: first <= i <= last ==> lx.tokens[i].kind.InnerDoc? || Tight(lx, i))
    && (forall b: nat :: b < hi ==> !Continues(lx, last, b))
  }

  predicate Trivia(k: Kind) {
    k in {Ws, Comment, Doc, InnerDoc}
  }

  predicate HeadTrivia(k: Kind) {
    k in {Ws, Comment, Doc}
  }

  ghost predicate OnlyTrivia(lx: Lexed, lo: int, hi: int) {
    forall i :: lo < i < hi && 0 <= i < |lx.tokens| ==> Trivia(lx.tokens[i].kind)
  }

  ghost predicate OnlyHeadTrivia(lx: Lexed, lo: int, hi: int) {
    forall i :: lo <= i < hi && 0 <= i < |lx.tokens| ==> HeadTrivia(lx.tokens[i].kind)
  }

  /** An outer attribute: `#` at h and its opening bracket at b. */
  ghost predicate AttrGroup(lx: Lexed, h: nat, b: nat) {
    h < b && b in lx.pairs.close && IsPunct(lx, h, '#') && IsPunct(lx, b, '[') && OnlyTrivia(lx, h, b)
  }

  /** An inner attribute: `#`, `!` and an opening bracket. */
  ghost predicate InnerGroup(lx: Lexed, h: nat, bang: nat, b: nat) {
    && h < bang < b && b in lx.pairs.close && IsPunct(lx, h, '#') && IsPunct(lx, bang, '!') && IsPunct(lx, b, '[')
    && OnlyTrivia(lx, h, bang) && OnlyTrivia(lx, bang, b)
  }

  /** From `from` up to `index` there are exactly these attributes, and otherwise only comments and white space. */
  ghost predicate Headed(lx: Lexed, from: int, index: int, attrs: seq<(nat, nat)>)
    decreases |attrs|
  {
    if attrs == [] then from <= index && OnlyHeadTrivia(lx, from, index)
    else
      var last, init := attrs[|attrs| - 1], attrs[..|attrs| - 1];
      exists h: nat, b: nat :: LastAttr(lx, h, b, last, index) && Headed(lx, from, h, init)
  }

  ghost predicate LastAttr(lx: Lexed, h: nat, b: nat, span: (nat, nat), index: int) {
    && AttrGroup(lx, h, b) && lx.pairs.close[b] < index && h < |lx.tokens| && lx.pairs.close[b] < |lx.tokens|
    && span == (lx.tokens[h].start, lx.tokens[lx.pairs.close[b]].end)
    && OnlyHeadTrivia(lx, lx.pairs.close[b] + 1, index)
  }

  /** The first token of an item after its comments and attributes. */
  ghost predicate KeywordAt(lx: Lexed, lead: nat, index: nat, hi: int) {
    && lead <= index < hi <= |lx.tokens| && !HeadTrivia(lx.tokens[index].kind)
    && (forall b: nat :: b < hi ==> !AttrGroup(lx, index, b))
    && (forall bang: nat, b: nat :: b < hi ==> !InnerGroup(lx, lead, bang, b))
  }

  /** The kind an item gets: a `mod` without a body is only a declaration. */
  function KindFor(c: Class, braces: bool): ItemKind {
    match c
    case ImplClass => Impl
    case ModClass => if braces then Mod else ModDecl
    case NamedClass(word) => Named(word)
  }

  /** The start of an item: plain comments, then its lead token. */
  ghost predicate StartsItem(lx: Lexed, first: nat, lead: nat) {
    && first <= lead < |lx.tokens|
    && AllKinds(lx, first, lead, {Ws, Comment})
    && !lx.tokens[first].kind.Ws? && !lx.tokens[lead].kind.Ws?
    && !lx.tokens[lead].kind.Comment? && !lx.tokens[lead].kind.InnerDoc?
  }

  /** Where the parts of an item are: its lead, its keyword, and its end before any comment on that line. */
  datatype Parts = Parts(lead: nat, index: nat, e: nat)

  /** An item has the attributes before its keyword and the kind its keyword gives it, and stops at the first end its
      rule knows; an inner attribute stops at its bracket. */
  ghost predicate StopsAt(lx: Lexed, it: Item, at: Parts, hi: int)
    requires Spans(lx)
  {
    && it.first <= at.lead <= at.index <= at.e <= it.last < hi <= |lx.tokens|
    && StartsItem(lx, it.first, at.lead) && it.lead == lx.tokens[at.lead].start
    && SameLine(lx, at.e, it.last, hi)
    && if it.kind.InnerAttr? then
         it.attrs == [] && exists bang: nat, b: nat :: InnerGroup(lx, at.lead, bang, b) && lx.pairs.close[b] == at.e
       else
         && Headed(lx, at.lead, at.index, it.attrs) && KeywordAt(lx, at.lead, at.index, hi)
         && lx.classify(at.index, hi).Some?
         && var (cls, rule) := lx.classify(at.index, hi).value;
           && (exists p: nat :: FirstEnd(lx, at.index, p, rule) && at.e == EndOf(lx, p))
           && it.kind == KindFor(cls, IsPunct(lx, at.e, '}'))
           && (it.members.Inside? <==> !cls.NamedClass? && IsPunct(lx, at.e, '}'))
           && (it.members.Inside? ==> it.bodyClose == lx.tokens[at.e].start)
  }

  ghost predicate Bounds(lx: Lexed, it: Item, hi: int)
    requires Spans(lx)
  {
    && it.first <= it.last < |lx.tokens|
    && it.start == lx.tokens[it.first].start && it.end == lx.tokens[it.last].end && it.start <= it.lead < it.end
    && !lx.tokens[it.first].kind.Ws? && !lx.tokens[it.last].kind.Ws?
    && Closed(lx, it.first, it.last + 1)
    && match it.kind {
         case Comments => AllKinds(lx, it.first, it.last + 1, {Ws, Comment})
         case InnerDocs => DocRun(lx, it.first, it.last, hi)
         case _ => exists at: Parts :: StopsAt(lx, it, at, hi)
       }
  }

  /** The braces around an item's members. */
  ghost predicate Body(lx: Lexed, it: Item, o: nat) {
    && o in lx.pairs.close && it.first <= o < lx.pairs.close[o] <= it.last < |lx.tokens|
    && IsPunct(lx, o, '{') && IsPunct(lx, lx.pairs.close[o], '}')
    && it.bodyOpen == lx.tokens[o].start && it.bodyClose == lx.tokens[lx.pairs.close[o]].start
  }

  ghost predicate ItemOk(lx: Lexed, it: Item, lv: Level)
    requires Spans(lx)
    decreases it
  {
    && Bounds(lx, it, lv.hi) && it.depth == lv.depth
    && (it.kind.Mod? ==> it.members.Inside?)
    && (it.members.Inside? ==> it.kind.Impl? || it.kind.Mod?)
    && (it.members.Inside? <==> it.bodyOpen >= 0)
    && (it.members.Inside? ==> exists o: nat ::
          && Body(lx, it, o)
          && Tiled(lx, it.members.items, o + 1, lx.pairs.close[o], Level(it.depth + 1, lx.pairs.close[o])))
  }

  /** Plain comments are an item of their own only before inner docs and at the end of a range. */
  predicate MayFollow(items: seq<Item>, it: Item) {
    items != [] && items[|items| - 1].kind.Comments? ==> it.kind.InnerDocs?
  }

  /** Items one after another from `lo` up to `pos`, with nothing but white space around them. */
  ghost predicate Tiled(lx: Lexed, items: seq<Item>, lo: int, pos: int, lv: Level)
    requires Spans(lx)
    decreases items
  {
    if items == [] then lo <= pos && Blank(lx, lo, pos)
    else
      var it := items[|items| - 1];
      && Tiled(lx, items[..|items| - 1], lo, it.first, lv)
      && ItemOk(lx, it, lv) && MayFollow(items[..|items| - 1], it)
      && it.last < pos && Blank(lx, it.last + 1, pos)
  }

  lemma TiledBlank(lx: Lexed, items: seq<Item>, lo: int, pos: int, next: int, lv: Level)
    requires Spans(lx) && Tiled(lx, items, lo, pos, lv) && pos <= next && Blank(lx, pos, next)
    ensures Tiled(lx, items, lo, next, lv)
  {
    hide ItemOk;
  }

  lemma TiledAppend(lx: Lexed, items: seq<Item>, it: Item, lo: int, lv: Level)
    requires Spans(lx) && Tiled(lx, items, lo, it.first, lv) && ItemOk(lx, it, lv) && MayFollow(items, it)
    ensures Tiled(lx, items + [it], lo, it.last + 1, lv)
  {
    hide ItemOk;
    assert (items + [it])[..|items|] == items;
  }

  // ---- scanning

  method NextCode(lx: Lexed, from: nat, hi: nat) returns (index: nat)
    requires from <= hi <= |lx.tokens|
    ensures from <= index <= hi
    ensures forall i :: from <= i < index ==> Trivia(lx.tokens[i].kind)
    ensures index < hi ==> !Trivia(lx.tokens[index].kind)
  {
    index := from;
    while index < hi && Trivia(lx.tokens[index].kind)
      invariant from <= index <= hi
      invariant forall i :: from <= i < index ==> Trivia(lx.tokens[i].kind)
    {
      index := index + 1;
    }
  }

  /** A closing brace whose group opened in the range. */
  predicate BodyEnd(lx: Lexed, from: nat, e: nat) {
    && IsPunct(lx, e, '}') && e in lx.pairs.open
    && var o := lx.pairs.open[e];
      from <= o < e && IsPunct(lx, o, '{') && o in lx.pairs.close && lx.pairs.close[o] == e
  }

  method FindEnd(lx: Lexed, from: nat, hi: nat, rule: Rule) returns (r: Result<nat>)
    requires Valid(lx) && from < hi <= |lx.tokens| && Closed(lx, from, hi)
    ensures r.Ok? <==> exists p: nat :: p < hi && FirstEnd(lx, from, p, rule)
    ensures r.Ok? ==> from <= r.value < hi && Closed(lx, from, r.value + 1)
    ensures r.Ok? ==> exists p: nat :: p < hi && FirstEnd(lx, from, p, rule) && r.value == EndOf(lx, p)
    ensures r.Ok? ==> IsPunct(lx, r.value, ';') || BodyEnd(lx, from, r.value)
    ensures r.Ok? && rule.SemiEnd? ==> IsPunct(lx, r.value, ';')
    ensures r.Err? ==> r.error == NoEnd(hi - 1)
  {
    hide Valid, Spans;
    var index := from;
    while index < hi
      invariant from <= index <= hi && Closed(lx, from, index)
      invariant forall q :: from <= q < index && Closed(lx, from, q) ==> !Ends(lx, q, rule)
    {
      WhereBrackets(lx, index);
      if Ends(lx, index, rule) { assert FirstEnd(lx, from, index, rule); }
      if IsPunct(lx, index, ';') {
        ClosedOne(lx, index);
        ClosedJoin(lx, from, index, index + 1);
        return Ok(index);
      }
      if index in lx.pairs.close {
        var close := lx.pairs.close[index];
        PairFacts(lx, index);
        ClosedPair(lx, index);
        ClosedJoin(lx, from, index, close + 1);
        if IsPunct(lx, index, '{') && !rule.SemiEnd? { return Ok(close); }
        index := close + 1;
      } else {
        NotCloser(lx, from, index, hi);
        ClosedOne(lx, index);
        ClosedJoin(lx, from, index, index + 1);
        index := index + 1;
      }
    }
    r := Err(NoEnd(index - 1));
  }

  method Finish(lx: Lexed, end: nat, hi: nat) returns (last: nat)
    requires Valid(lx) && end < hi <= |lx.tokens|
    ensures end <= last < hi && SameLine(lx, end, last, hi)
    ensures forall i :: end < i <= last ==> !lx.tokens[i].kind.Punct?
    ensures !lx.tokens[end].kind.Ws? ==> !lx.tokens[last].kind.Ws?
  {
    var after := end + 1;
    last := end;
    if after < hi && lx.tokens[after].kind.Ws? && '\n' !in Tok(lx, after) { after := after + 1; }
    if after < hi && lx.tokens[after].kind.Comment? && '\n' !in Tok(lx, after) { last := after; }
  }

  method CommentItem(lx: Lexed, first: nat, stop: nat, lv: Level) returns (it: Item)
    requires Valid(lx) && first < stop <= |lx.tokens|
    requires lx.tokens[first].kind.Comment? && AllKinds(lx, first, stop, {Ws, Comment})
    ensures ItemOk(lx, it, lv) && it.first == first && it.last < stop && Blank(lx, it.last + 1, stop)
    ensures it.kind.Comments?
  {
    hide Matched;
    var last := stop - 1;
    while lx.tokens[last].kind.Ws?
      invariant first <= last < stop && Blank(lx, last + 1, stop)
      decreases last
    {
      last := last - 1;
    }
    ClosedPlain(lx, first, last + 1);
    hide Closed;
    it := Item(Comments, lx.tokens[first].start, lx.tokens[first].start, lx.tokens[last].end, lv.depth, [], NoBody,
               -1, -1, first, last);
  }

  method DocItem(lx: Lexed, index: nat, lv: Level) returns (it: Item)
    requires Valid(lx) && index < lv.hi <= |lx.tokens| && lx.tokens[index].kind.InnerDoc?
    ensures ItemOk(lx, it, lv) && it.first == index && it.last < lv.hi && it.kind.InnerDocs?
  {
    hide Matched, Closed, Newlines, OneBreak;
    var last := index;
    var more := true;
    while more
      invariant index <= last < lv.hi && lx.tokens[last].kind.InnerDoc?
      invariant forall i :: index <= i <= last ==> lx.tokens[i].kind.InnerDoc? || Tight(lx, i)
      invariant !more ==> forall b: nat :: b < lv.hi ==> !Continues(lx, last, b)
      decreases lv.hi - last, more
    {
      var probe := last + 1;
      while probe < lv.hi && lx.tokens[probe].kind.Ws? && Newlines(Tok(lx, probe)) <= 1
        invariant last < probe <= lv.hi && forall i :: last < i < probe ==> Tight(lx, i)
      {
        NewlinesIs(Tok(lx, probe));
        probe := probe + 1;
      }
      if probe < lv.hi { NewlinesIs(Tok(lx, probe)); }
      if probe < lv.hi && lx.tokens[probe].kind.InnerDoc? {
        last := probe;
      } else {
        NoMore(lx, last, probe, lv.hi);
        more := false;
      }
    }
    ClosedPlain(lx, index, last + 1);
    it := Item(InnerDocs, lx.tokens[index].start, lx.tokens[index].start, lx.tokens[last].end, lv.depth, [], NoBody,
               -1, -1, index, last);
  }

  lemma NoMore(lx: Lexed, last: nat, probe: nat, hi: int)
    requires Valid(lx) && last < probe <= hi <= |lx.tokens| && (forall i :: last < i < probe ==> Tight(lx, i))
    requires probe < hi ==> !Tight(lx, probe) && !lx.tokens[probe].kind.InnerDoc?
    ensures forall b: nat :: b < hi ==> !Continues(lx, last, b)
  {
    hide Matched, OneBreak, Spans;
    forall i | last < i < probe ensures !lx.tokens[i].kind.InnerDoc? { assert Tight(lx, i); }
    assert probe < hi ==> !Tight(lx, probe);
  }

  // ---- items

  /** After leading comments, attributes and doc comments: the item's keyword, or an inner attribute. */
  datatype Head = Keyword(index: nat, attrs: seq<(nat, nat)>) | Inner(close: nat)

  method ReadHead(lx: Lexed, lead: nat, hi: nat) returns (r: Result<Head>)
    requires Valid(lx) && lead < hi && Range(lx, lead, hi)
    ensures r.Ok? && r.value.Keyword? ==>
      && Headed(lx, lead, r.value.index, r.value.attrs)
      && KeywordAt(lx, lead, r.value.index, hi) && Closed(lx, lead, r.value.index)
    ensures r.Ok? && r.value.Inner? ==>
      lead < r.value.close < hi && Closed(lx, lead, r.value.close + 1) && InnerAt(lx, lead, r.value.close)
    ensures r.Err? ==> r.error == NoItem(lead) && exists attrs :: Headed(lx, lead, hi, attrs)
  {
    hide Valid, Spans, Closed, Headed, InnerAt, KeywordAt;
    var index, attrs := lead, [];
    ClosedPlain(lx, lead, lead);
    HeadedNothing(lx, lead);
    while index < hi
      invariant lead <= index <= hi && Closed(lx, lead, index) && Headed(lx, lead, index, attrs)
      invariant index > lead ==> NoInner(lx, lead, hi)
      decreases hi - index
    {
      if lx.tokens[index].kind in {Ws, Comment, Doc} {
        ClosedPlain(lx, index, index + 1);
        ClosedJoin(lx, lead, index, index + 1);
        HeadedTrivia(lx, lead, index, attrs);
        if index == lead { NoInnerHere(lx, lead, hi); }
        index := index + 1;
        continue;
      }
      if IsPunct(lx, index, '#') {
        var after := NextCode(lx, index + 1, hi);
        HashRun(lx, index, after);
        if IsPunct(lx, after, '!') && index == lead {
          var bracket := NextCode(lx, after + 1, hi);
          if IsPunct(lx, bracket, '[') {
            BangRun(lx, index, after, bracket);
            AttrCloses(lx, lead, index, bracket, hi);
            InnerIs(lx, lead, after, bracket);
            return Ok(Inner(lx.pairs.close[bracket]));
          }
          NoInnerBang(lx, lead, after, bracket, hi);
        } else if index == lead {
          NoInnerAfter(lx, lead, after, hi);
        }
        if IsPunct(lx, after, '[') {
          AttrCloses(lx, lead, index, after, hi);
          var close := lx.pairs.close[after];
          HeadedAttr(lx, lead, index, after, attrs);
          attrs := attrs + [(lx.tokens[index].start, lx.tokens[close].end)];
          index := close + 1;
          continue;
        }
        NoAttrAfter(lx, index, after, hi);
      } else {
        NoAttrHere(lx, index, hi);
        if index == lead { NoInnerHere(lx, lead, hi); }
      }
      KeywordIs(lx, lead, index, hi);
      break;
    }
    if index >= hi { return Err(NoItem(lead)); }
    r := Ok(Keyword(index, attrs));
  }

  ghost predicate InnerAt(lx: Lexed, lead: nat, close: nat) {
    exists bang: nat, b: nat :: InnerGroup(lx, lead, bang, b) && lx.pairs.close[b] == close
  }

  ghost predicate NoInner(lx: Lexed, lead: nat, hi: int) {
    forall bang: nat, b: nat :: b < hi ==> !InnerGroup(lx, lead, bang, b)
  }

  ghost predicate NoAttr(lx: Lexed, index: nat, hi: int) {
    forall b: nat :: b < hi ==> !AttrGroup(lx, index, b)
  }

  lemma HeadedNothing(lx: Lexed, lead: nat)
    ensures Headed(lx, lead, lead, [])
  {
  }

  lemma HeadedTrivia(lx: Lexed, lead: nat, index: nat, attrs: seq<(nat, nat)>)
    requires Headed(lx, lead, index, attrs) && index < |lx.tokens| && HeadTrivia(lx.tokens[index].kind)
    ensures Headed(lx, lead, index + 1, attrs)
  {
    if attrs != [] {
      var h: nat, b: nat :| LastAttr(lx, h, b, attrs[|attrs| - 1], index) && Headed(lx, lead, h, attrs[..|attrs| - 1]);
      assert LastAttr(lx, h, b, attrs[|attrs| - 1], index + 1);
    }
  }

  lemma HeadedAttr(lx: Lexed, lead: nat, h: nat, b: nat, attrs: seq<(nat, nat)>)
    requires Headed(lx, lead, h, attrs) && AttrGroup(lx, h, b) && h < lx.pairs.close[b] < |lx.tokens|
    ensures Headed(lx, lead, lx.pairs.close[b] + 1, attrs + [(lx.tokens[h].start, lx.tokens[lx.pairs.close[b]].end)])
  {
    var more := attrs + [(lx.tokens[h].start, lx.tokens[lx.pairs.close[b]].end)];
    assert more[..|more| - 1] == attrs;
    assert LastAttr(lx, h, b, more[|more| - 1], lx.pairs.close[b] + 1);
  }

  lemma InnerIs(lx: Lexed, lead: nat, bang: nat, b: nat)
    requires InnerGroup(lx, lead, bang, b)
    ensures InnerAt(lx, lead, lx.pairs.close[b])
  {
  }

  lemma KeywordIs(lx: Lexed, lead: nat, index: nat, hi: nat)
    requires lead <= index < hi <= |lx.tokens| && !HeadTrivia(lx.tokens[index].kind)
    requires NoAttr(lx, index, hi) && NoInner(lx, lead, hi)
    ensures KeywordAt(lx, lead, index, hi)
  {
    hide AttrGroup, InnerGroup, HeadTrivia;
  }

  lemma NoAttrHere(lx: Lexed, index: nat, hi: nat)
    requires !IsPunct(lx, index, '#')
    ensures NoAttr(lx, index, hi)
  {
  }

  lemma NoInnerHere(lx: Lexed, lead: nat, hi: nat)
    requires !IsPunct(lx, lead, '#')
    ensures NoInner(lx, lead, hi)
  {
  }

  /** The next token that is no comment or white space is the only place where something can follow. */
  lemma NextIsOnly(lx: Lexed, h: nat, after: nat, hi: nat, b: nat, c: char)
    requires h < after <= hi <= |lx.tokens| && OnlyTrivia(lx, h, after)
    requires (after < hi ==> !Trivia(lx.tokens[after].kind))
    requires h < b < hi && IsPunct(lx, b, c) && OnlyTrivia(lx, h, b)
    ensures b == after
  {
  }

  lemma NoAttrAfter(lx: Lexed, index: nat, after: nat, hi: nat)
    requires index < after <= hi <= |lx.tokens| && OnlyTrivia(lx, index, after)
    requires (after < hi ==> !Trivia(lx.tokens[after].kind)) && !IsPunct(lx, after, '[')
    ensures NoAttr(lx, index, hi)
  {
    hide OnlyTrivia, IsPunct, Trivia;
    forall b: nat | b < hi && AttrGroup(lx, index, b) ensures false { NextIsOnly(lx, index, after, hi, b, '['); }
  }

  lemma NoInnerAfter(lx: Lexed, lead: nat, after: nat, hi: nat)
    requires lead < after <= hi <= |lx.tokens| && OnlyTrivia(lx, lead, after)
    requires (after < hi ==> !Trivia(lx.tokens[after].kind)) && !IsPunct(lx, after, '!')
    ensures NoInner(lx, lead, hi)
  {
    hide OnlyTrivia, IsPunct, Trivia;
    forall bang: nat, b: nat | b < hi && InnerGroup(lx, lead, bang, b) ensures false {
      NextIsOnly(lx, lead, after, hi, bang, '!');
    }
  }

  lemma NoInnerBang(lx: Lexed, lead: nat, after: nat, bracket: nat, hi: nat)
    requires lead < after < hi <= |lx.tokens| && OnlyTrivia(lx, lead, after) && !Trivia(lx.tokens[after].kind)
    requires after < bracket <= hi && OnlyTrivia(lx, after, bracket)
    requires (bracket < hi ==> !Trivia(lx.tokens[bracket].kind)) && !IsPunct(lx, bracket, '[')
    ensures NoInner(lx, lead, hi)
  {
    hide OnlyTrivia, IsPunct, Trivia;
    forall bang: nat, b: nat | b < hi && InnerGroup(lx, lead, bang, b) ensures false {
      NextIsOnly(lx, lead, after, hi, bang, '!');
      NextIsOnly(lx, after, bracket, hi, b, '[');
    }
  }

  lemma HashRun(lx: Lexed, index: nat, after: nat)
    requires Valid(lx) && index < after <= |lx.tokens| && IsPunct(lx, index, '#')
    requires forall i :: index < i < after ==> Trivia(lx.tokens[i].kind)
    ensures Closed(lx, index, after)
  {
    hide Valid, Closed;
    WhereBrackets(lx, index);
    ClosedOne(lx, index);
    ClosedPlain(lx, index + 1, after);
    ClosedJoin(lx, index, index + 1, after);
  }

  lemma BangRun(lx: Lexed, index: nat, bang: nat, after: nat)
    requires Valid(lx) && index < bang < after <= |lx.tokens| && IsPunct(lx, bang, '!') && Closed(lx, index, bang)
    requires forall i :: bang < i < after ==> Trivia(lx.tokens[i].kind)
    ensures Closed(lx, index, after)
  {
    hide Valid, Closed;
    WhereBrackets(lx, bang);
    ClosedOne(lx, bang);
    ClosedPlain(lx, bang + 1, after);
    ClosedJoin(lx, bang, bang + 1, after);
    ClosedJoin(lx, index, bang, after);
  }

  /** The brackets of an attribute end before the range does. */
  lemma AttrCloses(lx: Lexed, lead: nat, index: nat, bracket: nat, hi: nat)
    requires Valid(lx) && Range(lx, lead, hi) && lead <= index <= bracket <= hi
    requires Closed(lx, lead, index) && Closed(lx, index, bracket) && IsPunct(lx, bracket, '[')
    ensures bracket in lx.pairs.close && bracket < lx.pairs.close[bracket] < hi
    ensures Closed(lx, lead, lx.pairs.close[bracket] + 1) && IsPunct(lx, lx.pairs.close[bracket], ']')
  {
    hide Valid;
    WhereBrackets(lx, bracket);
    PairFacts(lx, bracket);
    ClosedPair(lx, bracket);
    assert bracket < hi;
    assert lx.pairs.close[bracket] < hi;
    hide Closed;
    ClosedJoin(lx, lead, index, bracket);
    ClosedJoin(lx, lead, bracket, lx.pairs.close[bracket] + 1);
  }

  /** What the bounds of an item need, once its end is known. */
  lemma ItemBounds(lx: Lexed, it: Item, at: Parts, hi: int)
    requires Valid(lx) && StopsAt(lx, it, at, hi) && Closed(lx, at.lead, at.e + 1)
    requires forall i :: at.e < i <= it.last ==> !lx.tokens[i].kind.Punct?
    requires !lx.tokens[it.last].kind.Ws? && !it.kind.Comments? && !it.kind.InnerDocs?
    requires it.start == lx.tokens[it.first].start && it.end == lx.tokens[it.last].end
    ensures Bounds(lx, it, hi) && Closed(lx, at.lead, it.last + 1)
  {
    hide Matched, Closed, Headed, KeywordAt, InnerGroup, FirstEnd, SameLine;
    assert it.first <= at.lead <= at.e <= it.last < |lx.tokens|;
    assert AllKinds(lx, it.first, at.lead, {Ws, Comment}) && it.lead == lx.tokens[at.lead].start;
    hide StopsAt, StartsItem;
    ClosedPlain(lx, it.first, at.lead);
    ClosedPlain(lx, at.e + 1, it.last + 1);
    ClosedJoin(lx, at.lead, at.e + 1, it.last + 1);
    ClosedJoin(lx, it.first, at.lead, it.last + 1);
  }

  lemma RangeRest(lx: Lexed, lead: nat, index: nat, hi: nat)
    requires Valid(lx) && Range(lx, lead, hi) && lead <= index <= hi && Closed(lx, lead, index)
    ensures Closed(lx, index, hi)
  {
    ClosedRest(lx, lead, index, hi);
  }

  /** The inside of an item's braces is a range again, and a smaller one. */
  lemma BodyRange(lx: Lexed, from: nat, e: nat)
    requires Valid(lx) && BodyEnd(lx, from, e)
    ensures Range(lx, lx.pairs.open[e] + 1, e)
  {
    hide Valid;
    PairFacts(lx, lx.pairs.open[e]);
    ClosedPair(lx, lx.pairs.open[e]);
  }

  lemma InnerEnd(lx: Lexed, lead: nat, close: nat)
    requires Valid(lx) && InnerAt(lx, lead, close)
    ensures close < |lx.tokens| && !lx.tokens[close].kind.Ws?
  {
    var bang: nat, b: nat :| InnerGroup(lx, lead, bang, b) && lx.pairs.close[b] == close;
    hide Valid, OnlyTrivia;
    PairFacts(lx, b);
  }

  lemma KeywordRange(lx: Lexed, lead: nat, index: nat, hi: int)
    requires KeywordAt(lx, lead, index, hi)
    ensures lead <= index < hi <= |lx.tokens|
  {
  }

  lemma EndPunct(lx: Lexed, from: nat, e: nat)
    requires IsPunct(lx, e, ';') || BodyEnd(lx, from, e)
    ensures IsPunct(lx, e, ';') || IsPunct(lx, e, '}')
    ensures e < |lx.tokens| && !lx.tokens[e].kind.Ws?
    ensures IsPunct(lx, e, '}') ==> BodyEnd(lx, from, e)
  {
  }

  lemma StopsInner(lx: Lexed, it: Item, lead: nat, e: nat, hi: int)
    requires Valid(lx) && it.first <= lead <= e <= it.last < hi <= |lx.tokens| && SameLine(lx, e, it.last, hi)
    requires StartsItem(lx, it.first, lead) && it.lead == lx.tokens[lead].start
    requires it.kind.InnerAttr? && it.attrs == [] && InnerAt(lx, lead, e)
    ensures StopsAt(lx, it, Parts(lead, lead, e), hi)
  {
    hide SameLine, StartsItem, InnerGroup;
  }

  lemma StopsKeyword(lx: Lexed, it: Item, at: Parts, hi: int, cls: Class, rule: Rule)
    requires Valid(lx) && it.first <= at.lead <= at.index <= at.e <= it.last < hi <= |lx.tokens|
    requires SameLine(lx, at.e, it.last, hi) && StartsItem(lx, it.first, at.lead) && it.lead == lx.tokens[at.lead].start
    requires Headed(lx, at.lead, at.index, it.attrs) && KeywordAt(lx, at.lead, at.index, hi)
    requires lx.classify(at.index, hi) == Some((cls, rule))
    requires exists p: nat :: p < hi && FirstEnd(lx, at.index, p, rule) && at.e == EndOf(lx, p)
    requires it.kind == KindFor(cls, IsPunct(lx, at.e, '}'))
    requires it.members.Inside? <==> !cls.NamedClass? && IsPunct(lx, at.e, '}')
    requires it.members.Inside? ==> it.bodyClose == lx.tokens[at.e].start
    ensures StopsAt(lx, it, at, hi)
  {
    hide FirstEnd, EndOf, SameLine, IsPunct, Spans, Matched, StartsItem, Headed, KeywordAt;
  }

  lemma PlainItem(lx: Lexed, it: Item, lv: Level)
    requires Valid(lx) && Bounds(lx, it, lv.hi) && it.depth == lv.depth && it.members.NoBody? && !it.kind.Mod?
    requires it.bodyOpen < 0
    ensures ItemOk(lx, it, lv)
  {
  }

  lemma ContainerItem(lx: Lexed, it: Item, o: nat, lv: Level)
    requires Valid(lx) && Bounds(lx, it, lv.hi) && it.depth == lv.depth && it.members.Inside?
    requires (it.kind.Impl? || it.kind.Mod?) && it.bodyOpen >= 0
    requires Body(lx, it, o)
    requires Tiled(lx, it.members.items, o + 1, lx.pairs.close[o], Level(it.depth + 1, lx.pairs.close[o]))
    ensures ItemOk(lx, it, lv)
  {
  }

  lemma BodyIs(lx: Lexed, it: Item, from: nat, e: nat)
    requires BodyEnd(lx, from, e) && it.first <= from && e <= it.last < |lx.tokens|
    requires it.bodyOpen == lx.tokens[lx.pairs.open[e]].start && it.bodyClose == lx.tokens[e].start
    ensures Body(lx, it, lx.pairs.open[e])
  {
  }

  lemma StartOrder(lx: Lexed, first: nat, lead: nat, hi: nat)
    requires StartsItem(lx, first, lead) && Range(lx, lead, hi)
    ensures first <= lead < |lx.tokens| && hi <= |lx.tokens|
  {
  }

  lemma OpenBefore(lx: Lexed, from: nat, e: nat)
    requires BodyEnd(lx, from, e)
    ensures e in lx.pairs.open && from <= lx.pairs.open[e] < e < |lx.tokens|
    ensures lx.pairs.open[e] in lx.pairs.close && lx.pairs.close[lx.pairs.open[e]] == e
  {
  }

  method ReadItem(lx: Lexed, first: nat, lead: nat, hi: nat, depth: nat) returns (r: Result<Item>)
    requires Valid(lx) && lead < hi && Range(lx, lead, hi) && StartsItem(lx, first, lead)
    ensures r.Ok? ==>
      && ItemOk(lx, r.value, Level(depth, hi)) && r.value.first == first && !r.value.kind.Comments?
      && lead <= r.value.last < hi && Closed(lx, lead, r.value.last + 1)
    ensures r.Err? ==> Broken(lx, lead, hi, depth, r.error)
    decreases hi - lead, 1
  {
    hide Matched, Spans, Closed, Range, StartsItem, StopsAt, SameLine, Bounds, ItemOk, Headed, KeywordAt, InnerAt,
      BrokenKeyword;
    StartOrder(lx, first, lead, hi);
    var head := ReadHead(lx, lead, hi);
    if head.Err? { return Err(head.error); }
    if head.value.Keyword? {
      r := ReadKeyword(lx, first, lead, head.value.index, head.value.attrs, hi, depth);
      return;
    }
    var close := head.value.close;
    InnerEnd(lx, lead, close);
    var stop := Finish(lx, close, hi);
    var attr := Item(InnerAttr, lx.tokens[first].start, lx.tokens[lead].start, lx.tokens[stop].end, depth, [],
                     NoBody, -1, -1, first, stop);
    StopsInner(lx, attr, lead, close, hi);
    ItemBounds(lx, attr, Parts(lead, lead, close), hi);
    PlainItem(lx, attr, Level(depth, hi));
    r := Ok(attr);
  }

  method ReadKeyword(lx: Lexed, first: nat, lead: nat, index: nat, attrs: seq<(nat, nat)>, hi: nat, depth: nat)
    returns (r: Result<Item>)
    requires Valid(lx) && lead < hi && Range(lx, lead, hi) && StartsItem(lx, first, lead)
    requires Headed(lx, lead, index, attrs) && KeywordAt(lx, lead, index, hi) && Closed(lx, lead, index)
    ensures r.Ok? ==>
      && ItemOk(lx, r.value, Level(depth, hi)) && r.value.first == first && !r.value.kind.Comments?
      && lead <= r.value.last < hi && Closed(lx, lead, r.value.last + 1)
    ensures r.Err? ==> BrokenKeyword(lx, lead, index, hi, depth, r.error)
    decreases hi - lead, 0
  {
    hide Matched, Spans, Closed, Range, StartsItem, IsPunct, StopsAt, SameLine, FirstEnd, BodyEnd, Bounds, ItemOk,
      Tiled, Body,
      Headed, KeywordAt, RangeBroken, EndOf, BrokenKeyword;
    StartOrder(lx, first, lead, hi);
    KeywordRange(lx, lead, index, hi);
    var found := lx.classify(index, hi);
    if found.None? {
      BrokenClass(lx, lead, index, hi, depth);
      return Err(Unclassified(index));
    }
    var (cls, rule) := found.value;
    RangeRest(lx, lead, index, hi);
    var end := FindEnd(lx, index, hi, rule);
    if end.Err? {
      BrokenEnd(lx, lead, index, hi, depth, rule);
      return Err(end.error);
    }
    var e := end.value;
    ClosedJoin(lx, lead, index, e + 1);
    EndPunct(lx, index, e);
    var last := Finish(lx, e, hi);
    var it := Item(KindFor(cls, false), lx.tokens[first].start, lx.tokens[lead].start, lx.tokens[last].end, depth,
                   attrs, NoBody, -1, -1, first, last);
    if (cls.ImplClass? || cls.ModClass?) && IsPunct(lx, e, '}') {
      OpenBefore(lx, index, e);
      BodyRange(lx, index, e);
      var o := lx.pairs.open[e];
      var members := Parse(lx, o + 1, e, depth + 1);
      if members.Err? {
        BrokenBody(lx, lead, index, hi, depth, members.error, e, rule);
        return Err(members.error);
      }
      it := it.(kind := KindFor(cls, true), members := Inside(members.value),
                bodyOpen := lx.tokens[o].start, bodyClose := lx.tokens[e].start);
      StopsKeyword(lx, it, Parts(lead, index, e), hi, cls, rule);
      ItemBounds(lx, it, Parts(lead, index, e), hi);
      BodyIs(lx, it, index, e);
      ContainerItem(lx, it, o, Level(depth, hi));
    } else {
      StopsKeyword(lx, it, Parts(lead, index, e), hi, cls, rule);
      ItemBounds(lx, it, Parts(lead, index, e), hi);
      PlainItem(lx, it, Level(depth, hi));
    }
    r := Ok(it);
  }

  // ---- why splitting fails

  /** No item can be read at `lead`: nothing follows its attributes, or its keyword leads nowhere. */
  ghost predicate Broken(lx: Lexed, lead: nat, hi: nat, depth: nat, error: Error)
    requires Spans(lx)
    decreases hi - lead, 1
  {
    || (error == NoItem(lead) && exists attrs :: Headed(lx, lead, hi, attrs))
    || exists index: nat, attrs ::
         && Headed(lx, lead, index, attrs) && KeywordAt(lx, lead, index, hi)
         && BrokenKeyword(lx, lead, index, hi, depth, error)
  }

  /** The keyword is not classified, has no end, or has a body that is broken. */
  ghost predicate BrokenKeyword(lx: Lexed, lead: nat, index: nat, hi: nat, depth: nat, error: Error)
    requires Spans(lx)
    decreases hi - lead, 0
  {
    if lx.classify(index, hi).None? then error == Unclassified(index)
    else
      var (cls, rule) := lx.classify(index, hi).value;
      || (hi > 0 && error == NoEnd(hi - 1) && forall p: nat :: p < hi ==> !FirstEnd(lx, index, p, rule))
      || (&& !cls.NamedClass?
          && exists p: nat, e: nat :: FirstEnd(lx, index, p, rule) && e == EndOf(lx, p) && lead <= index && e < hi
               && BodyEnd(lx, index, e) && RangeBroken(lx, lx.pairs.open[e] + 1, e, depth + 1, error))
  }

  /** After some items, no further item can be read. */
  ghost predicate RangeBroken(lx: Lexed, lo: nat, hi: nat, depth: nat, error: Error)
    requires Spans(lx)
    decreases hi - lo, 2
  {
    exists items, first: nat, lead: nat ::
      BrokenAfter(lx, items, lo, first, lead, hi, depth) && Broken(lx, lead, hi, depth, error)
  }

  ghost predicate BrokenAfter(lx: Lexed, items: seq<Item>, lo: nat, first: nat, lead: nat, hi: nat, depth: nat)
    requires Spans(lx)
  {
    lo <= lead < hi && Tiled(lx, items, lo, first, Level(depth, hi)) && StartsItem(lx, first, lead)
  }

  lemma BrokenClass(lx: Lexed, lead: nat, index: nat, hi: nat, depth: nat)
    requires Spans(lx) && lx.classify(index, hi).None?
    ensures BrokenKeyword(lx, lead, index, hi, depth, Unclassified(index))
  {
  }

  lemma BrokenEnd(lx: Lexed, lead: nat, index: nat, hi: nat, depth: nat, rule: Rule)
    requires Spans(lx) && hi > 0 && lx.classify(index, hi).Some? && lx.classify(index, hi).value.1 == rule
    requires forall p: nat :: p < hi ==> !FirstEnd(lx, index, p, rule)
    ensures BrokenKeyword(lx, lead, index, hi, depth, NoEnd(hi - 1))
  {
    hide FirstEnd, RangeBroken;
  }

  lemma BrokenBody(lx: Lexed, lead: nat, index: nat, hi: nat, depth: nat, error: Error, e: nat, rule: Rule)
    requires Spans(lx) && lx.classify(index, hi).Some? && lx.classify(index, hi).value.1 == rule
    requires !lx.classify(index, hi).value.0.NamedClass? && lead <= index && e < hi && BodyEnd(lx, index, e)
    requires exists p: nat :: p < hi && FirstEnd(lx, index, p, rule) && e == EndOf(lx, p)
    requires RangeBroken(lx, lx.pairs.open[e] + 1, e, depth + 1, error)
    ensures BrokenKeyword(lx, lead, index, hi, depth, error)
  {
    hide FirstEnd, RangeBroken, EndOf;
  }

  lemma BrokenRange(lx: Lexed, items: seq<Item>, lo: nat, pending: Option<nat>, index: nat, hi: nat, depth: nat,
                    error: Error)
    requires Valid(lx) && Progress(lx, items, lo, pending, index, hi, depth) && index < hi
    requires StartsItem(lx, Held(pending, index), index) && Broken(lx, index, hi, depth, error)
    ensures RangeBroken(lx, lo, hi, depth, error)
  {
    hide Matched, Closed, Tiled, Spans, StartsItem, Broken;
    assert BrokenAfter(lx, items, lo, Held(pending, index), index, hi, depth);
  }

  // ---- the splitter

  /** Comments seen but not yet given to an item. */
  ghost predicate Waiting(lx: Lexed, pending: Option<nat>, index: nat) {
    match pending
    case None => true
    case Some(p) => p < index <= |lx.tokens| && lx.tokens[p].kind.Comment? && AllKinds(lx, p, index, {Ws, Comment})
  }

  function Held(pending: Option<nat>, index: nat): nat {
    if pending.Some? then pending.value else index
  }

  ghost predicate Progress(lx: Lexed, items: seq<Item>, lo: nat, pending: Option<nat>, index: nat, hi: nat, depth: nat)
    requires Spans(lx)
  {
    && lo <= index <= hi && Closed(lx, lo, index)
    && Waiting(lx, pending, index) && Tiled(lx, items, lo, Held(pending, index), Level(depth, hi))
    && (items != [] ==> !items[|items| - 1].kind.Comments?)
  }

  method Parse(lx: Lexed, lo: nat, hi: nat, depth: nat) returns (r: Result<seq<Item>>)
    requires Valid(lx) && Range(lx, lo, hi)
    ensures r.Ok? ==> Tiled(lx, r.value, lo, hi, Level(depth, hi))
    ensures r.Err? ==> RangeBroken(lx, lo, hi, depth, r.error)
    decreases hi - lo, 2
  {
    hide Matched, Closed, Range, Tiled, ItemOk, Waiting, Progress, StartsItem, Blank, Broken, RangeBroken;
    var items: seq<Item>, index, pending: Option<nat> := [], lo, None;
    ProgressStart(lx, lo, hi, depth);
    while true
      invariant lo <= index <= hi <= |lx.tokens|
      invariant Progress(lx, items, lo, pending, index, hi, depth)
      decreases hi - index
    {
      while index < hi && lx.tokens[index].kind.Ws?
        invariant lo <= index <= hi
        invariant Progress(lx, items, lo, pending, index, hi, depth)
      {
        ProgressWhite(lx, items, lo, pending, index, hi, depth);
        index := index + 1;
      }
      if index >= hi { break; }
      var kind := lx.tokens[index].kind;
      if kind.InnerDoc? {
        var d := DocItem(lx, index, Level(depth, hi));
        DocCloses(lx, d, Level(depth, hi));
        if pending.Some? {
          WaitingIs(lx, items, lo, pending.value, index, hi, depth);
          var c := CommentItem(lx, pending.value, index, Level(depth, hi));
          CommentTiles(lx, items, c, lo, index, hi, depth);
          ProgressDocs(lx, items, c, d, lo, index, hi, depth);
          items, pending := items + [c], None;
        } else {
          ProgressItem(lx, items, d, lo, None, index, hi, depth);
        }
        items, index := items + [d], d.last + 1;
      } else if kind.Comment? {
        ProgressPending(lx, items, lo, pending, index, hi, depth);
        if pending.None? { pending := Some(index); }
        index := index + 1;
      } else {
        var first := if pending.Some? then pending.value else index;
        ProgressLead(lx, items, lo, pending, index, hi, depth);
        var item := ReadItem(lx, first, index, hi, depth);
        if item.Err? {
          BrokenRange(lx, items, lo, pending, index, hi, depth, item.error);
          return Err(item.error);
        }
        ProgressItem(lx, items, item.value, lo, pending, index, hi, depth);
        items, index, pending := items + [item.value], item.value.last + 1, None;
      }
    }
    if pending.Some? {
      WaitingIs(lx, items, lo, pending.value, hi, hi, depth);
      var c := CommentItem(lx, pending.value, hi, Level(depth, hi));
      CommentTiles(lx, items, c, lo, hi, hi, depth);
      return Ok(items + [c]);
    }
    ProgressDone(lx, items, lo, hi, depth);
    r := Ok(items);
  }

  lemma ProgressStart(lx: Lexed, lo: nat, hi: nat, depth: nat)
    requires Valid(lx) && Range(lx, lo, hi)
    ensures lo <= hi <= |lx.tokens| && Progress(lx, [], lo, None, lo, hi, depth)
  {
    hide Matched, Syms;
  }

  lemma ProgressWhite(lx: Lexed, items: seq<Item>, lo: nat, pending: Option<nat>, index: nat, hi: nat, depth: nat)
    requires Valid(lx) && Progress(lx, items, lo, pending, index, hi, depth) && index < hi <= |lx.tokens|
    requires lx.tokens[index].kind.Ws?
    ensures Progress(lx, items, lo, pending, index + 1, hi, depth)
  {
    hide Matched, Closed, Tiled, Spans;
    ClosedPlain(lx, index, index + 1);
    ClosedJoin(lx, lo, index, index + 1);
    if pending.None? { TiledBlank(lx, items, lo, index, index + 1, Level(depth, hi)); }
  }

  lemma ProgressPending(lx: Lexed, items: seq<Item>, lo: nat, pending: Option<nat>, index: nat, hi: nat, depth: nat)
    requires Valid(lx) && Progress(lx, items, lo, pending, index, hi, depth) && index < hi <= |lx.tokens|
    requires lx.tokens[index].kind.Comment?
    ensures Progress(lx, items, lo, if pending.None? then Some(index) else pending, index + 1, hi, depth)
  {
    hide Matched, Closed, Tiled, Spans;
    ClosedPlain(lx, index, index + 1);
    ClosedJoin(lx, lo, index, index + 1);
  }

  lemma ProgressLead(lx: Lexed, items: seq<Item>, lo: nat, pending: Option<nat>, index: nat, hi: nat, depth: nat)
    requires Valid(lx) && Range(lx, lo, hi) && Progress(lx, items, lo, pending, index, hi, depth) && index < hi
    requires lx.tokens[index].kind !in {Ws, Comment, InnerDoc}
    ensures StartsItem(lx, Held(pending, index), index) && Range(lx, index, hi)
  {
    hide Matched, Closed, Tiled, Spans;
    ClosedRest(lx, lo, index, hi);
  }

  lemma ProgressItem(lx: Lexed, items: seq<Item>, it: Item, lo: nat, pending: Option<nat>, index: nat, hi: nat,
                     depth: nat)
    requires Valid(lx) && Progress(lx, items, lo, pending, index, hi, depth)
    requires ItemOk(lx, it, Level(depth, hi)) && it.first == Held(pending, index)
    requires index <= it.last < hi && Closed(lx, index, it.last + 1) && !it.kind.Comments?
    ensures Progress(lx, items + [it], lo, None, it.last + 1, hi, depth)
  {
    hide Matched, Closed, Tiled, ItemOk, Spans;
    ClosedJoin(lx, lo, index, it.last + 1);
    TiledAppend(lx, items, it, lo, Level(depth, hi));
  }

  /** The comments before inner docs or the end of the range. */
  lemma CommentTiles(lx: Lexed, items: seq<Item>, it: Item, lo: nat, index: nat, hi: nat, depth: nat)
    requires Valid(lx) && Progress(lx, items, lo, Some(it.first), index, hi, depth)
    requires ItemOk(lx, it, Level(depth, hi)) && it.last < index && Blank(lx, it.last + 1, index)
    ensures Tiled(lx, items + [it], lo, index, Level(depth, hi))
  {
    hide Matched, Closed, Tiled, ItemOk, Spans, Blank;
    TiledAppend(lx, items, it, lo, Level(depth, hi));
    TiledBlank(lx, items + [it], lo, it.last + 1, index, Level(depth, hi));
  }

  lemma ProgressDocs(lx: Lexed, items: seq<Item>, c: Item, d: Item, lo: nat, index: nat, hi: nat, depth: nat)
    requires Valid(lx) && Progress(lx, items, lo, Some(c.first), index, hi, depth)
    requires Tiled(lx, items + [c], lo, index, Level(depth, hi)) && ItemOk(lx, d, Level(depth, hi))
    requires d.first == index <= d.last < hi && d.kind.InnerDocs? && Closed(lx, index, d.last + 1)
    ensures Progress(lx, items + [c] + [d], lo, None, d.last + 1, hi, depth)
  {
    hide Matched, Closed, Tiled, ItemOk, Spans;
    ClosedJoin(lx, lo, index, d.last + 1);
    TiledAppend(lx, items + [c], d, lo, Level(depth, hi));
  }

  lemma WaitingIs(lx: Lexed, items: seq<Item>, lo: nat, p: nat, index: nat, hi: nat, depth: nat)
    requires Valid(lx) && Progress(lx, items, lo, Some(p), index, hi, depth)
    ensures p < index <= |lx.tokens| && lx.tokens[p].kind.Comment? && AllKinds(lx, p, index, {Ws, Comment})
  {
    hide Matched, Closed, Tiled;
  }

  lemma DocCloses(lx: Lexed, d: Item, lv: Level)
    requires Valid(lx) && ItemOk(lx, d, lv)
    ensures d.first <= d.last && Closed(lx, d.first, d.last + 1)
  {
    hide Matched, Closed, Tiled, StopsAt, DocRun, AllKinds, Body;
  }

  lemma ProgressDone(lx: Lexed, items: seq<Item>, lo: nat, hi: nat, depth: nat)
    requires Valid(lx) && Progress(lx, items, lo, None, hi, hi, depth)
    ensures Tiled(lx, items, lo, hi, Level(depth, hi))
  {
  }

  // ---- what a tiling means

  predicate Holds(it: Item, t: int) {
    it.first <= t <= it.last
  }

  /** One token is in one item and in no other. */
  ghost predicate HeldOnce(items: seq<Item>, t: int) {
    && (exists i :: 0 <= i < |items| && Holds(items[i], t))
    && (forall i, j :: 0 <= i < |items| && 0 <= j < |items| && Holds(items[i], t) && Holds(items[j], t) ==> i == j)
  }

  lemma TiledLast(lx: Lexed, items: seq<Item>, lo: int, pos: int, lv: Level)
    requires Spans(lx) && Tiled(lx, items, lo, pos, lv) && items != []
    ensures var it := items[|items| - 1];
      && Tiled(lx, items[..|items| - 1], lo, it.first, lv)
      && it.first <= it.last < pos && it.last < |lx.tokens| && Blank(lx, it.last + 1, pos)
      && it.start == lx.tokens[it.first].start && it.end == lx.tokens[it.last].end && it.depth == lv.depth
      && Closed(lx, it.first, it.last + 1) && !lx.tokens[it.first].kind.Ws?
  {
    hide Closed, StopsAt, AllKinds;
  }

  /** Items stay in the range, in order and apart, and no item splits a bracket pair. */
  lemma {:induction false} InOrder(lx: Lexed, items: seq<Item>, lo: int, pos: int, lv: Level, i: nat)
    requires Spans(lx) && Tiled(lx, items, lo, pos, lv) && i < |items|
    ensures lo <= items[i].first <= items[i].last < pos && items[i].last < |lx.tokens|
    ensures items[i].start == lx.tokens[items[i].first].start && items[i].end == lx.tokens[items[i].last].end
    ensures items[i].depth == lv.depth && Closed(lx, items[i].first, items[i].last + 1)
    ensures forall j :: i < j < |items| ==> items[i].last < items[j].first && items[i].end <= items[j].start
    decreases |items|
  {
    hide *;
    var init, it := items[..|items| - 1], items[|items| - 1];
    TiledLast(lx, items, lo, pos, lv);
    TiledStart(lx, init, lo, it.first, lv);
    if i < |init| {
      InOrder(lx, init, lo, it.first, lv, i);
      SpanOrder(lx, items[i].last, it.first);
    }
  }

  lemma SpanOrder(lx: Lexed, x: nat, y: nat)
    requires Spans(lx) && x < y < |lx.tokens|
    ensures lx.tokens[x].end <= lx.tokens[y].start
  {
  }

  lemma {:induction false} TiledStart(lx: Lexed, items: seq<Item>, lo: int, pos: int, lv: Level)
    requires Spans(lx) && Tiled(lx, items, lo, pos, lv)
    ensures lo <= pos
    decreases |items|
  {
    hide ItemOk, Blank;
    if items != [] {
      var it := items[|items| - 1];
      TiledStart(lx, items[..|items| - 1], lo, it.first, lv);
      TiledLast(lx, items, lo, pos, lv);
    }
  }

  lemma EmptyBlank(lx: Lexed, lo: int, pos: int, lv: Level)
    requires Spans(lx) && Tiled(lx, [], lo, pos, lv)
    ensures Blank(lx, lo, pos)
  {
  }

  lemma BlankAt(lx: Lexed, lo: int, pos: int, t: nat)
    requires Blank(lx, lo, pos) && lo <= t < pos && t < |lx.tokens|
    ensures lx.tokens[t].kind.Ws?
  {
  }

  /** Every token but white space is in exactly one item. */
  lemma {:induction false} Covers(lx: Lexed, items: seq<Item>, lo: int, pos: int, lv: Level, t: nat)
    requires Spans(lx) && Tiled(lx, items, lo, pos, lv) && lo <= t < pos && t < |lx.tokens| && !lx.tokens[t].kind.Ws?
    ensures HeldOnce(items, t)
    decreases |items|
  {
    hide Spans, Tiled, Blank, Closed;
    if items == [] {
      EmptyBlank(lx, lo, pos, lv);
      BlankAt(lx, lo, pos, t);
    } else {
      var init, it := items[..|items| - 1], items[|items| - 1];
      TiledLast(lx, items, lo, pos, lv);
      if t > it.last {
        BlankAt(lx, it.last + 1, pos, t);
      } else if t >= it.first {
        assert Holds(items[|items| - 1], t);
        forall j | 0 <= j < |init| ensures !Holds(items[j], t) { InOrder(lx, items, lo, pos, lv, j); }
      } else {
        Covers(lx, init, lo, it.first, lv, t);
        var k :| 0 <= k < |init| && Holds(init[k], t);
        assert Holds(items[k], t);
        assert forall j :: 0 <= j < |init| ==> items[j] == init[j];
      }
    }
  }

  lemma BodyBounds(lx: Lexed, it: Item, o: nat)
    requires Body(lx, it, o)
    ensures o in lx.pairs.close && it.first <= o < lx.pairs.close[o] <= it.last < |lx.tokens|
  {
  }

  lemma BodyOf(lx: Lexed, it: Item, lv: Level) returns (o: nat)
    requires Spans(lx) && ItemOk(lx, it, lv) && it.members.Inside?
    ensures Body(lx, it, o)
    ensures Tiled(lx, it.members.items, o + 1, lx.pairs.close[o], Level(it.depth + 1, lx.pairs.close[o]))
  {
    hide Bounds, Tiled;
    o :|
      && Body(lx, it, o)
      && Tiled(lx, it.members.items, o + 1, lx.pairs.close[o], Level(it.depth + 1, lx.pairs.close[o]));
  }

  /** Members lie strictly between their container's braces, one level deeper, and cover what is there. */
  lemma MembersInside(lx: Lexed, it: Item, lv: Level) returns (o: nat)
    requires Spans(lx) && ItemOk(lx, it, lv) && it.members.Inside?
    ensures Body(lx, it, o)
    ensures forall m :: m in it.members.items ==>
      it.first <= o < m.first <= m.last < lx.pairs.close[o] <= it.last && m.depth == it.depth + 1
    ensures forall t: nat :: o < t < lx.pairs.close[o] && !lx.tokens[t].kind.Ws? ==> HeldOnce(it.members.items, t)
  {
    hide *;
    o := BodyOf(lx, it, lv);
    BodyBounds(lx, it, o);
    var ms, hi := it.members.items, lx.pairs.close[o];
    forall m | m in ms ensures o < m.first <= m.last < hi && m.depth == it.depth + 1 {
      var i :| 0 <= i < |ms| && ms[i] == m;
      InOrder(lx, ms, o + 1, hi, Level(it.depth + 1, hi), i);
    }
    forall t: nat | o < t < hi && !lx.tokens[t].kind.Ws? ensures HeldOnce(ms, t) {
      Covers(lx, ms, o + 1, hi, Level(it.depth + 1, hi), t);
    }
  }

  /** The three ways a file fails: a position without a token, brackets outside the grammar, or an item that
      cannot be read. */
  ghost predicate Unlexable(tables: CharTables, text: string, classify: Classify, error: Error) {
    || (exists tokens, pos: nat ::
          Tokens(tables, text, tokens, 0, pos) && pos < |text| && TokenAt(tables, text, pos) == Err(error))
    || (exists tokens :: Tokens(tables, text, tokens, 0, |text|) && !Balanced(Syms(text, tokens)))
    || (exists lx: Lexed ::
          && lx.text == text && lx.classify == classify && Tokens(tables, text, lx.tokens, 0, |text|) && Valid(lx)
          && RangeBroken(lx, 0, |lx.tokens|, 0, error))
  }

  /** One file: tokens, bracket pairs, items. */
  method LexFile(tables: CharTables, text: string, classify: Classify) returns (r: Result<(Lexed, seq<Item>)>)
    ensures r.Ok? ==> var (lx, items) := r.value;
      && lx.text == text && lx.classify == classify && Tokens(tables, text, lx.tokens, 0, |text|) && Valid(lx)
      && Tiled(lx, items, 0, |lx.tokens|, Level(0, |lx.tokens|))
      && forall t :: t in lx.tokens ==> Reads(tables, text, t)
    ensures forall tokens :: Tokens(tables, text, tokens, 0, |text|) && !Balanced(Syms(text, tokens)) ==> r.Err?
    ensures r.Err? ==> Unlexable(tables, text, classify, r.error)
  {
    hide Matched, Balanced, Tiled, TokenAt, RangeBroken, Reads, Unreadable;
    var tokens := Tokenize(tables, text);
    if tokens.Err? { return Err(tokens.error); }
    EndsGrow(tables, text, tokens.value, |text|);
    ghost var all := tokens.value;
    forall other | Tokens(tables, text, other, 0, |text|) ensures other == all { SameTokens(tables, text, all, other); }
    var pairs := MatchBrackets(Syms(text, tokens.value));
    if pairs.Err? { return Err(pairs.error); }
    var lx := Lexed(text, tokens.value, pairs.value, classify);
    WholeRange(lx);
    var items := Parse(lx, 0, |lx.tokens|, 0);
    if items.Err? { return Err(items.error); }
    r := Ok((lx, items.value));
  }

  lemma SameTokens(tables: CharTables, text: string, xs: seq<Token>, ys: seq<Token>)
    requires Tokens(tables, text, xs, 0, |text|) && Tokens(tables, text, ys, 0, |text|)
    ensures xs == ys
  {
    hide TokenAt;
    forall k | 0 <= k < |xs| && k < |ys| ensures xs[k] == ys[k] {
      TokensUnique(tables, text, xs, |text|, ys, |text|, k);
    }
    EqualLength(tables, text, xs, ys);
    EqualLength(tables, text, ys, xs);
  }

  /** No token list over the whole text is a proper prefix of another. */
  lemma EqualLength(tables: CharTables, text: string, xs: seq<Token>, ys: seq<Token>)
    requires Tokens(tables, text, xs, 0, |text|) && Tokens(tables, text, ys, 0, |text|)
    requires forall k :: 0 <= k < |xs| && k < |ys| ==> xs[k] == ys[k]
    ensures |xs| >= |ys|
  {
    hide TokenAt;
    assert xs != [] ==> xs[|xs| - 1].end == |text|;
    EndsGrow(tables, text, ys, |text|);
    forall k | 0 <= k < |ys| - 1 ensures ys[k].end < |text| { assert ys[k].end <= ys[|ys| - 1].start; }
  }

  lemma WholeRange(lx: Lexed)
    requires Valid(lx)
    ensures Range(lx, 0, |lx.tokens|)
  {
    hide Laminar;
    assert |Syms(lx.text, lx.tokens)| == |lx.tokens|;
  }
}
