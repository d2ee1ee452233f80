/** Matching brackets with a stack, against the grammar of nested groups. */
module RustBrackets {
  import opened Prelude
  import opened RustPattern
  import opened RustTokens

  datatype Bracket = Round | Square | Curly

  /** What bracket matching sees of a token. */
  datatype Sym = Opens(b: Bracket) | Closes(b: Bracket) | Other

  function SymOf(text: string, t: Token): Sym
    requires t.start < |text|
  {
    if !t.kind.Punct? then Other
    else match text[t.start]
      case '(' => Opens(Round)
      case '[' => Opens(Square)
      case '{' => Opens(Curly)
      case ')' => Closes(Round)
      case ']' => Closes(Square)
      case '}' => Closes(Curly)
      case _ => Other
  }

  function Syms(text: string, tokens: seq<Token>): (ss: seq<Sym>)
    requires forall i :: 0 <= i < |tokens| ==> tokens[i].start < |text|
    ensures |ss| == |tokens| && forall i :: 0 <= i < |ss| ==> ss[i] == SymOf(text, tokens[i])
  {
    seq(|tokens|, i requires 0 <= i < |tokens| => SymOf(text, tokens[i]))
  }

  // ---- the grammar: a text is a sequence of plain tokens and bracketed texts

  datatype Nest = Leaf | Skip(after: Nest) | Group(b: Bracket, inner: Nest, next: Nest)

  function Flat(n: Nest): seq<Sym> {
    match n
    case Leaf => []
    case Skip(after) => [Other] + Flat(after)
    case Group(b, inner, next) => [Opens(b)] + Flat(inner) + [Closes(b)] + Flat(next)
  }

  ghost predicate Balanced(ss: seq<Sym>) {
    exists n :: Flat(n) == ss
  }

  // ---- the stack of open brackets after a prefix, or none once a bracket closes what was not opened

  function StackAfter(ss: seq<Sym>, stack: seq<Bracket>): Option<seq<Bracket>> {
    if ss == [] then Some(stack)
    else match ss[0]
      case Other => StackAfter(ss[1..], stack)
      case Opens(b) => StackAfter(ss[1..], stack + [b])
      case Closes(b) =>
        if stack != [] && stack[|stack| - 1] == b then StackAfter(ss[1..], stack[..|stack| - 1]) else None
  }

  lemma {:induction false} StackConcat(xs: seq<Sym>, ys: seq<Sym>, stack: seq<Bracket>)
    ensures StackAfter(xs + ys, stack) ==
      match StackAfter(xs, stack) case None => None case Some(s) => StackAfter(ys, s)
    decreases xs
  {
    if xs == [] {
      assert xs + ys == ys;
    } else {
      assert (xs + ys)[1..] == xs[1..] + ys;
      match xs[0]
      case Other => StackConcat(xs[1..], ys, stack);
      case Opens(b) => StackConcat(xs[1..], ys, stack + [b]);
      case Closes(b) => if stack != [] { StackConcat(xs[1..], ys, stack[..|stack| - 1]); }
    }
  }

  lemma {:induction false} FlatKeepsStack(n: Nest, stack: seq<Bracket>)
    ensures StackAfter(Flat(n), stack) == Some(stack)
    decreases n
  {
    match n
    case Leaf =>
    case Skip(after) =>
      FlatKeepsStack(after, stack);
    case Group(b, inner, next) =>
      var x, y, z, w := [Opens(b)], Flat(inner), [Closes(b)], Flat(next);
      FlatKeepsStack(inner, stack + [b]);
      FlatKeepsStack(next, stack);
      OneSym(b, stack);
      StackConcat(x + y + z, w, stack);
      StackConcat(x + y, z, stack);
      StackConcat(x, y, stack);
  }

  lemma OneSym(b: Bracket, stack: seq<Bracket>)
    ensures StackAfter([Opens(b)], stack) == Some(stack + [b])
    ensures StackAfter([Closes(b)], stack + [b]) == Some(stack)
  {
    assert [Opens(b)][1..] == [] && [Closes(b)][1..] == [];
    assert (stack + [b])[..|stack|] == stack;
    assert StackAfter([], stack + [b]) == Some(stack + [b]) && StackAfter([], stack) == Some(stack);
  }

  /** Texts separated by the brackets that close the stack, innermost first. */
  function Joins(ns: seq<Nest>, stack: seq<Bracket>): seq<Sym>
    requires |ns| == |stack| + 1
  {
    Flat(ns[0]) + AfterFirst(ns[1..], stack)
  }

  function AfterFirst(ns: seq<Nest>, stack: seq<Bracket>): seq<Sym>
    requires |ns| == |stack|
    decreases |stack|
  {
    if stack == [] then []
    else [Closes(stack[|stack| - 1])] + (Flat(ns[0]) + AfterFirst(ns[1..], stack[..|stack| - 1]))
  }

  /** A text that empties the stack splits at the brackets that close it. */
  lemma {:induction false} Split(ss: seq<Sym>, stack: seq<Bracket>) returns (ns: seq<Nest>)
    requires StackAfter(ss, stack) == Some([])
    ensures |ns| == |stack| + 1 && Joins(ns, stack) == ss
    decreases ss
  {
    if ss == [] {
      ns := [Leaf];
    } else {
      match ss[0]
      case Other =>
        var ms := Split(ss[1..], stack);
        ns := [Skip(ms[0])] + ms[1..];
        SplitSkip(ms, stack, ss);
      case Opens(b) =>
        var ms := Split(ss[1..], stack + [b]);
        ns := [Group(b, ms[0], ms[1])] + ms[2..];
        SplitGroup(ms, stack, b, ss);
      case Closes(b) =>
        var ms := Split(ss[1..], stack[..|stack| - 1]);
        ns := [Leaf] + ms;
        assert ns[1..] == ms;
        assert ss == [ss[0]] + ss[1..];
    }
  }

  lemma SplitSkip(ms: seq<Nest>, stack: seq<Bracket>, ss: seq<Sym>)
    requires |ms| == |stack| + 1 && ss != [] && ss[0] == Other && Joins(ms, stack) == ss[1..]
    ensures Joins([Skip(ms[0])] + ms[1..], stack) == ss
  {
    hide AfterFirst;
    var ns := [Skip(ms[0])] + ms[1..];
    assert ns[1..] == ms[1..];
    assert Flat(ns[0]) == [Other] + Flat(ms[0]);
    assert ss == [ss[0]] + ss[1..];
  }

  lemma SplitGroup(ms: seq<Nest>, stack: seq<Bracket>, b: Bracket, ss: seq<Sym>)
    requires |ms| == |stack| + 2 && ss != [] && ss[0] == Opens(b) && Joins(ms, stack + [b]) == ss[1..]
    ensures Joins([Group(b, ms[0], ms[1])] + ms[2..], stack) == ss
  {
    var ns := [Group(b, ms[0], ms[1])] + ms[2..];
    GroupSyms(b, ms[0], ms[1]);
    hide Flat;
    assert ns[1..] == ms[2..] && ns[0] == Group(b, ms[0], ms[1]);
    var x, y, rest := Flat(ms[0]), Flat(ms[1]), AfterFirst(ms[2..], stack);
    CloseFirst(ms[1..], stack, b);
    assert ms[1..][1..] == ms[2..];
    assert Joins(ns, stack) == Flat(ns[0]) + rest;
    assert ss[1..] == x + ([Closes(b)] + (y + rest));
    hide AfterFirst, Joins;
    Regroup([Opens(b)], x, [Closes(b)], y, rest);
    assert ss == [ss[0]] + ss[1..];
  }

  lemma Regroup(a: seq<Sym>, x: seq<Sym>, c: seq<Sym>, y: seq<Sym>, rest: seq<Sym>)
    ensures a + x + c + y + rest == a + (x + (c + (y + rest)))
  {
  }

  lemma GroupSyms(b: Bracket, inner: Nest, next: Nest)
    ensures Flat(Group(b, inner, next)) == [Opens(b)] + Flat(inner) + [Closes(b)] + Flat(next)
  {
  }

  lemma CloseFirst(ns: seq<Nest>, stack: seq<Bracket>, b: Bracket)
    requires |ns| == |stack| + 1
    ensures AfterFirst(ns, stack + [b]) == [Closes(b)] + (Flat(ns[0]) + AfterFirst(ns[1..], stack))
  {
    var full := stack + [b];
    assert full[..|full| - 1] == stack && full[|full| - 1] == b;
  }

  /** The stack scan succeeds exactly on the texts of the grammar. */
  lemma ScanIsGrammar(ss: seq<Sym>)
    ensures StackAfter(ss, []) == Some([]) <==> Balanced(ss)
  {
    if StackAfter(ss, []) == Some([]) {
      var ns := Split(ss, []);
      assert Flat(ns[0]) == ss;
    }
    if Balanced(ss) {
      var n :| Flat(n) == ss;
      FlatKeepsStack(n, []);
    }
  }

  // ---- the tables the scan fills

  datatype Pairs = Pairs(close: map<nat, nat>, open: map<nat, nat>)

  ghost predicate Opening(ss: seq<Sym>, i: int) {
    0 <= i < |ss| && ss[i].Opens?
  }

  ghost predicate Closing(ss: seq<Sym>, i: int) {
    0 <= i < |ss| && ss[i].Closes?
  }

  /** Both tables describe the same pairs, each an opening bracket before a closing bracket of its kind. */
  ghost predicate Inverse(ss: seq<Sym>, p: Pairs) {
    && (forall o :: o in p.close ==> Opening(ss, o) && o < p.close[o] < |ss| && ss[p.close[o]] == Closes(ss[o].b))
    && (forall o :: o in p.close ==> p.close[o] in p.open && p.open[p.close[o]] == o)
    && (forall c :: c in p.open ==> p.open[c] in p.close && p.close[p.open[c]] == c)
  }

  /** Any two pairs are nested or disjoint. */
  ghost predicate Laminar(p: Pairs) {
    forall o, q :: o in p.close && q in p.close && o < q ==> p.close[o] < q || p.close[q] < p.close[o]
  }

  /** Every bracket is in exactly one pair. */
  ghost predicate Complete(ss: seq<Sym>, p: Pairs) {
    && (forall i :: Opening(ss, i) <==> i in p.close)
    && (forall i :: Closing(ss, i) <==> i in p.open)
  }

  ghost predicate Matched(ss: seq<Sym>, p: Pairs) {
    Inverse(ss, p) && Laminar(p) && Complete(ss, p)
  }

  /** A bracket character that is a token of its own. */
  predicate BracketIn(text: string, t: Token, marks: string) {
    t.kind.Punct? && t.start < |text| && text[t.start] in marks
  }

  /** In the text: every opening bracket is paired with a later closing bracket of its own shape, and every closing
      bracket with an opening one. */
  lemma PairsInText(text: string, tokens: seq<Token>, p: Pairs, i: nat)
    requires (forall k :: 0 <= k < |tokens| ==> tokens[k].start < |text|) && Matched(Syms(text, tokens), p)
    requires i < |tokens|
    ensures BracketIn(text, tokens[i], "([{") <==> i in p.close
    ensures BracketIn(text, tokens[i], ")]}") <==> i in p.open
    ensures i in p.close ==>
      && i < p.close[i] < |tokens| && tokens[p.close[i]].kind.Punct?
      && [text[tokens[i].start], text[tokens[p.close[i]].start]] in {"()", "[]", "{}"}
  {
    hide Laminar;
    var ss := Syms(text, tokens);
    SymMarks(text, tokens[i]);
    assert Opening(ss, i) <==> i in p.close;
    assert Closing(ss, i) <==> i in p.open;
    if i in p.close {
      var c := p.close[i];
      assert ss[i] == SymOf(text, tokens[i]) && ss[c] == SymOf(text, tokens[c]);
      SymMarks(text, tokens[c]);
    }
  }

  lemma SymMarks(text: string, t: Token)
    requires t.start < |text|
    ensures SymOf(text, t).Opens? <==> BracketIn(text, t, "([{")
    ensures SymOf(text, t).Closes? <==> BracketIn(text, t, ")]}")
    ensures SymOf(text, t) == Opens(Round) ==> text[t.start] == '('
    ensures SymOf(text, t) == Opens(Square) ==> text[t.start] == '['
    ensures SymOf(text, t) == Opens(Curly) ==> text[t.start] == '{'
    ensures SymOf(text, t) == Closes(Round) ==> text[t.start] == ')'
    ensures SymOf(text, t) == Closes(Square) ==> text[t.start] == ']'
    ensures SymOf(text, t) == Closes(Curly) ==> text[t.start] == '}'
  {
    assert forall c: char :: c in "([{" <==> c == '(' || c == '[' || c == '{';
    assert forall c: char :: c in ")]}" <==> c == ')' || c == ']' || c == '}';
  }

  /** The brackets still open are on the stack in order, and no finished pair encloses one. */
  ghost predicate StackOk(ss: seq<Sym>, p: Pairs, stack: seq<nat>, done: nat) {
    && (forall k :: 0 <= k < |stack| ==> stack[k] < done && Opening(ss, stack[k]) && stack[k] !in p.close)
    && (forall j, k :: 0 <= j < k < |stack| ==> stack[j] < stack[k])
    && (forall o, k :: o in p.close && 0 <= k < |stack| ==> p.close[o] < stack[k] || stack[k] < o)
    && (forall o :: o in p.close ==> p.close[o] < done)
    && (forall i :: i in p.close || i in stack <==> Opening(ss, i) && i < done)
    && (forall i :: i in p.open <==> Closing(ss, i) && i < done)
  }

  ghost function Kinds(ss: seq<Sym>, stack: seq<nat>): (r: seq<Bracket>)
    requires forall k :: 0 <= k < |stack| ==> Opening(ss, stack[k])
    ensures |r| == |stack|
  {
    seq(|stack|, k requires 0 <= k < |stack| && Opening(ss, stack[k]) => ss[stack[k]].b)
  }

  function Paired(p: Pairs, o: nat, c: nat): Pairs {
    Pairs(p.close[o := c], p.open[c := o])
  }

  ghost predicate Popping(ss: seq<Sym>, p: Pairs, stack: seq<nat>, c: nat) {
    && Inverse(ss, p) && Laminar(p) && StackOk(ss, p, stack, c)
    && stack != [] && Closing(ss, c) && ss[stack[|stack| - 1]] == Opens(ss[c].b)
  }

  lemma PopInverse(ss: seq<Sym>, p: Pairs, stack: seq<nat>, c: nat)
    requires Popping(ss, p, stack, c)
    ensures Inverse(ss, Paired(p, stack[|stack| - 1], c))
  {
    hide Laminar;
    var o := stack[|stack| - 1];
    assert o !in p.close && c !in p.open;
  }

  lemma PopLaminar(ss: seq<Sym>, p: Pairs, stack: seq<nat>, c: nat)
    requires Popping(ss, p, stack, c)
    ensures Laminar(Paired(p, stack[|stack| - 1], c))
  {
    hide Inverse;
    var o := stack[|stack| - 1];
    var q := Paired(p, o, c);
    forall x, y | x in q.close && y in q.close && x < y ensures q.close[x] < y || q.close[y] < q.close[x] {
      assert x != o ==> x in p.close && (p.close[x] < o || o < x);
    }
  }

  lemma PopOrder(ss: seq<Sym>, p: Pairs, stack: seq<nat>, c: nat)
    requires Popping(ss, p, stack, c)
    ensures var q, rest := Paired(p, stack[|stack| - 1], c), stack[..|stack| - 1];
      && (forall k :: 0 <= k < |rest| ==> rest[k] < c + 1 && Opening(ss, rest[k]) && rest[k] !in q.close)
      && (forall j, k :: 0 <= j < k < |rest| ==> rest[j] < rest[k])
      && (forall o, k :: o in q.close && 0 <= k < |rest| ==> q.close[o] < rest[k] || rest[k] < o)
  {
    hide Inverse, Laminar;
  }

  lemma PopPlaces(ss: seq<Sym>, p: Pairs, stack: seq<nat>, c: nat)
    requires Popping(ss, p, stack, c)
    ensures var q, rest := Paired(p, stack[|stack| - 1], c), stack[..|stack| - 1];
      && (forall o :: o in q.close ==> q.close[o] < c + 1)
      && (forall i :: i in q.close || i in rest <==> Opening(ss, i) && i < c + 1)
      && (forall i :: i in q.open <==> Closing(ss, i) && i < c + 1)
  {
    hide Inverse, Laminar;
    var o, rest := stack[|stack| - 1], stack[..|stack| - 1];
    assert stack == rest + [o];
    assert forall i :: i in stack <==> i in rest || i == o;
    assert !Opening(ss, c) && o in stack;
  }

  lemma PopKeeps(ss: seq<Sym>, p: Pairs, stack: seq<nat>, c: nat)
    requires Popping(ss, p, stack, c)
    ensures var q := Paired(p, stack[|stack| - 1], c);
      Inverse(ss, q) && Laminar(q) && StackOk(ss, q, stack[..|stack| - 1], c + 1)
  {
    hide Popping, Inverse, Laminar, Opening, Closing, Paired;
    PopInverse(ss, p, stack, c);
    PopLaminar(ss, p, stack, c);
    PopOrder(ss, p, stack, c);
    PopPlaces(ss, p, stack, c);
  }

  lemma PushKeeps(ss: seq<Sym>, p: Pairs, stack: seq<nat>, o: nat)
    requires StackOk(ss, p, stack, o) && Opening(ss, o)
    ensures StackOk(ss, p, stack + [o], o + 1)
  {
  }

  lemma SkipKeeps(ss: seq<Sym>, p: Pairs, stack: seq<nat>, i: nat)
    requires StackOk(ss, p, stack, i) && !Opening(ss, i) && !Closing(ss, i)
    ensures StackOk(ss, p, stack, i + 1)
  {
  }

  /** The scan: an unbalanced or unclosed bracket is an error exactly when the text is not in the grammar. */
  method MatchBrackets(ss: seq<Sym>) returns (r: Result<Pairs>)
    ensures r.Ok? <==> Balanced(ss)
    ensures r.Ok? ==> Matched(ss, r.value)
  {
    hide Balanced, Inverse, Laminar, StackOk, Complete;
    ScanIsGrammar(ss);
    var pairs := Pairs(map[], map[]);
    var stack: seq<nat> := [];
    EmptyStart(ss);
    for index := 0 to |ss|
      invariant Inverse(ss, pairs) && Laminar(pairs) && StackOk(ss, pairs, stack, index)
      invariant forall k :: 0 <= k < |stack| ==> Opening(ss, stack[k])
      invariant StackAfter(ss, []) == StackAfter(ss[index..], Kinds(ss, stack))
    {
      assert ss[index..][1..] == ss[index + 1..];
      ghost var kinds := Kinds(ss, stack);
      match ss[index] {
        case Other =>
          SkipKeeps(ss, pairs, stack, index);
        case Opens(b) =>
          PushKeeps(ss, pairs, stack, index);
          stack := stack + [index];
          assert Kinds(ss, stack) == kinds + [b];
        case Closes(b) =>
          if stack == [] || ss[stack[|stack| - 1]] != Opens(b) { return Err(Unbalanced(index)); }
          PopKeeps(ss, pairs, stack, index);
          var top := stack[|stack| - 1];
          stack := stack[..|stack| - 1];
          pairs := Pairs(pairs.close[top := index], pairs.open[index := top]);
          assert Kinds(ss, stack) == kinds[..|kinds| - 1];
      }
    }
    assert ss[|ss|..] == [];
    if stack != [] {
      assert |Kinds(ss, stack)| > 0;
      return Err(Unclosed(stack[|stack| - 1]));
    }
    assert Kinds(ss, stack) == [];
    AllPaired(ss, pairs);
    r := Ok(pairs);
  }

  lemma EmptyStart(ss: seq<Sym>)
    ensures var p := Pairs(map[], map[]); Inverse(ss, p) && Laminar(p) && StackOk(ss, p, [], 0)
    ensures ss[0..] == ss && Kinds(ss, []) == []
  {
  }

  lemma AllPaired(ss: seq<Sym>, p: Pairs)
    requires StackOk(ss, p, [], |ss|)
    ensures Complete(ss, p)
  {
  }

  /** There is only one way to pair all brackets without crossing pairs. */
  lemma {:induction false} SameClose(ss: seq<Sym>, p: Pairs, q: Pairs, o: nat)
    requires Matched(ss, p) && Matched(ss, q) && o in p.close
    ensures o in q.close && p.close[o] >= q.close[o]
    decreases if o in p.close then p.close[o] else 0
  {
    hide Inverse, Laminar, Opening;
    BothOpen(ss, p, q, o);
    if p.close[o] < q.close[o] {
      var i := Earlier(ss, p, q, o);
      BothOpen(ss, p, q, i);
      SameClose(ss, p, q, i);
    }
  }

  lemma BothOpen(ss: seq<Sym>, p: Pairs, q: Pairs, o: nat)
    requires Complete(ss, p) && Complete(ss, q)
    ensures o in p.close <==> o in q.close
  {
    assert Opening(ss, o) <==> o in p.close;
  }

  /** If one pairing closes a bracket sooner than another, it does so again further in. */
  lemma Earlier(ss: seq<Sym>, p: Pairs, q: Pairs, o: nat) returns (i: nat)
    requires Matched(ss, p) && Matched(ss, q) && Complete(ss, p) && Laminar(p) && Laminar(q)
    requires o in p.close && o in q.close && p.close[o] < q.close[o]
    ensures i in p.close && i in q.close && p.close[i] < q.close[i] && p.close[i] < p.close[o]
  {
    hide *;
    var c := p.close[o];
    OwnPair(ss, p, o);
    i := OpenerOf(ss, q, c);
    BothOpen(ss, p, q, i);
    if i < o { NoCrossing(q, i, o); }
    NoCrossing(p, o, i);
  }

  lemma OwnPair(ss: seq<Sym>, p: Pairs, o: nat)
    requires Matched(ss, p) && o in p.close
    ensures o < p.close[o] && Closing(ss, p.close[o])
  {
    hide Laminar, Complete;
  }

  lemma OpenerOf(ss: seq<Sym>, p: Pairs, c: nat) returns (i: nat)
    requires Matched(ss, p) && Closing(ss, c)
    ensures i in p.close && p.close[i] == c && i < c && Complete(ss, p)
  {
    hide Laminar;
    i := p.open[c];
  }

  lemma NoCrossing(p: Pairs, o: nat, q: nat)
    requires Laminar(p) && o in p.close && q in p.close && o < q
    ensures p.close[o] < q || p.close[q] < p.close[o]
  {
  }

  lemma MatchingUnique(ss: seq<Sym>, p: Pairs, q: Pairs)
    requires Matched(ss, p) && Matched(ss, q)
    ensures p == q
  {
    hide Laminar;
    forall o | o in p.close || o in q.close ensures o in p.close && o in q.close && p.close[o] == q.close[o] {
      assert Opening(ss, o);
      SameClose(ss, p, q, o);
      SameClose(ss, q, p, o);
    }
    assert p.close == q.close;
    forall c | c in p.open || c in q.open ensures c in p.open && c in q.open && p.open[c] == q.open[c] {
      assert Closing(ss, c);
    }
    assert p.open == q.open;
  }
}
