/** Splitting Rust source text into tokens without losing a character. */
module RustTokens {
  import opened Prelude
  import opened RustPattern
  import opened RustGrammar

  // ---- nested comments

  method FindEdge(text: string, from: nat) returns (found: Option<nat>)
    requires from <= |text|
    ensures found.None? ==> forall i :: from <= i < |text| ==> !EdgeAt(text, i)
    ensures found.Some? ==> from <= found.value && EdgeAt(text, found.value)
    ensures found.Some? ==> forall i :: from <= i < found.value ==> !EdgeAt(text, i)
  {
    for i := from to |text|
      invariant forall j :: from <= j < i ==> !EdgeAt(text, j)
    {
      if EdgeAt(text, i) { return Some(i); }
    }
    found := None;
  }

  lemma {:induction false} NoEdge(text: string, from: nat, until: nat, depth: nat)
    requires from <= until <= |text| && depth > 0 && forall i :: from <= i < until ==> !EdgeAt(text, i)
    ensures BlockEnd(text, from, depth) == BlockEnd(text, until, depth)
    decreases until - from
  {
    if from < until {
      assert !EdgeAt(text, from);
      NoEdge(text, from + 1, until, depth);
    }
  }

  /** The search for comment edges finds the end that reading character by character finds. */
  method CloseBlock(text: string, from: nat) returns (end: Option<nat>)
    requires from <= |text|
    ensures end == BlockEnd(text, from, 1)
  {
    var depth, cursor := 1, from;
    while depth > 0
      invariant 0 <= depth && from <= cursor <= |text|
      invariant BlockEnd(text, cursor, depth) == BlockEnd(text, from, 1)
      decreases |text| - cursor, depth
    {
      var found := FindEdge(text, cursor);
      if found.None? {
        NoEdge(text, cursor, |text|, depth);
        return None;
      }
      NoEdge(text, cursor, found.value, depth);
      depth := depth + if StartsAt(text, found.value, "/*") then 1 else -1;
      cursor := found.value + 2;
    }
    end := Some(cursor);
  }

  // ---- all tokens

  /** Tokens lie end to end from one position to another, and each is the token at its start. */
  predicate Tokens(tables: CharTables, text: string, tokens: seq<Token>, from: nat, to: nat) {
    && from <= to <= |text|
    && (tokens == [] ==> from == to)
    && (tokens != [] ==> tokens[0].start == from && tokens[|tokens| - 1].end == to)
    && (forall i :: 0 <= i < |tokens| - 1 ==> tokens[i].end == tokens[i + 1].start)
    && (forall i :: 0 <= i < |tokens| ==> tokens[i].start < tokens[i].end <= to)
    && (forall i :: 0 <= i < |tokens| ==> TokenAt(tables, text, tokens[i].start) == Ok(tokens[i]))
  }

  /** One turn of the tokenizer's loop. */
  method ReadToken(tables: CharTables, text: string, pos: nat) returns (r: Result<Token>)
    requires pos < |text|
    ensures r == TokenAt(tables, text, pos)
    ensures r.Ok? ==> r.value.start == pos && Reads(tables, text, r.value)
    ensures r.Err? ==> Unreadable(tables, text, pos, r.error)
  {
    hide MatchAt, BlockKind, LineKind, Reads, Unreadable;
    TokenMeans(tables, text, pos);
    match MatchAt(tables, text, pos) {
      case Plain(kind, end) =>
        r := Ok(Token(kind, pos, end));
      case LineComment(end) =>
        r := Ok(Token(LineKind(text[pos..end]), pos, end));
      case BlockOpen(end) =>
        var close := CloseBlock(text, end);
        if close.None? { return Err(UnterminatedComment(pos)); }
        r := Ok(Token(BlockKind(text[pos..close.value]), pos, close.value));
      case RawString(hashes, end) =>
        var close := Find(text, "\"" + Hashes(hashes), end);
        if close.None? { return Err(UnterminatedRaw(pos)); }
        r := Ok(Token(Str, pos, close.value + 1 + hashes));
      case BadString =>
        r := Err(UnterminatedString(pos));
    }
  }

  method Tokenize(tables: CharTables, text: string) returns (r: Result<seq<Token>>)
    ensures r.Ok? ==> Tokens(tables, text, r.value, 0, |text|)
    ensures r.Ok? ==> forall t :: t in r.value ==> Reads(tables, text, t)
    ensures r.Err? ==>
      exists tokens, pos: nat ::
        && Tokens(tables, text, tokens, 0, pos) && pos < |text| && TokenAt(tables, text, pos) == Err(r.error)
        && Unreadable(tables, text, pos, r.error)
  {
    hide TokenAt, Reads, Unreadable;
    var tokens: seq<Token> := [];
    var pos := 0;
    while pos < |text|
      invariant Tokens(tables, text, tokens, 0, pos)
      invariant forall t :: t in tokens ==> Reads(tables, text, t)
      decreases |text| - pos
    {
      var token := ReadToken(tables, text, pos);
      if token.Err? { return Err(token.error); }
      tokens := tokens + [token.value];
      pos := token.value.end;
    }
    r := Ok(tokens);
  }

  /** The texts of the tokens, joined. */
  function Joined(text: string, tokens: seq<Token>): string
    requires forall i :: 0 <= i < |tokens| ==> tokens[i].start <= tokens[i].end <= |text|
  {
    if tokens == [] then []
    else
      var last := tokens[|tokens| - 1];
      Joined(text, tokens[..|tokens| - 1]) + text[last.start..last.end]
  }

  lemma {:induction false} EndsGrow(tables: CharTables, text: string, tokens: seq<Token>, to: nat)
    requires Tokens(tables, text, tokens, 0, to)
    ensures forall i, j :: 0 <= i < j < |tokens| ==> tokens[i].end <= tokens[j].start
  {
    hide TokenAt;
    forall i, j | 0 <= i < j < |tokens| ensures tokens[i].end <= tokens[j].start {
      EndBefore(tables, text, tokens, to, i, j);
    }
  }

  lemma {:induction false} EndBefore(tables: CharTables, text: string, tokens: seq<Token>, to: nat, i: nat, j: nat)
    requires Tokens(tables, text, tokens, 0, to) && i < j < |tokens|
    ensures tokens[i].end <= tokens[j].start
    decreases j
  {
    hide TokenAt;
    assert tokens[j - 1].end == tokens[j].start;
    if i < j - 1 { EndBefore(tables, text, tokens, to, i, j - 1); }
  }

  /** Nothing is lost: the tokens' texts join to the source text. */
  lemma {:induction false} Lossless(tables: CharTables, text: string, tokens: seq<Token>, to: nat)
    requires Tokens(tables, text, tokens, 0, to)
    ensures Joined(text, tokens) == text[..to]
    decreases |tokens|
  {
    hide TokenAt;
    if tokens != [] {
      var init, last := tokens[..|tokens| - 1], tokens[|tokens| - 1];
      assert forall i :: 0 <= i < |init| ==> init[i].end <= last.start by { EndsGrow(tables, text, tokens, to); }
      assert init != [] ==> init[|init| - 1].end == last.start;
      Lossless(tables, text, init, last.start);
      assert text[..to] == text[..last.start] + text[last.start..to];
    }
  }

  /** A text has one tokenization: two token lists from the same start agree as far as the shorter goes. */
  lemma {:induction false} TokensUnique(tables: CharTables, text: string, xs: seq<Token>, x: nat, ys: seq<Token>,
                                        y: nat, k: nat)
    requires Tokens(tables, text, xs, 0, x) && Tokens(tables, text, ys, 0, y) && k < |xs| && k < |ys|
    ensures xs[k] == ys[k]
    decreases k
  {
    hide TokenAt;
    if k > 0 {
      TokensUnique(tables, text, xs, x, ys, y, k - 1);
      assert xs[k - 1].end == xs[k].start && ys[k - 1].end == ys[k].start;
    }
  }

  /** So a text cannot both tokenize and fail. */
  lemma {:induction false} FailureIsExact(tables: CharTables, text: string, xs: seq<Token>, ys: seq<Token>, pos: nat)
    requires Tokens(tables, text, xs, 0, |text|)
    requires Tokens(tables, text, ys, 0, pos) && pos < |text|
    ensures TokenAt(tables, text, pos).Ok?
  {
    hide TokenAt;
    if |ys| >= |xs| {
      if xs != [] {
        TokensUnique(tables, text, xs, |text|, ys, pos, |xs| - 1);
      }
    } else {
      if ys != [] {
        TokensUnique(tables, text, xs, |text|, ys, pos, |ys| - 1);
        assert xs[|ys| - 1].end == xs[|ys|].start;
      }
      assert xs[|ys|].start == pos;
    }
  }
}
