/** The token pattern of the Rust splitter as a grammar: which stretches of text each alternative matches. */
module RustGrammar {
  import opened Prelude
  import opened RustPattern

  // ---- what each alternative matches

  /** One character of a string literal, or a backslash with the character it escapes. */
  datatype StringPart = Bare(c: char) | Escaped(c: char)

  function Spell(parts: seq<StringPart>): string {
    if parts == [] then ""
    else (if parts[0].Bare? then [parts[0].c] else ['\\', parts[0].c]) + Spell(parts[1..])
  }

  predicate GoodParts(parts: seq<StringPart>) {
    forall i :: 0 <= i < |parts| && parts[i].Bare? ==> parts[i].c != '\"' && parts[i].c != '\\'
  }

  /** The text between two positions is spelled by bare characters and escapes. */
  ghost predicate StringBody(text: string, from: nat, end: nat) {
    from <= end <= |text| && exists parts :: GoodParts(parts) && Spell(parts) == text[from..end]
  }

  /** A quote at `quote`, at `pos` or after one prefix letter. */
  predicate QuoteAt(text: string, pos: nat, quote: nat, prefixes: set<char>, mark: char) {
    CharAt(text, quote, mark) && (quote == pos || (quote == pos + 1 && text[pos] in prefixes))
  }

  ghost predicate StringAt(text: string, pos: nat, end: nat) {
    && 0 < end <= |text| && text[end - 1] == '\"'
    && exists quote: nat :: QuoteAt(text, pos, quote, {'b', 'c'}, '\"') && StringBody(text, quote + 1, end - 1)
  }

  /** A lone opening quote. */
  ghost predicate BadStringAt(text: string, pos: nat, end: nat) {
    0 < end && QuoteAt(text, pos, end - 1, {'b', 'c'}, '\"')
  }

  /** The one character or escape of a char literal. */
  predicate CharUnit(text: string, from: nat, end: nat)
    requires from <= end <= |text|
  {
    var n := end - from;
    || (n == 1 && text[from] !in {'\'', '\\', '\n'})
    || (n == 2 && text[from] == '\\' && text[from + 1] in {'n', 'r', 't', '\\', '0', '\'', '\"'})
    || (n == 4 && text[from] == '\\' && text[from + 1] == 'x' && Hex(text[from + 2]) && Hex(text[from + 3]))
    || (&& 5 <= n <= 10 && text[from] == '\\' && text[from + 1] == 'u' && text[from + 2] == '{' && text[end - 1] == '}'
        && forall i :: from + 3 <= i < end - 1 ==> Hex(text[i]) || text[i] == '_')
  }

  ghost predicate CharLitAt(text: string, pos: nat, end: nat) {
    && 0 < end <= |text| && text[end - 1] == '\''
    && exists quote: nat ::
         QuoteAt(text, pos, quote, {'b'}, '\'') && quote + 1 < end && CharUnit(text, quote + 1, end - 1)
  }

  /** `r`, `br` or `cr` before `from`, then only hashes up to the quote before `end`. */
  predicate RawFrom(text: string, pos: nat, from: nat, end: nat) {
    && pos < from < end <= |text| && text[end - 1] == '\"' && text[from - 1] == 'r'
    && (from == pos + 1 || (from == pos + 2 && text[pos] in {'b', 'c'}))
    && forall i :: from <= i < end - 1 ==> text[i] == '#'
  }

  ghost predicate RawAt(text: string, pos: nat, end: nat) {
    exists from: nat :: RawFrom(text, pos, from, end)
  }

  /** A name of word characters whose first is no digit. */
  predicate NameAt(tables: CharTables, text: string, from: nat, end: nat) {
    && from < end <= |text| && tables.word(text[from]) && !tables.digit(text[from])
    && forall i :: from <= i < end ==> tables.word(text[i])
  }

  predicate IdentAt(tables: CharTables, text: string, pos: nat, end: nat) {
    || NameAt(tables, text, pos, end)
    || (pos + 2 < end && StartsAt(text, pos, "r#") && NameAt(tables, text, pos + 2, end))
  }

  /** The alternatives of the pattern, in its order. */
  datatype Alternative =
    | AltSpace | AltLine | AltBlock | AltRaw | AltString | AltBadString | AltChar | AltLifetime | AltIdent
    | AltNumber | AltPunct

  const PATTERN: seq<Alternative> :=
    [AltSpace, AltLine, AltBlock, AltRaw, AltString, AltBadString, AltChar, AltLifetime, AltIdent, AltNumber,
     AltPunct]

  /** The alternative matches the text from `pos` to `end`. */
  ghost predicate Fits(tables: CharTables, text: string, alt: Alternative, pos: nat, end: nat) {
    && pos < end <= |text|
    && match alt
       case AltSpace => forall i :: pos <= i < end ==> tables.space(text[i])
       case AltLine => StartsAt(text, pos, "//") && pos + 2 <= end && forall i :: pos + 2 <= i < end ==> text[i] != '\n'
       case AltBlock => StartsAt(text, pos, "/*") && end == pos + 2
       case AltRaw => RawAt(text, pos, end)
       case AltString => StringAt(text, pos, end)
       case AltBadString => BadStringAt(text, pos, end)
       case AltChar => CharLitAt(text, pos, end)
       case AltLifetime => text[pos] == '\'' && IdentAt(tables, text, pos + 1, end)
       case AltIdent => IdentAt(tables, text, pos, end)
       case AltNumber => tables.digit(text[pos]) && forall i :: pos < i < end ==> tables.word(text[i])
       case AltPunct => end == pos + 1
  }

  /** The longest match of an alternative. */
  ghost predicate Longest(tables: CharTables, text: string, alt: Alternative, pos: nat, end: nat) {
    && Fits(tables, text, alt, pos, end)
    && forall e: nat :: Fits(tables, text, alt, pos, e) ==> e <= end
  }

  /** The alternative of number `k` is the first that matches, and `end` is its longest match. */
  ghost predicate FirstFit(tables: CharTables, text: string, pos: nat, k: nat, end: nat) {
    && k < |PATTERN| && Longest(tables, text, PATTERN[k], pos, end)
    && forall j: nat, e: nat :: j < k ==> !Fits(tables, text, PATTERN[j], pos, e)
  }

  /** What the match is read as. */
  ghost predicate ReadsAs(text: string, alt: Alternative, pos: nat, end: nat, m: Match) {
    match alt
    case AltSpace => m == Plain(Ws, end)
    case AltLine => m == LineComment(end)
    case AltBlock => m == BlockOpen(end)
    case AltRaw => m.RawString? && m.end == end && m.hashes < end && RawFrom(text, pos, end - 1 - m.hashes, end)
    case AltString => m == Plain(Str, end)
    case AltBadString => m == BadString
    case AltChar => m == Plain(CharLit, end)
    case AltLifetime => m == Plain(Lifetime, end)
    case AltIdent => m == Plain(Ident, end)
    case AltNumber => m == Plain(Num, end)
    case AltPunct => m == Plain(Punct, end)
  }

  // ---- strings

  lemma {:induction false} StringEndSound(text: string, pos: nat) returns (parts: seq<StringPart>)
    requires pos <= |text| && StringEnd(text, pos).Some?
    ensures var e := StringEnd(text, pos).value;
      text[e - 1] == '\"' && GoodParts(parts) && Spell(parts) == text[pos..e - 1]
    decreases |text| - pos
  {
    var e := StringEnd(text, pos).value;
    if text[pos] == '\"' {
      parts := [];
    } else if text[pos] == '\\' {
      var rest := StringEndSound(text, pos + 2);
      parts := [Escaped(text[pos + 1])] + rest;
      assert parts[1..] == rest;
      assert text[pos..e - 1] == [text[pos], text[pos + 1]] + text[pos + 2..e - 1];
    } else {
      var rest := StringEndSound(text, pos + 1);
      parts := [Bare(text[pos])] + rest;
      assert parts[1..] == rest;
      assert text[pos..e - 1] == [text[pos]] + text[pos + 1..e - 1];
    }
  }

  lemma {:induction false} StringEndComplete(text: string, pos: nat, e: nat, parts: seq<StringPart>)
    requires pos < e <= |text| && text[e - 1] == '\"' && GoodParts(parts) && Spell(parts) == text[pos..e - 1]
    ensures StringEnd(text, pos) == Some(e)
    decreases parts
  {
    if parts == [] {
      assert |text[pos..e - 1]| == 0;
    } else {
      var part, rest := parts[0], parts[1..];
      var first := if part.Bare? then [part.c] else ['\\', part.c];
      var n := |first|;
      assert Spell(parts) == first + Spell(rest);
      assert |text[pos..e - 1]| >= n;
      assert text[pos..e - 1][..n] == first && text[pos..e - 1][n..] == Spell(rest);
      assert text[pos] == first[0];
      assert text[pos + n..e - 1] == text[pos..e - 1][n..];
      assert n == 2 ==> text[pos + 1] == first[1];
      assert forall i :: 0 <= i < |rest| ==> rest[i] == parts[i + 1];
      StringEndComplete(text, pos + n, e, rest);
    }
  }

  /** A string body ends at its first quote that is not escaped, told by the grammar alone. */
  lemma StringEndIs(text: string, pos: nat, e: nat)
    requires pos <= |text|
    ensures StringEnd(text, pos) == Some(e) <==>
      pos < e <= |text| && text[e - 1] == '\"' && StringBody(text, pos, e - 1)
  {
    if StringEnd(text, pos) == Some(e) { var parts := StringEndSound(text, pos); }
    if pos < e <= |text| && text[e - 1] == '\"' && StringBody(text, pos, e - 1) {
      var parts :| GoodParts(parts) && Spell(parts) == text[pos..e - 1];
      StringEndComplete(text, pos, e, parts);
    }
  }

  // ---- char literals

  lemma CharBodyIs(text: string, pos: nat, e: nat)
    requires pos <= e < |text| && text[e] == '\''
    ensures CharBody(text, pos) == Some(e) <==> CharUnit(text, pos, e)
  {
    if pos + 2 < |text| && text[pos] == '\\' && text[pos + 1] == 'u' && text[pos + 2] == '{' {
      var end := RunEnd(text, pos + 3, c => Hex(c) || c == '_');
      if CharUnit(text, pos, e) {
        assert !Hex('}') && end >= e - 1;
      }
    }
  }

  lemma CharEndIs(text: string, pos: nat, e: nat)
    ensures CharEnd(text, pos) == Some(e) <==> CharLitAt(text, pos, e)
  {
    hide CharBody, CharUnit;
    var quote := if CharAt(text, pos, 'b') then pos + 1 else pos;
    assert forall q: nat :: QuoteAt(text, pos, q, {'b'}, '\'') ==> q == quote;
    if CharAt(text, quote, '\'') && quote + 1 < e <= |text| && text[e - 1] == '\'' {
      CharBodyIs(text, quote + 1, e - 1);
      assert QuoteAt(text, pos, quote, {'b'}, '\'');
    }
  }

  // ---- names

  lemma NameEnds(tables: CharTables, text: string, from: nat)
    requires IdentStart(tables, text, from)
    ensures NameAt(tables, text, from, RunEnd(text, from + 1, tables.word))
    ensures forall e: nat :: NameAt(tables, text, from, e) ==> e <= RunEnd(text, from + 1, tables.word)
  {
  }

  /** The longest name is the one found. */
  lemma IdentEndIs(tables: CharTables, text: string, pos: nat)
    requires pos <= |text|
    ensures var r := IdentEnd(tables, text, pos);
      && (r.None? ==> forall e: nat :: !IdentAt(tables, text, pos, e))
      && (r.Some? ==> IdentAt(tables, text, pos, r.value))
      && (r.Some? ==> forall e: nat :: IdentAt(tables, text, pos, e) ==> e <= r.value)
  {
    if StartsAt(text, pos, "r#") && IdentStart(tables, text, pos + 2) {
      var end := RunEnd(text, pos + 3, tables.word);
      NameEnds(tables, text, pos + 2);
      forall e: nat | NameAt(tables, text, pos, e) ensures e <= end {
        assert end < |text| ==> !tables.word(text[end]);
      }
    } else if IdentStart(tables, text, pos) {
      NameEnds(tables, text, pos);
    }
  }

  // ---- raw strings

  lemma RawIs(text: string, pos: nat)
    ensures var r := RawOpen(text, pos);
      && (r.Some? ==> RawFrom(text, pos, r.value.0, r.value.1 + 1))
      && (forall from: nat, e: nat :: RawFrom(text, pos, from, e) ==> r == Some((from, e - 1)))
  {
    var r := RawOpen(text, pos);
    forall from: nat, e: nat | RawFrom(text, pos, from, e) ensures r == Some((from, e - 1)) {
      if from == pos + 2 {
        assert text[pos..pos + 2] == [text[pos], text[pos + 1]];
      } else {
        assert !StartsAt(text, pos, "br") && !StartsAt(text, pos, "cr");
      }
      var end := RunEnd(text, from, c => c == '#');
      assert text[e - 1] != '#' && text[end] != '#';
    }
    if r.Some? { assert StartsAt(text, pos, "br") || StartsAt(text, pos, "cr") ==> text[pos..pos + 2][1] == 'r'; }
  }

  // ---- the pattern

  lemma BodyInside(text: string, from: nat, end: nat)
    requires StringBody(text, from, end)
    ensures from <= end <= |text|
  {
  }

  lemma StringFits(tables: CharTables, text: string, pos: nat, e: nat)
    requires pos < |text|
    ensures var quote := if text[pos] == 'b' || text[pos] == 'c' then pos + 1 else pos;
      && (Fits(tables, text, AltBadString, pos, e) <==> CharAt(text, quote, '\"') && e == quote + 1)
      && (Fits(tables, text, AltString, pos, e) <==>
            CharAt(text, quote, '\"') && StringEnd(text, quote + 1) == Some(e))
  {
    hide StringBody;
    var quote := if text[pos] == 'b' || text[pos] == 'c' then pos + 1 else pos;
    assert forall q: nat :: QuoteAt(text, pos, q, {'b', 'c'}, '\"') ==> q == quote;
    if CharAt(text, quote, '\"') {
      assert QuoteAt(text, pos, quote, {'b', 'c'}, '\"');
      StringEndIs(text, quote + 1, e);
      assert e == quote + 1 ==> BadStringAt(text, pos, e);
      if StringAt(text, pos, e) { BodyInside(text, quote + 1, e - 1); }
    }
  }

  lemma RunFits(tables: CharTables, text: string, pos: nat)
    requires pos < |text|
    ensures tables.space(text[pos]) ==> Longest(tables, text, AltSpace, pos, RunEnd(text, pos, tables.space))
    ensures !tables.space(text[pos]) ==> forall e: nat :: !Fits(tables, text, AltSpace, pos, e)
    ensures tables.digit(text[pos]) ==> Longest(tables, text, AltNumber, pos, RunEnd(text, pos + 1, tables.word))
    ensures !tables.digit(text[pos]) ==> forall e: nat :: !Fits(tables, text, AltNumber, pos, e)
    ensures StartsAt(text, pos, "//") ==> Longest(tables, text, AltLine, pos, RunEnd(text, pos + 2, c => c != '\n'))
    ensures !StartsAt(text, pos, "//") ==> forall e: nat :: !Fits(tables, text, AltLine, pos, e)
  {
  }

  lemma RawFits(tables: CharTables, text: string, pos: nat)
    requires pos < |text|
    ensures var r := RawOpen(text, pos);
      && (r.None? ==> forall e: nat :: !Fits(tables, text, AltRaw, pos, e))
      && (r.Some? ==> Longest(tables, text, AltRaw, pos, r.value.1 + 1))
  {
    hide RawOpen, RawFrom;
    RawIs(text, pos);
    var r := RawOpen(text, pos);
    if r.Some? { RawInside(text, pos, r.value.0, r.value.1 + 1); }
  }

  lemma RawInside(text: string, pos: nat, from: nat, end: nat)
    requires RawFrom(text, pos, from, end)
    ensures pos < end <= |text|
  {
  }

  lemma NameFits(tables: CharTables, text: string, pos: nat)
    requires pos < |text|
    ensures var r := IdentEnd(tables, text, pos);
      && (r.None? ==> forall e: nat :: !Fits(tables, text, AltIdent, pos, e))
      && (r.Some? ==> Longest(tables, text, AltIdent, pos, r.value))
    ensures var r := IdentEnd(tables, text, pos + 1);
      && (text[pos] != '\'' || r.None? ==> forall e: nat :: !Fits(tables, text, AltLifetime, pos, e))
      && (text[pos] == '\'' && r.Some? ==> Longest(tables, text, AltLifetime, pos, r.value))
  {
    hide IdentAt, IdentEnd;
    IdentEndIs(tables, text, pos);
    IdentEndIs(tables, text, pos + 1);
  }

  lemma OtherFits(tables: CharTables, text: string, pos: nat)
    requires pos < |text|
    ensures StartsAt(text, pos, "/*") ==> Longest(tables, text, AltBlock, pos, pos + 2)
    ensures !StartsAt(text, pos, "/*") ==> forall e: nat :: !Fits(tables, text, AltBlock, pos, e)
    ensures CharEnd(text, pos).Some? ==> Longest(tables, text, AltChar, pos, CharEnd(text, pos).value)
    ensures CharEnd(text, pos).None? ==> forall e: nat :: !Fits(tables, text, AltChar, pos, e)
    ensures Longest(tables, text, AltPunct, pos, pos + 1)
  {
    hide CharEnd, CharLitAt;
    forall e: nat ensures CharEnd(text, pos) == Some(e) <==> CharLitAt(text, pos, e) { CharEndIs(text, pos, e); }
  }

  lemma QuoteFits(tables: CharTables, text: string, pos: nat)
    requires pos < |text|
    ensures var quote := if text[pos] == 'b' || text[pos] == 'c' then pos + 1 else pos;
      var open := CharAt(text, quote, '\"');
      && (open ==> Longest(tables, text, AltBadString, pos, quote + 1))
      && (!open ==> forall e: nat :: !Fits(tables, text, AltBadString, pos, e))
      && (!open || StringEnd(text, quote + 1).None? ==> forall e: nat :: !Fits(tables, text, AltString, pos, e))
      && (open && StringEnd(text, quote + 1).Some? ==>
            Longest(tables, text, AltString, pos, StringEnd(text, quote + 1).value))
  {
    hide Fits, StringEnd;
    forall e: nat {:trigger Fits(tables, text, AltString, pos, e)} {:trigger Fits(tables, text, AltBadString, pos, e)}
      ensures var quote := if text[pos] == 'b' || text[pos] == 'c' then pos + 1 else pos;
        && (Fits(tables, text, AltBadString, pos, e) <==> CharAt(text, quote, '\"') && e == quote + 1)
        && (Fits(tables, text, AltString, pos, e) <==>
              CharAt(text, quote, '\"') && StringEnd(text, quote + 1) == Some(e))
    {
      StringFits(tables, text, pos, e);
    }
  }

  /** The number of the alternative that the functions choose. */
  function Choice(tables: CharTables, text: string, pos: nat): (k: nat)
    requires pos < |text|
    ensures k < |PATTERN|
  {
    var quote := if text[pos] == 'b' || text[pos] == 'c' then pos + 1 else pos;
    if tables.space(text[pos]) then 0
    else if StartsAt(text, pos, "//") then 1
    else if StartsAt(text, pos, "/*") then 2
    else if RawOpen(text, pos).Some? then 3
    else if CharAt(text, quote, '\"') then (if StringEnd(text, quote + 1).Some? then 4 else 5)
    else if CharEnd(text, pos).Some? then 6
    else if text[pos] == '\'' && IdentEnd(tables, text, pos + 1).Some? then 7
    else if IdentEnd(tables, text, pos).Some? then 8
    else if tables.digit(text[pos]) then 9
    else 10
  }

  /** The match found is the longest match of the first alternative that matches at all. */
  lemma MatchIs(tables: CharTables, text: string, pos: nat)
    requires pos < |text|
    ensures exists k: nat, end: nat ::
      FirstFit(tables, text, pos, k, end) && ReadsAs(text, PATTERN[k], pos, end, MatchAt(tables, text, pos))
  {
    hide *;
    ChoiceReads(tables, text, pos);
    ChoiceLongest(tables, text, pos);
    ChoiceFirst(tables, text, pos);
    ChosenFirst(tables, text, pos, Choice(tables, text, pos), ChoiceEnd(tables, text, pos));
  }

  lemma ChosenFirst(tables: CharTables, text: string, pos: nat, k: nat, end: nat)
    requires k < |PATTERN| && Longest(tables, text, PATTERN[k], pos, end)
    requires forall j: nat, e: nat :: j < k ==> !Fits(tables, text, PATTERN[j], pos, e)
    ensures FirstFit(tables, text, pos, k, end)
  {
    hide Fits, Longest;
  }

  function ChoiceEnd(tables: CharTables, text: string, pos: nat): nat
    requires pos < |text|
  {
    var m := MatchAt(tables, text, pos);
    if m.BadString? then (if text[pos] == 'b' || text[pos] == 'c' then pos + 2 else pos + 1) else m.end
  }

  lemma ChoiceReads(tables: CharTables, text: string, pos: nat)
    requires pos < |text|
    ensures ReadsAs(text, PATTERN[Choice(tables, text, pos)], pos, ChoiceEnd(tables, text, pos),
                    MatchAt(tables, text, pos))
  {
    hide RawOpen, StringEnd, CharEnd, IdentEnd, RunEnd, RawFrom;
    RawIs(text, pos);
  }

  lemma ChoiceLongest(tables: CharTables, text: string, pos: nat)
    requires pos < |text|
    ensures Longest(tables, text, PATTERN[Choice(tables, text, pos)], pos, ChoiceEnd(tables, text, pos))
  {
    hide Fits, Longest, RawOpen, StringEnd, CharEnd, IdentEnd, RunEnd;
    RunFits(tables, text, pos);
    RawFits(tables, text, pos);
    NameFits(tables, text, pos);
    OtherFits(tables, text, pos);
    QuoteFits(tables, text, pos);
  }

  lemma ChoiceFirst(tables: CharTables, text: string, pos: nat)
    requires pos < |text|
    ensures forall j: nat, e: nat :: j < Choice(tables, text, pos) ==> !Fits(tables, text, PATTERN[j], pos, e)
  {
    hide Fits, Longest, RawOpen, StringEnd, CharEnd, IdentEnd, RunEnd;
    RunFits(tables, text, pos);
    RawFits(tables, text, pos);
    NameFits(tables, text, pos);
    OtherFits(tables, text, pos);
    QuoteFits(tables, text, pos);
  }

  /** There is one such alternative and one such end. */
  lemma FirstFitUnique(tables: CharTables, text: string, pos: nat, k: nat, end: nat, l: nat, stop: nat)
    requires FirstFit(tables, text, pos, k, end) && FirstFit(tables, text, pos, l, stop)
    ensures k == l && end == stop
  {
    hide Fits;
  }

  // ---- nested comments

  /** How deep the comments are nested before the edge of number `k`. */
  function Depth(text: string, depth: nat, edges: seq<nat>, k: nat): int
    requires k <= |edges|
  {
    if k == 0 then depth
    else Depth(text, depth, edges, k - 1) + if StartsAt(text, edges[k - 1], "/*") then 1 else -1
  }

  /** Where the search for the edge of number `k` starts. */
  function SearchFrom(from: nat, edges: seq<nat>, k: nat): nat
    requires k <= |edges|
  {
    if k == 0 then from else edges[k - 1] + 2
  }

  /** With comments still open, the next `/*` or `*/` from `start` on is at `edge`. */
  ghost predicate NextEdge(text: string, start: nat, edge: nat, open: int) {
    open > 0 && start <= edge && EdgeAt(text, edge) && forall i :: start <= i < edge ==> !EdgeAt(text, i)
  }

  /** Each edge is the next one after the one before, and the last one is the first to close all comments. */
  ghost predicate EdgesClose(text: string, from: nat, depth: nat, edges: seq<nat>, end: nat) {
    && (forall k :: 0 <= k < |edges| ==>
          NextEdge(text, SearchFrom(from, edges, k), edges[k], Depth(text, depth, edges, k)))
    && Depth(text, depth, edges, |edges|) == 0 && end == SearchFrom(from, edges, |edges|)
  }

  /** A comment whose text starts at `from` ends at `end`. */
  ghost predicate CommentCloses(text: string, from: nat, end: nat) {
    exists edges :: EdgesClose(text, from, 1, edges, end)
  }

  lemma {:induction false} DepthShift(text: string, depth: nat, edge: nat, edges: seq<nat>, next: nat, k: nat)
    requires k <= |edges| && next == depth + if StartsAt(text, edge, "/*") then 1 else -1
    ensures Depth(text, depth, [edge] + edges, k + 1) == Depth(text, next, edges, k)
  {
    if k > 0 { DepthShift(text, depth, edge, edges, next, k - 1); }
  }

  lemma ShiftOne(text: string, from: nat, depth: nat, edge: nat, edges: seq<nat>, next: nat, k: nat)
    requires k <= |edges| && next == depth + if StartsAt(text, edge, "/*") then 1 else -1
    ensures Depth(text, depth, [edge] + edges, k + 1) == Depth(text, next, edges, k)
    ensures SearchFrom(from, [edge] + edges, k + 1) == SearchFrom(edge + 2, edges, k)
    ensures k < |edges| ==> ([edge] + edges)[k + 1] == edges[k]
  {
    hide Depth, StartsAt;
    DepthShift(text, depth, edge, edges, next, k);
    if k > 0 { assert ([edge] + edges)[k] == edges[k - 1]; }
  }

  lemma FirstEdge(text: string, from: nat, depth: nat, edge: nat, edges: seq<nat>, end: nat, next: nat)
    requires NextEdge(text, from, edge, depth) && next == depth + if StartsAt(text, edge, "/*") then 1 else -1
    ensures EdgesClose(text, from, depth, [edge] + edges, end) <==> EdgesClose(text, edge + 2, next, edges, end)
  {
    hide NextEdge, StartsAt, EdgesClose, Depth, SearchFrom;
    var all := [edge] + edges;
    forall k | 0 <= k < |edges|
      ensures NextEdge(text, SearchFrom(from, all, k + 1), all[k + 1], Depth(text, depth, all, k + 1)) <==>
        NextEdge(text, SearchFrom(edge + 2, edges, k), edges[k], Depth(text, next, edges, k))
    {
      ShiftOne(text, from, depth, edge, edges, next, k);
    }
    ShiftOne(text, from, depth, edge, edges, next, |edges|);
    ShiftClose(text, from, depth, edge, edges, end, next);
  }

  lemma ShiftClose(text: string, from: nat, depth: nat, edge: nat, edges: seq<nat>, end: nat, next: nat)
    requires var all := [edge] + edges;
      && NextEdge(text, from, edge, depth)
      && Depth(text, depth, all, |all|) == Depth(text, next, edges, |edges|)
      && SearchFrom(from, all, |all|) == SearchFrom(edge + 2, edges, |edges|)
      && forall k :: 0 <= k < |edges| ==>
           (NextEdge(text, SearchFrom(from, all, k + 1), all[k + 1], Depth(text, depth, all, k + 1)) <==>
            NextEdge(text, SearchFrom(edge + 2, edges, k), edges[k], Depth(text, next, edges, k)))
    ensures EdgesClose(text, from, depth, [edge] + edges, end) <==> EdgesClose(text, edge + 2, next, edges, end)
  {
    hide NextEdge;
    var all := [edge] + edges;
    assert SearchFrom(from, all, 0) == from && Depth(text, depth, all, 0) == depth && all[0] == edge;
    if EdgesClose(text, edge + 2, next, edges, end) {
      forall k | 0 <= k < |all|
        ensures NextEdge(text, SearchFrom(from, all, k), all[k], Depth(text, depth, all, k))
      {
        if k > 0 {
          var j := k - 1;
          assert NextEdge(text, SearchFrom(edge + 2, edges, j), edges[j], Depth(text, next, edges, j));
        }
      }
    }
    if EdgesClose(text, from, depth, all, end) {
      forall k | 0 <= k < |edges|
        ensures NextEdge(text, SearchFrom(edge + 2, edges, k), edges[k], Depth(text, next, edges, k))
      {
        var j := k + 1;
        assert NextEdge(text, SearchFrom(from, all, j), all[j], Depth(text, depth, all, j));
      }
    }
  }

  /** The edge found first decides; a character that starts no edge is passed over. */
  lemma {:induction false} BlockEndEdges(text: string, pos: nat, depth: nat) returns (edges: seq<nat>)
    requires BlockEnd(text, pos, depth).Some?
    ensures EdgesClose(text, pos, depth, edges, BlockEnd(text, pos, depth).value)
    decreases |text| - pos
  {
    hide StartsAt, EdgesClose;
    var end := BlockEnd(text, pos, depth).value;
    if depth == 0 {
      edges := [];
      NoEdges(text, pos, end);
    } else if EdgeAt(text, pos) {
      NotBoth(text, pos);
      var next := depth + if StartsAt(text, pos, "/*") then 1 else -1;
      var rest := BlockEndEdges(text, pos + 2, next);
      edges := [pos] + rest;
      FirstEdge(text, pos, depth, pos, rest, end, next);
    } else {
      edges := BlockEndEdges(text, pos + 1, depth);
      LaterSearch(text, pos, depth, edges, end);
    }
  }

  lemma NoEdges(text: string, pos: nat, end: nat)
    ensures EdgesClose(text, pos, 0, [], end) <==> end == pos
  {
  }

  lemma NotBoth(text: string, pos: nat)
    ensures !(StartsAt(text, pos, "/*") && StartsAt(text, pos, "*/"))
  {
    if StartsAt(text, pos, "/*") { assert text[pos..pos + 2][0] == '/'; }
  }

  lemma LaterSearch(text: string, pos: nat, depth: nat, edges: seq<nat>, end: nat)
    requires depth > 0 && !EdgeAt(text, pos)
    ensures EdgesClose(text, pos, depth, edges, end) <==> EdgesClose(text, pos + 1, depth, edges, end)
  {
    if edges != [] {
      var rest := edges[1..];
      assert edges == [edges[0]] + rest;
      assert NextEdge(text, pos, edges[0], depth) <==> NextEdge(text, pos + 1, edges[0], depth);
      SameLater(text, pos, depth, edges, end);
    }
  }

  lemma SameLater(text: string, pos: nat, depth: nat, edges: seq<nat>, end: nat)
    requires edges != [] && (NextEdge(text, pos, edges[0], depth) <==> NextEdge(text, pos + 1, edges[0], depth))
    ensures EdgesClose(text, pos, depth, edges, end) <==> EdgesClose(text, pos + 1, depth, edges, end)
  {
    hide NextEdge;
    assert Depth(text, depth, edges, 0) == depth;
    if EdgesClose(text, pos, depth, edges, end) {
      assert NextEdge(text, SearchFrom(pos, edges, 0), edges[0], depth);
      forall k | 0 <= k < |edges|
        ensures NextEdge(text, SearchFrom(pos + 1, edges, k), edges[k], Depth(text, depth, edges, k))
      {
        assert NextEdge(text, SearchFrom(pos, edges, k), edges[k], Depth(text, depth, edges, k));
      }
    }
    if EdgesClose(text, pos + 1, depth, edges, end) {
      assert NextEdge(text, SearchFrom(pos + 1, edges, 0), edges[0], depth);
      forall k | 0 <= k < |edges|
        ensures NextEdge(text, SearchFrom(pos, edges, k), edges[k], Depth(text, depth, edges, k))
      {
        assert NextEdge(text, SearchFrom(pos + 1, edges, k), edges[k], Depth(text, depth, edges, k));
      }
    }
  }

  lemma {:induction false} EdgesBlockEnd(text: string, pos: nat, depth: nat, edges: seq<nat>, end: nat)
    requires EdgesClose(text, pos, depth, edges, end)
    ensures BlockEnd(text, pos, depth) == Some(end)
    decreases |text| - pos
  {
    hide StartsAt, EdgesClose;
    FirstOf(text, pos, depth, edges, end);
    if edges != [] {
      EdgeInside(text, edges[0]);
      if EdgeAt(text, pos) {
        assert edges[0] == pos;
        NotBoth(text, pos);
        var next := depth + if StartsAt(text, pos, "/*") then 1 else -1;
        assert edges == [pos] + edges[1..];
        FirstEdge(text, pos, depth, pos, edges[1..], end, next);
        EdgesBlockEnd(text, pos + 2, next, edges[1..], end);
      } else {
        assert edges[0] != pos;
        LaterSearch(text, pos, depth, edges, end);
        EdgesBlockEnd(text, pos + 1, depth, edges, end);
      }
    }
  }

  lemma FirstOf(text: string, pos: nat, depth: nat, edges: seq<nat>, end: nat)
    requires EdgesClose(text, pos, depth, edges, end)
    ensures edges == [] ==> depth == 0 && end == pos
    ensures edges != [] ==> NextEdge(text, pos, edges[0], depth)
  {
    if edges != [] {
      assert NextEdge(text, SearchFrom(pos, edges, 0), edges[0], Depth(text, depth, edges, 0));
    }
  }

  lemma EdgeInside(text: string, edge: nat)
    requires EdgeAt(text, edge)
    ensures edge + 2 <= |text|
  {
  }

  /** Reading characters ends a comment exactly where its edges close it. */
  lemma BlockEndIs(text: string, from: nat, end: nat)
    ensures BlockEnd(text, from, 1) == Some(end) <==> CommentCloses(text, from, end)
  {
    hide EdgesClose, BlockEnd;
    if BlockEnd(text, from, 1) == Some(end) { var edges := BlockEndEdges(text, from, 1); }
    if CommentCloses(text, from, end) {
      var edges :| EdgesClose(text, from, 1, edges, end);
      EdgesBlockEnd(text, from, 1, edges, end);
    }
  }

  // ---- whole tokens

  /** A comment's kind, by the characters after its first two: `closed` for one with a closing mark. */
  predicate CommentKind(body: string, closed: bool, kind: Kind)
    requires |body| >= 2
  {
    var mark := if closed then '*' else '/';
    var inner := |body| > 2 && body[2] == '!';
    var outer := |body| > (if closed then 4 else 2) && body[2] == mark && (|body| == 3 || body[3] != mark);
    kind == (if inner then InnerDoc else if outer then Doc else Comment)
  }

  lemma LineKindIs(body: string)
    requires |body| >= 2 && body[..2] == "//"
    ensures CommentKind(body, false, LineKind(body))
  {
    assert |body| > 2 ==> body[..3] == ['/', '/', body[2]];
    assert |body| > 3 ==> body[..4] == ['/', '/', body[2], body[3]];
  }

  lemma BlockKindIs(body: string)
    requires |body| >= 4 && body[..2] == "/*" && body[|body| - 2..] == "*/"
    ensures CommentKind(body, true, BlockKind(body))
  {
    assert body[..3] == ['/', '*', body[2]] && body[..4] == ['/', '*', body[2], body[3]];
    assert body[|body| - 2] == '*' && body[|body| - 1] == '/';
    assert |body| == 4 ==> body == body[..2] + body[2..];
  }

  /** The quote at `close` is the first that as many hashes follow. */
  ghost predicate RawCloses(text: string, from: nat, hashes: nat, close: nat) {
    && from <= close && StartsAt(text, close, "\"" + Hashes(hashes))
    && forall i :: from <= i < close ==> !StartsAt(text, i, "\"" + Hashes(hashes))
  }

  /** A raw string opens with so many hashes before its quote. */
  predicate RawHashes(text: string, pos: nat, head: nat, hashes: nat) {
    hashes < head && RawFrom(text, pos, head - 1 - hashes, head)
  }

  /** The token that starts with the match of the alternative `alt` up to `head`. */
  ghost predicate TokenFrom(text: string, alt: Alternative, head: nat, t: Token) {
    match alt
    case AltSpace => t.kind == Ws && t.end == head
    case AltLine => t.end == head <= |text| && t.start + 2 <= head && CommentKind(text[t.start..head], false, t.kind)
    case AltBlock =>
      && CommentCloses(text, head, t.end) && t.start + 2 <= t.end <= |text|
      && CommentKind(text[t.start..t.end], true, t.kind)
    case AltRaw =>
      t.kind == Str && exists hashes: nat ::
        RawHashes(text, t.start, head, hashes) && hashes < t.end && RawCloses(text, head, hashes, t.end - 1 - hashes)
    case AltString => t.kind == Str && t.end == head
    case AltBadString => false
    case AltChar => t.kind == CharLit && t.end == head
    case AltLifetime => t.kind == Lifetime && t.end == head
    case AltIdent => t.kind == Ident && t.end == head
    case AltNumber => t.kind == Num && t.end == head
    case AltPunct => t.kind == Punct && t.end == head
  }

  /** The token is what the grammar reads at its start. */
  ghost predicate Reads(tables: CharTables, text: string, t: Token) {
    exists k: nat, head: nat :: FirstFit(tables, text, t.start, k, head) && TokenFrom(text, PATTERN[k], head, t)
  }

  /** The match `k` up to `head` opens something that never closes. */
  ghost predicate StopsAt(text: string, pos: nat, k: nat, head: nat, error: Error)
    requires k < |PATTERN|
  {
    match PATTERN[k]
    case AltBlock => error == UnterminatedComment(pos) && forall end: nat :: !CommentCloses(text, head, end)
    case AltRaw =>
      error == UnterminatedRaw(pos) && exists hashes: nat ::
        RawHashes(text, pos, head, hashes) && forall close: nat :: !RawCloses(text, head, hashes, close)
    case AltBadString => error == UnterminatedString(pos)
    case _ => false
  }

  /** The grammar reads no token at this position, for this reason. */
  ghost predicate Unreadable(tables: CharTables, text: string, pos: nat, error: Error) {
    exists k: nat, head: nat :: FirstFit(tables, text, pos, k, head) && StopsAt(text, pos, k, head, error)
  }

  lemma TokenReads(tables: CharTables, text: string, pos: nat, k: nat, head: nat)
    requires pos < |text| && k < |PATTERN| && FirstFit(tables, text, pos, k, head)
    requires ReadsAs(text, PATTERN[k], pos, head, MatchAt(tables, text, pos)) && TokenAt(tables, text, pos).Ok?
    ensures TokenFrom(text, PATTERN[k], head, TokenAt(tables, text, pos).value)
  {
    hide MatchAt, FirstFit, CommentCloses, CommentKind, LineKind, BlockKind, RawFrom, Find, BlockEnd;
    if PATTERN[k] == AltLine {
      LineHead(tables, text, pos, k, head);
      LineKindIs(text[pos..head]);
    } else if PATTERN[k] == AltBlock {
      BlockHead(tables, text, pos, k, head);
      BlockReads(text, pos, head);
    } else if PATTERN[k] == AltRaw {
      var m := MatchAt(tables, text, pos);
      assert RawHashes(text, pos, head, m.hashes);
      RawReads(text, head, m.hashes);
    }
  }

  lemma BlockReads(text: string, pos: nat, head: nat)
    requires head == pos + 2 <= |text| && text[pos..head] == "/*" && BlockEnd(text, head, 1).Some?
    ensures var e := BlockEnd(text, head, 1).value;
      head <= e <= |text| && CommentCloses(text, head, e) && CommentKind(text[pos..e], true, BlockKind(text[pos..e]))
  {
    hide BlockEnd, CommentCloses, CommentKind, BlockKind;
    var e := BlockEnd(text, head, 1).value;
    BlockEndIs(text, head, e);
    BlockTail(text, head, 1);
    BlockKindIs(text[pos..e]);
  }

  lemma RawReads(text: string, head: nat, hashes: nat)
    requires head <= |text| && Find(text, "\"" + Hashes(hashes), head).Some?
    ensures RawCloses(text, head, hashes, Find(text, "\"" + Hashes(hashes), head).value)
  {
  }

  lemma LineHead(tables: CharTables, text: string, pos: nat, k: nat, head: nat)
    requires k < |PATTERN| && FirstFit(tables, text, pos, k, head) && PATTERN[k] == AltLine
    ensures pos + 2 <= head <= |text| && text[pos..head][..2] == "//"
  {
  }

  lemma BlockHead(tables: CharTables, text: string, pos: nat, k: nat, head: nat)
    requires k < |PATTERN| && FirstFit(tables, text, pos, k, head) && PATTERN[k] == AltBlock
    ensures head == pos + 2 <= |text| && text[pos..head] == "/*"
  {
  }

  /** A comment ends with its closing mark. */
  lemma {:induction false} BlockTail(text: string, pos: nat, depth: nat)
    requires depth > 0 && BlockEnd(text, pos, depth).Some?
    ensures var e := BlockEnd(text, pos, depth).value; pos + 2 <= e <= |text| && text[e - 2..e] == "*/"
    decreases |text| - pos
  {
    if StartsAt(text, pos, "/*") {
      BlockTail(text, pos + 2, depth + 1);
    } else if StartsAt(text, pos, "*/") {
      if depth > 1 { BlockTail(text, pos + 2, depth - 1); }
    } else {
      BlockTail(text, pos + 1, depth);
    }
  }

  lemma TokenFails(tables: CharTables, text: string, pos: nat, k: nat, head: nat)
    requires pos < |text| && k < |PATTERN| && FirstFit(tables, text, pos, k, head)
    requires ReadsAs(text, PATTERN[k], pos, head, MatchAt(tables, text, pos)) && TokenAt(tables, text, pos).Err?
    ensures Unreadable(tables, text, pos, TokenAt(tables, text, pos).error)
  {
    hide MatchAt, FirstFit, CommentCloses, LineKind, BlockKind, RawFrom;
    if PATTERN[k] == AltBlock {
      forall end: nat ensures !CommentCloses(text, head, end) { BlockEndIs(text, head, end); }
    } else if PATTERN[k] == AltRaw {
      var m := MatchAt(tables, text, pos);
      assert RawHashes(text, pos, head, m.hashes);
      forall close: nat ensures !RawCloses(text, head, m.hashes, close) {}
    }
  }

  /** The token read at a position is the one the grammar reads there, or the grammar reads none. */
  lemma TokenMeans(tables: CharTables, text: string, pos: nat)
    requires pos < |text|
    ensures var t := TokenAt(tables, text, pos);
      if t.Ok? then Reads(tables, text, t.value) else Unreadable(tables, text, pos, t.error)
  {
    hide MatchAt, Longest, Fits, ReadsAs, TokenFrom, Unreadable, TokenAt;
    MatchIs(tables, text, pos);
    var k: nat, head: nat :|
      FirstFit(tables, text, pos, k, head) && ReadsAs(text, PATTERN[k], pos, head, MatchAt(tables, text, pos));
    if TokenAt(tables, text, pos).Ok? {
      TokenReads(tables, text, pos, k, head);
    } else {
      TokenFails(tables, text, pos, k, head);
    }
  }

  lemma KindUnique(body: string, closed: bool, a: Kind, b: Kind)
    requires |body| >= 2 && CommentKind(body, closed, a) && CommentKind(body, closed, b)
    ensures a == b
  {
  }

  lemma BlockUnique(text: string, head: nat, end: nat, stop: nat)
    requires CommentCloses(text, head, end) && CommentCloses(text, head, stop)
    ensures end == stop
  {
    hide CommentCloses;
    BlockEndIs(text, head, end);
    BlockEndIs(text, head, stop);
  }

  lemma RawUnique(text: string, pos: nat, head: nat, a: nat, b: nat, end: nat, stop: nat)
    requires RawHashes(text, pos, head, a) && a < end && RawCloses(text, head, a, end - 1 - a)
    requires RawHashes(text, pos, head, b) && b < stop && RawCloses(text, head, b, stop - 1 - b)
    ensures end == stop
  {
    RawIs(text, pos);
    assert head - 1 - a == head - 1 - b;
  }

  lemma SameToken(text: string, alt: Alternative, head: nat, t: Token, u: Token)
    requires TokenFrom(text, alt, head, t) && TokenFrom(text, alt, head, u) && t.start == u.start
    ensures t == u
  {
    hide CommentCloses, RawCloses, RawHashes, CommentKind;
    if alt == AltLine {
      KindUnique(text[t.start..head], false, t.kind, u.kind);
    } else if alt == AltBlock {
      BlockUnique(text, head, t.end, u.end);
      KindUnique(text[t.start..t.end], true, t.kind, u.kind);
    } else if alt == AltRaw {
      var a: nat :| RawHashes(text, t.start, head, a) && a < t.end && RawCloses(text, head, a, t.end - 1 - a);
      var b: nat :| RawHashes(text, t.start, head, b) && b < u.end && RawCloses(text, head, b, u.end - 1 - b);
      RawUnique(text, t.start, head, a, b, t.end, u.end);
    }
  }

  /** The grammar reads at most one token at a position. */
  lemma ReadsUnique(tables: CharTables, text: string, t: Token, u: Token)
    requires Reads(tables, text, t) && Reads(tables, text, u) && t.start == u.start
    ensures t == u
  {
    hide FirstFit, TokenFrom;
    var k, head := FitOf(tables, text, t);
    var l, stop := FitOf(tables, text, u);
    FirstFitUnique(tables, text, t.start, k, head, l, stop);
    SameToken(text, PATTERN[k], head, t, u);
  }

  lemma FitOf(tables: CharTables, text: string, t: Token) returns (k: nat, head: nat)
    requires Reads(tables, text, t)
    ensures k < |PATTERN| && FirstFit(tables, text, t.start, k, head) && TokenFrom(text, PATTERN[k], head, t)
  {
    hide TokenFrom, Longest, Fits;
    k, head :| FirstFit(tables, text, t.start, k, head) && TokenFrom(text, PATTERN[k], head, t);
  }

  lemma TokenClosed(text: string, k: nat, head: nat, t: Token, error: Error)
    requires k < |PATTERN| && TokenFrom(text, PATTERN[k], head, t)
    ensures !StopsAt(text, t.start, k, head, error)
  {
    hide CommentCloses, RawCloses, CommentKind;
  }

  /** A position where the grammar reads a token is not unreadable. */
  lemma ReadableIs(tables: CharTables, text: string, t: Token, error: Error)
    requires Reads(tables, text, t)
    ensures !Unreadable(tables, text, t.start, error)
  {
    hide Longest, Fits, TokenFrom, StopsAt;
    var k, head := FitOf(tables, text, t);
    TokenClosed(text, k, head, t, error);
    forall l: nat, stop: nat | FirstFit(tables, text, t.start, l, stop)
      ensures !StopsAt(text, t.start, l, stop, error)
    {
      FirstFitUnique(tables, text, t.start, k, head, l, stop);
    }
  }

  /** So the token found is exactly the one the grammar reads. */
  lemma TokenExact(tables: CharTables, text: string, t: Token)
    requires t.start < |text|
    ensures Reads(tables, text, t) <==> TokenAt(tables, text, t.start) == Ok(t)
  {
    hide Reads, Unreadable, TokenAt;
    var found := TokenAt(tables, text, t.start);
    TokenMeans(tables, text, t.start);
    if Reads(tables, text, t) {
      if found.Ok? {
        StartIs(tables, text, t.start);
        ReadsUnique(tables, text, t, found.value);
      }
      assert found.Err? ==> !Unreadable(tables, text, t.start, found.error) by {
        if found.Err? { ReadableIs(tables, text, t, found.error); }
      }
    }
  }

  lemma StartIs(tables: CharTables, text: string, pos: nat)
    requires pos < |text| && TokenAt(tables, text, pos).Ok?
    ensures TokenAt(tables, text, pos).value.start == pos
  {
    hide MatchAt;
  }
}
