/** The token pattern of the Rust splitter, as functions that find where a match ends. */
module RustPattern {
  import opened Prelude

  datatype Kind = Ws | Comment | Doc | InnerDoc | Str | CharLit | Lifetime | Ident | Num | Punct

  datatype Token = Token(kind: Kind, start: nat, end: nat)

  /** The Unicode tables behind the classes s, w and d of the token pattern. */
  datatype CharTables = CharTables(space: char -> bool, word: char -> bool, digit: char -> bool)

  datatype Error = UnterminatedComment(at: nat) | UnterminatedRaw(at: nat) | UnterminatedString(at: nat)
                 | Unbalanced(at: nat) | Unclosed(at: nat)
                 | NoItem(at: nat) | NoEnd(at: nat) | Unclassified(at: nat)

  datatype Result<T> = Ok(value: T) | Err(error: Error)

  // ---- the token pattern, one alternative at a time

  predicate StartsAt(text: string, pos: nat, word: string) {
    pos + |word| <= |text| && text[pos..pos + |word|] == word
  }

  predicate CharAt(text: string, pos: nat, c: char) {
    pos < |text| && text[pos] == c
  }

  /** End of the longest run of characters of one class. */
  function RunEnd(text: string, pos: nat, wanted: char -> bool): (end: nat)
    requires pos <= |text|
    ensures pos <= end <= |text|
    ensures forall i :: pos <= i < end ==> wanted(text[i])
    ensures end == |text| || !wanted(text[end])
    decreases |text| - pos
  {
    if pos < |text| && wanted(text[pos]) then RunEnd(text, pos + 1, wanted) else pos
  }

  /** End of a string body whose opening quote is just before `pos`. */
  function StringEnd(text: string, pos: nat): (end: Option<nat>)
    ensures end.Some? ==> pos < end.value <= |text|
    decreases |text| - pos
  {
    if pos >= |text| then None
    else if text[pos] == '\"' then Some(pos + 1)
    else if text[pos] == '\\' then (if pos + 1 < |text| then StringEnd(text, pos + 2) else None)
    else StringEnd(text, pos + 1)
  }

  predicate Hex(c: char) {
    '0' <= c <= '9' || 'a' <= c <= 'f' || 'A' <= c <= 'F'
  }

  /** End of the one character or escape after the opening quote of a char literal. */
  function CharBody(text: string, pos: nat): (end: Option<nat>)
    ensures end.Some? ==> pos < end.value <= |text|
  {
    if pos >= |text| then None
    else if text[pos] != '\\' then (if text[pos] == '\'' || text[pos] == '\n' then None else Some(pos + 1))
    else if pos + 1 >= |text| then None
    else if text[pos + 1] in {'n', 'r', 't', '\\', '0', '\'', '\"'} then Some(pos + 2)
    else if text[pos + 1] == 'x' then
      (if pos + 3 < |text| && Hex(text[pos + 2]) && Hex(text[pos + 3]) then Some(pos + 4) else None)
    else if text[pos + 1] == 'u' && CharAt(text, pos + 2, '{') then
      var end := RunEnd(text, pos + 3, c => Hex(c) || c == '_');
      if 1 <= end - (pos + 3) <= 6 && CharAt(text, end, '}') then Some(end + 1) else None
    else None
  }

  function CharEnd(text: string, pos: nat): (end: Option<nat>)
    ensures end.Some? ==> pos < end.value <= |text|
  {
    var quote := if CharAt(text, pos, 'b') then pos + 1 else pos;
    if !CharAt(text, quote, '\'') then None
    else
      var body := CharBody(text, quote + 1);
      if body.Some? && CharAt(text, body.value, '\'') then Some(body.value + 1) else None
  }

  /** End of an identifier, with or without the raw prefix. */
  function IdentEnd(tables: CharTables, text: string, pos: nat): (end: Option<nat>)
    ensures end.Some? ==> pos < end.value <= |text|
  {
    var start := if StartsAt(text, pos, "r#") && IdentStart(tables, text, pos + 2) then pos + 2 else pos;
    if IdentStart(tables, text, start) then Some(RunEnd(text, start + 1, tables.word)) else None
  }

  predicate IdentStart(tables: CharTables, text: string, pos: nat) {
    pos < |text| && tables.word(text[pos]) && !tables.digit(text[pos])
  }

  /** After `r`, `br` or `cr` and some hashes, the opening quote of a raw string: where the hashes start and end. */
  function RawOpen(text: string, pos: nat): (hashes: Option<(nat, nat)>)
    ensures hashes.Some? ==> pos < hashes.value.0 <= hashes.value.1 < |text| && text[hashes.value.1] == '\"'
    ensures hashes.Some? ==> forall i :: hashes.value.0 <= i < hashes.value.1 ==> text[i] == '#'
  {
    var from := if StartsAt(text, pos, "br") || StartsAt(text, pos, "cr") then pos + 2
                else if CharAt(text, pos, 'r') then pos + 1 else pos;
    if from == pos then None
    else
      var end := RunEnd(text, from, c => c == '#');
      if CharAt(text, end, '\"') then Some((from, end)) else None
  }

  /** One match of the token pattern. */
  datatype Match =
    | Plain(kind: Kind, end: nat)
    | LineComment(end: nat)
    | BlockOpen(end: nat)
    | RawString(hashes: nat, end: nat)
    | BadString

  /** The first alternative that matches, in the order of the pattern; the last one always does. */
  function MatchAt(tables: CharTables, text: string, pos: nat): (m: Match)
    requires pos < |text|
    ensures m.BadString? || pos < m.end <= |text|
    ensures m.Plain? && m.kind.Punct? ==> m.end == pos + 1
  {
    var quote := if text[pos] == 'b' || text[pos] == 'c' then pos + 1 else pos;
    if tables.space(text[pos]) then Plain(Ws, RunEnd(text, pos, tables.space))
    else if StartsAt(text, pos, "//") then LineComment(RunEnd(text, pos + 2, c => c != '\n'))
    else if StartsAt(text, pos, "/*") then BlockOpen(pos + 2)
    else if RawOpen(text, pos).Some? then
      var h := RawOpen(text, pos).value;
      RawString(h.1 - h.0, h.1 + 1)
    else if CharAt(text, quote, '\"') then
      (match StringEnd(text, quote + 1) case Some(end) => Plain(Str, end) case None => BadString)
    else if CharEnd(text, pos).Some? then Plain(CharLit, CharEnd(text, pos).value)
    else if text[pos] == '\'' && IdentEnd(tables, text, pos + 1).Some? then
      Plain(Lifetime, IdentEnd(tables, text, pos + 1).value)
    else if IdentEnd(tables, text, pos).Some? then Plain(Ident, IdentEnd(tables, text, pos).value)
    else if tables.digit(text[pos]) then Plain(Num, RunEnd(text, pos + 1, tables.word))
    else Plain(Punct, pos + 1)
  }

  function LineKind(body: string): Kind {
    if "//!" <= body then InnerDoc
    else if "///" <= body && !("////" <= body) then Doc
    else Comment
  }

  function BlockKind(body: string): Kind {
    if "/*!" <= body then InnerDoc
    else if "/**" <= body && !("/***" <= body) && body != "/**/" then Doc
    else Comment
  }

  // ---- where a comment or a raw string ends

  /** Reading nested block comments one character at a time. */
  function BlockEnd(text: string, pos: nat, depth: nat): (end: Option<nat>)
    ensures end.Some? ==> pos <= end.value && (pos <= |text| ==> end.value <= |text|)
    decreases |text| - pos
  {
    if depth == 0 then Some(pos)
    else if pos >= |text| then None
    else if StartsAt(text, pos, "/*") then BlockEnd(text, pos + 2, depth + 1)
    else if StartsAt(text, pos, "*/") then BlockEnd(text, pos + 2, depth - 1)
    else BlockEnd(text, pos + 1, depth)
  }

  predicate EdgeAt(text: string, pos: nat) {
    StartsAt(text, pos, "/*") || StartsAt(text, pos, "*/")
  }

  /** The first place at or after `from` where `word` occurs. */
  function Find(text: string, word: string, from: nat): (found: Option<nat>)
    requires from <= |text|
    ensures found.Some? ==> from <= found.value && StartsAt(text, found.value, word)
    ensures found.Some? ==> forall i :: from <= i < found.value ==> !StartsAt(text, i, word)
    ensures found.None? ==> forall i :: from <= i <= |text| ==> !StartsAt(text, i, word)
    decreases |text| - from
  {
    if StartsAt(text, from, word) then Some(from)
    else if from == |text| then None
    else Find(text, word, from + 1)
  }

  function Hashes(n: nat): (s: string)
    ensures |s| == n && forall i :: 0 <= i < n ==> s[i] == '#'
  {
    seq(n, _ => '#')
  }

  // ---- the token at a position, and all tokens

  function TokenAt(tables: CharTables, text: string, pos: nat): (t: Result<Token>)
    requires pos < |text|
    ensures t.Ok? ==> t.value.start == pos < t.value.end <= |text|
    ensures t.Ok? && t.value.kind.Punct? ==> t.value.end == pos + 1
  {
    match MatchAt(tables, text, pos)
    case Plain(kind, end) => Ok(Token(kind, pos, end))
    case LineComment(end) => Ok(Token(LineKind(text[pos..end]), pos, end))
    case BlockOpen(end) =>
      (match BlockEnd(text, end, 1)
       case Some(e) => Ok(Token(BlockKind(text[pos..e]), pos, e))
       case None => Err(UnterminatedComment(pos)))
    case RawString(hashes, end) =>
      (match Find(text, "\"" + Hashes(hashes), end)
       case Some(e) => Ok(Token(Str, pos, e + 1 + hashes))
       case None => Err(UnterminatedRaw(pos)))
    case BadString => Err(UnterminatedString(pos))
  }
}
