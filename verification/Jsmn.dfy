/** The state machine of jsmn.h (neither strict mode nor parent links) on
    values: what one character does, and whole runs. */
module Jsmn {

  datatype Kind = OBJECT | ARRAY | STRING | PRIMITIVE

  // A token; end is -1 while a container is open.
  datatype Token = Token(kind: Kind, start: int, end: int, size: nat)

  datatype Error = NOMEM | INVAL | PART

  // ------------------------------------------------------------------ scanning

  datatype Scan = Found(pos: nat) | Bad | Unfinished

  const NUL: char := '\0'

  predicate AtEnd(js: string, pos: nat) {
    pos >= |js| || js[pos] == NUL
  }

  predicate IsDelimiter(c: char) {
    c == '\t' || c == '\r' || c == '\n' || c == ' ' || c == ',' || c == ']' || c == '}' || c == ':'
  }

  // Where the primitive that runs through pos ends
  function ScanPrimitive(js: string, pos: nat): (r: Scan)
    ensures r.Found? ==> pos <= r.pos && (pos <= |js| ==> r.pos <= |js|)
    ensures !r.Unfinished?
    decreases |js| - pos
  {
    if AtEnd(js, pos) || IsDelimiter(js[pos]) then Found(pos)
    else if js[pos] as int < 32 || js[pos] as int >= 127 then Bad
    else ScanPrimitive(js, pos + 1)
  }

  predicate IsHex(c: char) {
    '0' <= c <= '9' || 'A' <= c <= 'F' || 'a' <= c <= 'f'
  }

  // Up to 4 - i hex digits from pos; fewer only at the end of the text
  function ScanHex(js: string, pos: nat, i: nat): (r: Scan)
    requires i <= 4
    ensures r.Found? ==> pos <= r.pos && (pos <= |js| ==> r.pos <= |js|)
    ensures !r.Unfinished?
    decreases 4 - i
  {
    if i == 4 || AtEnd(js, pos) then Found(pos)
    else if !IsHex(js[pos]) then Bad
    else ScanHex(js, pos + 1, i + 1)
  }

  predicate IsEscape(c: char) {
    c == '\"' || c == '/' || c == '\\' || c == 'b' || c == 'f' || c == 'r' || c == 'n' || c == 't'
  }

  // Where the quote is that closes the string open at pos
  function ScanString(js: string, pos: nat): (r: Scan)
    ensures r.Found? ==> pos <= r.pos < |js| && js[r.pos] == '\"'
    decreases |js| - pos
  {
    if AtEnd(js, pos) then Unfinished
    else if js[pos] == '\"' then Found(pos)
    else if js[pos] == '\\' && pos + 1 < |js| then
      if IsEscape(js[pos + 1]) then ScanString(js, pos + 2)
      else if js[pos + 1] == 'u' then
        match ScanHex(js, pos + 2, 0)
        case Found(p) => ScanString(js, p)
        case _ => Bad
      else Bad
    else ScanString(js, pos + 1)
  }

  // -------------------------------------------------------------- parser state

  // The position, the tokens allocated so far and the superior token
  datatype State = State(pos: nat, toks: seq<Token>, super: int)
  {
    predicate Valid() {
      && -1 <= super < |toks|
      && forall i | 0 <= i < |toks| ::
           toks[i].start >= 0 && (toks[i].end == -1 ==> toks[i].kind == ARRAY || toks[i].kind == OBJECT)
    }
  }

  const START := State(0, [], -1)

  // The last open token among the first n, -1 if none
  function LastOpen(toks: seq<Token>, n: nat): (r: int)
    requires n <= |toks|
    ensures -1 <= r < n
    ensures r >= 0 ==> toks[r].end == -1
    ensures forall k | r < k < n :: toks[k].end != -1
  {
    if n == 0 then -1 else if toks[n - 1].end == -1 then n - 1 else LastOpen(toks, n - 1)
  }

  // One more element in the superior token, if there is one
  function Bump(toks: seq<Token>, super: int): (r: seq<Token>)
    requires -1 <= super < |toks|
    ensures |r| == |toks|
    ensures forall i | 0 <= i < |toks| :: r[i] == toks[i].(size := r[i].size)
  {
    if super == -1 then toks else toks[super := toks[super].(size := toks[super].size + 1)]
  }

  function Add(st: State, pos: nat, t: Token, cap: nat): (r: Step)
    requires st.Valid() && t.start >= 0 && (t.end == -1 ==> t.kind == ARRAY || t.kind == OBJECT)
    ensures r.Next? ==> r.st.Valid()
  {
    if |st.toks| >= cap then Stop(NOMEM) else Next(State(pos, Bump(st.toks, st.super) + [t], st.super))
  }

  datatype Step = Next(st: State) | Stop(error: Error)

  function Open(st: State, kind: Kind, cap: nat): (r: Step)
    requires st.Valid() && (kind == ARRAY || kind == OBJECT)
    ensures r.Next? ==> r.st.Valid()
  {
    match Add(st, st.pos + 1, Token(kind, st.pos, -1, 0), cap)
    case Stop(e) => Stop(e)
    case Next(st') => Next(st'.(super := |st.toks|))
  }

  // A closing bracket ends the last open token, which must be of its kind.
  function Close(st: State, kind: Kind): (r: Step)
    requires st.Valid()
    ensures r.Next? ==> r.st.Valid()
  {
    var i := LastOpen(st.toks, |st.toks|);
    if i == -1 || st.toks[i].kind != kind then Stop(INVAL)
    else
      Next(State(st.pos + 1, st.toks[i := st.toks[i].(end := st.pos + 1)], LastOpen(st.toks, i)))
  }

  lemma CloseFails(st: State, kind: Kind)
    requires st.Valid()
    ensures Close(st, kind).Stop? ==> Close(st, kind).error == INVAL
    ensures Close(st, kind).Next? ==> |Close(st, kind).st.toks| == |st.toks| && Close(st, kind).st.pos == st.pos + 1
  {
    hide LastOpen;
  }

  // After a comma the superior token is a container again.
  function Comma(st: State): (r: State)
    requires st.Valid()
    ensures r.Valid()
  {
    var i := LastOpen(st.toks, |st.toks|);
    if st.super != -1 && st.toks[st.super].kind != ARRAY && st.toks[st.super].kind != OBJECT && i != -1
    then State(st.pos + 1, st.toks, i)
    else State(st.pos + 1, st.toks, st.super)
  }

  // One round of the main loop, with room for cap tokens
  function OneStep(js: string, st: State, cap: nat): (r: Step)
    requires st.Valid() && !AtEnd(js, st.pos)
    ensures r.Next? ==> r.st.Valid() && st.pos < r.st.pos <= |js|
  {
    var c := js[st.pos];
    if c == '{' then Open(st, OBJECT, cap)
    else if c == '[' then Open(st, ARRAY, cap)
    else if c == '}' then Close(st, OBJECT)
    else if c == ']' then Close(st, ARRAY)
    else if c == '\"' then
      match ScanString(js, st.pos + 1)
      case Bad => Stop(INVAL)
      case Unfinished => Stop(PART)
      case Found(e) => Add(st, e + 1, Token(STRING, st.pos + 1, e, 0), cap)
    else if c == '\t' || c == '\r' || c == '\n' || c == ' ' then Next(st.(pos := st.pos + 1))
    else if c == ':' then Next(State(st.pos + 1, st.toks, |st.toks| - 1))
    else if c == ',' then Next(Comma(st))
    else
      match ScanPrimitive(js, st.pos)
      case Found(e) => PrimitiveAdvances(js, st.pos); Add(st, e, Token(PRIMITIVE, st.pos, e, 0), cap)
      case _ => Stop(INVAL)
  }

  // The main loop reaches primitives at a character that does not end them.
  lemma PrimitiveAdvances(js: string, pos: nat)
    requires !AtEnd(js, pos) && !IsDelimiter(js[pos])
    ensures ScanPrimitive(js, pos).Found? ==> ScanPrimitive(js, pos).pos > pos
  {
  }

  // ----------------------------------------------------------------------- runs

  datatype Result = Ok(count: nat) | Err(error: Error)

  // Result and final state of a run from st
  function Run(js: string, st: State, cap: nat): (r: (Result, State))
    requires st.Valid()
    ensures r.1.Valid()
    decreases |js| - st.pos
  {
    if AtEnd(js, st.pos) then
      (if LastOpen(st.toks, |st.toks|) == -1 then Ok(|st.toks|) else Err(PART), st)
    else
      match OneStep(js, st, cap)
      case Stop(e) => (Err(e), st)
      case Next(st') => Run(js, st', cap)
  }

  // One round without a token array: the next position, and how many tokens
  // (0 or 1) it stands for
  datatype CountStep = CountNext(pos: nat, more: nat) | CountStop(error: Error)

  function OneCount(js: string, pos: nat): (r: CountStep)
    requires !AtEnd(js, pos)
    ensures r.CountNext? ==> pos < r.pos <= |js|
  {
    var c := js[pos];
    if c == '{' || c == '[' then CountNext(pos + 1, 1)
    else if c == '\"' then
      match ScanString(js, pos + 1)
      case Bad => CountStop(INVAL)
      case Unfinished => CountStop(PART)
      case Found(e) => CountNext(e + 1, 1)
    else if IsDelimiter(c) then CountNext(pos + 1, 0)
    else
      match ScanPrimitive(js, pos)
      case Found(e) => PrimitiveAdvances(js, pos); CountNext(e, 1)
      case _ => CountStop(INVAL)
  }

  // A run without a token array: the number of tokens from pos on, added to n
  function Count(js: string, pos: nat, n: nat): Result
    decreases |js| - pos
  {
    if AtEnd(js, pos) then Ok(n)
    else
      match OneCount(js, pos)
      case CountStop(e) => Err(e)
      case CountNext(pos', more) => Count(js, pos', n + more)
  }
}
