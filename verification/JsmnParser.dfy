/** `jsmn_parse` and its helpers, updating the parser and the token array in
    place; the token array may be absent to count tokens only. */
module JsmnParser {
  import opened Jsmn
  import opened JsmnText
  import opened JsmnVerdicts

  function Code(e: Error): int {
    match e case NOMEM => -1 case INVAL => -2 case PART => -3
  }

  function Return(result: Result): int {
    match result case Ok(n) => n case Err(e) => Code(e)
  }

  class Parser {
    var pos: nat
    var toknext: nat
    var toksuper: int

    // jsmn_init
    constructor ()
      ensures pos == 0 && toknext == 0 && toksuper == -1
    {
      pos, toknext, toksuper := 0, 0, -1;
    }

    // The parser's state with the tokens it has allocated
    ghost function Abs(tokens: array<Token>): State
      requires toknext <= tokens.Length
      reads this, tokens
    {
      State(pos, tokens[..toknext], toksuper)
    }

    // Appends a token if there is room.
    method Alloc(tokens: array<Token>, num: nat, t: Token) returns (ok: bool)
      requires toknext <= num <= tokens.Length
      modifies this`toknext, tokens
      ensures ok <==> old(toknext) < num
      ensures ok ==> toknext == old(toknext) + 1 && tokens[..toknext] == old(tokens[..toknext]) + [t]
      ensures !ok ==> toknext == old(toknext) && tokens[..] == old(tokens[..])
    {
      if toknext >= num {
        return false;
      }
      tokens[toknext] := t;
      toknext := toknext + 1;
      ok := true;
    }

    // Skips to the end of the primitive at pos; false at a stray character.
    method SkipPrimitive(js: string) returns (ok: bool)
      modifies this`pos
      ensures ok <==> ScanPrimitive(js, old(pos)).Found?
      ensures ok ==> pos == ScanPrimitive(js, old(pos)).pos
    {
      while !AtEnd(js, pos) && !IsDelimiter(js[pos])
        invariant ScanPrimitive(js, pos) == ScanPrimitive(js, old(pos))
        decreases |js| - pos
      {
        if js[pos] as int < 32 || js[pos] as int >= 127 {
          return false;
        }
        pos := pos + 1;
      }
      ok := true;
    }

    // Appends the token of the primitive at pos and stops at its last character.
    method ParsePrimitive(js: string, tokens: array?<Token>, num: nat) returns (r: int)
      requires !AtEnd(js, pos) && !IsDelimiter(js[pos])
      requires tokens != null ==> toknext <= num <= tokens.Length
      modifies this`pos, this`toknext, tokens
      ensures var scan := ScanPrimitive(js, old(pos));
        Scanned(old(pos), old(toknext), tokens == null, num, scan, if scan.Found? then scan.pos - 1 else 0, r)
      ensures tokens != null && r != 0 ==> tokens[..] == old(tokens[..])
      ensures tokens != null && r == 0 ==>
        toknext <= num && tokens[..toknext] == old(tokens[..toknext]) + [Token(PRIMITIVE, old(pos), pos + 1, 0)]
      ensures forall text | LexemeAt(js, old(pos), Prim(text)) :: r != -2 && (r == 0 ==> pos + 1 == old(pos) + |text|)
      ensures forall text | TailAt(js, old(pos), Stray(text)) :: r == -2
    {
      hide ScanPrimitive, LexemeAt, TailAt;
      PrimitiveDecides(js, pos);
      var start := pos;
      PrimitiveAdvances(js, pos);
      var found := SkipPrimitive(js);
      if !found {
        pos := start;
        return Code(INVAL);
      }
      if tokens == null {
        pos := pos - 1;
        return 0;
      }
      var ok := Alloc(tokens, num, Token(PRIMITIVE, start, pos, 0));
      if !ok {
        pos := start;
        return Code(NOMEM);
      }
      pos := pos - 1;
      r := 0;
    }

    // How a scan from start ends for the parser: at last on success, back at
    // start otherwise, with one token more if tokens are kept.
    ghost predicate Scanned(start: nat, next: nat, counting: bool, num: nat, scan: Scan, last: int, r: int)
      reads this`pos, this`toknext
    {
      if scan.Bad? then r == Code(INVAL) && pos == start && toknext == next
      else if scan.Unfinished? then r == Code(PART) && pos == start && toknext == next
      else if counting then r == 0 && pos == last && toknext == next
      else if next >= num then r == Code(NOMEM) && pos == start && toknext == next
      else r == 0 && pos == last && toknext == next + 1
    }

    // Skips up to four hex digits; false at anything else but the end.
    method SkipHex(js: string) returns (ok: bool)
      modifies this`pos
      ensures ok <==> ScanHex(js, old(pos), 0).Found?
      ensures ok ==> pos == ScanHex(js, old(pos), 0).pos
    {
      var i := 0;
      while i < 4 && !AtEnd(js, pos)
        invariant i <= 4 && ScanHex(js, pos, i) == ScanHex(js, old(pos), 0)
        decreases 4 - i
      {
        if !IsHex(js[pos]) {
          return false;
        }
        i, pos := i + 1, pos + 1;
      }
      ok := true;
    }

    // Skips to the closing quote of the string open at pos.
    method SkipString(js: string) returns (r: Scan)
      modifies this`pos
      ensures r == ScanString(js, old(pos))
      ensures r.Found? ==> pos == r.pos
    {
      while !AtEnd(js, pos)
        invariant ScanString(js, pos) == ScanString(js, old(pos))
        decreases |js| - pos
      {
        var c := js[pos];
        if c == '\"' {
          return Found(pos);
        }
        if c == '\\' && pos + 1 < |js| {
          pos := pos + 1;
          if js[pos] == 'u' {
            pos := pos + 1;
            var ok := SkipHex(js);
            if !ok {
              return Bad;
            }
            pos := pos - 1;
          } else if !IsEscape(js[pos]) {
            return Bad;
          }
        }
        pos := pos + 1;
      }
      r := Unfinished;
    }

    // Appends the token of the string at pos and stops at its closing quote.
    method ParseString(js: string, tokens: array?<Token>, num: nat) returns (r: int)
      requires tokens != null ==> toknext <= num <= tokens.Length
      modifies this`pos, this`toknext, tokens
      ensures var scan := ScanString(js, old(pos) + 1);
        Scanned(old(pos), old(toknext), tokens == null, num, scan, if scan.Found? then scan.pos else 0, r)
      ensures tokens != null && r != 0 ==> tokens[..] == old(tokens[..])
      ensures tokens != null && r == 0 ==>
        toknext <= num && tokens[..toknext] == old(tokens[..toknext]) + [Token(STRING, old(pos) + 1, pos, 0)]
      ensures forall chars, end | QuotedAt(js, old(pos), chars, end) ::
        && (r == -2 <==> end.BadEscape? || end.BadHex?)
        && (r == -3 <==> end.Cut?)
    {
      hide ScanString, QuotedAt;
      StringDecides(js, pos);
      var start := pos;
      pos := pos + 1;
      var scan := SkipString(js);
      match scan {
        case Bad =>
          pos := start;
          return Code(INVAL);
        case Unfinished =>
          pos := start;
          return Code(PART);
        case Found(_) =>
          if tokens == null {
            return 0;
          }
          var ok := Alloc(tokens, num, Token(STRING, start + 1, pos, 0));
          if !ok {
            pos := start;
            return Code(NOMEM);
          }
          r := 0;
      }
    }

    // The last open token among the first n
    method FindOpen(tokens: array<Token>, n: nat) returns (i: int)
      requires n <= tokens.Length && forall k | 0 <= k < n :: tokens[k].start >= 0
      ensures i == LastOpen(tokens[..], n)
    {
      i := n - 1;
      while i >= 0
        invariant -1 <= i < n && LastOpen(tokens[..], i + 1) == LastOpen(tokens[..], n)
        decreases i
      {
        if tokens[i].start != -1 && tokens[i].end == -1 {
          return;
        }
        i := i - 1;
      }
    }

    // One more element in the superior token
    method BumpSuper(tokens: array<Token>)
      requires -1 <= toksuper < toknext <= tokens.Length || (toksuper == -1 && toknext <= tokens.Length)
      modifies tokens
      ensures tokens[..toknext] == Bump(old(tokens[..toknext]), toksuper)
    {
      if toksuper != -1 {
        tokens[toksuper] := tokens[toksuper].(size := tokens[toksuper].size + 1);
      }
    }

    // '{' or '[': a new open token becomes the superior one.
    method OpenContainer(tokens: array<Token>, num: nat, kind: Kind) returns (ok: bool)
      requires toknext <= num <= tokens.Length && Abs(tokens).Valid() && (kind == ARRAY || kind == OBJECT)
      modifies this`toknext, this`toksuper, tokens
      ensures ok <==> Open(old(Abs(tokens)), kind, num).Next?
      ensures toknext <= num
      ensures ok ==> Abs(tokens).(pos := pos + 1) == Open(old(Abs(tokens)), kind, num).st
      ensures !ok ==> Abs(tokens) == old(Abs(tokens))
    {
      ok := Alloc(tokens, num, Token(kind, pos, -1, 0));
      if ok {
        BumpSuper(tokens);
        toksuper := toknext - 1;
      }
    }

    // '}' or ']': ends the last open token if it is of the kind, and looks for
    // the next open one below.
    method CloseContainer(tokens: array<Token>, kind: Kind) returns (ok: bool)
      requires toknext <= tokens.Length && Abs(tokens).Valid()
      modifies this`toksuper, tokens
      ensures ok <==> Close(old(Abs(tokens)), kind).Next?
      ensures ok ==> Abs(tokens).(pos := pos + 1) == Close(old(Abs(tokens)), kind).st
      ensures !ok ==> Abs(tokens) == old(Abs(tokens))
    {
      hide LastOpen;
      ghost var st := Abs(tokens);
      var i := FindOpen(tokens, toknext);
      LastOpenPrefix(tokens[..], toknext);
      if i == -1 || tokens[i].kind != kind {
        return false;
      }
      toksuper := -1;
      tokens[i] := tokens[i].(end := pos + 1);
      assert tokens[..toknext] == st.toks[i := st.toks[i].(end := pos + 1)];
      i := FindOpen(tokens, i + 1);
      LastOpenClosed(tokens[..], st.toks, LastOpen(st.toks, toknext));
      if i != -1 {
        toksuper := i;
      }
      ok := true;
    }

    // ',': back to the open container after an object's value
    method CommaSuper(tokens: array<Token>)
      requires toknext <= tokens.Length && Abs(tokens).Valid()
      modifies this`toksuper
      ensures Abs(tokens).(pos := pos + 1) == Comma(old(Abs(tokens)))
    {
      hide LastOpen;
      if toksuper != -1 && tokens[toksuper].kind != ARRAY && tokens[toksuper].kind != OBJECT {
        var i := FindOpen(tokens, toknext);
        LastOpenPrefix(tokens[..], toknext);
        if i != -1 {
          toksuper := i;
        }
      }
    }

    // Counts the token just appended for the superior token.
    method CountSuper(tokens: array<Token>, ghost toks: seq<Token>, ghost t: Token)
      requires toknext == |toks| + 1 <= tokens.Length && -1 <= toksuper < |toks|
      requires tokens[..toknext] == toks + [t]
      modifies tokens
      ensures tokens[..toknext] == Bump(toks, toksuper) + [t]
    {
      BumpSuper(tokens);
    }

    // One round with a token array; more is 1 when a token was allocated.
    method TokenRound(js: string, tokens: array<Token>, num: nat) returns (r: int, more: nat)
      requires toknext <= num <= tokens.Length && Abs(tokens).Valid() && !AtEnd(js, pos)
      modifies this, tokens
      ensures toknext <= num
      ensures match OneStep(js, old(Abs(tokens)), num)
        case Next(st) => r == 0 && Abs(tokens) == st && |st.toks| == old(toknext) + more
        case Stop(e) => r == Code(e) && Abs(tokens) == old(Abs(tokens))
    {
      hide ScanString, ScanPrimitive, LastOpen, Bump, Open, Close, Comma, LexemeAt, TailAt, QuotedAt;
      var c := js[pos];
      ghost var st := Abs(tokens);
      r, more := 0, 0;
      if c == '{' || c == '[' {
        var ok := OpenContainer(tokens, num, if c == '{' then OBJECT else ARRAY);
        OpenFails(st, if c == '{' then OBJECT else ARRAY, num);
        if !ok {
          return Code(NOMEM), 0;
        }
        more := 1;
      } else if c == '}' || c == ']' {
        var ok := CloseContainer(tokens, if c == '}' then OBJECT else ARRAY);
        CloseFails(st, if c == '}' then OBJECT else ARRAY);
        if !ok {
          return Code(INVAL), 0;
        }
      } else if c == '\"' {
        r := ParseString(js, tokens, num);
        if r < 0 {
          return;
        }
        CountSuper(tokens, st.toks, Token(STRING, st.pos + 1, pos, 0));
        more := 1;
      } else if c == '\t' || c == '\r' || c == '\n' || c == ' ' {
      } else if c == ':' {
        toksuper := toknext - 1;
      } else if c == ',' {
        CommaSuper(tokens);
        CommaKeeps(st);
      } else {
        r := ParsePrimitive(js, tokens, num);
        if r < 0 {
          return;
        }
        CountSuper(tokens, st.toks, Token(PRIMITIVE, st.pos, pos + 1, 0));
        more := 1;
      }
      pos := pos + 1;
    }

    // One round without a token array
    method CountRound(js: string) returns (r: int, more: nat)
      requires !AtEnd(js, pos)
      modifies this
      ensures toknext == old(toknext)
      ensures match OneCount(js, old(pos))
        case CountNext(p, m) => r == 0 && pos == p && more == m
        case CountStop(e) => r == Code(e)
    {
      hide ScanString, ScanPrimitive, LexemeAt, TailAt, QuotedAt;
      var c := js[pos];
      r, more := 0, 0;
      if c == '{' || c == '[' {
        more := 1;
      } else if c == '\"' {
        r := ParseString(js, null, 0);
        if r < 0 {
          return;
        }
        more := 1;
      } else if c == ':' {
        toksuper := toknext - 1;
      } else if !IsDelimiter(c) {
        r := ParsePrimitive(js, null, 0);
        if r < 0 {
          return;
        }
        more := 1;
      }
      pos := pos + 1;
    }

    // jsmn_parse with a token array: the run from the parser's state
    method Parse(js: string, tokens: array<Token>, num: nat) returns (r: int)
      requires toknext <= num <= tokens.Length && Abs(tokens).Valid()
      modifies this, tokens
      ensures toknext <= num
      ensures var (result, st) := Run(js, old(Abs(tokens)), num);
        && Abs(tokens) == st
        && r == Return(result)
      ensures forall ls, tail | Reads(js, old(pos), ls, tail) ::
        r == Return(Verdict(ls, tail, OpenBrackets(old(Abs(tokens))), old(toknext), num))
      ensures AllClean(js, old(Abs(tokens))) ==> AllClean(js, Abs(tokens))
    {
      hide OneStep, LastOpen, Reads, Verdict, AllClean, OpenBrackets;
      RunDecides(js, Abs(tokens), num);
      var count := toknext;
      while !AtEnd(js, pos)
        invariant toknext <= num && Abs(tokens).Valid() && count == toknext
        invariant Run(js, Abs(tokens), num) == Run(js, old(Abs(tokens)), num)
        decreases |js| - pos
      {
        var more;
        r, more := TokenRound(js, tokens, num);
        if r < 0 {
          return;
        }
        count := count + more;
      }
      var i := FindOpen(tokens, toknext);
      LastOpenPrefix(tokens[..], toknext);
      r := if i != -1 then Code(PART) else count;
    }

    // jsmn_parse with tokens == NULL: the number of tokens a full run needs
    method CountTokens(js: string) returns (r: int)
      modifies this
      ensures toknext == old(toknext)
      ensures r == Return(Count(js, old(pos), old(toknext)))
      ensures forall ls, tail | Reads(js, old(pos), ls, tail) :: r == Return(CountVerdict(ls, tail, old(toknext)))
    {
      hide OneCount, Reads, CountVerdict;
      CountDecides(js, pos, toknext);
      var count := toknext;
      while !AtEnd(js, pos)
        invariant toknext == old(toknext)
        invariant Count(js, pos, count) == Count(js, old(pos), old(toknext))
        decreases |js| - pos
      {
        var more;
        r, more := CountRound(js);
        if r < 0 {
          return;
        }
        count := count + more;
      }
      r := count;
    }
  }

  lemma OpenFails(st: State, kind: Kind, num: nat)
    requires st.Valid() && (kind == ARRAY || kind == OBJECT)
    ensures Open(st, kind, num).Stop? ==> Open(st, kind, num).error == NOMEM
    ensures Open(st, kind, num).Next? ==> |Open(st, kind, num).st.toks| == |st.toks| + 1 && Open(st, kind, num).st.pos == st.pos + 1
  {
  }

  lemma CommaKeeps(st: State)
    requires st.Valid()
    ensures |Comma(st).toks| == |st.toks| && Comma(st).pos == st.pos + 1
  {
    hide LastOpen;
  }

  lemma {:induction false} LastOpenPrefix(toks: seq<Token>, n: nat)
    requires n <= |toks|
    ensures forall m | n <= m <= |toks| :: LastOpen(toks[..m], n) == LastOpen(toks, n)
  {
    if n == 0 {
    } else {
      LastOpenPrefix(toks, n - 1);
    }
  }

  // With token i closed the scan from i finds what lies open below it.
  lemma LastOpenClosed(toks: seq<Token>, before: seq<Token>, i: nat)
    requires i < |before| <= |toks| && toks[i].end != -1 && toks[..i] == before[..i]
    ensures LastOpen(toks, i + 1) == LastOpen(before, i)
  {
    LastOpenPrefix(toks, i);
    LastOpenPrefix(before, i);
  }
}
