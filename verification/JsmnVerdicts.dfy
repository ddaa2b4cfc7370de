/** Every jsmn run against the lexemes of its text: each text has them, and
    they decide the result; what a string or primitive token may hold. */
module JsmnVerdicts {
  import opened Jsmn
  import opened JsmnRuns
  import opened JsmnText

  // ------------------------------------------------------- every text has lexemes

  lemma {:induction false} HexReads(js: string, pos: nat, n: nat) returns (h: string)
    requires pos <= |js|
    ensures |h| <= n && HexDigits(h) && Has(js, pos, h)
    ensures |h| < n ==> NoMore(js, pos + |h|) || !HexDigit(js[pos + |h|])
    decreases n
  {
    hide HexDigit;
    h := "";
    if n == 0 || NoMore(js, pos) || !HexDigit(js[pos]) {
      return;
    }
    var rest := HexReads(js, pos + 1, n - 1);
    h := [js[pos]] + rest;
    HasOne(js, pos);
    HasJoin(js, pos, [js[pos]], rest);
  }

  // One character more in front of a string's rest
  lemma StringOn(js: string, pos: nat, c: Char, chars: seq<Char>, end: StringEnd)
    requires c.Allowed() && Has(js, pos, c.Text()) && StringAt(js, pos + |c.Text()|, chars, end)
    ensures StringAt(js, pos, [c] + chars, end)
  {
    hide Has, StringEndAt, CharsText, Char.Allowed, Char.Text;
    CharsTextStep([c] + chars);
    assert ([c] + chars)[1..] == chars;
    HasJoin(js, pos, c.Text(), CharsText(chars));
  }

  lemma NoChars(js: string, pos: nat)
    requires pos <= |js|
    ensures AllowedChars([]) && Has(js, pos, CharsText([])) && CharsText([]) == "" && Has(js, pos, "")
  {
  }

  // The character or the end that a backslash starts
  lemma BackslashReads(js: string, pos: nat) returns (c: Char, end: StringEnd)
    requires pos < |js| && js[pos] == '\\'
    ensures (c.Allowed() && c.Text() != "" && Has(js, pos, c.Text())) || (!end.Quote? && StringEndAt(js, pos, end))
  {
    c, end := Plain('\"'), Quote;
    if pos + 1 == |js| {
      end := Cut("\\");
      HasOne(js, pos);
    } else if js[pos + 1] == 'u' {
      c, end := UnicodeReads(js, pos);
    } else {
      c, end := Escape(js[pos + 1]), BadEscape;
      HasOne(js, pos);
      HasOne(js, pos + 1);
      HasJoin(js, pos, [js[pos]], [js[pos + 1]]);
    }
  }

  lemma UnicodeReads(js: string, pos: nat) returns (c: Char, end: StringEnd)
    requires pos + 1 < |js| && js[pos] == '\\' && js[pos + 1] == 'u'
    ensures (c.Allowed() && c.Text() != "" && Has(js, pos, c.Text())) || (!end.Quote? && StringEndAt(js, pos, end))
  {
    hide HexDigits, HexDigit, Has;
    var h := HexReads(js, pos + 2, 4);
    HasOne(js, pos);
    HasOne(js, pos + 1);
    HasJoin(js, pos, [js[pos]], [js[pos + 1]]);
    HasJoin(js, pos, "\\u", h);
    assert ("\\u" + h)[..2] == "\\u" && ("\\u" + h)[2..] == h;
    c := Unicode(h);
    end := if NoMore(js, pos + 2 + |h|) then Cut("\\u" + h) else BadHex("\\u" + h);
  }

  lemma {:induction false} StringReads(js: string, pos: nat) returns (chars: seq<Char>, end: StringEnd)
    requires pos <= |js|
    ensures StringAt(js, pos, chars, end)
    decreases |js| - pos
  {
    hide Has, CharsText, AllowedChars;
    NoChars(js, pos);
    chars, end := [], Quote;
    if NoMore(js, pos) {
      end := Cut("");
    } else if js[pos] == '\"' {
      HasOne(js, pos);
    } else {
      var c := Plain(js[pos]);
      HasOne(js, pos);
      if js[pos] == '\\' {
        c, end := BackslashReads(js, pos);
        if !end.Quote? && StringEndAt(js, pos, end) {
          return;
        }
      }
      HasWithin(js, pos, c.Text());
      chars, end := StringReads(js, pos + |c.Text()|);
      StringOn(js, pos, c, chars, end);
      chars := [c] + chars;
    }
  }

  lemma HasWithin(js: string, pos: nat, s: string)
    requires Has(js, pos, s)
    ensures pos + |s| <= |js|
  {
  }

  lemma {:induction false} PrimitiveReads(js: string, pos: nat) returns (text: string)
    requires pos <= |js|
    ensures PrimitiveText(text) && Has(js, pos, text)
    ensures PrimitiveEnds(js, pos + |text|) || IsStray(js[pos + |text|])
    ensures text != "" ==> text[0] == js[pos]
    decreases |js| - pos
  {
    text := "";
    if PrimitiveEnds(js, pos) || IsStray(js[pos]) {
      return;
    }
    var rest := PrimitiveReads(js, pos + 1);
    text := [js[pos]] + rest;
    HasOne(js, pos);
    HasJoin(js, pos, [js[pos]], rest);
  }

  // One lexeme more in front
  lemma ReadsOn(js: string, pos: nat, l: Lexeme, ls: seq<Lexeme>, tail: Tail)
    requires LexemeAt(js, pos, l) && Reads(js, pos + |l.Text()|, ls, tail)
    ensures Reads(js, pos, [l] + ls, tail)
  {
    hide LexemeAt, Lexeme.Text;
    assert ([l] + ls)[1..] == ls;
  }

  // The lexeme or the tail at a position before the end
  lemma NextReads(js: string, pos: nat) returns (l: Lexeme, tail: Tail)
    requires pos < |js| && !NoMore(js, pos)
    ensures (LexemeAt(js, pos, l) && l.Text() != "") || TailAt(js, pos, tail)
  {
    hide Has, CharsText, AllowedChars, PrimitiveText, StringEndAt;
    l, tail := Mark('\"'), Nothing;
    var c := js[pos];
    HasOne(js, pos);
    if c in "{}[]:, \t\r\n" {
      l := Mark(c);
    } else if c == '\"' {
      var chars, end := StringReads(js, pos + 1);
      l, tail := Str(chars), InString(chars, end);
      if end.Quote? {
        QuoteEnds(js, pos + 1 + |CharsText(chars)|);
        HasJoin(js, pos + 1, CharsText(chars), "\"");
        HasJoin(js, pos, "\"", CharsText(chars) + "\"");
      }
    } else {
      var text := PrimitiveReads(js, pos);
      l, tail := Prim(text), Stray(text);
      if text == "" {
        assert !PrimitiveEnds(js, pos);
      }
    }
  }

  lemma QuoteEnds(js: string, pos: nat)
    ensures StringEndAt(js, pos, Quote) <==> Has(js, pos, "\"")
  {
  }

  lemma LexemeWithin(js: string, pos: nat, l: Lexeme)
    requires LexemeAt(js, pos, l)
    ensures pos + |l.Text()| <= |js|
  {
  }

  lemma {:induction false} EveryTextReads(js: string, pos: nat) returns (ls: seq<Lexeme>, tail: Tail)
    requires pos <= |js|
    ensures Reads(js, pos, ls, tail)
    decreases |js| - pos
  {
    hide LexemeAt, TailAt, Lexeme.Text;
    ls, tail := [], Nothing;
    if NoMore(js, pos) {
      EndReads(js, pos);
    } else {
      var l;
      l, tail := NextReads(js, pos);
      if !TailAt(js, pos, tail) {
        LexemeWithin(js, pos, l);
        ls, tail := EveryTextReads(js, pos + |l.Text()|);
        ReadsOn(js, pos, l, ls, tail);
        ls := [l] + ls;
      }
    }
  }

  lemma EndReads(js: string, pos: nat)
    requires NoMore(js, pos)
    ensures TailAt(js, pos, Nothing)
  {
  }

  // -------------------------------------------------------- what decides the run

  function Bracket(kind: Kind): char {
    if kind == OBJECT then '{' else '['
  }

  // The brackets of the open containers, innermost last
  function OpenBrackets(st: State): (s: string)
    ensures |s| == |Stack(st)|
    ensures forall i | 0 <= i < |s| :: s[i] == Bracket(st.toks[Stack(st)[i]].kind)
  {
    seq(|Stack(st)|, i requires 0 <= i < |Stack(st)| => Bracket(st.toks[Stack(st)[i]].kind))
  }

  // A step leaves the kinds of the tokens alone.
  lemma StepKinds(js: string, st: State, cap: nat)
    requires st.Valid() && !AtEnd(js, st.pos) && OneStep(js, st, cap).Next?
    ensures var toks, c := OneStep(js, st, cap).st.toks, js[st.pos];
      && |st.toks| <= |toks|
      && (forall i | 0 <= i < |st.toks| :: toks[i].kind == st.toks[i].kind)
      && (c == '{' || c == '[' ==> |toks| == |st.toks| + 1 && Bracket(toks[|st.toks|].kind) == c)
      && (IsDelimiter(c) ==> |toks| == |st.toks|)
  {
    hide LastOpen, ScanString, ScanPrimitive;
  }

  // What a bracket or any other mark does
  lemma MarkStep(js: string, st: State, cap: nat)
    requires st.Valid() && !AtEnd(js, st.pos) && js[st.pos] in "{}[]:, \t\r\n"
    ensures var c, r, open := js[st.pos], OneStep(js, st, cap), OpenBrackets(st);
      if c == '{' || c == '[' then
        if |st.toks| >= cap then r == Stop(NOMEM)
        else r.Next? && r.st.pos == st.pos + 1 && |r.st.toks| == |st.toks| + 1 && OpenBrackets(r.st) == open + [c]
      else if c == '}' || c == ']' then
        if open == "" || open[|open| - 1] != (if c == '}' then '{' else '[') then r == Stop(INVAL)
        else r.Next? && r.st.pos == st.pos + 1 && |r.st.toks| == |st.toks| && OpenBrackets(r.st) == open[..|open| - 1]
      else
        r.Next? && r.st.pos == st.pos + 1 && |r.st.toks| == |st.toks| && OpenBrackets(r.st) == open
  {
    hide LastOpen, ScanString, ScanPrimitive, OpenStack, Bump, OpenBrackets, State.Valid;
    MarkIs(js[st.pos]);
    StepStack(js, st, cap);
    StackKinds(st);
    MarkMoves(js, st, cap);
    if OneStep(js, st, cap).Next? {
      StepKinds(js, st, cap);
    }
  }

  lemma MarkMoves(js: string, st: State, cap: nat)
    requires st.Valid() && !AtEnd(js, st.pos) && (IsDelimiter(js[st.pos]) || js[st.pos] == '{' || js[st.pos] == '[')
    ensures var c, r := js[st.pos], OneStep(js, st, cap);
      && (r.Next? ==> r.st.pos == st.pos + 1)
      && (c != '}' && c != ']' && c != '{' && c != '[' ==> r.Next?)
      && (r.Stop? ==> r.error == if c == '{' || c == '[' then NOMEM else INVAL)
  {
    hide LastOpen, ScanString, ScanPrimitive, Bump;
  }

  lemma StackKinds(st: State)
    requires st.Valid()
    ensures forall i | 0 <= i < |Stack(st)| ::
              st.toks[Stack(st)[i]].kind == ARRAY || st.toks[Stack(st)[i]].kind == OBJECT
  {
  }

  // The scan behind a string's first quote
  lemma InStringScan(js: string, pos: nat, chars: seq<Char>, end: StringEnd)
    requires QuotedAt(js, pos, chars, end)
    ensures !AtEnd(js, pos) && js[pos] == '\"'
    ensures ScanString(js, pos + 1) == ScanOf(pos + 1 + |CharsText(chars)|, end)
  {
    hide ScanString, AllowedChars, CharsText, StringEndAt, Has;
    HasAt(js, pos, "\"", 0);
    ScanStringText(js, pos + 1, chars, end);
  }

  lemma StrParts(js: string, pos: nat, chars: seq<Char>)
    requires LexemeAt(js, pos, Str(chars))
    ensures AllowedChars(chars) && Has(js, pos, "\"" + (CharsText(chars) + "\""))
  {
    hide AllowedChars, CharsText, Has;
  }

  lemma StrScan(js: string, pos: nat, chars: seq<Char>)
    requires LexemeAt(js, pos, Str(chars))
    ensures !AtEnd(js, pos) && js[pos] == '\"'
    ensures ScanString(js, pos + 1) == Found(pos + 1 + |CharsText(chars)|)
  {
    hide ScanString, AllowedChars, CharsText, Has, StringEndAt, LexemeAt;
    StrParts(js, pos, chars);
    HasSplit(js, pos, "\"", CharsText(chars) + "\"");
    HasSplit(js, pos + 1, CharsText(chars), "\"");
    QuoteEnds(js, pos + 1 + |CharsText(chars)|);
    InStringScan(js, pos, chars, Quote);
  }

  lemma PrimScan(js: string, pos: nat, text: string)
    requires LexemeAt(js, pos, Prim(text))
    ensures !AtEnd(js, pos) && !IsDelimiter(js[pos]) && js[pos] !in "{[\""
    ensures ScanPrimitive(js, pos) == Found(pos + |text|)
  {
    hide ScanPrimitive, Has, IsDelimiter;
    HasAt(js, pos, text, 0);
    PrintableIs(text[0]);
    DelimiterIs(text[0]);
    ScanPrimitiveOver(js, pos, text);
    PrimitiveFound(js, pos + |text|);
  }

  lemma PrimitiveFound(js: string, pos: nat)
    requires PrimitiveEnds(js, pos)
    ensures ScanPrimitive(js, pos) == Found(pos)
  {
    if pos < |js| {
      DelimiterIs(js[pos]);
    }
  }

  lemma StrayScan(js: string, pos: nat, text: string)
    requires TailAt(js, pos, Stray(text))
    ensures !AtEnd(js, pos) && !IsDelimiter(js[pos]) && js[pos] !in "{[\""
    ensures ScanPrimitive(js, pos) == Bad
  {
    hide ScanPrimitive, Has, IsDelimiter;
    ScanPrimitiveOver(js, pos, text);
    StrayFound(js, pos + |text|);
    if text != "" {
      HasAt(js, pos, text, 0);
      PrintableIs(text[0]);
      DelimiterIs(text[0]);
    }
  }

  lemma StrayFound(js: string, pos: nat)
    requires !NoMore(js, pos) && IsStray(js[pos])
    ensures ScanPrimitive(js, pos) == Bad && !IsDelimiter(js[pos]) && js[pos] !in "{[\""
  {
    PrintableIs(js[pos]);
    DelimiterIs(js[pos]);
  }

  // A string or a primitive takes one token, if there is room.
  lemma ValueStep(js: string, st: State, cap: nat, l: Lexeme)
    requires st.Valid() && LexemeAt(js, st.pos, l) && !l.Mark?
    ensures !AtEnd(js, st.pos)
    ensures var r := OneStep(js, st, cap);
      if |st.toks| >= cap then r == Stop(NOMEM)
      else r.Next? && r.st.pos == st.pos + |l.Text()| && |r.st.toks| == |st.toks| + 1 && OpenBrackets(r.st) == OpenBrackets(st)
  {
    hide ScanString, ScanPrimitive, LexemeAt, OpenBrackets, OpenStack, CharsText, LastOpen, Bump;
    match l {
      case Str(chars) => StrScan(js, st.pos, chars);
      case Prim(text) => PrimScan(js, st.pos, text);
    }
    StepStack(js, st, cap);
    if OneStep(js, st, cap).Next? {
      StepKinds(js, st, cap);
    }
  }

  lemma TailStep(js: string, st: State, cap: nat, tail: Tail)
    requires st.Valid() && TailAt(js, st.pos, tail) && !tail.Nothing?
    ensures !AtEnd(js, st.pos)
    ensures OneStep(js, st, cap) == Stop(if tail.InString? && tail.end.Cut? then PART else INVAL)
  {
    hide ScanString, ScanPrimitive, StringEndAt, CharsText, LastOpen, Bump, AllowedChars, PrimitiveText, Has;
    match tail
    case InString(chars, end) => InStringScan(js, st.pos, chars, end);
    case Stray(text) => StrayScan(js, st.pos, text);
  }

  // Any run on any text, for any lexemes and tail of the text
  lemma {:induction false} RunReads(js: string, st: State, cap: nat, ls: seq<Lexeme>, tail: Tail)
    requires st.Valid() && Reads(js, st.pos, ls, tail)
    ensures Run(js, st, cap).0 == Verdict(ls, tail, OpenBrackets(st), |st.toks|, cap)
    decreases |ls|
  {
    hide OneStep, TailAt, LexemeAt, OpenBrackets, OpenStack, Lexeme.Text;
    if ls == [] {
      if tail.Nothing? {
        EndVerdict(js, st, cap);
      } else {
        TailStep(js, st, cap, tail);
      }
    } else {
      if ls[0].Mark? {
        MarkAt(js, st.pos, ls[0].c);
        MarkStep(js, st, cap);
      } else {
        ValueStep(js, st, cap, ls[0]);
      }
      if OneStep(js, st, cap).Next? {
        RunReads(js, OneStep(js, st, cap).st, cap, ls[1..], tail);
      }
    }
  }

  lemma MarkAt(js: string, pos: nat, c: char)
    requires LexemeAt(js, pos, Mark(c))
    ensures !AtEnd(js, pos) && js[pos] == c && c in "{}[]:, \t\r\n" && Mark(c).Text() == [c]
  {
    HasAt(js, pos, [c], 0);
  }

  lemma EndVerdict(js: string, st: State, cap: nat)
    requires st.Valid() && TailAt(js, st.pos, Nothing)
    ensures Run(js, st, cap).0 == if OpenBrackets(st) == "" then Ok(|st.toks|) else Err(PART)
  {
    hide LastOpen, OpenStack;
    ScanFindsTop(st.toks, |st.toks|);
  }

  // ------------------------------------------------- what decides the counting run

  lemma LexemeCount(js: string, pos: nat, l: Lexeme)
    requires LexemeAt(js, pos, l)
    ensures !AtEnd(js, pos)
    ensures OneCount(js, pos) == CountNext(pos + |l.Text()|, if l.Mark? && l.c !in "{[" then 0 else 1)
  {
    hide ScanString, ScanPrimitive, LexemeAt, CharsText;
    match l {
      case Mark(c) => MarkAt(js, pos, c); MarkIs(c);
      case Str(chars) => StrScan(js, pos, chars);
      case Prim(text) => PrimScan(js, pos, text);
    }
  }

  lemma TailCount(js: string, pos: nat, tail: Tail)
    requires TailAt(js, pos, tail) && !tail.Nothing?
    ensures !AtEnd(js, pos)
    ensures OneCount(js, pos) == CountStop(if tail.InString? && tail.end.Cut? then PART else INVAL)
  {
    hide ScanString, ScanPrimitive, StringEndAt, CharsText, AllowedChars, PrimitiveText, Has;
    match tail {
      case InString(chars, end) => InStringScan(js, pos, chars, end);
      case Stray(text) => StrayScan(js, pos, text);
    }
  }

  // Any counting run, for any lexemes and tail of the text
  lemma {:induction false} CountReads(js: string, pos: nat, n: nat, ls: seq<Lexeme>, tail: Tail)
    requires Reads(js, pos, ls, tail)
    ensures Count(js, pos, n) == CountVerdict(ls, tail, n)
    decreases |ls|
  {
    hide OneCount, TailAt, LexemeAt, Lexeme.Text;
    if ls == [] {
      if tail.Nothing? {
        EndCount(js, pos, n);
      } else {
        TailCount(js, pos, tail);
      }
    } else {
      LexemeCount(js, pos, ls[0]);
      CountReads(js, pos + |ls[0].Text()|, if ls[0].Mark? && ls[0].c !in "{[" then n else n + 1, ls[1..], tail);
    }
  }

  lemma EndCount(js: string, pos: nat, n: nat)
    requires TailAt(js, pos, Nothing)
    ensures Count(js, pos, n) == Ok(n)
  {
  }

  // ----------------------------------------------------------- what a token holds

  // A string token holds characters and escapes alone, up to its quote, and a
  // primitive token printable characters none of which ends it.
  ghost predicate Clean(js: string, t: Token) {
    match t.kind
    case STRING =>
      && 1 <= t.start <= t.end < |js| && js[t.start - 1] == js[t.end] == '\"'
      && exists chars :: AllowedChars(chars) && js[t.start..t.end] == CharsText(chars)
    case PRIMITIVE =>
      0 <= t.start < t.end <= |js| && PrimitiveText(js[t.start..t.end])
    case _ => true
  }

  lemma StringClean(js: string, pos: nat)
    requires pos < |js| && js[pos] == '\"' && ScanString(js, pos + 1).Found?
    ensures Clean(js, Token(STRING, pos + 1, ScanString(js, pos + 1).pos, 0))
  {
    hide ScanString, AllowedChars, CharsText;
    var chars, end := StringReads(js, pos + 1);
    ScanStringText(js, pos + 1, chars, end);
    assert AllowedChars(chars) && js[pos + 1..ScanString(js, pos + 1).pos] == CharsText(chars);
  }

  lemma PrimitiveClean(js: string, pos: nat)
    requires !AtEnd(js, pos) && !IsDelimiter(js[pos]) && ScanPrimitive(js, pos).Found?
    ensures Clean(js, Token(PRIMITIVE, pos, ScanPrimitive(js, pos).pos, 0))
  {
    hide ScanPrimitive, PrimitiveText;
    var text := PrimitiveReads(js, pos);
    ScanPrimitiveOver(js, pos, text);
    PrimitiveAdvances(js, pos);
    if PrimitiveEnds(js, pos + |text|) {
      PrimitiveFound(js, pos + |text|);
    } else {
      DelimiterIs('\t');
      StrayOrNone(js, pos + |text|);
    }
  }

  lemma StrayOrNone(js: string, pos: nat)
    requires pos < |js| && IsStray(js[pos])
    ensures PrimitiveEnds(js, pos) || ScanPrimitive(js, pos) == Bad
  {
    if !PrimitiveEnds(js, pos) {
      StrayFound(js, pos);
    }
  }

  ghost predicate AllClean(js: string, st: State) {
    forall i | 0 <= i < |st.toks| :: Clean(js, st.toks[i])
  }

  lemma SameClean(js: string, t: Token, u: Token)
    requires Clean(js, t) && u.kind == t.kind
    requires t.kind == STRING || t.kind == PRIMITIVE ==> u.start == t.start && u.end == t.end
    ensures Clean(js, u)
  {
  }

  // The tokens of a step: the old ones, containers perhaps closed, and perhaps
  // a new one
  lemma StepTokens(js: string, st: State, cap: nat)
    requires st.Valid() && !AtEnd(js, st.pos) && OneStep(js, st, cap).Next?
    ensures var toks, c := OneStep(js, st, cap).st.toks, js[st.pos];
      && (forall i | 0 <= i < |st.toks| ::
            && toks[i].kind == st.toks[i].kind
            && (toks[i].kind == STRING || toks[i].kind == PRIMITIVE ==>
                  toks[i].start == st.toks[i].start && toks[i].end == st.toks[i].end))
      && |st.toks| <= |toks| <= |st.toks| + 1
      && (|toks| == |st.toks| + 1 ==>
            var t := toks[|st.toks|];
            || t.kind == OBJECT || t.kind == ARRAY
            || (c == '\"' && ScanString(js, st.pos + 1).Found? && t == Token(STRING, st.pos + 1, ScanString(js, st.pos + 1).pos, 0))
            || (!IsDelimiter(c) && ScanPrimitive(js, st.pos).Found? && t == Token(PRIMITIVE, st.pos, ScanPrimitive(js, st.pos).pos, 0)))
  {
    hide LastOpen, ScanString, ScanPrimitive;
  }

  lemma StepClean(js: string, st: State, cap: nat)
    requires st.Valid() && !AtEnd(js, st.pos) && AllClean(js, st) && OneStep(js, st, cap).Next?
    ensures AllClean(js, OneStep(js, st, cap).st)
  {
    hide Clean, ScanString, ScanPrimitive, OneStep, State.Valid, IsDelimiter;
    StepTokens(js, st, cap);
    var toks := OneStep(js, st, cap).st.toks;
    forall i | 0 <= i < |toks| ensures Clean(js, toks[i]) {
      if i < |st.toks| {
        SameClean(js, st.toks[i], toks[i]);
      } else if toks[i].kind == STRING {
        StringClean(js, st.pos);
      } else if toks[i].kind == PRIMITIVE {
        PrimitiveClean(js, st.pos);
      } else {
        ContainerClean(js, toks[i]);
      }
    }
  }

  lemma ContainerClean(js: string, t: Token)
    requires t.kind == OBJECT || t.kind == ARRAY
    ensures Clean(js, t)
  {
  }

  // Whole runs, whatever the outcome
  lemma {:induction false} RunClean(js: string, st: State, cap: nat)
    requires st.Valid() && AllClean(js, st)
    ensures AllClean(js, Run(js, st, cap).1)
    decreases |js| - st.pos
  {
    hide OneStep, AllClean;
    if !AtEnd(js, st.pos) && OneStep(js, st, cap).Next? {
      StepClean(js, st, cap);
      RunClean(js, OneStep(js, st, cap).st, cap);
    }
  }

  // ------------------------------------------------------------------- all at once

  lemma StringDecides(js: string, pos: nat)
    ensures forall chars, end | QuotedAt(js, pos, chars, end) ::
              && (ScanString(js, pos + 1).Bad? <==> end.BadEscape? || end.BadHex?)
              && (ScanString(js, pos + 1).Unfinished? <==> end.Cut?)
  {
    hide QuotedAt, ScanString, CharsText;
    forall chars, end | QuotedAt(js, pos, chars, end)
      ensures ScanString(js, pos + 1) == ScanOf(pos + 1 + |CharsText(chars)|, end)
    {
      InStringScan(js, pos, chars, end);
    }
  }

  lemma PrimitiveDecides(js: string, pos: nat)
    ensures forall text | LexemeAt(js, pos, Prim(text)) :: ScanPrimitive(js, pos) == Found(pos + |text|)
    ensures forall text | TailAt(js, pos, Stray(text)) :: ScanPrimitive(js, pos) == Bad
  {
    hide ScanPrimitive, LexemeAt, TailAt;
    forall text | LexemeAt(js, pos, Prim(text)) ensures ScanPrimitive(js, pos) == Found(pos + |text|) {
      PrimScan(js, pos, text);
    }
    forall text | TailAt(js, pos, Stray(text)) ensures ScanPrimitive(js, pos) == Bad {
      StrayScan(js, pos, text);
    }
  }

  lemma RunDecides(js: string, st: State, cap: nat)
    requires st.Valid()
    ensures forall ls, tail | Reads(js, st.pos, ls, tail) ::
              Run(js, st, cap).0 == Verdict(ls, tail, OpenBrackets(st), |st.toks|, cap)
    ensures AllClean(js, st) ==> AllClean(js, Run(js, st, cap).1)
  {
    hide Reads, Verdict, Run, AllClean, OpenBrackets;
    forall ls, tail | Reads(js, st.pos, ls, tail)
      ensures Run(js, st, cap).0 == Verdict(ls, tail, OpenBrackets(st), |st.toks|, cap)
    {
      RunReads(js, st, cap, ls, tail);
    }
    if AllClean(js, st) {
      RunClean(js, st, cap);
    }
  }

  lemma CountDecides(js: string, pos: nat, n: nat)
    ensures forall ls, tail | Reads(js, pos, ls, tail) :: Count(js, pos, n) == CountVerdict(ls, tail, n)
  {
    hide Reads, CountVerdict, Count;
    forall ls, tail | Reads(js, pos, ls, tail) ensures Count(js, pos, n) == CountVerdict(ls, tail, n) {
      CountReads(js, pos, n, ls, tail);
    }
  }

  // ---------------------------------------------------------------------- samples

  lemma UnknownEscape(cap: nat)
    requires cap >= 1
    ensures Run("[\"\\q\"]", START, cap).0 == Err(INVAL) == Count("[\"\\q\"]", 0, 0)
  {
  }

  // A digit missing from \u, a bracket of the wrong kind and a stray character
  // are invalid.
  lemma InvalidSamples(cap: nat)
    requires cap >= 1
    ensures Run("[\"\\u12\"]", START, cap).0 == Err(INVAL)
    ensures Run("[}", START, cap).0 == Err(INVAL)
    ensures Run("[1\U{7f}]", START, cap).0 == Err(INVAL)
  {
  }

  // An open string, an escape cut off and an open array are parts.
  lemma PartSamples(cap: nat)
    requires cap >= 1
    ensures Run("[\"", START, cap).0 == Err(PART)
    ensures Run("\"\\u12", START, cap).0 == Err(PART)
    ensures Run("[", START, cap).0 == Err(PART)
  {
  }
}
