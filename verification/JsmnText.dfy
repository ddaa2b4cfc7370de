/** Which texts jsmn accepts, said on the text alone: every text is a row of
    lexemes and whatever stops the row, and the two decide the result. */
module JsmnText {
  import opened Jsmn
  import opened JsmnRuns

  // ------------------------------------------------------------------ characters

  // A character of a string: unescaped, after a backslash, or \u and 4 digits
  datatype Char = Plain(c: char) | Escape(c: char) | Unicode(h: string)
  {
    function Text(): string {
      match this
      case Plain(c) => [c]
      case Escape(c) => ['\\', c]
      case Unicode(h) => ['\\', 'u'] + h
    }

    // jsmn lets every character stand for itself but the three that have a
    // meaning to it, and takes the escapes of RFC 8259.
    predicate Allowed() {
      match this
      case Plain(c) => c !in "\"\\\0"
      case Escape(c) => c in "\"\\/bfnrt"
      case Unicode(h) => |h| == 4 && HexDigits(h)
    }
  }

  predicate HexDigit(c: char) {
    c in "0123456789abcdefABCDEF"
  }

  predicate HexDigits(s: string) {
    forall i | 0 <= i < |s| :: HexDigit(s[i])
  }

  predicate AllowedChars(s: seq<Char>) {
    forall i | 0 <= i < |s| :: s[i].Allowed()
  }

  function CharsText(s: seq<Char>): string {
    if s == [] then "" else s[0].Text() + CharsText(s[1..])
  }

  // Printable ASCII that does not end a primitive
  predicate PrimitiveText(s: string) {
    forall i | 0 <= i < |s| :: ' ' <= s[i] <= '~' && s[i] !in " ,:]}"
  }

  // --------------------------------------------------------------------- lexemes

  datatype Lexeme = Mark(c: char) | Str(chars: seq<Char>) | Prim(text: string)
  {
    function Text(): string {
      match this
      case Mark(c) => [c]
      case Str(chars) => "\"" + (CharsText(chars) + "\"")
      case Prim(text) => text
    }

    predicate Valid() {
      match this
      case Mark(c) => c in "{}[]:, \t\r\n"
      case Str(chars) => AllowedChars(chars)
      case Prim(text) => text != "" && text[0] !in "{[\"" && PrimitiveText(text)
    }
  }

  // How a string goes on behind some characters: its closing quote; the end of
  // the text, perhaps inside an escape; a backslash before anything that is no
  // escape; or something else where a hex digit belongs
  datatype StringEnd = Quote | Cut(rest: string) | BadEscape | BadHex(rest: string)

  // What stops the row of lexemes: the end of the text, a string that does not
  // reach its closing quote, or a stray character behind part of a primitive
  datatype Tail = Nothing | InString(chars: seq<Char>, end: StringEnd) | Stray(text: string)

  ghost predicate Has(js: string, pos: nat, s: string) {
    pos + |s| <= |js| && js[pos..pos + |s|] == s
  }

  // The text ends at its length or at a NUL.
  predicate NoMore(js: string, pos: nat) {
    pos >= |js| || js[pos] == '\0'
  }

  // The start of an escape with \u, fewer than four digits
  predicate HexStart(s: string) {
    2 <= |s| < 6 && s[..2] == "\\u" && HexDigits(s[2..])
  }

  ghost predicate StringEndAt(js: string, pos: nat, end: StringEnd) {
    match end
    case Quote => Has(js, pos, "\"")
    case Cut(rest) =>
      && Has(js, pos, rest) && NoMore(js, pos + |rest|)
      && (rest == "" || (rest == "\\" && pos + 1 == |js|) || HexStart(rest))
    case BadEscape => Has(js, pos, "\\") && pos + 1 < |js| && js[pos + 1] !in "\"\\/bfnrtu"
    case BadHex(rest) =>
      && Has(js, pos, rest) && HexStart(rest) && !NoMore(js, pos + |rest|)
      && !HexDigit(js[pos + |rest|])
  }

  // Behind a quote the text is these characters and then this end.
  ghost predicate StringAt(js: string, pos: nat, chars: seq<Char>, end: StringEnd) {
    AllowedChars(chars) && Has(js, pos, CharsText(chars)) && StringEndAt(js, pos + |CharsText(chars)|, end)
  }

  // A quote, these characters and then this end
  ghost predicate QuotedAt(js: string, pos: nat, chars: seq<Char>, end: StringEnd) {
    Has(js, pos, "\"") && StringAt(js, pos + 1, chars, end)
  }

  ghost predicate TailAt(js: string, pos: nat, tail: Tail) {
    match tail
    case Nothing => NoMore(js, pos)
    case InString(chars, end) => QuotedAt(js, pos, chars, end) && !end.Quote?
    case Stray(text) =>
      && PrimitiveText(text) && (text == "" || text[0] !in "{[\"") && Has(js, pos, text)
      && !NoMore(js, pos + |text|) && IsStray(js[pos + |text|])
  }

  predicate IsStray(c: char) {
    !(' ' <= c <= '~') && c !in "\t\r\n"
  }

  // A primitive is followed by a character that ends it or by the end of the text.
  predicate PrimitiveEnds(js: string, pos: nat) {
    NoMore(js, pos) || js[pos] in "\t\r\n ,:]}"
  }

  // From pos on the text is these lexemes and then this tail.
  ghost predicate Reads(js: string, pos: nat, ls: seq<Lexeme>, tail: Tail)
    decreases |ls|
  {
    if ls == [] then TailAt(js, pos, tail)
    else
      && LexemeAt(js, pos, ls[0])
      && Reads(js, pos + |ls[0].Text()|, ls[1..], tail)
  }

  ghost predicate LexemeAt(js: string, pos: nat, l: Lexeme) {
    && l.Valid() && Has(js, pos, l.Text())
    && (l.Prim? ==> PrimitiveEnds(js, pos + |l.text|))
  }

  // -------------------------------------------------------------------- verdicts

  // What the end says once the brackets before it are matched but for open ones
  function TailVerdict(tail: Tail, open: string, n: nat): Result {
    match tail
    case Nothing => if open == "" then Ok(n) else Err(PART)
    case InString(_, Cut(_)) => Err(PART)
    case _ => Err(INVAL)
  }

  // The result for a text of these lexemes and this tail behind the open
  // brackets, innermost last, and n tokens, with room for cap: brackets must
  // match, and every other lexeme that is no mark is a token.
  function Verdict(ls: seq<Lexeme>, tail: Tail, open: string, n: nat, cap: nat): Result {
    if ls == [] then TailVerdict(tail, open, n)
    else
      match ls[0]
      case Mark(c) =>
        if c == '{' || c == '[' then
          if n >= cap then Err(NOMEM) else Verdict(ls[1..], tail, open + [c], n + 1, cap)
        else if c == '}' || c == ']' then
          if open == "" || open[|open| - 1] != (if c == '}' then '{' else '[') then Err(INVAL)
          else Verdict(ls[1..], tail, open[..|open| - 1], n, cap)
        else Verdict(ls[1..], tail, open, n, cap)
      case _ =>
        if n >= cap then Err(NOMEM) else Verdict(ls[1..], tail, open, n + 1, cap)
  }

  // Without tokens nothing is known of open brackets, nor of too many tokens.
  function CountVerdict(ls: seq<Lexeme>, tail: Tail, n: nat): Result {
    if ls == [] then TailVerdict(tail, "", n)
    else CountVerdict(ls[1..], tail, if ls[0].Mark? && ls[0].c !in "{[" then n else n + 1)
  }

  // --------------------------------------------------------------- pieces of text

  lemma HasSplit(js: string, pos: nat, s: string, t: string)
    requires Has(js, pos, s + t)
    ensures Has(js, pos, s) && Has(js, pos + |s|, t)
  {
    assert js[pos..pos + |s|] == (s + t)[..|s|];
    assert js[pos + |s|..pos + |s| + |t|] == (s + t)[|s|..];
  }

  lemma HasJoin(js: string, pos: nat, s: string, t: string)
    requires Has(js, pos, s) && Has(js, pos + |s|, t)
    ensures Has(js, pos, s + t)
  {
    assert js[pos..pos + |s + t|] == js[pos..pos + |s|] + js[pos + |s|..pos + |s| + |t|];
  }

  lemma HasAt(js: string, pos: nat, s: string, i: nat)
    requires Has(js, pos, s) && i < |s|
    ensures pos + i < |js| && js[pos + i] == s[i]
  {
    assert js[pos..pos + |s|][i] == s[i];
  }

  lemma HasOne(js: string, pos: nat)
    requires pos < |js|
    ensures Has(js, pos, [js[pos]])
  {
  }

  // The scanner's tables are the texts above.
  lemma HexIs(c: char)
    ensures HexDigit(c) <==> IsHex(c)
  {
  }

  lemma EscapeIs(c: char)
    ensures c in "\"\\/bfnrt" <==> IsEscape(c)
    ensures c in "\"\\/bfnrtu" <==> IsEscape(c) || c == 'u'
  {
  }

  lemma DelimiterIs(c: char)
    ensures c in "\t\r\n ,:]}" <==> IsDelimiter(c)
    ensures c in " ,:]}" || c in "\t\r\n" <==> IsDelimiter(c)
  {
  }

  lemma MarkIs(c: char)
    ensures c in "{}[]:, \t\r\n" <==> IsDelimiter(c) || c == '{' || c == '['
    ensures c !in "{[\"" <==> c != '{' && c != '[' && c != '\"'
  {
  }

  lemma NotEnd(js: string, pos: nat)
    requires pos < |js| && IsHex(js[pos])
    ensures !AtEnd(js, pos)
  {
  }

  // ------------------------------------------------------------ what is scanned

  lemma {:induction false} ScanHexOver(js: string, pos: nat, i: nat, h: string)
    requires i + |h| <= 4 && HexDigits(h) && Has(js, pos, h)
    ensures ScanHex(js, pos, i) == ScanHex(js, pos + |h|, i + |h|)
    decreases |h|
  {
    hide HexDigit, IsHex, Has;
    if h == "" {
    } else {
      HasAt(js, pos, h, 0);
      HexIs(h[0]);
      NotEnd(js, pos);
      HasSplit(js, pos, h[..1], h[1..]) by { assert h == h[..1] + h[1..]; }
      ScanHexOver(js, pos + 1, i + 1, h[1..]);
    }
  }

  lemma ScanChar(js: string, pos: nat, c: Char)
    requires c.Allowed() && Has(js, pos, c.Text())
    ensures ScanString(js, pos) == ScanString(js, pos + |c.Text()|)
  {
    hide ScanHex, IsEscape, HexDigits;
    HasAt(js, pos, c.Text(), 0);
    match c
    case Plain(_) =>
    case Escape(e) =>
      HasAt(js, pos, c.Text(), 1);
      EscapeIs(e);
    case Unicode(h) =>
      HasAt(js, pos, c.Text(), 1);
      HasSplit(js, pos, ['\\', 'u'], h);
      ScanHexOver(js, pos + 2, 0, h);
      ScanFour(js, pos + 6);
      EscapeIs('u');
  }

  lemma ScanFour(js: string, pos: nat)
    ensures ScanHex(js, pos, 4) == Found(pos)
  {
  }

  lemma CharsTextStep(s: seq<Char>)
    ensures s == [] ==> CharsText(s) == ""
    ensures s != [] ==> CharsText(s) == s[0].Text() + CharsText(s[1..])
  {
    hide Char.Text;
  }

  lemma {:induction false} ScanOver(js: string, pos: nat, s: seq<Char>)
    requires AllowedChars(s) && Has(js, pos, CharsText(s))
    ensures ScanString(js, pos) == ScanString(js, pos + |CharsText(s)|)
    decreases |s|
  {
    hide ScanString, Has, CharsText, Char.Text, Char.Allowed;
    CharsTextStep(s);
    if s == [] {
    } else {
      HasSplit(js, pos, s[0].Text(), CharsText(s[1..]));
      ScanChar(js, pos, s[0]);
      ScanOver(js, pos + |s[0].Text()|, s[1..]);
    }
  }

  // What the scan of a string comes to
  function ScanOf(pos: nat, end: StringEnd): Scan {
    match end
    case Quote => Found(pos)
    case Cut(_) => Unfinished
    case _ => Bad
  }

  lemma ScanHexStart(js: string, pos: nat, rest: string)
    requires HexStart(rest) && Has(js, pos, rest)
    ensures pos + 2 <= |js| && js[pos] == '\\' && js[pos + 1] == 'u'
    ensures ScanHex(js, pos + 2, 0) == ScanHex(js, pos + |rest|, |rest| - 2)
  {
    hide ScanHex;
    HasAt(js, pos, rest, 0);
    HasAt(js, pos, rest, 1);
    assert rest == rest[..2] + rest[2..];
    assert rest[0] == rest[..2][0] && rest[1] == rest[..2][1];
    HasSplit(js, pos, rest[..2], rest[2..]);
    ScanHexOver(js, pos + 2, 0, rest[2..]);
  }

  lemma ShortCut(rest: string)
    requires |rest| == 1
    ensures !HexStart(rest)
  {
  }

  lemma ScanEnd(js: string, pos: nat, end: StringEnd)
    requires StringEndAt(js, pos, end)
    ensures ScanString(js, pos) == ScanOf(pos, end)
  {
    hide HexStart, HexDigits, HexDigit, IsHex, IsEscape, Has;
    match end
    case Quote =>
      HasAt(js, pos, "\"", 0);
    case Cut(rest) =>
      if |rest| == 1 {
        ShortCut(rest);
        HasAt(js, pos, "\\", 0);
        assert ScanString(js, pos + 1) == Unfinished;
      } else if rest != "" {
        ScanCut(js, pos, rest);
      }
    case BadEscape =>
      HasAt(js, pos, "\\", 0);
      EscapeIs(js[pos + 1]);
    case BadHex(rest) =>
      ScanBadHex(js, pos, rest);
  }

  lemma ScanCut(js: string, pos: nat, rest: string)
    requires HexStart(rest) && Has(js, pos, rest) && NoMore(js, pos + |rest|)
    ensures ScanString(js, pos) == Unfinished
  {
    hide HexDigits, HexDigit, IsHex, IsEscape, Has;
    ScanHexStart(js, pos, rest);
    EscapeIs('u');
    assert ScanHex(js, pos + |rest|, |rest| - 2) == Found(pos + |rest|);
    assert ScanString(js, pos + |rest|) == Unfinished;
  }

  lemma ScanBadHex(js: string, pos: nat, rest: string)
    requires HexStart(rest) && Has(js, pos, rest) && !NoMore(js, pos + |rest|)
    requires !HexDigit(js[pos + |rest|])
    ensures ScanString(js, pos) == Bad
  {
    hide HexDigits, HexDigit, IsHex, IsEscape, Has;
    ScanHexStart(js, pos, rest);
    EscapeIs('u');
    HexIs(js[pos + |rest|]);
    assert ScanHex(js, pos + |rest|, |rest| - 2) == Bad;
  }

  // A string's scan, from behind its first quote
  lemma ScanStringText(js: string, pos: nat, chars: seq<Char>, end: StringEnd)
    requires StringAt(js, pos, chars, end)
    ensures ScanString(js, pos) == ScanOf(pos + |CharsText(chars)|, end)
  {
    hide AllowedChars, Has, CharsText, StringEndAt, ScanString, ScanOf;
    ScanOver(js, pos, chars);
    ScanEnd(js, pos + |CharsText(chars)|, end);
  }

  lemma {:induction false} ScanPrimitiveOver(js: string, pos: nat, s: string)
    requires PrimitiveText(s) && Has(js, pos, s)
    ensures ScanPrimitive(js, pos) == ScanPrimitive(js, pos + |s|)
    decreases |s|
  {
    if s == "" {
    } else {
      HasAt(js, pos, s, 0);
      DelimiterIs(s[0]);
      PrintableIs(s[0]);
      HasSplit(js, pos, s[..1], s[1..]) by { assert s == s[..1] + s[1..]; }
      ScanPrimitiveOver(js, pos + 1, s[1..]);
    }
  }

  lemma PrintableIs(c: char)
    ensures ' ' <= c <= '~' <==> 32 <= c as int < 127
    ensures ' ' <= c ==> c !in "\t\r\n\0"
  {
  }
}
