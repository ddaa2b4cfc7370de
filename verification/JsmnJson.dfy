/** JSON texts (RFC 8259) with their whitespace, and the tokens jsmn finds in
    them: the pre-order traversal of the value. */
module JsmnJson {
  import opened Jsmn
  import opened JsmnText

  // --------------------------------------------------------------------- syntax

  // Value, array elements and object members, with the whitespace around them
  datatype Value =
    | Literal(text: string)
    | Text(chars: seq<Char>)
    | Array(inner: string, items: Items)
    | Object(inner: string, members: Members)

  datatype Items = NoItems | Item(before: string, v: Value, after: string, items: Items)

  datatype Members =
    | NoMembers
    | Member(before: string, key: seq<Char>, mid: string, before2: string, v: Value, after: string, members: Members)

  predicate IsSpace(s: string) {
    forall i | 0 <= i < |s| :: s[i] == ' ' || s[i] == '\t' || s[i] == '\n' || s[i] == '\r'
  }

  // Characters of RFC 8259's numbers and of the names false, null and true
  predicate IsLiteralChar(c: char) {
    '0' <= c <= '9' || 'a' <= c <= 'z' || c == '+' || c == '-' || c == '.' || c == 'E'
  }

  predicate IsLiteral(s: string) {
    s != [] && forall i | 0 <= i < |s| :: IsLiteralChar(s[i])
  }

  // RFC 8259 leaves out the control characters that jsmn lets pass.
  predicate ValidChars(s: seq<Char>) {
    AllowedChars(s) && forall i | 0 <= i < |s| :: s[i].Plain? ==> s[i].c >= ' '
  }

  predicate ValidValue(v: Value) {
    match v
    case Literal(text) => IsLiteral(text)
    case Text(chars) => ValidChars(chars)
    case Array(inner, items) => IsSpace(inner) && ValidItems(items)
    case Object(inner, members) => IsSpace(inner) && ValidMembers(members)
  }

  predicate ValidItems(items: Items) {
    match items
    case NoItems => true
    case Item(before, v, after, rest) => IsSpace(before) && ValidValue(v) && IsSpace(after) && ValidItems(rest)
  }

  predicate ValidMembers(members: Members) {
    match members
    case NoMembers => true
    case Member(before, key, mid, before2, v, after, rest) =>
      && IsSpace(before) && ValidChars(key) && IsSpace(mid) && IsSpace(before2)
      && ValidValue(v) && IsSpace(after) && ValidMembers(rest)
  }

  // ------------------------------------------------------------------- printing

  function Quoted(s: seq<Char>): string {
    "\"" + (CharsText(s) + "\"")
  }

  function Print(v: Value): string {
    match v
    case Literal(text) => text
    case Text(chars) => Quoted(chars)
    case Array(inner, items) => "[" + ((if items.NoItems? then inner else PrintItems(items)) + "]")
    case Object(inner, members) => "{" + ((if members.NoMembers? then inner else PrintMembers(members)) + "}")
  }

  // Elements with a comma before each but the first
  function PrintItems(items: Items): string
    decreases items, 0
  {
    match items
    case NoItems => ""
    case Item(before, v, after, rest) => before + (Print(v) + (after + MoreItems(rest)))
  }

  function MoreItems(items: Items): string
    decreases items, 1
  {
    if items.NoItems? then "" else "," + PrintItems(items)
  }

  function PrintMembers(members: Members): string
    decreases members, 0
  {
    match members
    case NoMembers => ""
    case Member(before, key, mid, before2, v, after, rest) =>
      before + (Quoted(key) + (mid + (":" + (before2 + (Print(v) + (after + MoreMembers(rest)))))))
  }

  function MoreMembers(members: Members): string
    decreases members, 1
  {
    if members.NoMembers? then "" else "," + PrintMembers(members)
  }

  // --------------------------------------------------------------------- tokens

  function ItemCount(items: Items): nat {
    if items.NoItems? then 0 else 1 + ItemCount(items.items)
  }

  function MemberCount(members: Members): nat {
    if members.NoMembers? then 0 else 1 + MemberCount(members.members)
  }

  // The tokens of a value printed at position pos, in pre-order
  function Tokens(v: Value, pos: nat): seq<Token> {
    match v
    case Literal(text) => [Token(PRIMITIVE, pos, pos + |text|, 0)]
    case Text(chars) => [Token(STRING, pos + 1, pos + 1 + |CharsText(chars)|, 0)]
    case Array(_, items) => [Token(ARRAY, pos, pos + |Print(v)|, ItemCount(items))] + ItemTokens(items, pos + 1)
    case Object(_, members) =>
      [Token(OBJECT, pos, pos + |Print(v)|, MemberCount(members))] + MemberTokens(members, pos + 1)
  }

  function ItemTokens(items: Items, pos: nat): seq<Token> {
    match items
    case NoItems => []
    case Item(before, v, after, rest) =>
      var at := pos + |before|;
      Tokens(v, at) + ItemTokens(rest, at + |Print(v)| + |after| + 1)
  }

  // A key counts its one value.
  function MemberTokens(members: Members, pos: nat): seq<Token> {
    match members
    case NoMembers => []
    case Member(before, key, mid, before2, v, after, rest) =>
      var k := pos + |before| + 1;
      var at := k + |CharsText(key)| + 1 + |mid| + 1 + |before2|;
      [Token(STRING, k, k + |CharsText(key)|, 1)] + (Tokens(v, at) + MemberTokens(rest, at + |Print(v)| + |after| + 1))
  }

  // -------------------------------------------------------------- reading pieces

  // Whatever ends a primitive: the end of the text or a delimiter
  predicate Ends(js: string, pos: nat) {
    AtEnd(js, pos) || IsDelimiter(js[pos])
  }

  lemma {:induction false} ScanLiteral(js: string, pos: nat, s: string)
    requires Has(js, pos, s) && Ends(js, pos + |s|) && forall i | 0 <= i < |s| :: IsLiteralChar(s[i])
    ensures ScanPrimitive(js, pos) == Found(pos + |s|)
    decreases |s|
  {
    if s == "" {
    } else {
      HasAt(js, pos, s, 0);
      HasSplit(js, pos, s[..1], s[1..]) by { assert s == s[..1] + s[1..]; }
      ScanLiteral(js, pos + 1, s[1..]);
    }
  }

  lemma ScanChars(js: string, pos: nat, s: seq<Char>)
    requires ValidChars(s) && Has(js, pos, CharsText(s) + "\"")
    ensures ScanString(js, pos) == Found(pos + |CharsText(s)|)
  {
    hide ScanString, Has, CharsText;
    HasSplit(js, pos, CharsText(s), "\"");
    ScanOver(js, pos, s);
    HasAt(js, pos + |CharsText(s)|, "\"", 0);
    ScanQuote(js, pos + |CharsText(s)|);
  }

  lemma ScanQuote(js: string, pos: nat)
    requires pos < |js| && js[pos] == '\"'
    ensures ScanString(js, pos) == Found(pos)
  {
  }

  // --------------------------------------------------------------- running pieces

  // The run from st is the run from st'.
  ghost predicate Leads(js: string, st: State, st': State, cap: nat) {
    st.Valid() && st'.Valid() && Run(js, st, cap) == Run(js, st', cap)
  }

  lemma SpaceStep(js: string, st: State, cap: nat)
    requires st.Valid() && st.pos < |js| && IsSpace(js[st.pos..st.pos + 1])
    ensures Leads(js, st, st.(pos := st.pos + 1), cap)
  {
    hide ScanString, ScanPrimitive, LastOpen, Bump;
    assert js[st.pos..st.pos + 1][0] == js[st.pos];
  }

  lemma {:induction false} RunSpace(js: string, st: State, s: string, cap: nat)
    requires st.Valid() && Has(js, st.pos, s) && IsSpace(s)
    ensures Leads(js, st, st.(pos := st.pos + |s|), cap)
    decreases |s|
  {
    hide Run;
    if s == "" {
    } else {
      HasSplit(js, st.pos, s[..1], s[1..]) by { assert s == s[..1] + s[1..]; }
      SpaceStep(js, st, cap);
      RunSpace(js, st.(pos := st.pos + 1), s[1..], cap);
    }
  }

  lemma RunLiteral(js: string, st: State, s: string, cap: nat)
    requires st.Valid() && IsLiteral(s) && Has(js, st.pos, s) && Ends(js, st.pos + |s|) && |st.toks| < cap
    ensures var t := Token(PRIMITIVE, st.pos, st.pos + |s|, 0);
            Leads(js, st, State(st.pos + |s|, Bump(st.toks, st.super) + [t], st.super), cap)
  {
    hide Bump, ScanPrimitive, ScanString, LastOpen, Has;
    HasAt(js, st.pos, s, 0);
    ScanLiteral(js, st.pos, s);
  }

  lemma RunString(js: string, st: State, s: seq<Char>, cap: nat)
    requires st.Valid() && ValidChars(s) && Has(js, st.pos, Quoted(s)) && |st.toks| < cap
    ensures var t := Token(STRING, st.pos + 1, st.pos + 1 + |CharsText(s)|, 0);
            Leads(js, st, State(st.pos + |Quoted(s)|, Bump(st.toks, st.super) + [t], st.super), cap)
  {
    hide Bump, ScanPrimitive, ScanString, LastOpen, Has, CharsText;
    HasSplit(js, st.pos, "\"", CharsText(s) + "\"");
    HasAt(js, st.pos, "\"", 0);
    ScanChars(js, st.pos + 1, s);
  }

  lemma RunOpen(js: string, st: State, kind: Kind, cap: nat)
    requires st.Valid() && |st.toks| < cap && st.pos < |js| && (kind == ARRAY || kind == OBJECT)
    requires js[st.pos] == if kind == ARRAY then '[' else '{'
    ensures var t := Token(kind, st.pos, -1, 0);
            Leads(js, st, State(st.pos + 1, Bump(st.toks, st.super) + [t], |st.toks|), cap)
  {
    hide ScanString, ScanPrimitive, LastOpen, Bump;
  }

  lemma RunClose(js: string, st: State, kind: Kind, o: nat, cap: nat)
    requires st.Valid() && st.pos < |js| && LastOpen(st.toks, |st.toks|) == o && st.toks[o].kind == kind
    requires kind == ARRAY || kind == OBJECT
    requires js[st.pos] == if kind == ARRAY then ']' else '}'
    ensures Leads(js, st, State(st.pos + 1, st.toks[o := st.toks[o].(end := st.pos + 1)], LastOpen(st.toks, o)), cap)
  {
    hide LastOpen;
  }

  lemma RunColon(js: string, st: State, cap: nat)
    requires st.Valid() && st.pos < |js| && js[st.pos] == ':'
    ensures Leads(js, st, State(st.pos + 1, st.toks, |st.toks| - 1), cap)
  {
    hide ScanString, ScanPrimitive, LastOpen, Bump;
  }

  // After a comma the superior token is the open container o, whether it was
  // already or was the key of the value before.
  lemma RunComma(js: string, st: State, o: nat, cap: nat)
    requires st.Valid() && st.pos < |js| && js[st.pos] == ',' && LastOpen(st.toks, |st.toks|) == o
    requires st.super == o || (st.super >= 0 && st.toks[st.super].kind == STRING)
    ensures Leads(js, st, State(st.pos + 1, st.toks, o), cap)
  {
    hide LastOpen;
  }

  // ------------------------------------------------------------- token array facts

  ghost predicate AllClosed(ts: seq<Token>) {
    forall i | 0 <= i < |ts| :: ts[i].start >= 0 && ts[i].end >= 0
  }

  lemma {:induction false} TokensClosed(v: Value, pos: nat)
    ensures AllClosed(Tokens(v, pos))
    decreases v
  {
    hide Print;
    match v
    case Literal(_) =>
    case Text(_) =>
    case Array(_, items) => ItemTokensClosed(items, pos + 1);
    case Object(_, members) => MemberTokensClosed(members, pos + 1);
  }

  lemma {:induction false} ItemTokensClosed(items: Items, pos: nat)
    ensures AllClosed(ItemTokens(items, pos))
    decreases items
  {
    hide Print, Tokens;
    match items
    case NoItems =>
    case Item(before, v, after, rest) =>
      TokensClosed(v, pos + |before|);
      ItemTokensClosed(rest, pos + |before| + |Print(v)| + |after| + 1);
  }

  lemma {:induction false} MemberTokensClosed(members: Members, pos: nat)
    ensures AllClosed(MemberTokens(members, pos))
    decreases members
  {
    hide Print, Tokens;
    match members
    case NoMembers =>
    case Member(before, key, mid, before2, v, after, rest) =>
      var at := pos + |before| + 1 + |CharsText(key)| + 1 + |mid| + 1 + |before2|;
      TokensClosed(v, at);
      MemberTokensClosed(rest, at + |Print(v)| + |after| + 1);
  }

  // Only the first n tokens' ends decide the scan.
  lemma {:induction false} LastOpenSame(toks: seq<Token>, toks': seq<Token>, n: nat)
    requires n <= |toks| && n <= |toks'| && forall i | 0 <= i < n :: toks[i].end == toks'[i].end
    ensures LastOpen(toks', n) == LastOpen(toks, n)
  {
    if n == 0 {
    } else {
      LastOpenSame(toks, toks', n - 1);
    }
  }

  lemma {:induction false} LastOpenAppend(toks: seq<Token>, ts: seq<Token>)
    requires AllClosed(ts)
    ensures LastOpen(toks + ts, |toks + ts|) == LastOpen(toks, |toks|)
    decreases |ts|
  {
    if ts == [] {
      assert toks + ts == toks;
    } else {
      var front := ts[..|ts| - 1];
      LastOpenAppend(toks, front);
      LastOpenSame(toks + front, toks + ts, |toks + front|);
    }
  }

  // The scan after one more element in the container o and its closed tokens
  lemma LastOpenGrown(toks: seq<Token>, o: int, ts: seq<Token>, n: nat)
    requires -1 <= o < |toks| && AllClosed(ts) && n <= |toks|
    ensures LastOpen(Bump(toks, o) + ts, |toks| + |ts|) == LastOpen(toks, |toks|)
    ensures LastOpen(Bump(toks, o) + ts, n) == LastOpen(toks, n)
  {
    hide LastOpen, Bump;
    LastOpenAppend(Bump(toks, o), ts);
    LastOpenSame(toks, Bump(toks, o), |toks|);
    LastOpenSame(toks, Bump(toks, o) + ts, n);
  }

  // ------------------------------------------------------------------ whole values

  // The state after a value: its tokens appended and counted by the superior
  // token; a container leaves the enclosing container as the superior.
  function After(st: State, v: Value): State
    requires st.Valid()
  {
    State(st.pos + |Print(v)|, Bump(st.toks, st.super) + Tokens(v, st.pos),
          if v.Literal? || v.Text? then st.super else LastOpen(st.toks, |st.toks|))
  }

  // The state after the rest of container o, len characters with n elements
  // and the closing bracket
  function Closed(st: State, o: nat, len: nat, n: nat, ts: seq<Token>): State
    requires o < |st.toks|
  {
    State(st.pos + len, st.toks[o := st.toks[o].(size := st.toks[o].size + n, end := st.pos + len)] + ts,
          LastOpen(st.toks, o))
  }

  // One element more and then the rest make up the whole.
  lemma ClosedAfterOne(st: State, o: nat, ts: seq<Token>, pos: nat, len': nat, n: nat, ts': seq<Token>, len: nat)
    requires o < |st.toks| && AllClosed(ts) && pos + len' == st.pos + len
    ensures Closed(State(pos, Bump(st.toks, o) + ts, o), o, len', n, ts') == Closed(st, o, len, n + 1, ts + ts')
  {
    hide LastOpen;
    LastOpenGrown(st.toks, o, ts, o);
  }

  ghost predicate InContainer(st: State, o: nat, kind: Kind) {
    st.Valid() && o < |st.toks| && LastOpen(st.toks, |st.toks|) == o && st.toks[o].kind == kind
  }

  lemma GrownInContainer(st: State, o: nat, kind: Kind, ts: seq<Token>, pos: nat, super: int)
    requires InContainer(st, o, kind) && AllClosed(ts) && -1 <= super < |st.toks| + |ts|
    ensures InContainer(State(pos, Bump(st.toks, o) + ts, super), o, kind)
  {
    hide LastOpen;
    LastOpenGrown(st.toks, o, ts, o);
  }

  lemma CloseNow(js: string, st: State, kind: Kind, o: nat, cap: nat)
    requires InContainer(st, o, kind) && (kind == ARRAY || kind == OBJECT)
    requires st.pos < |js| && js[st.pos] == if kind == ARRAY then ']' else '}'
    ensures Leads(js, st, Closed(st, o, 1, 0, []), cap)
  {
    hide LastOpen, Run;
    RunClose(js, st, kind, o, cap);
    var toks := st.toks[o := st.toks[o].(end := st.pos + 1)];
    assert toks + [] == toks;
  }

  lemma AfterScalar(st: State, v: Value)
    requires st.Valid() && (v.Literal? || v.Text?)
    ensures After(st, v) == State(st.pos + |Print(v)|, Bump(st.toks, st.super) + Tokens(v, st.pos), st.super)
  {
    hide Print, Tokens, Bump;
  }

  // After opening a container and closing it with n elements
  lemma AfterContainer(st: State, v: Value, kind: Kind, len: nat, n: nat, ts: seq<Token>)
    requires st.Valid() && (v.Array? || v.Object?) && |Print(v)| == len + 1
    requires Tokens(v, st.pos) == [Token(kind, st.pos, st.pos + len + 1, n)] + ts
    ensures Closed(State(st.pos + 1, Bump(st.toks, st.super) + [Token(kind, st.pos, -1, 0)], |st.toks|),
                   |st.toks|, len, n, ts) == After(st, v)
  {
    hide Print, Tokens, LastOpen, Bump;
    var o, toks := |st.toks|, Bump(st.toks, st.super) + [Token(kind, st.pos, -1, 0)];
    LastOpenSame(st.toks, toks, o);
    assert toks[o := toks[o].(size := n, end := st.pos + 1 + len)] + ts == Bump(st.toks, st.super) + Tokens(v, st.pos);
  }

  lemma OpenedContainer(st: State, kind: Kind)
    requires st.Valid() && (kind == ARRAY || kind == OBJECT)
    ensures InContainer(State(st.pos + 1, Bump(st.toks, st.super) + [Token(kind, st.pos, -1, 0)], |st.toks|), |st.toks|, kind)
  {
    hide Bump;
  }

  // What follows a value inside a container starts with a delimiter.
  lemma EndsBefore(js: string, pos: nat, after: string, rest: string)
    requires Has(js, pos, after + rest) && IsSpace(after) && rest != "" && IsDelimiter(rest[0])
    ensures Ends(js, pos)
  {
    hide Has;
    HasAt(js, pos, after + rest, 0);
  }

  lemma AfterElement(st: State, o: nat, v: Value)
    requires st.Valid() && o < |st.toks| && LastOpen(st.toks, |st.toks|) == o && st.super == o
    ensures After(st, v) == State(st.pos + |Print(v)|, Bump(st.toks, o) + Tokens(v, st.pos), o)
  {
    hide Print, Tokens, Bump, LastOpen;
  }

  // Space, a value and space, up to the comma or bracket after them
  lemma RunElement(js: string, st: State, o: nat, before: string, v: Value, after: string, rest: string, cap: nat)
    requires InContainer(st, o, ARRAY) && st.super == o && IsSpace(before) && ValidValue(v) && IsSpace(after)
    requires Has(js, st.pos, before + (Print(v) + (after + rest))) && rest != "" && IsDelimiter(rest[0])
    requires |st.toks| + |Tokens(v, st.pos + |before|)| <= cap
    ensures var at := st.pos + |before|;
            var end := State(at + |Print(v)| + |after|, Bump(st.toks, o) + Tokens(v, at), o);
            Leads(js, st, end, cap) && Has(js, end.pos, rest) && InContainer(end, o, ARRAY)
    decreases v, 1
  {
    hide Run, Print, Tokens, Has, LastOpen, Bump, IsSpace, ValidValue;
    var st1 := st.(pos := st.pos + |before|);
    HasSplit(js, st.pos, before, Print(v) + (after + rest));
    RunSpace(js, st, before, cap);
    HasSplit(js, st1.pos, Print(v), after + rest);
    EndsBefore(js, st1.pos + |Print(v)|, after, rest);
    RunValue(js, st1, v, cap);
    AfterElement(st1, o, v);
    var st2 := After(st1, v);
    HasSplit(js, st2.pos, after, rest);
    RunSpace(js, st2, after, cap);
    TokensClosed(v, st1.pos);
    GrownInContainer(st, o, ARRAY, Tokens(v, st1.pos), st2.pos + |after|, o);
  }

  lemma RunItems(js: string, st: State, o: nat, items: Items, cap: nat)
    requires InContainer(st, o, ARRAY) && st.super == o && items.Item? && ValidItems(items)
    requires Has(js, st.pos, PrintItems(items) + "]") && |st.toks| + |ItemTokens(items, st.pos)| <= cap
    ensures Leads(js, st, Closed(st, o, |PrintItems(items)| + 1, ItemCount(items), ItemTokens(items, st.pos)), cap)
    decreases items, 0
  {
    hide Run, Print, Tokens, Has, LastOpen, Bump, IsSpace, ValidValue, Closed;
    var before, v, after, more := items.before, items.v, items.after, items.items;
    var at, rest := st.pos + |before|, MoreItems(more) + "]";
    assert PrintItems(items) + "]" == before + (Print(v) + (after + rest));
    RunElement(js, st, o, before, v, after, rest, cap);
    var ts := Tokens(v, at);
    var st3 := State(at + |Print(v)| + |after|, Bump(st.toks, o) + ts, o);
    HasAt(js, st3.pos, rest, 0);
    TokensClosed(v, at);
    if more.NoItems? {
      CloseNow(js, st3, ARRAY, o, cap);
      ClosedAfterOne(st, o, ts, st3.pos, 1, 0, [], |PrintItems(items)| + 1);
    } else {
      assert rest == "," + (PrintItems(more) + "]");
      HasSplit(js, st3.pos, ",", PrintItems(more) + "]");
      RunComma(js, st3, o, cap);
      var st4 := st3.(pos := st3.pos + 1);
      GrownInContainer(st, o, ARRAY, ts, st4.pos, o);
      RunItems(js, st4, o, more, cap);
      ClosedAfterOne(st, o, ts, st4.pos, |PrintItems(more)| + 1, ItemCount(more), ItemTokens(more, st4.pos),
                     |PrintItems(items)| + 1);
    }
  }

  // The key's token, counting its value
  function KeyToken(k: nat, key: seq<Char>, n: nat): Token {
    Token(STRING, k, k + |CharsText(key)|, n)
  }

  lemma AfterKeyed(st: State, o: nat, key: Token, v: Value, pos: nat)
    requires InContainer(st, o, OBJECT) && key.kind == STRING && key.start >= 0 && key.end >= 0 && key.size == 0
    ensures var toks := Bump(st.toks, o) + [key];
            var st' := State(pos, toks, |st.toks|);
            st'.Valid() && After(st', v) == State(pos + |Print(v)|,
                                                  Bump(st.toks, o) + ([key.(size := 1)] + Tokens(v, pos)),
                                                  if v.Literal? || v.Text? then |st.toks| else o)
  {
    hide Print, Tokens, LastOpen;
    LastOpenGrown(st.toks, o, [key], o);
  }

  // Space, a key, a colon, a value and space, up to the comma or bracket after them
  lemma RunMember(js: string, st: State, o: nat, before: string, key: seq<Char>, mid: string, before2: string, v: Value,
                  after: string, rest: string, cap: nat)
    requires InContainer(st, o, OBJECT) && st.super == o && IsSpace(before) && ValidChars(key) && IsSpace(mid)
    requires IsSpace(before2) && ValidValue(v) && IsSpace(after) && rest != "" && IsDelimiter(rest[0])
    requires Has(js, st.pos, before + (Quoted(key) + (mid + (":" + (before2 + (Print(v) + (after + rest)))))))
    requires var at := st.pos + |before| + |Quoted(key)| + |mid| + 1 + |before2|;
             |st.toks| + 1 + |Tokens(v, at)| <= cap
    ensures var at := st.pos + |before| + |Quoted(key)| + |mid| + 1 + |before2|;
            var ts := [KeyToken(st.pos + |before| + 1, key, 1)] + Tokens(v, at);
            var end := State(at + |Print(v)| + |after|, Bump(st.toks, o) + ts,
                             if v.Literal? || v.Text? then |st.toks| else o);
            Leads(js, st, end, cap) && Has(js, end.pos, rest) && InContainer(end, o, OBJECT) && AllClosed(ts)
    decreases v, 1
  {
    hide Run, Print, Tokens, Has, LastOpen, Bump, IsSpace, ValidValue, ValidChars, CharsText, After, Quoted;
    RunKey(js, st, o, before, key, mid, before2, Print(v) + (after + rest), cap);
    var keyToken := KeyToken(st.pos + |before| + 1, key, 0);
    var at := st.pos + |before| + |Quoted(key)| + |mid| + 1 + |before2|;
    var st5 := State(at, Bump(st.toks, o) + [keyToken], |st.toks|);
    HasSplit(js, at, Print(v), after + rest);
    EndsBefore(js, at + |Print(v)|, after, rest);
    RunValue(js, st5, v, cap);
    AfterKeyed(st, o, keyToken, v, at);
    var st6 := After(st5, v);
    HasSplit(js, st6.pos, after, rest);
    RunSpace(js, st6, after, cap);
    TokensClosed(v, at);
    var ts := [KeyToken(st.pos + |before| + 1, key, 1)] + Tokens(v, at);
    GrownInContainer(st, o, OBJECT, ts, st6.pos + |after|, st6.super);
  }

  // Space, a key, space, a colon and space
  lemma RunKey(js: string, st: State, o: nat, before: string, key: seq<Char>, mid: string, before2: string, rest: string,
               cap: nat)
    requires InContainer(st, o, OBJECT) && st.super == o && |st.toks| < cap
    requires IsSpace(before) && ValidChars(key) && IsSpace(mid) && IsSpace(before2)
    requires Has(js, st.pos, before + (Quoted(key) + (mid + (":" + (before2 + rest)))))
    ensures var at := st.pos + |before| + |Quoted(key)| + |mid| + 1 + |before2|;
            var end := State(at, Bump(st.toks, o) + [KeyToken(st.pos + |before| + 1, key, 0)], |st.toks|);
            Leads(js, st, end, cap) && Has(js, at, rest)
  {
    hide Run, Has, LastOpen, Bump, IsSpace, ValidChars, CharsText;
    var t4 := before2 + rest;
    var t3 := ":" + t4;
    var t2 := mid + t3;
    var st1 := st.(pos := st.pos + |before|);
    HasSplit(js, st.pos, before, Quoted(key) + t2);
    RunSpace(js, st, before, cap);
    HasSplit(js, st1.pos, Quoted(key), t2);
    RunString(js, st1, key, cap);
    var st2 := State(st1.pos + |Quoted(key)|, Bump(st.toks, o) + [KeyToken(st1.pos + 1, key, 0)], o);
    HasSplit(js, st2.pos, mid, t3);
    RunSpace(js, st2, mid, cap);
    var st3 := st2.(pos := st2.pos + |mid|);
    HasAt(js, st3.pos, t3, 0);
    HasSplit(js, st3.pos, ":", t4);
    RunColon(js, st3, cap);
    var st4 := State(st3.pos + 1, st3.toks, |st.toks|);
    HasSplit(js, st4.pos, before2, rest);
    RunSpace(js, st4, before2, cap);
  }

  lemma MemberText(members: Members)
    requires members.Member?
    ensures var Member(before, key, mid, before2, v, after, more) := members;
            var text := before + (Quoted(key) + (mid + (":" + (before2 + (Print(v) + (after + (MoreMembers(more) + "}")))))));
            PrintMembers(members) + "}" == text
    ensures |PrintMembers(members)| == |members.before| + |Quoted(members.key)| + |members.mid| + 1 + |members.before2|
                                       + |Print(members.v)| + |members.after| + |MoreMembers(members.members)|
  {
    hide Print, Quoted, MoreMembers;
  }

  lemma MemberTokensStep(members: Members, pos: nat)
    requires members.Member?
    ensures var Member(before, key, mid, before2, v, after, more) := members;
            var at := pos + |before| + |Quoted(key)| + |mid| + 1 + |before2|;
            var ts := [KeyToken(pos + |before| + 1, key, 1)] + Tokens(v, at);
            MemberTokens(members, pos) == ts + MemberTokens(more, at + |Print(v)| + |after| + 1)
  {
    hide Print, Tokens, CharsText;
  }

  // A comma and the members after it
  lemma MoreMembersText(members: Members)
    requires members.Member?
    ensures MoreMembers(members) + "}" == "," + (PrintMembers(members) + "}")
    ensures |MoreMembers(members)| == 1 + |PrintMembers(members)|
  {
    hide PrintMembers;
  }

  lemma RunMembers(js: string, st: State, o: nat, members: Members, cap: nat)
    requires InContainer(st, o, OBJECT) && st.super == o && members.Member? && ValidMembers(members)
    requires Has(js, st.pos, PrintMembers(members) + "}") && |st.toks| + |MemberTokens(members, st.pos)| <= cap
    ensures Leads(js, st, Closed(st, o, |PrintMembers(members)| + 1, MemberCount(members), MemberTokens(members, st.pos)), cap)
    decreases members, 0
  {
    hide Run, Print, Quoted, PrintMembers, Tokens, MemberTokens, Has, LastOpen, Bump, IsSpace, ValidValue, ValidChars, Closed;
    var Member(before, key, mid, before2, v, after, more) := members;
    var at, rest := st.pos + |before| + |Quoted(key)| + |mid| + 1 + |before2|, MoreMembers(more) + "}";
    MemberText(members);
    MemberTokensStep(members, st.pos);
    RunMember(js, st, o, before, key, mid, before2, v, after, rest, cap);
    var ts := [KeyToken(st.pos + |before| + 1, key, 1)] + Tokens(v, at);
    var st3 := State(at + |Print(v)| + |after|, Bump(st.toks, o) + ts, if v.Literal? || v.Text? then |st.toks| else o);
    HasAt(js, st3.pos, rest, 0);
    if more.NoMembers? {
      CloseNow(js, st3, OBJECT, o, cap);
      NoMoreMembers(st3.pos + 1);
      ClosedSuper(st3, o);
      ClosedAfterOne(st, o, ts, st3.pos, 1, 0, [], |PrintMembers(members)| + 1);
    } else {
      MoreMembersText(more);
      HasSplit(js, st3.pos, ",", PrintMembers(more) + "}");
      RunComma(js, st3, o, cap);
      var st4 := State(st3.pos + 1, st3.toks, o);
      GrownInContainer(st, o, OBJECT, ts, st4.pos, o);
      RunMembers(js, st4, o, more, cap);
      ClosedAfterOne(st, o, ts, st4.pos, |PrintMembers(more)| + 1, MemberCount(more), MemberTokens(more, st4.pos),
                     |PrintMembers(members)| + 1);
    }
  }

  lemma NoMoreMembers(pos: nat)
    ensures MemberTokens(NoMembers, pos) == [] && MoreMembers(NoMembers) == "" && PrintMembers(NoMembers) == ""
  {
  }

  // Closing does not depend on the superior token.
  lemma ClosedSuper(st: State, o: nat)
    requires o < |st.toks|
    ensures Closed(st, o, 1, 0, []) == Closed(st.(super := o), o, 1, 0, [])
  {
  }

  // A printed value is read as its tokens.
  lemma RunValue(js: string, st: State, v: Value, cap: nat)
    requires st.Valid() && ValidValue(v) && Has(js, st.pos, Print(v)) && Ends(js, st.pos + |Print(v)|)
    requires |st.toks| + |Tokens(v, st.pos)| <= cap
    ensures Leads(js, st, After(st, v), cap)
    decreases v, 0
  {
    hide Run, Has, LastOpen, Bump, IsSpace, ValidItems, ValidMembers, CharsText, Closed, PrintItems, PrintMembers, After;
    match v
    case Literal(text) =>
      RunLiteral(js, st, text, cap);
      AfterScalar(st, v);
    case Text(chars) =>
      RunString(js, st, chars, cap);
      AfterScalar(st, v);
    case Array(inner, items) => RunArray(js, st, inner, items, cap);
    case Object(inner, members) => RunObject(js, st, inner, members, cap);
  }

  // Closing after space is closing.
  lemma ClosedAfterSpace(st: State, o: nat, n: nat)
    requires o < |st.toks|
    ensures Closed(st.(pos := st.pos + n), o, 1, 0, []) == Closed(st, o, n + 1, 0, [])
  {
  }

  lemma RunArray(js: string, st: State, inner: string, items: Items, cap: nat)
    requires st.Valid() && ValidValue(Array(inner, items)) && Has(js, st.pos, Print(Array(inner, items)))
    requires |st.toks| + |Tokens(Array(inner, items), st.pos)| <= cap
    ensures Leads(js, st, After(st, Array(inner, items)), cap)
    decreases items, 1
  {
    hide Run, Has, LastOpen, Bump, IsSpace, ValidItems, Closed, PrintItems, ItemTokens, After;
    var v, o := Array(inner, items), |st.toks|;
    var body := if items.NoItems? then inner else PrintItems(items);
    HasSplit(js, st.pos, "[", body + "]");
    HasAt(js, st.pos, "[", 0);
    RunOpen(js, st, ARRAY, cap);
    OpenedContainer(st, ARRAY);
    var st1 := State(st.pos + 1, Bump(st.toks, st.super) + [Token(ARRAY, st.pos, -1, 0)], o);
    if items.NoItems? {
      HasSplit(js, st1.pos, inner, "]");
      RunSpace(js, st1, inner, cap);
      HasAt(js, st1.pos + |inner|, "]", 0);
      StillInContainer(st1, o, ARRAY, st1.pos + |inner|);
      CloseNow(js, st1.(pos := st1.pos + |inner|), ARRAY, o, cap);
      ClosedAfterSpace(st1, o, |inner|);
      NoMoreItems(st1.pos);
    } else {
      RunItems(js, st1, o, items, cap);
    }
    AfterContainer(st, v, ARRAY, |body| + 1, ItemCount(items), ItemTokens(items, st1.pos));
  }

  lemma NoMoreItems(pos: nat)
    ensures ItemTokens(NoItems, pos) == []
  {
  }

  lemma StillInContainer(st: State, o: nat, kind: Kind, pos: nat)
    requires InContainer(st, o, kind)
    ensures InContainer(st.(pos := pos), o, kind)
  {
  }

  lemma RunObject(js: string, st: State, inner: string, members: Members, cap: nat)
    requires st.Valid() && ValidValue(Object(inner, members)) && Has(js, st.pos, Print(Object(inner, members)))
    requires |st.toks| + |Tokens(Object(inner, members), st.pos)| <= cap
    ensures Leads(js, st, After(st, Object(inner, members)), cap)
    decreases members, 1
  {
    hide Run, Has, LastOpen, Bump, IsSpace, ValidMembers, Closed, PrintMembers, MemberTokens, After;
    var v, o := Object(inner, members), |st.toks|;
    var body := if members.NoMembers? then inner else PrintMembers(members);
    HasSplit(js, st.pos, "{", body + "}");
    HasAt(js, st.pos, "{", 0);
    RunOpen(js, st, OBJECT, cap);
    OpenedContainer(st, OBJECT);
    var st1 := State(st.pos + 1, Bump(st.toks, st.super) + [Token(OBJECT, st.pos, -1, 0)], o);
    if members.NoMembers? {
      HasSplit(js, st1.pos, inner, "}");
      RunSpace(js, st1, inner, cap);
      HasAt(js, st1.pos + |inner|, "}", 0);
      StillInContainer(st1, o, OBJECT, st1.pos + |inner|);
      CloseNow(js, st1.(pos := st1.pos + |inner|), OBJECT, o, cap);
      ClosedAfterSpace(st1, o, |inner|);
      NoMoreMembers(st1.pos);
    } else {
      RunMembers(js, st1, o, members, cap);
    }
    AfterContainer(st, v, OBJECT, |body| + 1, MemberCount(members), MemberTokens(members, st1.pos));
  }

  // ------------------------------------------------------------------------ texts

  // A JSON text with room for its tokens: the run succeeds and leaves exactly
  // the value's tokens.
  lemma ParseText(js: string, before: string, v: Value, after: string, cap: nat)
    requires IsSpace(before) && ValidValue(v) && IsSpace(after)
    requires Has(js, 0, before + (Print(v) + after)) && AtEnd(js, |before| + |Print(v)| + |after|)
    requires |Tokens(v, |before|)| <= cap
    ensures Run(js, START, cap).0 == Ok(|Tokens(v, |before|)|)
    ensures Run(js, START, cap).1.toks == Tokens(v, |before|)
  {
    hide Run, Has, Print, Tokens, IsSpace, ValidValue, AtEnd;
    HasSplit(js, 0, before, Print(v) + after);
    RunSpace(js, START, before, cap);
    var st1 := START.(pos := |before|);
    HasSplit(js, |before|, Print(v), after);
    EndsText(js, |before| + |Print(v)|, after);
    RunValue(js, st1, v, cap);
    var st2 := After(st1, v);
    RunSpace(js, st2, after, cap);
    var st3 := st2.(pos := st2.pos + |after|);
    assert Bump([], -1) + Tokens(v, |before|) == Tokens(v, |before|);
    TokensClosed(v, |before|);
    RunEnds(js, st3, cap);
  }

  lemma EndsText(js: string, pos: nat, after: string)
    requires Has(js, pos, after) && IsSpace(after) && AtEnd(js, pos + |after|)
    ensures Ends(js, pos)
  {
    hide Has;
    if after != "" {
      HasAt(js, pos, after, 0);
    }
  }

  lemma RunEnds(js: string, st: State, cap: nat)
    requires st.Valid() && AtEnd(js, st.pos) && AllClosed(st.toks)
    ensures Run(js, st, cap) == (Ok(|st.toks|), st)
  {
    hide LastOpen;
  }
}
