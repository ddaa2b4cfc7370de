/** What every jsmn run keeps: sizing by a first run without tokens, resuming
    after NOMEM, and the shape of the token array on arbitrary text. */
module JsmnRuns {
  import opened Jsmn

  // ---------------------------------------------------------- sizing and resuming

  // A step that succeeds with one capacity is the same step with any larger one.
  lemma StepWithMore(js: string, st: State, cap: nat, cap': nat)
    requires st.Valid() && !AtEnd(js, st.pos) && cap <= cap'
    requires OneStep(js, st, cap) != Stop(NOMEM)
    ensures OneStep(js, st, cap') == OneStep(js, st, cap)
  {
    hide ScanString, ScanPrimitive, LastOpen;
  }

  // A run stopped by NOMEM goes on with a larger array as if it had had it all along.
  lemma {:induction false} Resume(js: string, st: State, cap: nat, cap': nat)
    requires st.Valid() && cap <= cap' && Run(js, st, cap).0 == Err(NOMEM)
    ensures Run(js, Run(js, st, cap).1, cap') == Run(js, st, cap')
    decreases |js| - st.pos
  {
    hide OneStep;
    if AtEnd(js, st.pos) {
    } else if OneStep(js, st, cap) != Stop(NOMEM) {
      StepWithMore(js, st, cap, cap');
      if OneStep(js, st, cap).Next? {
        Resume(js, OneStep(js, st, cap).st, cap, cap');
      }
    }
  }

  // What one step means to the counting run: the same advance, and one more
  // exactly when a token was allocated
  lemma StepCounts(js: string, st: State, cap: nat)
    requires st.Valid() && !AtEnd(js, st.pos) && OneStep(js, st, cap).Next?
    ensures var st' := OneStep(js, st, cap).st;
            |st'.toks| >= |st.toks| && Count(js, st.pos, |st.toks|) == Count(js, st'.pos, |st'.toks|)
  {
    hide ScanString, ScanPrimitive, LastOpen;
  }

  // NOMEM is reported only for a token beyond the array.
  lemma NoMemCounts(js: string, st: State, cap: nat)
    requires st.Valid() && !AtEnd(js, st.pos) && OneStep(js, st, cap) == Stop(NOMEM)
    ensures |st.toks| >= cap
    ensures Count(js, st.pos, |st.toks|).Ok? ==> Count(js, st.pos, |st.toks|).count > |st.toks|
  {
    hide ScanString, ScanPrimitive, LastOpen;
    var next := OneCount(js, st.pos);
    CountGrows(js, next.pos, |st.toks| + next.more);
  }

  lemma {:induction false} CountGrows(js: string, pos: nat, n: nat)
    ensures Count(js, pos, n).Ok? ==> Count(js, pos, n).count >= n
    decreases |js| - pos
  {
    hide OneCount;
    if !AtEnd(js, pos) && OneCount(js, pos).CountNext? {
      CountGrows(js, OneCount(js, pos).pos, n + OneCount(js, pos).more);
    }
  }

  // A successful run returns what the counting run returns, the number of its
  // tokens; a run with at least that many tokens never reports NOMEM.
  lemma {:induction false} Sizing(js: string, st: State, cap: nat)
    requires st.Valid()
    ensures Run(js, st, cap).0.Ok? ==>
              Run(js, st, cap).0 == Count(js, st.pos, |st.toks|) == Ok(|Run(js, st, cap).1.toks|)
    ensures Count(js, st.pos, |st.toks|).Ok? && Count(js, st.pos, |st.toks|).count <= cap ==>
              Run(js, st, cap).0 != Err(NOMEM)
    decreases |js| - st.pos
  {
    hide OneStep, Count;
    if AtEnd(js, st.pos) {
      CountAtEnd(js, st.pos, |st.toks|);
    } else {
      match OneStep(js, st, cap)
      case Next(st') =>
        StepCounts(js, st, cap);
        Sizing(js, st', cap);
      case Stop(e) =>
        if e == NOMEM {
          NoMemCounts(js, st, cap);
        }
    }
  }

  lemma CountAtEnd(js: string, pos: nat, n: nat)
    requires AtEnd(js, pos)
    ensures Count(js, pos, n) == Ok(n)
  {
  }

  // ------------------------------------------------------------------- structure

  function Opening(kind: Kind): char
    requires kind == OBJECT || kind == ARRAY
  {
    if kind == OBJECT then '{' else '['
  }

  function Closing(kind: Kind): char
    requires kind == OBJECT || kind == ARRAY
  {
    if kind == OBJECT then '}' else ']'
  }

  // A token behind position pos delimits a piece of the text: a container its
  // two brackets or, while open, its first; a string what lies between quotes;
  // a primitive at least one character.
  ghost predicate Delimits(js: string, pos: nat, t: Token) {
    && 0 <= t.start < pos <= |js|
    && match t.kind
       case STRING => 1 <= t.start <= t.end < pos && js[t.start - 1] == js[t.end] == '\"'
       case PRIMITIVE => t.start < t.end <= pos
       case _ =>
         && js[t.start] == Opening(t.kind)
         && (t.end == -1 || (t.start < t.end - 1 < pos && js[t.end - 1] == Closing(t.kind)))
  }

  // An earlier token ends before a later one starts, or contains it.
  predicate BeforeOrAround(t: Token, u: Token) {
    t.start < u.start && (t.end == -1 || t.end <= u.start || (u.end != -1 && u.end <= t.end))
  }

  ghost predicate Shaped(js: string, st: State) {
    && st.Valid() && st.pos <= |js|
    && (forall i | 0 <= i < |st.toks| :: Delimits(js, st.pos, st.toks[i]))
    && (forall i, j | 0 <= i < j < |st.toks| :: BeforeOrAround(st.toks[i], st.toks[j]))
  }

  lemma DelimitsLater(js: string, pos: nat, pos': nat, t: Token)
    requires pos <= pos' <= |js| && Delimits(js, pos, t)
    ensures Delimits(js, pos', t)
  {
  }

  lemma BumpDelimits(js: string, pos: nat, toks: seq<Token>, super: int, i: nat)
    requires -1 <= super < |toks| && i < |toks|
    ensures var t := Bump(toks, super)[i]; t == toks[i].(size := t.size)
  {
  }

  // A token that starts at or behind the old position may be appended.
  lemma AddShaped(js: string, st: State, pos: nat, t: Token, super: int)
    requires Shaped(js, st) && st.pos <= pos <= |js| && st.pos <= t.start && Delimits(js, pos, t)
    requires -1 <= super <= |st.toks|
    ensures Shaped(js, State(pos, Bump(st.toks, st.super) + [t], super))
  {
    var toks := Bump(st.toks, st.super);
    forall i | 0 <= i < |st.toks|
      ensures Delimits(js, pos, toks[i]) && BeforeOrAround(toks[i], t)
    {
      BumpDelimits(js, pos, st.toks, st.super, i);
      DelimitsLater(js, st.pos, pos, st.toks[i]);
    }
    forall i, j | 0 <= i < j < |st.toks| ensures BeforeOrAround(toks[i], toks[j]) {
      assert BeforeOrAround(st.toks[i], st.toks[j]);
      BumpDelimits(js, pos, st.toks, st.super, i);
      BumpDelimits(js, pos, st.toks, st.super, j);
    }
  }

  // Closing the last open token keeps the shape.
  lemma CloseShaped(js: string, st: State, kind: Kind)
    requires Shaped(js, st) && st.pos < |js| && (kind == OBJECT || kind == ARRAY) && js[st.pos] == Closing(kind)
    requires Close(st, kind).Next?
    ensures Shaped(js, Close(st, kind).st)
  {
    hide LastOpen;
    var i := LastOpen(st.toks, |st.toks|);
    var toks := Close(st, kind).st.toks;
    forall k | 0 <= k < |toks| ensures Delimits(js, st.pos + 1, toks[k]) {
      assert Delimits(js, st.pos, st.toks[k]);
    }
    forall k, m | 0 <= k < m < |toks| ensures BeforeOrAround(toks[k], toks[m]) {
      assert BeforeOrAround(st.toks[k], st.toks[m]);
      assert Delimits(js, st.pos, st.toks[m]);
    }
  }

  lemma MoveShaped(js: string, st: State, super: int)
    requires Shaped(js, st) && st.pos < |js| && -1 <= super < |st.toks|
    ensures Shaped(js, State(st.pos + 1, st.toks, super))
  {
    forall i | 0 <= i < |st.toks| ensures Delimits(js, st.pos + 1, st.toks[i]) {
      DelimitsLater(js, st.pos, st.pos + 1, st.toks[i]);
    }
  }

  // Every step on any text keeps the shape of the tokens.
  lemma StepShaped(js: string, st: State, cap: nat)
    requires Shaped(js, st) && !AtEnd(js, st.pos) && OneStep(js, st, cap).Next?
    ensures Shaped(js, OneStep(js, st, cap).st)
  {
    hide Shaped, ScanString, ScanPrimitive, LastOpen, Bump, Close;
    ShapedValid(js, st);
    var st', c := OneStep(js, st, cap).st, js[st.pos];
    if c == '{' || c == '[' {
      AddShaped(js, st, st.pos + 1, Token(if c == '{' then OBJECT else ARRAY, st.pos, -1, 0), |st.toks|);
    } else if c == '}' {
      CloseShaped(js, st, OBJECT);
    } else if c == ']' {
      CloseShaped(js, st, ARRAY);
    } else if c == '\"' {
      var e := ScanString(js, st.pos + 1).pos;
      AddShaped(js, st, e + 1, Token(STRING, st.pos + 1, e, 0), st.super);
    } else if IsDelimiter(c) {
      MoveShaped(js, st, st'.super);
    } else {
      PrimitiveAdvances(js, st.pos);
      var e := ScanPrimitive(js, st.pos).pos;
      AddShaped(js, st, e, Token(PRIMITIVE, st.pos, e, 0), st.super);
    }
  }

  lemma ShapedValid(js: string, st: State)
    requires Shaped(js, st)
    ensures st.Valid() && st.pos <= |js|
  {
  }

  // Whole runs, from the start or resumed: the shape is kept whatever the
  // outcome, and success leaves no container open and counts every token.
  lemma {:induction false} RunShaped(js: string, st: State, cap: nat)
    requires Shaped(js, st)
    ensures Shaped(js, Run(js, st, cap).1)
    ensures var (r, end) := Run(js, st, cap);
            r.Ok? ==> r.count == |end.toks| && forall i | 0 <= i < |end.toks| :: end.toks[i].end != -1
    decreases |js| - st.pos
  {
    hide OneStep, Shaped;
    ShapedValid(js, st);
    if AtEnd(js, st.pos) {
    } else if OneStep(js, st, cap).Next? {
      StepShaped(js, st, cap);
      RunShaped(js, OneStep(js, st, cap).st, cap);
    }
  }

  // ---------------------------------------------------------- the stack not kept

  // The open tokens among the first n, innermost last: the stack that the
  // backward scans replace
  function OpenStack(toks: seq<Token>, n: nat): (s: seq<nat>)
    requires n <= |toks|
    ensures forall k | 0 <= k < |s| :: s[k] < n && toks[s[k]].end == -1
  {
    if n == 0 then [] else if toks[n - 1].end == -1 then OpenStack(toks, n - 1) + [n - 1] else OpenStack(toks, n - 1)
  }

  function Top(s: seq<nat>): int {
    if s == [] then -1 else s[|s| - 1]
  }

  // The backward scan finds the top of the stack, and a second one from there
  // the top of the rest.
  lemma {:induction false} ScanFindsTop(toks: seq<Token>, n: nat)
    requires n <= |toks|
    ensures LastOpen(toks, n) == Top(OpenStack(toks, n))
    ensures OpenStack(toks, n) != [] ==>
              var s := OpenStack(toks, n);
              OpenStack(toks, LastOpen(toks, n)) == s[..|s| - 1]
  {
    if n == 0 {
    } else {
      ScanFindsTop(toks, n - 1);
    }
  }

  // Only which tokens are open decides the stack.
  lemma {:induction false} StackOfSame(toks: seq<Token>, toks': seq<Token>, n: nat)
    requires n <= |toks| && n <= |toks'|
    requires forall i | 0 <= i < n :: toks[i].end == -1 <==> toks'[i].end == -1
    ensures OpenStack(toks', n) == OpenStack(toks, n)
  {
    if n == 0 {
    } else {
      StackOfSame(toks, toks', n - 1);
    }
  }

  // Beyond the last open token nothing is open.
  lemma {:induction false} StackBelow(toks: seq<Token>, m: nat, n: nat)
    requires m <= n <= |toks| && forall i | m <= i < n :: toks[i].end != -1
    ensures OpenStack(toks, n) == OpenStack(toks, m)
    decreases n
  {
    if n == m {
    } else {
      StackBelow(toks, m, n - 1);
    }
  }

  function Stack(st: State): seq<nat> {
    OpenStack(st.toks, |st.toks|)
  }

  lemma AddStack(st: State, pos: nat, t: Token, super: int)
    requires st.Valid()
    ensures Stack(State(pos, Bump(st.toks, st.super) + [t], super))
         == if t.end == -1 then Stack(st) + [|st.toks|] else Stack(st)
  {
    var toks := Bump(st.toks, st.super) + [t];
    assert toks[..|st.toks|] == Bump(st.toks, st.super);
    forall i | 0 <= i < |st.toks| ensures toks[i].end == st.toks[i].end {
      BumpDelimits("", 0, st.toks, st.super, i);
    }
    StackOfSame(st.toks, toks, |st.toks|);
  }

  lemma CloseStack(st: State, kind: Kind)
    requires st.Valid()
    ensures Close(st, kind).Next? <==> Stack(st) != [] && st.toks[Top(Stack(st))].kind == kind
    ensures Close(st, kind).Next? ==>
              var s, st' := Stack(st), Close(st, kind).st;
              Stack(st') == s[..|s| - 1] && st'.super == Top(Stack(st'))
  {
    hide OpenStack;
    ScanFindsTop(st.toks, |st.toks|);
    if Close(st, kind).Next? {
      var i, st' := LastOpen(st.toks, |st.toks|), Close(st, kind).st;
      StackBelow(st'.toks, i, |st'.toks|);
      StackOfSame(st.toks, st'.toks, i);
      ScanFindsTop(st.toks, i);
    }
  }

  // jsmn refines a parser with an explicit stack of open containers: brackets
  // push and pop it, a closing bracket is accepted exactly when it matches the
  // top, and nothing else touches it.
  lemma StepStack(js: string, st: State, cap: nat)
    requires st.Valid() && !AtEnd(js, st.pos)
    ensures var c, r, s := js[st.pos], OneStep(js, st, cap), Stack(st);
      if c == '{' || c == '[' then
        (r.Next? <==> |st.toks| < cap) && (r.Next? ==> Stack(r.st) == s + [|st.toks|] && r.st.super == Top(Stack(r.st)))
      else if c == '}' || c == ']' then
        && (r.Next? <==> s != [] && st.toks[Top(s)].kind == if c == '}' then OBJECT else ARRAY)
        && (r.Next? ==> Stack(r.st) == s[..|s| - 1] && r.st.super == Top(Stack(r.st)))
        && (r.Stop? ==> r.error == INVAL)
      else
        r.Next? ==> Stack(r.st) == s
  {
    hide OpenStack, ScanString, ScanPrimitive, LastOpen, Bump, Close;
    var c := js[st.pos];
    if c == '{' || c == '[' {
      AddStack(st, st.pos + 1, Token(if c == '{' then OBJECT else ARRAY, st.pos, -1, 0), |st.toks|);
    } else if c == '}' {
      CloseStack(st, OBJECT);
      CloseFails(st, OBJECT);
    } else if c == ']' {
      CloseStack(st, ARRAY);
      CloseFails(st, ARRAY);
    } else if c == '\"' {
      if ScanString(js, st.pos + 1).Found? {
        var e := ScanString(js, st.pos + 1).pos;
        AddStack(st, e + 1, Token(STRING, st.pos + 1, e, 0), st.super);
      }
    } else if !IsDelimiter(c) && ScanPrimitive(js, st.pos).Found? {
      var e := ScanPrimitive(js, st.pos).pos;
      AddStack(st, e, Token(PRIMITIVE, st.pos, e, 0), st.super);
    }
  }
}
