/** The tokens of user/sh.c: gettoken and peek over a line without NULs. */
module ShToken {
  /** From q up to eq, as q and eq of gettoken. */
  datatype Span = Span(q: nat, eq: nat)

  predicate IsSpace(c: char) {
    c == ' ' || c == '\t' || c == '\r' || c == '\n' || c == '\U{b}'
  }

  predicate IsSymbol(c: char) {
    c == '<' || c == '|' || c == '>' || c == '&' || c == ';' || c == '(' || c == ')'
  }

  predicate IsWord(c: char) {
    !IsSpace(c) && !IsSymbol(c) && c != '\0'
  }

  /** The character at i; the line ends with a NUL. */
  function At(line: string, i: nat): (c: char) {
    if i < |line| then line[i] else '\0'
  }

  ghost predicate NoNul(line: string) {
    forall i :: 0 <= i < |line| ==> line[i] != '\0'
  }

  /** A word as long as it can be to the right. */
  ghost predicate Token(line: string, t: Span) {
    t.q < t.eq <= |line| && (forall i :: t.q <= i < t.eq ==> IsWord(line[i])) && !IsWord(At(line, t.eq))
  }

  /** And to the left. */
  ghost predicate Word(line: string, t: Span) {
    Token(line, t) && (t.q > 0 ==> !IsWord(At(line, t.q - 1)))
  }

  ghost predicate Within(line: string, t: Span, a: nat, b: nat) {
    a <= t.q && t.eq <= b && Word(line, t)
  }

  /** t is the only word between a and b, or there is none. */
  ghost predicate OnlyWord(line: string, a: nat, b: nat, t: Span) {
    Within(line, t, a, b) && forall u :: Within(line, u, a, b) ==> u == t
  }

  ghost predicate NoWord(line: string, a: nat, b: nat) {
    forall u :: !Within(line, u, a, b)
  }

  /** No word runs across position b. */
  ghost predicate Cut(line: string, b: nat) {
    b <= |line| && (b > 0 ==> !IsWord(At(line, b - 1)) || !IsWord(At(line, b)))
  }

  // ---- the line as tokens ----

  /** A word, or a symbol with + for >>. */
  datatype Tok = Text(span: Span) | Sym(c: char)

  /** The end of the word at a. */
  function WordEnd(line: string, a: nat): (e: nat)
    ensures a <= e && (a < |line| && IsWord(line[a]) ==> a < e)
    decreases |line| - a
  {
    if a < |line| && IsWord(line[a]) then WordEnd(line, a + 1) else a
  }

  /** The tokens from a on. */
  function Lex(line: string, a: nat): (ts: seq<Tok>)
    decreases |line| - a
  {
    if a >= |line| then []
    else if IsSymbol(line[a]) then
      [Sym(if Step(line, a) == a + 2 then '+' else line[a])] + Lex(line, Step(line, a))
    else if IsWord(line[a]) then [Text(Span(a, WordEnd(line, a)))] + Lex(line, WordEnd(line, a))
    else Lex(line, a + 1)
  }

  lemma {:induction false} LexSpaces(line: string, a: nat, b: nat)
    requires a <= b <= |line| && forall i :: a <= i < b ==> IsSpace(line[i])
    ensures Lex(line, a) == Lex(line, b)
    decreases b - a
  {
    if a < b {
      LexSpaces(line, a + 1, b);
    }
  }

  lemma {:induction false} WordEndIs(line: string, a: nat, e: nat)
    requires a <= e <= |line| && (forall i :: a <= i < e ==> IsWord(line[i])) && !IsWord(At(line, e))
    ensures WordEnd(line, a) == e
    decreases e - a
  {
    if a < e {
      WordEndIs(line, a + 1, e);
    }
  }

  // ---- operators ----

  /** Where the scan of the operators goes on from a; >> is one of them. */
  function Step(line: string, a: nat): (b: nat) {
    if At(line, a) == '>' && At(line, a + 1) == '>' then a + 2 else a + 1
  }

  ghost predicate Hits(line: string, a: nat, b: nat)
    decreases b - a
  {
    a == b || (a < b && Hits(line, Step(line, a), b))
  }

  predicate IsOperator(c: char) {
    c == '<' || c == '>' || c == '|' || c == '&' || c == ';'
  }

  function OperatorAt(line: string, a: nat): (o: string) {
    if At(line, a) == '>' && At(line, a + 1) == '>' then "+"
    else if IsOperator(At(line, a)) then [At(line, a)] else ""
  }

  /** The operators between a and b, other than parentheses, with + for >>. */
  ghost function Operators(line: string, a: nat, b: nat): string
    decreases b - a
  {
    if a >= b then "" else OperatorAt(line, a) + Operators(line, Step(line, a), b)
  }

  lemma {:induction false} HitsTwice(line: string, a: nat, b: nat, c: nat)
    requires Hits(line, a, b) && Hits(line, b, c)
    ensures Hits(line, a, c)
    decreases b - a
  {
    HitsForward(line, b, c);
    if a < b {
      HitsTwice(line, Step(line, a), b, c);
    }
  }

  lemma {:induction false} OperatorsTwice(line: string, a: nat, b: nat, c: nat)
    requires Hits(line, a, b) && b <= c
    ensures Operators(line, a, c) == Operators(line, a, b) + Operators(line, b, c)
    decreases b - a
  {
    HitsForward(line, a, b);
    if a < b {
      hide OperatorAt;
      var m := Step(line, a);
      OperatorsTwice(line, m, b, c);
      Joined(OperatorAt(line, a), Operators(line, m, b), Operators(line, b, c));
    }
  }

  lemma Joined(x: string, y: string, z: string)
    ensures x + (y + z) == x + y + z
  {
  }

  lemma HitsBoth(line: string, a: nat, b: nat, c: nat)
    requires Hits(line, a, b) && Hits(line, b, c)
    ensures Hits(line, a, c) && Operators(line, a, c) == Operators(line, a, b) + Operators(line, b, c)
  {
    HitsForward(line, b, c);
    HitsTwice(line, a, b, c);
    OperatorsTwice(line, a, b, c);
  }

  lemma {:induction false} HitsForward(line: string, a: nat, b: nat)
    requires Hits(line, a, b)
    ensures a <= b
    decreases b - a
  {
  }

  lemma {:induction false} NoOperators(line: string, a: nat, b: nat)
    requires a <= b <= |line| && forall i :: a <= i < b ==> !IsOperator(line[i])
    ensures Hits(line, a, b) && Operators(line, a, b) == ""
    decreases b - a
  {
    if a < b {
      NoOperators(line, a + 1, b);
    }
  }

  lemma OneOperator(line: string, a: nat)
    requires a < |line|
    ensures Hits(line, a, Step(line, a)) && Operators(line, a, Step(line, a)) == OperatorAt(line, a)
  {
    assert Operators(line, Step(line, a), Step(line, a)) == "";
  }

  /** A token with whitespace around it. */
  lemma TokenOperators(line: string, s: nat, q: nat, p: nat, e: nat)
    requires s <= q <= p <= e <= |line| && (forall i :: s <= i < q ==> IsSpace(line[i])) && (forall i :: p <= i < e ==>
      IsSpace(line[i]))
    requires (q == p == |line|) || (q < |line| && p == Step(line, q)) || (forall i :: q <= i < p ==> IsWord(line[i]))
    ensures Hits(line, s, e)
    ensures Operators(line, s, e) == if q < |line| && !IsWord(line[q]) && q < p then OperatorAt(line, q) else ""
  {
    NoOperators(line, s, q);
    NoOperators(line, p, e);
    if q < |line| && p == Step(line, q) {
      OneOperator(line, q);
    } else {
      NoOperators(line, q, p);
    }
    HitsBoth(line, s, q, p);
    HitsBoth(line, s, p, e);
  }

  /** Skip whitespace. */
  method SkipSpaces(line: string, s: nat) returns (e: nat)
    requires s <= |line|
    ensures s <= e <= |line| && (forall i :: s <= i < e ==> IsSpace(line[i])) && !IsSpace(At(line, e))
  {
    e := s;
    while e < |line| && IsSpace(line[e])
      invariant s <= e <= |line| && forall i :: s <= i < e ==> IsSpace(line[i])
    {
      e := e + 1;
    }
  }

  lemma NoWordIn(line: string, a: nat, b: nat)
    requires a <= b <= |line| && forall i :: a <= i < b ==> !IsWord(line[i])
    ensures NoWord(line, a, b)
  {
    forall u
      ensures !Within(line, u, a, b)
    {
      assert a <= u.q < b ==> !IsWord(line[u.q]);
    }
  }

  lemma OneWordIn(line: string, a: nat, t: Span, b: nat)
    requires a <= t.q && t.eq <= b <= |line| && Word(line, t)
    requires (forall i :: a <= i < t.q ==> !IsWord(line[i])) && (forall i :: t.eq <= i < b ==> !IsWord(line[i]))
    ensures OnlyWord(line, a, b, t)
  {
    forall u | Within(line, u, a, b)
      ensures u == t
    {
      assert IsWord(line[u.q]);
      assert t.q <= u.q < t.eq;
    }
  }

  // ---- what has been read so far ----

  /** m holds each word between a and b once, and nothing else. */
  ghost predicate Exactly(line: string, a: nat, b: nat, m: multiset<Span>) {
    forall t :: m[t] == if Within(line, t, a, b) then 1 else 0
  }

  lemma CutWord(line: string, b: nat, t: Span)
    requires Cut(line, b)
    ensures Word(line, t) ==> t.eq <= b || b <= t.q
  {
  }

  /** Words do not run across a cut. */
  lemma ExactlyBoth(line: string, a: nat, b: nat, c: nat, m: multiset<Span>, n: multiset<Span>)
    requires a <= b <= c && Cut(line, b) && Exactly(line, a, b, m) && Exactly(line, b, c, n)
    ensures Exactly(line, a, c, m + n)
  {
    forall t: Span
      ensures (m + n)[t] == if Within(line, t, a, c) then 1 else 0
    {
      CutWord(line, b, t);
    }
  }

  /** From a to b the line has the words m, each once, and the operators o. */
  ghost predicate Read(line: string, a: nat, b: nat, m: multiset<Span>, o: string) {
    a <= b <= |line| && Cut(line, b) && Exactly(line, a, b, m) && Hits(line, a, b) && Operators(line, a, b) == o
  }

  lemma ReadBoth(line: string, a: nat, b: nat, c: nat, m: multiset<Span>, o: string, n: multiset<Span>, p: string)
    requires Read(line, a, b, m, o) && Read(line, b, c, n, p)
    ensures Read(line, a, c, m + n, o + p)
  {
    hide Cut, Exactly, Hits, Operators;
    ExactlyBoth(line, a, b, c, m, n);
    HitsBoth(line, a, b, c);
  }

  /** Nothing but whitespace and parentheses. */
  lemma ReadOn(line: string, a: nat, b: nat, c: nat, m: multiset<Span>, o: string)
    requires Read(line, a, b, m, o) && Read(line, b, c, multiset{}, "")
    ensures Read(line, a, c, m, o)
  {
    hide Read;
    ReadBoth(line, a, b, c, m, o, multiset{}, "");
    assert m + multiset{} == m && o + "" == o;
  }

  /** The token at q: where it ends, and what gettoken returns for it. */
  method TokenEnd(line: string, q: nat) returns (tok: char, p: nat)
    requires q <= |line| && NoNul(line) && !IsSpace(At(line, q))
    ensures q <= p <= |line| && (tok == '\0' <==> q == |line|) && (tok == '\0' ==> p == q)
    ensures tok == 'a' <==> q < |line| && IsWord(line[q])
    ensures tok == 'a' ==> Token(line, Span(q, p))
    ensures tok != 'a' && tok != '\0' ==> p == Step(line, q) && tok == if p == q + 2 then '+' else line[q]
  {
    p := q;
    tok := At(line, p);
    if tok == '\0' {
    } else if tok == '|' || tok == '(' || tok == ')' || tok == ';' || tok == '&' || tok == '<' {
      p := p + 1;
    } else if tok == '>' {
      p := p + 1;
      if At(line, p) == '>' {
        tok := '+';
        p := p + 1;
      }
    } else {
      tok := 'a';
      while p < |line| && !IsSpace(line[p]) && !IsSymbol(line[p])
        invariant q <= p <= |line| && forall i :: q <= i < p ==> IsWord(line[i])
      {
        p := p + 1;
      }
    }
  }

  /** gettoken: 'a' for a word, '+' for >>, NUL at the end, else the symbol itself. */
  method GetToken(line: string, s: nat) returns (tok: char, t: Span, e: nat)
    requires s <= |line| && NoNul(line) && Cut(line, s)
    ensures s <= t.q <= t.eq <= e <= |line| && (forall i :: s <= i < t.q ==> IsSpace(line[i]))
    ensures (tok == '\0' <==> t.q == |line|) && (tok != '\0' ==> t.q < t.eq)
    ensures tok == 'a' <==> t.q < |line| && IsWord(line[t.q])
    ensures tok == 'a' ==> Token(line, t) && Read(line, s, e, multiset{t}, "")
    ensures tok != 'a' ==> Read(line, s, e, multiset{}, if tok == '\0' then "" else OperatorAt(line, t.q))
    ensures tok != 'a' && tok != '\0' ==> t.eq == Step(line, t.q) && tok == if t.eq == t.q + 2 then '+' else line[t.q]
    ensures forall i :: t.eq <= i < e ==> IsSpace(line[i])
    ensures Lex(line, s) == if tok == '\0' then [] else [if tok == 'a' then Text(t) else Sym(tok)] + Lex(line, e)
    ensures tok == '\0' ==> Lex(line, e) == []
  {
    hide Lex, Read, Cut, Token;
    var q := SkipSpaces(line, s);
    var p;
    tok, p := TokenEnd(line, q);
    t := Span(q, p);
    e := SkipSpaces(line, p);
    LexToken(line, s, q, p, e, tok);
    if tok == 'a' {
      WordRead(line, s, t, e);
    } else {
      SymbolRead(line, s, t, e, tok);
    }
  }

  /** A word with whitespace around it. */
  lemma WordRead(line: string, s: nat, t: Span, e: nat)
    requires Cut(line, s) && s <= t.q && Token(line, t) && t.eq <= e <= |line| && !IsSpace(At(line, e))
    requires (forall i :: s <= i < t.q ==> IsSpace(line[i])) && (forall i :: t.eq <= i < e ==> IsSpace(line[i]))
    ensures Read(line, s, e, multiset{t}, "")
  {
    TokenOperators(line, s, t.q, t.eq, e);
    hide Hits, Operators;
    OneWordIn(line, s, t, e);
    assert Exactly(line, s, e, multiset{t});
  }

  /** A symbol, or the end, with whitespace around it. */
  lemma SymbolRead(line: string, s: nat, t: Span, e: nat, tok: char)
    requires s <= t.q <= t.eq <= e <= |line| && NoNul(line) && !IsSpace(At(line, t.q))
    requires (forall i :: s <= i < t.q ==> IsSpace(line[i])) && (forall i :: t.eq <= i < e ==> IsSpace(line[i]))
    requires tok != 'a' && (tok == '\0' <==> t.q == |line|) && (tok == '\0' ==> t.eq == t.q)
    requires t.q < |line| ==> !IsWord(line[t.q]) && t.eq == Step(line, t.q)
    ensures Read(line, s, e, multiset{}, if tok == '\0' then "" else OperatorAt(line, t.q))
  {
    TokenOperators(line, s, t.q, t.eq, e);
    hide Hits, Operators, OperatorAt;
    NoWordIn(line, s, e);
    assert Exactly(line, s, e, multiset{});
  }

  /** The first character of a symbol. */
  function First(t: Tok): (c: char) {
    if t.Text? then 'a' else if t.c == '+' then '>' else t.c
  }

  lemma LexToken(line: string, s: nat, q: nat, p: nat, e: nat, tok: char)
    requires s <= q <= p <= e <= |line| && NoNul(line) && !IsSpace(At(line, q))
    requires (forall i :: s <= i < q ==> IsSpace(line[i])) && (forall i :: p <= i < e ==> IsSpace(line[i]))
    requires (tok == '\0' <==> q == |line|) && (tok == 'a' <==> q < |line| && IsWord(line[q]))
    requires tok == 'a' ==> Token(line, Span(q, p))
    requires tok != 'a' && tok != '\0' ==> p == Step(line, q) && tok == if p == q + 2 then '+' else line[q]
    ensures Lex(line, s) == if tok == '\0' then []
                            else [if tok == 'a' then Text(Span(q, p)) else Sym(tok)] + Lex(line, e)
    ensures tok == '\0' ==> Lex(line, e) == []
  {
    LexSpaces(line, s, q);
    LexSpaces(line, p, e);
    if tok == 'a' {
      WordEndIs(line, q, p);
    }
  }

  lemma LexHead(line: string, e: nat)
    requires e <= |line| && NoNul(line) && !IsSpace(At(line, e))
    ensures Lex(line, e) == [] <==> e == |line|
    ensures e < |line| ==> if IsSymbol(line[e]) then Lex(line, e)[0].Sym? && First(Lex(line, e)[0]) == line[e]
                           else Lex(line, e)[0].Text?
  {
  }

  predicate AllSymbols(toks: string) {
    forall i :: 0 <= i < |toks| ==> IsSymbol(toks[i])
  }

  /** peek. */
  method Peek(line: string, s: nat, toks: string) returns (yes: bool, e: nat)
    requires s <= |line| && NoNul(line) && Cut(line, s)
    ensures s <= e <= |line| && !IsSpace(At(line, e)) && Read(line, s, e, multiset{}, "")
    ensures yes <==> e < |line| && line[e] in toks
    ensures Lex(line, e) == Lex(line, s)
    ensures AllSymbols(toks) ==> (yes <==> Lex(line, s) != [] && Lex(line, s)[0].Sym? && First(Lex(line, s)[0]) in toks)
  {
    e := SkipSpaces(line, s);
    LexSpaces(line, s, e);
    LexHead(line, e);
    hide Lex;
    NoOperators(line, s, e);
    NoWordIn(line, s, e);
    assert Exactly(line, s, e, multiset{});
    yes := At(line, e) != '\0' && At(line, e) in toks;
  }
}
