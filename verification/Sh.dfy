/** The recursive-descent parser of user/sh.c, and nulterminate. */
module Sh {
  import opened ShToken
  import opened ShSyntax

  datatype Result = Ok(cmd: Cmd) | Panic(msg: string)

  /** The parser has done what the grammar says, and left these tokens. */
  ghost predicate Agrees(r: Result, left: seq<Tok>, out: Out) {
    match out
    case Yes(cmd, rest) => r == Ok(cmd) && left == rest
    case No(msg) => r == Panic(msg)
  }

  /** The words that a command refers to. */
  ghost function Spans(c: Cmd): multiset<Span> {
    match c
    case Exec(args) => multiset(args)
    case Redir(cmd, file, _, _) => Spans(cmd) + multiset{file}
    case Pipe(l, r) => Spans(l) + Spans(r)
    case List(l, r) => Spans(l) + Spans(r)
    case Back(cmd) => Spans(cmd)
  }

  /** argv of every command has room for its terminating null. */
  ghost predicate ArgsFit(c: Cmd) {
    match c
    case Exec(args) => |args| < MAXARGS
    case Redir(cmd, _, _, _) => ArgsFit(cmd)
    case Pipe(l, r) => ArgsFit(l) && ArgsFit(r)
    case List(l, r) => ArgsFit(l) && ArgsFit(r)
    case Back(cmd) => ArgsFit(cmd)
  }

  function Symbol(mode: nat): (c: char) {
    if mode == O_RDONLY then '<' else if mode == O_WRONLY + O_CREATE + O_TRUNC then '>' else '+'
  }

  /** The operators of a command, from left to right. */
  ghost function Ops(c: Cmd): string {
    match c
    case Exec(_) => ""
    case Redir(cmd, _, mode, _) => Ops(cmd) + [Symbol(mode)]
    case Pipe(l, r) => Ops(l) + "|" + Ops(r)
    case List(l, r) => Ops(l) + ";" + Ops(r)
    case Back(cmd) => Ops(cmd) + "&"
  }

  /** The operator before the file says how it is opened. */
  ghost predicate RedirOk(line: string, file: Span, mode: nat, fd: nat) {
    exists p: nat :: RedirAt(line, p, file, mode, fd)
  }

  ghost predicate RedirAt(line: string, p: nat, file: Span, mode: nat, fd: nat) {
    && p < |line| && Step(line, p) <= file.q <= |line| && (forall i :: Step(line, p) <= i < file.q ==> IsSpace(line[i]))
    && (line[p] == '<' || line[p] == '>')
    && mode == (if line[p] == '<' then O_RDONLY else if Step(line, p) == p + 2 then O_WRONLY + O_CREATE
                else O_WRONLY + O_CREATE + O_TRUNC)
    && fd == if line[p] == '<' then 0 else 1
  }

  /** Arguments and operands stand in the order of the text. */
  ghost predicate InOrder(line: string, c: Cmd, a: nat, b: nat) {
    match c
    case Exec(args) =>
      && (forall i :: 0 <= i < |args| ==> a <= args[i].q && args[i].eq <= b)
      && (forall i, j :: 0 <= i < j < |args| ==> args[i].eq <= args[j].q)
    case Redir(cmd, file, mode, fd) => InOrder(line, cmd, a, b) && a <= file.q && file.eq <= b && RedirOk(line, file,
        mode, fd)
    case Pipe(l, r) => exists m: nat :: InOrder(line, l, a, m) && InOrder(line, r, m, b)
    case List(l, r) => exists m: nat :: InOrder(line, l, a, m) && InOrder(line, r, m, b)
    case Back(cmd) => InOrder(line, cmd, a, b)
  }

  lemma {:induction false} InOrderWider(line: string, c: Cmd, a: nat, b: nat, a': nat, b': nat)
    requires InOrder(line, c, a, b) && a' <= a && b <= b'
    ensures InOrder(line, c, a', b')
  {
    match c
    case Exec(_) =>
    case Redir(cmd, _, _, _) => InOrderWider(line, cmd, a, b, a', b');
    case Pipe(l, r) =>
      var m: nat :| InOrder(line, l, a, m) && InOrder(line, r, m, b);
      InOrderWider(line, l, a, m, a', m);
      InOrderWider(line, r, m, b, m, b');
    case List(l, r) =>
      var m: nat :| InOrder(line, l, a, m) && InOrder(line, r, m, b);
      InOrderWider(line, l, a, m, a', m);
      InOrderWider(line, r, m, b, m, b');
    case Back(cmd) => InOrderWider(line, cmd, a, b, a', b');
  }

  /** c stands for the text from s to e: each word once and in order, the operators in
      order, and argv never overflows. */
  ghost predicate Parsed(line: string, s: nat, e: nat, c: Cmd) {
    Read(line, s, e, Spans(c), Ops(c)) && InOrder(line, c, s, e) && ArgsFit(c)
  }

  lemma ParsedOn(line: string, s: nat, e: nat, e': nat, c: Cmd)
    requires Parsed(line, s, e, c) && Read(line, e, e', multiset{}, "")
    ensures Parsed(line, s, e', c)
  {
    ReadOn(line, s, e, e', Spans(c), Ops(c));
    InOrderWider(line, c, s, e, s, e');
  }

  lemma ParsedAfter(line: string, s: nat, s': nat, e: nat, c: Cmd)
    requires Read(line, s, s', multiset{}, "") && Parsed(line, s', e, c)
    ensures Parsed(line, s, e, c)
  {
    ReadBoth(line, s, s', e, multiset{}, "", Spans(c), Ops(c));
    assert multiset{} + Spans(c) == Spans(c) && "" + Ops(c) == Ops(c);
    InOrderWider(line, c, s', e, s, e);
  }

  // ---- redirections ----

  ghost function Files(rs: seq<Redirection>): multiset<Span>
    decreases |rs|
  {
    if rs == [] then multiset{} else Files(rs[..|rs| - 1]) + multiset{rs[|rs| - 1].file}
  }

  ghost function Symbols(rs: seq<Redirection>): string
    decreases |rs|
  {
    if rs == [] then "" else Symbols(rs[..|rs| - 1]) + [Symbol(rs[|rs| - 1].mode)]
  }

  ghost predicate RedirsOk(line: string, rs: seq<Redirection>, a: nat, b: nat) {
    forall i :: 0 <= i < |rs| ==> a <= rs[i].file.q && rs[i].file.eq <= b && RedirOk(line, rs[i].file, rs[i].mode,
        rs[i].fd)
  }

  lemma {:induction false} WrapReads(c: Cmd, rs: seq<Redirection>)
    ensures Spans(Wrap(c, rs)) == Spans(c) + Files(rs) && Ops(Wrap(c, rs)) == Ops(c) + Symbols(rs)
    ensures ArgsFit(c) ==> ArgsFit(Wrap(c, rs))
    decreases |rs|
  {
    if rs == [] {
      assert Spans(c) + multiset{} == Spans(c) && Ops(c) + "" == Ops(c);
    } else {
      var rest, x := rs[..|rs| - 1], rs[|rs| - 1];
      WrapReads(c, rest);
      WrapOne(Wrap(c, rest), x, Spans(c), Files(rest), Ops(c), Symbols(rest));
    }
  }

  lemma WrapOne(c: Cmd, x: Redirection, m: multiset<Span>, n: multiset<Span>, o: string, p: string)
    requires Spans(c) == m + n && Ops(c) == o + p
    ensures var r := Redir(c, x.file, x.mode, x.fd);
            Spans(r) == m + (n + multiset{x.file}) && Ops(r) == o + (p + [Symbol(x.mode)])
                && (ArgsFit(r) <==> ArgsFit(c))
  {
    hide Symbol;
    assert o + p + [Symbol(x.mode)] == o + (p + [Symbol(x.mode)]);
  }

  lemma {:induction false} WrapInOrder(line: string, c: Cmd, rs: seq<Redirection>, a: nat, b: nat)
    requires InOrder(line, c, a, b) && RedirsOk(line, rs, a, b)
    ensures InOrder(line, Wrap(c, rs), a, b)
    decreases |rs|
  {
    hide RedirOk;
    if rs != [] {
      WrapInOrder(line, c, rs[..|rs| - 1], a, b);
    }
  }

  lemma {:induction false} RedirsMore(rs: seq<Redirection>, more: seq<Redirection>)
    ensures Files(rs + more) == Files(rs) + Files(more) && Symbols(rs + more) == Symbols(rs) + Symbols(more)
    decreases |more|
  {
    if more == [] {
      assert rs + more == rs;
    } else {
      var k := |more| - 1;
      RedirsMore(rs, more[..k]);
      LastIn(rs, more);
      hide Symbol;
      Joined(Symbols(rs), Symbols(more[..k]), [Symbol(more[k].mode)]);
    }
  }

  lemma LastIn(rs: seq<Redirection>, more: seq<Redirection>)
    requires more != []
    ensures (rs + more)[..|rs + more| - 1] == rs + more[..|more| - 1]
      && (rs + more)[|rs + more| - 1] == more[|more| - 1]
  {
  }

  ghost predicate Redirected(line: string, s: nat, e: nat, rs: seq<Redirection>) {
    Read(line, s, e, Files(rs), Symbols(rs)) && RedirsOk(line, rs, s, e)
  }

  /** One redirection more. */
  lemma RedirectedMore(line: string, s: nat, e: nat, e1: nat, e2: nat, rs: seq<Redirection>, x: Redirection)
    requires Redirected(line, s, e, rs) && Read(line, e, e1, multiset{}, [Symbol(x.mode)])
    requires Read(line, e1, e2, multiset{x.file}, "") && e1 <= x.file.q && x.file.eq <= e2
    requires RedirOk(line, x.file, x.mode, x.fd)
    ensures Redirected(line, s, e2, rs + [x])
  {
    hide Read, RedirOk, Symbol, Files, Symbols, RedirsOk;
    ReadForward(line, s, e, Files(rs), Symbols(rs));
    ReadForward(line, e, e1, multiset{}, [Symbol(x.mode)]);
    ReadForward(line, e1, e2, multiset{x.file}, "");
    RedirOne(rs, x);
    ReadBoth(line, s, e, e1, Files(rs), Symbols(rs), multiset{}, [Symbol(x.mode)]);
    ReadBoth(line, s, e1, e2, Files(rs) + multiset{}, Symbols(rs) + [Symbol(x.mode)], multiset{x.file}, "");
    RedirsOkMore(line, rs, s, e, x, e2);
  }

  lemma RedirsOkMore(line: string, rs: seq<Redirection>, s: nat, e: nat, x: Redirection, e2: nat)
    requires RedirsOk(line, rs, s, e) && s <= e <= x.file.q && x.file.eq <= e2 && e <= e2
    requires RedirOk(line, x.file, x.mode, x.fd)
    ensures RedirsOk(line, rs + [x], s, e2)
  {
    hide RedirOk;
  }

  lemma RedirOne(rs: seq<Redirection>, x: Redirection)
    ensures Files(rs) + multiset{} + multiset{x.file} == Files(rs + [x])
    ensures Symbols(rs) + [Symbol(x.mode)] + "" == Symbols(rs + [x])
  {
    hide Symbol;
    assert (rs + [x])[..|rs|] == rs;
  }

  lemma RedirectedOn(line: string, s: nat, e: nat, e': nat, rs: seq<Redirection>)
    requires Redirected(line, s, e, rs) && Read(line, e, e', multiset{}, "")
    ensures Redirected(line, s, e', rs)
  {
    ReadOn(line, s, e, e', Files(rs), Symbols(rs));
  }

  /** Redirections in front of what Redirs finds. */
  ghost function Prepend(rs: seq<Redirection>, more: Arrows): Arrows {
    if more.Missing? then Missing else Got(rs + more.rs, more.left)
  }

  /** One redirection, as a step of Redirs. */
  lemma RedirsStep(ts: seq<Tok>, tok: char, rest: seq<Tok>, rs: seq<Redirection>)
    requires ts == [Sym(tok)] + rest && (tok == '<' || tok == '>' || tok == '+')
    ensures rest == [] || rest[0].Sym? ==> Redirs(ts) == Missing
    ensures rest != [] && rest[0].Text? ==>
              Prepend(rs, Redirs(ts)) == Prepend(rs + [OpenMode(tok, rest[0].span)], Redirs(rest[1..]))
  {
    if rest != [] {
      assert ts[1] == rest[0] && ts[2..] == rest[1..];
      if rest[0].Text? && Redirs(rest[1..]).Got? {
        var x := OpenMode(tok, rest[0].span);
        assert rs + ([x] + Redirs(rest[1..]).rs) == rs + [x] + Redirs(rest[1..]).rs;
      }
    }
  }

  lemma RedirsDone(ts: seq<Tok>, rs: seq<Redirection>)
    requires !(ts != [] && ts[0].Sym? && First(ts[0]) in "<>")
    ensures Prepend(rs, Redirs(ts)) == Got(rs, ts)
  {
    assert '<' in "<>" && '>' in "<>";
  }

  /** parseredirs: the redirections that follow, in order; ok is false if a file is
      missing. */
  method ParseRedirs(line: string, s: nat) returns (ok: bool, rs: seq<Redirection>, e: nat)
    requires s <= |line| && NoNul(line) && Cut(line, s)
    ensures s <= e <= |line| && Cut(line, e) && (ok ==> Redirected(line, s, e, rs))
    ensures Redirs(Lex(line, s)) == if ok then Got(rs, Lex(line, e)) else Missing
  {
    hide Exactly, Operators, Hits, RedirOk, Lex, Redirs, OpenMode, Token;
    rs := [];
    var more;
    more, e := Peek(line, s, "<>");
    while more
      invariant Redirected(line, s, e, rs) && !IsSpace(At(line, e))
      invariant more ==> e < |line| && (line[e] == '<' || line[e] == '>')
      invariant Redirs(Lex(line, s)) == Prepend(rs, Redirs(Lex(line, e)))
      invariant more <==> Lex(line, e) != [] && Lex(line, e)[0].Sym? && First(Lex(line, e)[0]) in "<>"
      decreases |line| - e
    {
      ok, rs, e := OneRedir(line, s, e, rs);
      if !ok {
        return;
      }
      var e1 := e;
      more, e := Peek(line, e1, "<>");
      RedirectedOn(line, s, e1, e, rs);
    }
    RedirsDone(Lex(line, e), rs);
    ok := true;
  }

  /** One pass of the loop. */
  method OneRedir(line: string, s: nat, e: nat, rs: seq<Redirection>)
    returns (ok: bool, rs': seq<Redirection>, e2: nat)
    requires s <= e < |line| && NoNul(line) && Cut(line, e) && Redirected(line, s, e, rs)
    requires (line[e] == '<' || line[e] == '>') && Redirs(Lex(line, s)) == Prepend(rs, Redirs(Lex(line, e)))
    ensures e < e2 <= |line| && Cut(line, e2) && (ok ==> Redirected(line, s, e2, rs'))
    ensures Redirs(Lex(line, s)) == if ok then Prepend(rs', Redirs(Lex(line, e2))) else Missing
  {
    hide Exactly, Operators, Hits, RedirOk, Lex, Redirs, Token, Redirected;
    var tok, t, e1 := GetToken(line, e);
    assert t.q == e;
    var tok2, file, e3 := GetToken(line, e1);
    e2 := e3;
    RedirsStep(Lex(line, e), tok, Lex(line, e1), rs);
    if tok2 != 'a' {
      return false, rs, e2;
    }
    var x := OpenMode(tok, file);
    OpensAs(line, e, t, e1, file, tok);
    assert [Symbol(x.mode)] == OperatorAt(line, e);
    hide OpenMode;
    RedirectedMore(line, s, e, e1, e2, rs, x);
    return true, rs + [x], e2;
  }

  lemma OpensAs(line: string, e: nat, t: Span, e1: nat, file: Span, tok: char)
    requires e < |line| && t.q == e && t.eq == Step(line, e) <= e1 <= file.q <= |line|
      && (line[e] == '<' || line[e] == '>')
    requires (forall i :: t.eq <= i < e1 ==> IsSpace(line[i])) && (forall i :: e1 <= i < file.q ==> IsSpace(line[i]))
    requires tok == if t.eq == e + 2 then '+' else line[e]
    ensures RedirOk(line, file, OpenMode(tok, file).mode, OpenMode(tok, file).fd)
  {
    assert RedirAt(line, e, file, OpenMode(tok, file).mode, OpenMode(tok, file).fd);
  }

  // ---- commands ----

  /** parseexec: a block in parentheses, or words and redirections in any order. */
  method ParseExec(line: string, s: nat) returns (r: Result, e: nat)
    requires s <= |line| && NoNul(line) && Cut(line, s)
    ensures s <= e <= |line| && Cut(line, e) && (r.Ok? ==> Parsed(line, s, e, r.cmd))
    ensures Agrees(r, Lex(line, e), ParsesExec(Lex(line, s)))
    decreases |line| - s, 1
  {
    hide Exactly, Operators, Hits, InOrder, Lex, ParsesExec;
    var block, e0 := Peek(line, s, "(");
    HeadIs(Lex(line, s), '(');
    if block {
      r, e := ParseBlock(line, e0);
    } else {
      r, e := ParseWords(line, e0);
    }
    if r.Ok? {
      ParsedAfter(line, s, e0, e, r.cmd);
    }
  }

  /** The arguments and redirections collected so far. */
  ghost predicate Collected(line: string, s: nat, e: nat, args: seq<Span>, rs: seq<Redirection>) {
    && Read(line, s, e, multiset(args) + Files(rs), Symbols(rs)) && RedirsOk(line, rs, s, e)
    && InOrder(line, Exec(args), s, e) && |args| < MAXARGS
  }

  lemma CollectedNone(line: string, s: nat, e: nat, rs: seq<Redirection>)
    requires Redirected(line, s, e, rs)
    ensures Collected(line, s, e, [], rs)
  {
    assert multiset([]) + Files(rs) == Files(rs);
  }

  lemma CollectedOn(line: string, s: nat, e: nat, e': nat, args: seq<Span>, rs: seq<Redirection>)
    requires Collected(line, s, e, args, rs) && Read(line, e, e', multiset{}, "")
    ensures Collected(line, s, e', args, rs)
  {
    ReadOn(line, s, e, e', multiset(args) + Files(rs), Symbols(rs));
  }

  /** One argument more, and the redirections after it. */
  lemma CollectedMore(line: string, s: nat, e: nat, e1: nat, e2: nat, args: seq<Span>, rs: seq<Redirection>, t: Span,
                      more: seq<Redirection>)
    requires Collected(line, s, e, args, rs) && Read(line, e, e1, multiset{t}, "") && e <= t.q && t.eq <= e1
    requires Redirected(line, e1, e2, more) && |args| + 1 < MAXARGS
    ensures Collected(line, s, e2, args + [t], rs + more)
  {
    ReadForward(line, e, e1, multiset{t}, "");
    ReadForward(line, e1, e2, Files(more), Symbols(more));
    ReadForward(line, s, e, multiset(args) + Files(rs), Symbols(rs));
    CollectedReads(line, s, e, e1, e2, args, rs, t, more);
    RedirsJoin(line, rs, s, e, more, e1, e2);
    ArgsJoin(line, args, s, e, t, e2);
    hide *;
  }

  lemma RedirsJoin(line: string, rs: seq<Redirection>, s: nat, e: nat, more: seq<Redirection>, e1: nat, e2: nat)
    requires RedirsOk(line, rs, s, e) && RedirsOk(line, more, e1, e2) && s <= e <= e1 <= e2
    ensures RedirsOk(line, rs + more, s, e2)
  {
    hide RedirOk;
  }

  lemma ArgsJoin(line: string, args: seq<Span>, s: nat, e: nat, t: Span, e2: nat)
    requires InOrder(line, Exec(args), s, e) && s <= e <= t.q && t.eq <= e2 && e <= e2
    ensures InOrder(line, Exec(args + [t]), s, e2)
  {
  }

  lemma CollectedReads(line: string, s: nat, e: nat, e1: nat, e2: nat, args: seq<Span>, rs: seq<Redirection>, t: Span,
                       more: seq<Redirection>)
    requires Read(line, s, e, multiset(args) + Files(rs), Symbols(rs)) && Read(line, e, e1, multiset{t}, "")
    requires Read(line, e1, e2, Files(more), Symbols(more))
    ensures Read(line, s, e2, multiset(args + [t]) + Files(rs + more), Symbols(rs + more))
  {
    RedirsMore(rs, more);
    hide Read, Files, Symbols;
    ReadBoth(line, s, e, e1, multiset(args) + Files(rs), Symbols(rs), multiset{t}, "");
    ReadBoth(line, s, e1, e2, multiset(args) + Files(rs) + multiset{t}, Symbols(rs) + "", Files(more), Symbols(more));
    assert multiset(args) + Files(rs) + multiset{t} + Files(more) == multiset(args + [t]) + Files(rs + more);
    assert Symbols(rs) + "" + Symbols(more) == Symbols(rs + more);
  }

  lemma ReadForward(line: string, a: nat, b: nat, m: multiset<Span>, o: string)
    requires Read(line, a, b, m, o)
    ensures a <= b <= |line| && Cut(line, b)
  {
  }

  lemma CollectedParsed(line: string, s: nat, e: nat, args: seq<Span>, rs: seq<Redirection>)
    requires Collected(line, s, e, args, rs)
    ensures Parsed(line, s, e, Wrap(Exec(args), rs))
  {
    WrapReads(Exec(args), rs);
    WrapInOrder(line, Exec(args), rs, s, e);
    assert "" + Symbols(rs) == Symbols(rs);
  }

  lemma HeadIs(ts: seq<Tok>, c: char)
    requires c != '+' && c != '>' && c != 'a'
    ensures (ts != [] && ts[0].Sym? && First(ts[0]) in [c]) <==> Starts(ts, c)
  {
  }

  lemma StopsAt(ts: seq<Tok>)
    ensures Stops(ts) <==> ts == [] || (ts[0].Sym? && First(ts[0]) in "|)&;")
  {
    assert '|' in "|)&;" && ')' in "|)&;" && '&' in "|)&;" && ';' in "|)&;";
  }

  /** parseexec without parentheses.  The words fill argv of the innermost command,
      whatever redirections have been put around it meanwhile. */
  method ParseWords(line: string, s: nat) returns (r: Result, e: nat)
    requires s <= |line| && NoNul(line) && Cut(line, s) && !Starts(Lex(line, s), '(')
    ensures s <= e <= |line| && Cut(line, e) && (r.Ok? ==> Parsed(line, s, e, r.cmd))
    ensures Agrees(r, Lex(line, e), ParsesExec(Lex(line, s)))
  {
    hide Exactly, Operators, Hits, InOrder, Files, Symbols, RedirsOk, Token, Lex, Redirs, Words, Parsed, Wrap;
    var ok, rs, e0 := ParseRedirs(line, s);
    if !ok {
      return Panic("missing file for redirection"), e0;
    }
    CollectedNone(line, s, e0, rs);
    r, e := MoreWords(line, s, e0, rs);
  }

  /** The loop of parseexec; at most MAXARGS - 1 words fit. */
  method MoreWords(line: string, s: nat, s1: nat, rs0: seq<Redirection>) returns (r: Result, e: nat)
    requires s <= s1 <= |line| && NoNul(line) && Cut(line, s1) && Collected(line, s, s1, [], rs0)
    ensures s <= e <= |line| && Cut(line, e) && (r.Ok? ==> Parsed(line, s, e, r.cmd))
    ensures Agrees(r, Lex(line, e), Words(Lex(line, s1), [], rs0))
  {
    hide Exactly, Operators, Hits, InOrder, Files, Symbols, RedirsOk, Token, Lex, Redirs, Words, Parsed, Wrap,
        Collected;
    var args: seq<Span>, rs := [], rs0;
    var stop, e0 := Peek(line, s1, "|)&;");
    CollectedOn(line, s, s1, e0, args, rs);
    e := e0;
    while !stop
      invariant s <= e <= |line| && Cut(line, e) && Collected(line, s, e, args, rs) && |args| < MAXARGS
      invariant Words(Lex(line, s1), [], rs0) == Words(Lex(line, e), args, rs)
      invariant stop <==> Lex(line, e) != [] && Lex(line, e)[0].Sym? && First(Lex(line, e)[0]) in "|)&;"
      decreases |line| - e
    {
      var tok, t, e1 := GetToken(line, e);
      if tok == '\0' {
        CollectedOn(line, s, e, e1, args, rs);
        e := e1;
        break;
      }
      WordsStep(Lex(line, e), args, rs, Lex(line, e1));
      if tok != 'a' {
        return Panic("syntax"), e1;
      }
      if |args| + 1 >= MAXARGS {
        return Panic("too many args"), e1;
      }
      var ok, more, e2 := ParseRedirs(line, e1);
      if !ok {
        return Panic("missing file for redirection"), e2;
      }
      CollectedMore(line, s, e, e1, e2, args, rs, t, more);
      args, rs := args + [t], rs + more;
      stop, e0 := Peek(line, e2, "|)&;");
      CollectedOn(line, s, e2, e0, args, rs);
      e := e0;
    }
    CollectedParsed(line, s, e, args, rs);
    WordsDone(Lex(line, e), args, rs);
    r := Ok(Wrap(Exec(args), rs));
  }

  lemma WordsDone(ts: seq<Tok>, args: seq<Span>, rs: seq<Redirection>)
    requires ts == [] || (ts[0].Sym? && First(ts[0]) in "|)&;")
    ensures Words(ts, args, rs) == Yes(Wrap(Exec(args), rs), ts)
  {
    hide Wrap;
    StopsAt(ts);
  }

  lemma WordsStep(ts: seq<Tok>, args: seq<Span>, rs: seq<Redirection>, rest: seq<Tok>)
    requires ts != [] && rest == ts[1..] && !(ts[0].Sym? && First(ts[0]) in "|)&;")
    ensures ts[0].Sym? ==> Words(ts, args, rs) == No("syntax")
    ensures ts[0].Text? && |args| + 1 >= MAXARGS ==> Words(ts, args, rs) == No("too many args")
    ensures ts[0].Text? && |args| + 1 < MAXARGS ==>
              Words(ts, args, rs) == if Redirs(rest).Missing? then No("missing file for redirection")
                                     else Words(Redirs(rest).left, args + [ts[0].span], rs + Redirs(rest).rs)
  {
    hide Wrap, Redirs;
    StopsAt(ts);
  }

  /** parseblock, at an opening parenthesis. */
  method ParseBlock(line: string, s: nat) returns (r: Result, e: nat)
    requires s < |line| && NoNul(line) && Cut(line, s) && line[s] == '('
    ensures s <= e <= |line| && Cut(line, e) && (r.Ok? ==> Parsed(line, s, e, r.cmd))
    ensures Agrees(r, Lex(line, e), ParsesExec(Lex(line, s)))
    decreases |line| - s, 0
  {
    hide Exactly, Operators, Hits, InOrder, Files, Symbols, RedirsOk, Token, Lex, Redirs, ParsesLine, Parsed, Wrap;
    var _, t, e1 := GetToken(line, s);
    assert t.q == s;
    assert Lex(line, s)[1..] == Lex(line, e1);
    r, e := ParseLine(line, e1);
    if r.Panic? {
      return;
    }
    var inner := r.cmd;
    ParsedAfter(line, s, e1, e, inner);
    var close, e2 := Peek(line, e, ")");
    HeadIs(Lex(line, e), ')');
    ParsedOn(line, s, e, e2, inner);
    if !close {
      return Panic("syntax - missing )"), e2;
    }
    var _, u, e3 := GetToken(line, e2);
    assert u.q == e2;
    assert Lex(line, e)[1..] == Lex(line, e3);
    ParsedOn(line, s, e2, e3, inner);
    var ok, rs, e4 := ParseRedirs(line, e3);
    e := e4;
    if !ok {
      return Panic("missing file for redirection"), e;
    }
    BlockParsed(line, s, e3, e, inner, rs);
    r := Ok(Wrap(inner, rs));
  }

  lemma BlockParsed(line: string, s: nat, e: nat, e': nat, c: Cmd, rs: seq<Redirection>)
    requires Parsed(line, s, e, c) && Redirected(line, e, e', rs)
    ensures Parsed(line, s, e', Wrap(c, rs))
  {
    hide RedirOk, Read, Files, Symbols, Spans, Ops, InOrder, ArgsFit, Wrap, RedirsOk;
    ReadForward(line, s, e, Spans(c), Ops(c));
    ReadForward(line, e, e', Files(rs), Symbols(rs));
    ReadBoth(line, s, e, e', Spans(c), Ops(c), Files(rs), Symbols(rs));
    WrapReads(c, rs);
    InOrderWider(line, c, s, e, s, e');
    RedirsWider(line, rs, e, e', s);
    WrapInOrder(line, c, rs, s, e');
  }

  lemma RedirsWider(line: string, rs: seq<Redirection>, a: nat, b: nat, a': nat)
    requires RedirsOk(line, rs, a, b) && a' <= a
    ensures RedirsOk(line, rs, a', b)
  {
    hide RedirOk;
  }

  /** parsepipe. */
  method ParsePipe(line: string, s: nat) returns (r: Result, e: nat)
    requires s <= |line| && NoNul(line) && Cut(line, s)
    ensures s <= e <= |line| && Cut(line, e) && (r.Ok? ==> Parsed(line, s, e, r.cmd))
    ensures Agrees(r, Lex(line, e), ParsesPipe(Lex(line, s)))
    decreases |line| - s, 2
  {
    hide Exactly, Operators, Hits, InOrder, Token, Lex, ParsesExec, Parsed;
    r, e := ParseExec(line, s);
    if r.Panic? {
      return;
    }
    var left := r.cmd;
    var bar, e1 := Peek(line, e, "|");
    HeadIs(Lex(line, e), '|');
    ParsedOn(line, s, e, e1, left);
    e := e1;
    if bar {
      var _, t, e2 := GetToken(line, e1);
      assert t.q == e1;
      assert Lex(line, e1)[1..] == Lex(line, e2);
      r, e := ParsePipe(line, e2);
      if r.Ok? {
        BothParsed(line, s, e1, e2, e, left, "|", r.cmd);
        r := Ok(Pipe(left, r.cmd));
      }
    }
  }

  lemma BothParsed(line: string, s: nat, e1: nat, e2: nat, e: nat, left: Cmd, o: string, right: Cmd)
    requires Parsed(line, s, e1, left) && Read(line, e1, e2, multiset{}, o) && Parsed(line, e2, e, right)
    ensures o == "|" ==> Parsed(line, s, e, Pipe(left, right))
    ensures o == ";" ==> Parsed(line, s, e, List(left, right))
  {
    ReadBoth(line, s, e1, e2, Spans(left), Ops(left), multiset{}, o);
    ReadBoth(line, s, e2, e, Spans(left) + multiset{}, Ops(left) + o, Spans(right), Ops(right));
    assert Spans(left) + multiset{} + Spans(right) == Spans(left) + Spans(right);
    InOrderWider(line, left, s, e1, s, e2);
  }

  lemma BackParsed(line: string, s: nat, e: nat, e': nat, c: Cmd)
    requires Parsed(line, s, e, c) && Read(line, e, e', multiset{}, "&")
    ensures Parsed(line, s, e', Back(c))
  {
    ReadBoth(line, s, e, e', Spans(c), Ops(c), multiset{}, "&");
    assert Spans(c) + multiset{} == Spans(c);
    InOrderWider(line, c, s, e, s, e');
  }

  /** parseline. */
  method ParseLine(line: string, s: nat) returns (r: Result, e: nat)
    requires s <= |line| && NoNul(line) && Cut(line, s)
    ensures s <= e <= |line| && Cut(line, e) && (r.Ok? ==> Parsed(line, s, e, r.cmd))
    ensures Agrees(r, Lex(line, e), ParsesLine(Lex(line, s)))
    decreases |line| - s, 3
  {
    hide Exactly, Operators, Hits, InOrder, Token, Lex, ParsesPipe, Parsed, Amps;
    r, e := ParsePipe(line, s);
    if r.Panic? {
      return;
    }
    var cmd, e3 := ParseAmps(line, s, e, r.cmd);
    var semi, e4 := Peek(line, e3, ";");
    HeadIs(Lex(line, e3), ';');
    ParsedOn(line, s, e3, e4, cmd);
    e := e4;
    r := Ok(cmd);
    if semi {
      var _, t, e5 := GetToken(line, e4);
      assert t.q == e4;
      assert Lex(line, e4)[1..] == Lex(line, e5);
      r, e := ParseLine(line, e5);
      if r.Ok? {
        BothParsed(line, s, e4, e5, e, cmd, ";", r.cmd);
        r := Ok(List(cmd, r.cmd));
      }
    }
  }

  /** The loop of parseline. */
  method ParseAmps(line: string, s: nat, e0: nat, first: Cmd) returns (cmd: Cmd, e: nat)
    requires s <= e0 <= |line| && NoNul(line) && Cut(line, e0) && Parsed(line, s, e0, first)
    ensures e0 <= e <= |line| && Cut(line, e) && Parsed(line, s, e, cmd)
    ensures Amps(first, Lex(line, e0)) == Yes(cmd, Lex(line, e))
  {
    hide Exactly, Operators, Hits, InOrder, Token, Lex, Amps, Parsed;
    cmd := first;
    var amp, e1 := Peek(line, e0, "&");
    ParsedOn(line, s, e0, e1, cmd);
    e := e1;
    while amp
      invariant e0 <= e <= |line| && Cut(line, e) && Parsed(line, s, e, cmd)
      invariant !IsSpace(At(line, e)) && (amp ==> e < |line| && line[e] == '&')
      invariant Amps(first, Lex(line, e0)) == Amps(cmd, Lex(line, e))
      invariant amp <==> Lex(line, e) != [] && Lex(line, e)[0].Sym? && First(Lex(line, e)[0]) in "&"
      decreases |line| - e
    {
      var _, t, e2 := GetToken(line, e);
      assert t.q == e;
      BackParsed(line, s, e, e2, cmd);
      AmpsStep(cmd, Lex(line, e), Lex(line, e2));
      cmd := Back(cmd);
      amp, e1 := Peek(line, e2, "&");
      ParsedOn(line, s, e2, e1, cmd);
      e := e1;
    }
    AmpsStep(cmd, Lex(line, e), []);
  }

  lemma AmpsStep(c: Cmd, ts: seq<Tok>, rest: seq<Tok>)
    ensures ts == [Sym('&')] + rest ==> Amps(c, ts) == Amps(Back(c), rest)
    ensures !(ts != [] && ts[0].Sym? && First(ts[0]) in "&") ==> Amps(c, ts) == Yes(c, ts)
  {
    if ts == [Sym('&')] + rest {
      assert ts[1..] == rest;
    }
    assert '&' in "&";
  }

  // ---- nulterminate ----

  /** Where the words of a command end. */
  ghost function Ends(c: Cmd): set<nat> {
    match c
    case Exec(args) => set i | 0 <= i < |args| :: args[i].eq
    case Redir(cmd, file, _, _) => Ends(cmd) + {file.eq}
    case Pipe(l, r) => Ends(l) + Ends(r)
    case List(l, r) => Ends(l) + Ends(r)
    case Back(cmd) => Ends(cmd)
  }

  lemma {:induction false} EndsOfSpans(c: Cmd, i: nat)
    ensures i in Ends(c) <==> exists t: Span :: t in Spans(c) && t.eq == i
    decreases c
  {
    match c
    case Exec(args) =>
      if i in Ends(c) {
        var k :| 0 <= k < |args| && args[k].eq == i;
        assert args[k] in multiset(args);
      }
    case Redir(cmd, file, _, _) =>
      EndsOfSpans(cmd, i);
      if i in Ends(c) && i !in Ends(cmd) {
        assert file in Spans(c);
      }
    case Pipe(l, r) => EndsOfSpans(l, i); EndsOfSpans(r, i);
    case List(l, r) => EndsOfSpans(l, i); EndsOfSpans(r, i);
    case Back(cmd) => EndsOfSpans(cmd, i);
  }

  /** nulterminate: a NUL after each word of the command, in place. */
  method NulTerminate(c: Cmd, buf: array<char>)
    requires forall i :: i in Ends(c) ==> i < buf.Length
    modifies buf
    ensures forall i :: 0 <= i < buf.Length ==> buf[i] == if i in Ends(c) then '\0' else old(buf[i])
    decreases c
  {
    match c
    case Exec(args) =>
      var k := 0;
      while k < |args|
        invariant 0 <= k <= |args|
        invariant forall i :: 0 <= i < buf.Length ==>
          buf[i] == if exists j :: 0 <= j < k && args[j].eq == i then '\0' else old(buf[i])
      {
        assert args[k].eq in Ends(c);
        buf[args[k].eq] := '\0';
        k := k + 1;
      }
    case Redir(cmd, file, _, _) =>
      assert Ends(c) == Ends(cmd) + {file.eq} && file.eq in Ends(c);
      assert forall i :: i in Ends(cmd) ==> i in Ends(c);
      NulTerminate(cmd, buf);
      buf[file.eq] := '\0';
    case Pipe(l, r) =>
      assert forall i :: i in Ends(c) <==> i in Ends(l) || i in Ends(r);
      NulTerminate(l, buf);
      NulTerminate(r, buf);
    case List(l, r) =>
      assert forall i :: i in Ends(c) <==> i in Ends(l) || i in Ends(r);
      NulTerminate(l, buf);
      NulTerminate(r, buf);
    case Back(cmd) =>
      assert Ends(c) == Ends(cmd);
      NulTerminate(cmd, buf);
  }

  /** The string that starts at q in the buffer, as C reads it. */
  function CString(buf: string, q: nat): (r: string)
    requires q <= |buf|
    decreases |buf| - q
  {
    if q == |buf| || buf[q] == '\0' then "" else [buf[q]] + CString(buf, q + 1)
  }

  lemma {:induction false} CStringOf(buf: string, q: nat, e: nat)
    requires q <= e < |buf| && buf[e] == '\0' && forall i :: q <= i < e ==> buf[i] != '\0'
    ensures CString(buf, q) == buf[q..e]
    decreases e - q
  {
    if q < e {
      CStringOf(buf, q + 1, e);
    }
  }

  /** No NUL lands inside a word: each word of the command reads back as its text. */
  lemma ReadsBack(line: string, c: Cmd, buf: string, t: Span)
    requires Parsed(line, 0, |line|, c) && NoNul(line) && t in Spans(c) && |buf| == |line| + 1
    requires forall i :: 0 <= i <= |line| ==> buf[i] == if i in Ends(c) then '\0' else At(line, i)
    ensures t.q < t.eq <= |line| && CString(buf, t.q) == line[t.q..t.eq]
  {
    hide InOrder, ArgsFit, Hits, Operators, Ends;
    assert Within(line, t, 0, |line|);
    EndsOfSpans(c, t.eq);
    hide Exactly;
    WordKept(line, c, buf, t);
    CStringOf(buf, t.q, t.eq);
    assert buf[t.q..t.eq] == line[t.q..t.eq];
  }

  lemma WordKept(line: string, c: Cmd, buf: string, t: Span)
    requires Read(line, 0, |line|, Spans(c), Ops(c)) && NoNul(line) && Token(line, t) && |buf| == |line| + 1
    requires forall i :: 0 <= i <= |line| ==> buf[i] == if i in Ends(c) then '\0' else At(line, i)
    ensures forall i :: t.q <= i < t.eq ==> buf[i] == line[i] != '\0'
  {
    hide Read, Ends;
    forall i | t.q <= i < t.eq
      ensures buf[i] == line[i] != '\0'
    {
      NotAnEnd(line, c, i);
    }
  }

  /** A word ends where the text has no word character. */
  lemma NotAnEnd(line: string, c: Cmd, i: nat)
    requires Read(line, 0, |line|, Spans(c), Ops(c)) && i < |line| && IsWord(line[i])
    ensures i !in Ends(c)
  {
    hide Hits, Operators;
    EndsOfSpans(c, i);
    forall u: Span | u in Spans(c)
      ensures u.eq != i
    {
      assert Within(line, u, 0, |line|);
    }
  }

  /** The grammar derives the line, and c is what that derivation means. */
  ghost predicate Means(line: string, c: Cmd) {
    exists x :: Derives(Lex(line, 0), x, c)
  }

  lemma MeansParsed(line: string, c: Cmd)
    ensures Means(line, c) <==> ParsesLine(Lex(line, 0)) == Yes(c, [])
  {
    hide Derives, Lex;
    AcceptsExactlyTheGrammar(Lex(line, 0), c);
  }

  /** parsecmd: the whole line is one command, whose words have been terminated in the
      buffer, or it panics. */
  method ParseCmd(line: string, buf: array<char>) returns (r: Result)
    requires NoNul(line) && buf.Length == |line| + 1 && buf[..] == line + "\0"
    modifies buf
    ensures r.Ok? ==> Parsed(line, 0, |line|, r.cmd)
    ensures forall c :: r == Ok(c) <==> Means(line, c)
    ensures r.Ok? ==> forall t :: t in Spans(r.cmd) ==> t.q < t.eq <= |line| && CString(buf[..], t.q) == line[t.q..t.eq]
    ensures r.Panic? ==> buf[..] == old(buf[..])
  {
    hide Exactly, Operators, Hits, InOrder, Parsed, Means, Lex, ParsesLine;
    forall c
      ensures Means(line, c) <==> ParsesLine(Lex(line, 0)) == Yes(c, [])
    {
      MeansParsed(line, c);
    }
    var e;
    r, e := ParseLine(line, 0);
    if r.Panic? {
      return;
    }
    var cmd := r.cmd;
    var _, e1 := Peek(line, e, "");
    ParsedOn(line, 0, e, e1, cmd);
    LexHead(line, e1);
    if e1 != |line| {
      return Panic("syntax");
    }
    EndsInside(line, cmd);
    NulTerminate(cmd, buf);
    forall t | t in Spans(cmd)
      ensures t.q < t.eq <= |line| && CString(buf[..], t.q) == line[t.q..t.eq]
    {
      ReadsBack(line, cmd, buf[..], t);
    }
  }

  lemma EndsInside(line: string, c: Cmd)
    requires Parsed(line, 0, |line|, c)
    ensures forall i :: i in Ends(c) ==> i <= |line|
  {
    forall i | i in Ends(c)
      ensures i <= |line|
    {
      EndsOfSpans(c, i);
      var t: Span :| t in Spans(c) && t.eq == i;
      assert Within(line, t, 0, |line|);
    }
  }
}
