/** The grammar of user/sh.c over tokens: what a syntax tree prints as and what it
    means, and the parser as a function that undoes the printing. */
module ShSyntax {
  import opened ShToken

  const MAXARGS: nat := 10
  const O_RDONLY: nat := 0
  const O_WRONLY: nat := 1
  const O_CREATE: nat := 0x200
  const O_TRUNC: nat := 0x400

  datatype Cmd =
    | Exec(args: seq<Span>)
    | Redir(cmd: Cmd, file: Span, mode: nat, fd: nat)
    | Pipe(left: Cmd, right: Cmd)
    | List(left: Cmd, right: Cmd)
    | Back(cmd: Cmd)

  datatype Redirection = Redirection(file: Span, mode: nat, fd: nat)

  /** How the token before the file opens it. */
  function OpenMode(tok: char, file: Span): (x: Redirection) {
    if tok == '<' then Redirection(file, O_RDONLY, 0)
    else if tok == '>' then Redirection(file, O_WRONLY + O_CREATE + O_TRUNC, 1)
    else Redirection(file, O_WRONLY + O_CREATE, 1)
  }

  /** cmd with redirections around it, the first innermost. */
  function Wrap(c: Cmd, rs: seq<Redirection>): (r: Cmd)
    decreases |rs|
  {
    if rs == [] then c
    else
      var x := rs[|rs| - 1];
      Redir(Wrap(c, rs[..|rs| - 1]), x.file, x.mode, x.fd)
  }

  // ---- syntax trees ----

  /** A redirection as written: the token of its operator and the file. */
  datatype Arrow = Arrow(tok: char, file: Span)

  /** A word and the redirections after it. */
  datatype Item = Item(word: Span, arrows: seq<Arrow>)

  datatype Syntax =
    | Simple(arrows: seq<Arrow>, items: seq<Item>)
    | Block(inner: Syntax, arrows: seq<Arrow>)
    | Piped(left: Syntax, right: Syntax)
    | Amp(left: Syntax)
    | Semi(left: Syntax, right: Syntax)

  predicate ArrowOk(a: Arrow) {
    a.tok == '<' || a.tok == '>' || a.tok == '+'
  }

  predicate ArrowsOk(xs: seq<Arrow>) {
    forall i :: 0 <= i < |xs| ==> ArrowOk(xs[i])
  }

  predicate ItemsOk(xs: seq<Item>) {
    forall i :: 0 <= i < |xs| ==> ArrowsOk(xs[i].arrows)
  }

  /** exec: words and redirections, or a line in parentheses and redirections. */
  predicate IsExec(x: Syntax)
    decreases x, 0
  {
    match x
    case Simple(arrows, items) => ArrowsOk(arrows) && ItemsOk(items) && |items| < MAXARGS
    case Block(inner, arrows) => IsLine(inner) && ArrowsOk(arrows)
    case _ => false
  }

  /** pipe: exec, or exec | pipe. */
  predicate IsPipe(x: Syntax)
    decreases x, 1
  {
    if x.Piped? then IsExec(x.left) && IsPipe(x.right) else IsExec(x)
  }

  /** Any number of & behind a pipe. */
  predicate IsAmps(x: Syntax)
    decreases x, 2
  {
    if x.Amp? then IsAmps(x.left) else IsPipe(x)
  }

  /** line: a pipe with its &, and perhaps ; and another line. */
  predicate IsLine(x: Syntax)
    decreases x, 3
  {
    if x.Semi? then IsAmps(x.left) && IsLine(x.right) else IsAmps(x)
  }

  function PrintArrows(xs: seq<Arrow>): (ts: seq<Tok>) {
    if xs == [] then [] else [Sym(xs[0].tok), Text(xs[0].file)] + PrintArrows(xs[1..])
  }

  function PrintItems(xs: seq<Item>): (ts: seq<Tok>) {
    if xs == [] then [] else [Text(xs[0].word)] + PrintArrows(xs[0].arrows) + PrintItems(xs[1..])
  }

  function Print(x: Syntax): (ts: seq<Tok>) {
    match x
    case Simple(arrows, items) => PrintArrows(arrows) + PrintItems(items)
    case Block(inner, arrows) => [Sym('(')] + Print(inner) + [Sym(')')] + PrintArrows(arrows)
    case Piped(l, r) => Print(l) + [Sym('|')] + Print(r)
    case Amp(l) => Print(l) + [Sym('&')]
    case Semi(l, r) => Print(l) + [Sym(';')] + Print(r)
  }

  function Opens(xs: seq<Arrow>): (rs: seq<Redirection>) {
    seq(|xs|, i requires 0 <= i < |xs| => OpenMode(xs[i].tok, xs[i].file))
  }

  function ItemWords(xs: seq<Item>): (ws: seq<Span>) {
    seq(|xs|, i requires 0 <= i < |xs| => xs[i].word)
  }

  function ItemOpens(xs: seq<Item>): (rs: seq<Redirection>) {
    if xs == [] then [] else Opens(xs[0].arrows) + ItemOpens(xs[1..])
  }

  function Meaning(x: Syntax): (c: Cmd) {
    match x
    case Simple(arrows, items) => Wrap(Exec(ItemWords(items)), Opens(arrows) + ItemOpens(items))
    case Block(inner, arrows) => Wrap(Meaning(inner), Opens(arrows))
    case Piped(l, r) => Pipe(Meaning(l), Meaning(r))
    case Amp(l) => Back(Meaning(l))
    case Semi(l, r) => List(Meaning(l), Meaning(r))
  }

  // ---- the parser over tokens ----

  /** A command and the tokens left, or the panic. */
  datatype Out = Yes(cmd: Cmd, rest: seq<Tok>) | No(msg: string)

  datatype Arrows = Got(rs: seq<Redirection>, left: seq<Tok>) | Missing

  predicate Starts(ts: seq<Tok>, c: char) {
    ts != [] && ts[0] == Sym(c)
  }

  predicate IsArrow(ts: seq<Tok>) {
    Starts(ts, '<') || Starts(ts, '>') || Starts(ts, '+')
  }

  /** parseredirs */
  function Redirs(ts: seq<Tok>): (r: Arrows)
    ensures r.Got? ==> |r.left| <= |ts|
    decreases |ts|
  {
    if !IsArrow(ts) then Got([], ts)
    else if |ts| == 1 || ts[1].Sym? then Missing
    else
      var more := Redirs(ts[2..]);
      if more.Missing? then Missing else Got([OpenMode(ts[0].c, ts[1].span)] + more.rs, more.left)
  }

  predicate Stops(ts: seq<Tok>) {
    ts == [] || Starts(ts, '|') || Starts(ts, ')') || Starts(ts, '&') || Starts(ts, ';')
  }

  /** The loop of parseexec. */
  function Words(ts: seq<Tok>, args: seq<Span>, rs: seq<Redirection>): (r: Out)
    ensures r.Yes? ==> |r.rest| <= |ts|
    decreases |ts|
  {
    if Stops(ts) then Yes(Wrap(Exec(args), rs), ts)
    else if ts[0].Sym? then No("syntax")
    else if |args| + 1 >= MAXARGS then No("too many args")
    else
      var more := Redirs(ts[1..]);
      if more.Missing? then No("missing file for redirection")
      else Words(more.left, args + [ts[0].span], rs + more.rs)
  }

  /** parseexec, and parseblock in it */
  function ParsesExec(ts: seq<Tok>): (r: Out)
    ensures r.Yes? ==> |r.rest| <= |ts|
    decreases |ts|, 0
  {
    if Starts(ts, '(') then
      var inner := ParsesLine(ts[1..]);
      if inner.No? then inner
      else if !Starts(inner.rest, ')') then No("syntax - missing )")
      else
        var more := Redirs(inner.rest[1..]);
        if more.Missing? then No("missing file for redirection") else Yes(Wrap(inner.cmd, more.rs), more.left)
    else
      var more := Redirs(ts);
      if more.Missing? then No("missing file for redirection") else Words(more.left, [], more.rs)
  }

  /** parsepipe */
  function ParsesPipe(ts: seq<Tok>): (r: Out)
    ensures r.Yes? ==> |r.rest| <= |ts|
    decreases |ts|, 1
  {
    var left := ParsesExec(ts);
    if left.No? || !Starts(left.rest, '|') then left
    else
      var right := ParsesPipe(left.rest[1..]);
      if right.No? then right else Yes(Pipe(left.cmd, right.cmd), right.rest)
  }

  /** The loop of parseline. */
  function Amps(c: Cmd, ts: seq<Tok>): (r: Out)
    ensures r.Yes? && |r.rest| <= |ts| && !Starts(r.rest, '&')
    decreases |ts|
  {
    if Starts(ts, '&') then Amps(Back(c), ts[1..]) else Yes(c, ts)
  }

  /** parseline */
  function ParsesLine(ts: seq<Tok>): (r: Out)
    ensures r.Yes? ==> |r.rest| <= |ts|
    decreases |ts|, 2
  {
    var first := ParsesPipe(ts);
    if first.No? then first
    else
      var left := Amps(first.cmd, first.rest);
      if !Starts(left.rest, ';') then left
      else
        var right := ParsesLine(left.rest[1..]);
        if right.No? then right else Yes(List(left.cmd, right.cmd), right.rest)
  }

  // ---- every tree is parsed back from what it prints ----

  lemma Assoc<T>(a: seq<T>, b: seq<T>, c: seq<T>)
    ensures a + (b + c) == a + b + c
  {
  }

  lemma Drop<T>(a: seq<T>, b: seq<T>)
    ensures (a + b)[|a|..] == b
  {
  }

  lemma OpensFront(xs: seq<Arrow>)
    requires xs != []
    ensures Opens(xs) == [OpenMode(xs[0].tok, xs[0].file)] + Opens(xs[1..])
  {
    hide OpenMode;
  }

  /** One redirection, as a step of Redirs. */
  lemma RedirsFront(tok: char, file: Span, more: seq<Tok>)
    requires ArrowOk(Arrow(tok, file))
    ensures Redirs([Sym(tok), Text(file)] + more)
         == if Redirs(more).Missing? then Missing else Got([OpenMode(tok, file)] + Redirs(more).rs, Redirs(more).left)
  {
    hide OpenMode;
    var ts := [Sym(tok), Text(file)] + more;
    Drop([Sym(tok), Text(file)], more);
    assert ts[0] == Sym(tok) && ts[1] == Text(file);
  }

  lemma {:induction false} RedirsPrinted(xs: seq<Arrow>, rest: seq<Tok>)
    requires ArrowsOk(xs) && !IsArrow(rest)
    ensures Redirs(PrintArrows(xs) + rest) == Got(Opens(xs), rest)
    decreases |xs|
  {
    if xs == [] {
      assert PrintArrows(xs) + rest == rest;
      assert Opens(xs) == [];
    } else {
      hide Redirs, OpenMode, Opens;
      RedirsPrinted(xs[1..], rest);
      assert ArrowOk(xs[0]);
      RedirsFront(xs[0].tok, xs[0].file, PrintArrows(xs[1..]) + rest);
      Assoc([Sym(xs[0].tok), Text(xs[0].file)], PrintArrows(xs[1..]), rest);
      OpensFront(xs);
    }
  }

  /** One word and its redirections. */
  lemma OneItem(x: Item, more: seq<Tok>, args: seq<Span>, rs: seq<Redirection>)
    requires ArrowsOk(x.arrows) && |args| + 1 < MAXARGS && !IsArrow(more)
    ensures Words([Text(x.word)] + PrintArrows(x.arrows) + more, args, rs)
         == Words(more, args + [x.word], rs + Opens(x.arrows))
  {
    var ts := [Text(x.word)] + PrintArrows(x.arrows) + more;
    assert ts[0] == Text(x.word) && ts[1..] == PrintArrows(x.arrows) + more;
    RedirsPrinted(x.arrows, more);
    hide Redirs, PrintArrows, Opens;
  }

  lemma {:induction false} WordsPrinted(xs: seq<Item>, rest: seq<Tok>, args: seq<Span>, rs: seq<Redirection>)
    requires ItemsOk(xs) && |args| + |xs| < MAXARGS && Stops(rest)
    ensures Words(PrintItems(xs) + rest, args, rs) == Yes(Wrap(Exec(args + ItemWords(xs)), rs + ItemOpens(xs)), rest)
    decreases |xs|
  {
    if xs == [] {
      assert PrintItems(xs) + rest == rest && args + ItemWords(xs) == args && rs + ItemOpens(xs) == rs;
    } else {
      var x, more := xs[0], xs[1..];
      NoArrow(more, rest);
      OneItem(x, PrintItems(more) + rest, args, rs);
      WordsPrinted(more, rest, args + [x.word], rs + Opens(x.arrows));
      ItemsSplit(xs, rest, args, rs);
    }
  }

  lemma ItemsSplit(xs: seq<Item>, rest: seq<Tok>, args: seq<Span>, rs: seq<Redirection>)
    requires xs != []
    ensures var x, more := xs[0], xs[1..];
            && PrintItems(xs) + rest == [Text(x.word)] + PrintArrows(x.arrows) + (PrintItems(more) + rest)
            && args + [x.word] + ItemWords(more) == args + ItemWords(xs)
            && rs + Opens(x.arrows) + ItemOpens(more) == rs + ItemOpens(xs)
  {
    hide PrintArrows, Opens, ItemWords;
    var x, more := xs[0], xs[1..];
    ItemWordsFront(xs);
    Assoc(args, [x.word], ItemWords(more));
    Assoc(rs, Opens(x.arrows), ItemOpens(more));
    Assoc([Text(x.word)] + PrintArrows(x.arrows), PrintItems(more), rest);
  }

  lemma ItemWordsFront(xs: seq<Item>)
    requires xs != []
    ensures ItemWords(xs) == [xs[0].word] + ItemWords(xs[1..])
  {
  }

  lemma NoArrow(xs: seq<Item>, rest: seq<Tok>)
    requires !IsArrow(rest)
    ensures !IsArrow(PrintItems(xs) + rest)
  {
    if xs == [] {
      assert PrintItems(xs) + rest == rest;
    } else {
      assert (PrintItems(xs) + rest)[0] == Text(xs[0].word);
    }
  }

  /** Only ) or the end may follow a line. */
  predicate EndsLine(rest: seq<Tok>) {
    rest == [] || Starts(rest, ')')
  }

  lemma SimplePrinted(x: Syntax, rest: seq<Tok>)
    requires x.Simple? && IsExec(x) && Stops(rest)
    ensures ParsesExec(Print(x) + rest) == Yes(Meaning(x), rest)
  {
    hide Redirs, Words, PrintArrows, PrintItems, Wrap, Opens, ItemOpens, ItemWords;
    var ts := PrintItems(x.items) + rest;
    Assoc(PrintArrows(x.arrows), PrintItems(x.items), rest);
    NoArrow(x.items, rest);
    NoParen(x.arrows, ts, x.items, rest);
    RedirsPrinted(x.arrows, ts);
    WordsPrinted(x.items, rest, [], Opens(x.arrows));
    assert [] + ItemWords(x.items) == ItemWords(x.items);
    SimpleExec(Print(x) + rest, Opens(x.arrows), ts);
  }

  lemma {:induction false} ExecPrinted(x: Syntax, rest: seq<Tok>)
    requires IsExec(x) && Stops(rest)
    ensures ParsesExec(Print(x) + rest) == Yes(Meaning(x), rest)
    decreases x, 0
  {
    if x.Simple? {
      SimplePrinted(x, rest);
    } else {
      var tail := [Sym(')')] + (PrintArrows(x.arrows) + rest);
      LinePrinted(x.inner, tail);
      RedirsPrinted(x.arrows, rest);
      BlockPrinted(x, rest, tail);
    }
  }

  lemma BlockPrinted(x: Syntax, rest: seq<Tok>, tail: seq<Tok>)
    requires x.Block? && tail == [Sym(')')] + (PrintArrows(x.arrows) + rest)
    requires ParsesLine(Print(x.inner) + tail) == Yes(Meaning(x.inner), tail)
    requires Redirs(PrintArrows(x.arrows) + rest) == Got(Opens(x.arrows), rest)
    ensures ParsesExec(Print(x) + rest) == Yes(Meaning(x), rest)
  {
    hide Redirs, PrintArrows, Wrap, Opens, ParsesLine;
    assert Print(x) + rest == [Sym('(')] + (Print(x.inner) + tail);
    assert (Print(x) + rest)[1..] == Print(x.inner) + tail && tail[1..] == PrintArrows(x.arrows) + rest;
  }

  lemma NoParen(arrows: seq<Arrow>, ts: seq<Tok>, items: seq<Item>, rest: seq<Tok>)
    requires ArrowsOk(arrows) && ts == PrintItems(items) + rest && Stops(rest)
    ensures !Starts(PrintArrows(arrows) + ts, '(')
  {
    if arrows == [] {
      assert PrintArrows(arrows) + ts == ts;
      if items == [] {
        assert ts == rest;
      } else {
        assert ts[0] == Text(items[0].word);
      }
    } else {
      assert (PrintArrows(arrows) + ts)[0] == Sym(arrows[0].tok);
      assert ArrowOk(arrows[0]);
    }
  }

  /** Text of the form l t r rest, taken apart after l. */
  lemma Apart(l: seq<Tok>, t: Tok, r: seq<Tok>, rest: seq<Tok>)
    ensures l + [t] + r + rest == l + ([t] + (r + rest)) && ([t] + (r + rest))[1..] == r + rest
  {
    Drop([t], r + rest);
    Assoc([t], r, rest);
    Assoc(l, [t] + r, rest);
    Assoc(l, [t], r);
  }

  lemma {:induction false} PipePrinted(x: Syntax, rest: seq<Tok>)
    requires IsPipe(x) && Stops(rest) && !Starts(rest, '|')
    ensures ParsesPipe(Print(x) + rest) == Yes(Meaning(x), rest)
    decreases x, 1
  {
    if x.Piped? {
      var tail := [Sym('|')] + (Print(x.right) + rest);
      Apart(Print(x.left), Sym('|'), Print(x.right), rest);
      ExecPrinted(x.left, tail);
      PipePrinted(x.right, rest);
      PipeStep(Print(x) + rest, Meaning(x.left), tail);
    } else {
      ExecPrinted(x, rest);
      PipeStep(Print(x) + rest, Meaning(x), rest);
    }
  }

  lemma PipeStep(ts: seq<Tok>, c: Cmd, rest: seq<Tok>)
    requires ParsesExec(ts) == Yes(c, rest)
    ensures !Starts(rest, '|') ==> ParsesPipe(ts) == Yes(c, rest)
    ensures Starts(rest, '|') && ParsesPipe(rest[1..]).Yes? ==>
              ParsesPipe(ts) == Yes(Pipe(c, ParsesPipe(rest[1..]).cmd), ParsesPipe(rest[1..]).rest)
  {
    hide ParsesExec;
  }

  /** The pipe in front of the & of a tree, and their number. */
  function Core(x: Syntax): (c: Syntax)
    ensures IsAmps(x) ==> IsPipe(c)
  {
    if x.Amp? then Core(x.left) else x
  }

  function Count(x: Syntax): (n: nat) {
    if x.Amp? then Count(x.left) + 1 else 0
  }

  function Ampersands(n: nat): (ts: seq<Tok>) {
    if n == 0 then [] else [Sym('&')] + Ampersands(n - 1)
  }

  function Backs(c: Cmd, n: nat): (r: Cmd)
    decreases n
  {
    if n == 0 then c else Backs(Back(c), n - 1)
  }

  lemma {:induction false} BacksOut(c: Cmd, n: nat)
    ensures Backs(Back(c), n) == Back(Backs(c, n))
    decreases n
  {
    if n > 0 {
      BacksOut(Back(c), n - 1);
    }
  }

  lemma {:induction false} AmpersandsOut(n: nat)
    ensures Ampersands(n) + [Sym('&')] == Ampersands(n + 1)
    decreases n
  {
    if n > 0 {
      AmpersandsOut(n - 1);
      assert Ampersands(n) + [Sym('&')] == [Sym('&')] + (Ampersands(n - 1) + [Sym('&')]);
    }
  }

  lemma {:induction false} CorePrinted(x: Syntax)
    ensures Print(x) == Print(Core(x)) + Ampersands(Count(x)) && Meaning(x) == Backs(Meaning(Core(x)), Count(x))
    decreases x
  {
    if x.Amp? {
      var l := x.left;
      CorePrinted(l);
      AmpersandsOut(Count(l));
      BacksOut(Meaning(Core(l)), Count(l));
      assert Print(x) == Print(Core(l)) + (Ampersands(Count(l)) + [Sym('&')]);
    } else {
      assert Print(x) + [] == Print(x);
    }
  }

  lemma {:induction false} AmpsPrinted(c: Cmd, n: nat, rest: seq<Tok>)
    requires !Starts(rest, '&')
    ensures Amps(c, Ampersands(n) + rest) == Yes(Backs(c, n), rest)
    decreases n
  {
    var ts := Ampersands(n) + rest;
    if n == 0 {
      assert ts == rest;
    } else {
      assert ts[1..] == Ampersands(n - 1) + rest;
      AmpsPrinted(Back(c), n - 1, rest);
    }
  }

  lemma {:induction false} CoreSmaller(x: Syntax)
    ensures Core(x) == x || Core(x) < x
    decreases x
  {
    if x.Amp? {
      CoreSmaller(x.left);
    }
  }

  lemma {:induction false} LinePrinted(x: Syntax, rest: seq<Tok>)
    requires IsLine(x) && EndsLine(rest)
    ensures ParsesLine(Print(x) + rest) == Yes(Meaning(x), rest)
    decreases x, 3
  {
    if x.Semi? {
      var tail := [Sym(';')] + (Print(x.right) + rest);
      Apart(Print(x.left), Sym(';'), Print(x.right), rest);
      FrontPrinted(x.left, tail);
      LinePrinted(x.right, rest);
      LineStep(Print(x) + rest, Meaning(x.left), tail);
    } else {
      FrontPrinted(x, rest);
      LineStep(Print(x) + rest, Meaning(x), rest);
    }
  }

  lemma LineStep(ts: seq<Tok>, c: Cmd, rest: seq<Tok>)
    requires ParsesPipe(ts).Yes? && Amps(ParsesPipe(ts).cmd, ParsesPipe(ts).rest) == Yes(c, rest)
    ensures !Starts(rest, ';') ==> ParsesLine(ts) == Yes(c, rest)
    ensures Starts(rest, ';') && ParsesLine(rest[1..]).Yes? ==>
              ParsesLine(ts) == Yes(List(c, ParsesLine(rest[1..]).cmd), ParsesLine(rest[1..]).rest)
  {
    hide ParsesPipe, Amps;
  }

  /** parsepipe and the loop over & together. */
  lemma {:induction false} FrontPrinted(x: Syntax, rest: seq<Tok>)
    requires IsAmps(x) && Stops(rest) && !Starts(rest, '|') && !Starts(rest, '&')
    ensures var first := ParsesPipe(Print(x) + rest);
            first.Yes? && Amps(first.cmd, first.rest) == Yes(Meaning(x), rest)
    decreases x, 2
  {
    CorePrinted(x);
    CoreSmaller(x);
    var tail := Ampersands(Count(x)) + rest;
    assert Print(x) + rest == Print(Core(x)) + tail;
    if Count(x) == 0 {
      assert tail == rest;
    } else {
      assert tail[0] == Sym('&');
    }
    PipePrinted(Core(x), tail);
    AmpsPrinted(Meaning(Core(x)), Count(x), rest);
  }

  // ---- whatever is parsed has a tree ----

  lemma {:induction false} RedirsTree(ts: seq<Tok>) returns (xs: seq<Arrow>)
    requires Redirs(ts).Got?
    ensures ArrowsOk(xs) && ts == PrintArrows(xs) + Redirs(ts).left && Opens(xs) == Redirs(ts).rs
    decreases |ts|
  {
    if !IsArrow(ts) {
      xs := [];
    } else {
      hide Redirs, PrintArrows, Opens;
      RedirsShape(ts);
      TwoInFront(ts);
      var ys := RedirsTree(ts[2..]);
      xs := ArrowFront(ts[0].c, ts[1].span, ys, ts[2..]);
    }
  }

  lemma RedirsShape(ts: seq<Tok>)
    requires IsArrow(ts)
    ensures |ts| == 1 || ts[1].Sym? ==> Redirs(ts) == Missing
    ensures |ts| >= 2 && ts[1].Text? && Redirs(ts[2..]).Missing? ==> Redirs(ts) == Missing
    ensures ArrowOk(Arrow(ts[0].c, Span(0, 0)))
  {
    hide OpenMode;
  }

  lemma TwoInFront(ts: seq<Tok>)
    requires |ts| >= 2
    ensures ts == [ts[0], ts[1]] + ts[2..]
  {
  }

  lemma ArrowFront(tok: char, file: Span, ys: seq<Arrow>, more: seq<Tok>) returns (xs: seq<Arrow>)
    requires ArrowOk(Arrow(tok, file)) && ArrowsOk(ys) && Redirs(more).Got?
    requires more == PrintArrows(ys) + Redirs(more).left && Opens(ys) == Redirs(more).rs
    ensures var r := Redirs([Sym(tok), Text(file)] + more);
            r.Got? && ArrowsOk(xs) && [Sym(tok), Text(file)] + more == PrintArrows(xs) + r.left && Opens(xs) == r.rs
  {
    hide Redirs, OpenMode, Opens;
    xs := [Arrow(tok, file)] + ys;
    assert xs[1..] == ys;
    RedirsFront(tok, file, more);
    OpensFront(xs);
    assert PrintArrows(xs) == [Sym(tok), Text(file)] + PrintArrows(ys);
    Assoc([Sym(tok), Text(file)], PrintArrows(ys), Redirs(more).left);
  }

  lemma {:induction false} WordsTree(ts: seq<Tok>, args: seq<Span>, rs: seq<Redirection>) returns (xs: seq<Item>)
    requires Words(ts, args, rs).Yes? && |args| < MAXARGS
    ensures ItemsOk(xs) && |args| + |xs| < MAXARGS && ts == PrintItems(xs) + Words(ts, args, rs).rest
    ensures Words(ts, args, rs).cmd == Wrap(Exec(args + ItemWords(xs)), rs + ItemOpens(xs))
    decreases |ts|
  {
    if Stops(ts) {
      xs := [];
      assert args + ItemWords(xs) == args && rs + ItemOpens(xs) == rs;
    } else {
      var more := Redirs(ts[1..]);
      var arrows := RedirsTree(ts[1..]);
      var ys := WordsTree(more.left, args + [ts[0].span], rs + more.rs);
      xs := ItemFront(ts, args, rs, arrows, more.left, ys, Words(ts, args, rs).rest);
    }
  }

  lemma ItemFront(ts: seq<Tok>, args: seq<Span>, rs: seq<Redirection>, arrows: seq<Arrow>, left: seq<Tok>,
                  ys: seq<Item>, rest: seq<Tok>) returns (xs: seq<Item>)
    requires ts != [] && ts[0].Text? && ArrowsOk(arrows) && ItemsOk(ys)
    requires ts[1..] == PrintArrows(arrows) + left && left == PrintItems(ys) + rest
    ensures |xs| == |ys| + 1 && ItemsOk(xs) && ts == PrintItems(xs) + rest
    ensures args + ItemWords(xs) == args + [ts[0].span] + ItemWords(ys)
    ensures rs + ItemOpens(xs) == rs + Opens(arrows) + ItemOpens(ys)
  {
    var x := Item(ts[0].span, arrows);
    xs := [x] + ys;
    assert xs[0] == x && xs[1..] == ys;
    ItemsSplit(xs, rest, args, rs);
    assert ts == [Text(x.word)] + ts[1..];
    hide PrintArrows, PrintItems, Opens, ItemOpens, ItemWords;
    assert [Text(x.word)] + (PrintArrows(arrows) + (PrintItems(ys) + rest))
        == [Text(x.word)] + PrintArrows(arrows) + (PrintItems(ys) + rest);
  }

  lemma {:induction false} ExecTree(ts: seq<Tok>) returns (x: Syntax)
    requires ParsesExec(ts).Yes?
    ensures IsExec(x) && ts == Print(x) + ParsesExec(ts).rest && ParsesExec(ts).cmd == Meaning(x)
    decreases |ts|, 0
  {
    if Starts(ts, '(') {
      var inner := ParsesLine(ts[1..]);
      var y := LineTree(ts[1..]);
      var arrows := RedirsTree(inner.rest[1..]);
      x := Block(y, arrows);
      var more := Redirs(inner.rest[1..]);
      BlockExec(ts, inner.cmd, inner.rest, more.rs, more.left);
      BlockText(ts, Print(y), inner.rest, PrintArrows(arrows), more.left);
    } else {
      var more := Redirs(ts);
      var arrows := RedirsTree(ts);
      var items := WordsTree(more.left, [], more.rs);
      x := Simple(arrows, items);
      SimpleExec(ts, more.rs, more.left);
      assert [] + ItemWords(items) == ItemWords(items);
      SimpleText(ts, PrintArrows(arrows), PrintItems(items), more.left, ParsesExec(ts).rest);
    }
  }

  lemma BlockExec(ts: seq<Tok>, c: Cmd, rest: seq<Tok>, rs: seq<Redirection>, left: seq<Tok>)
    requires Starts(ts, '(') && ParsesLine(ts[1..]) == Yes(c, rest) && Starts(rest, ')')
      && Redirs(rest[1..]) == Got(rs, left)
    ensures ParsesExec(ts) == Yes(Wrap(c, rs), left)
  {
    hide Redirs, ParsesLine, Wrap;
  }

  lemma BlockText(ts: seq<Tok>, body: seq<Tok>, rest: seq<Tok>, arrows: seq<Tok>, left: seq<Tok>)
    requires Starts(ts, '(') && ts[1..] == body + rest && Starts(rest, ')') && rest[1..] == arrows + left
    ensures ts == [Sym('(')] + body + [Sym(')')] + arrows + left
  {
    assert ts == [Sym('(')] + ts[1..] && rest == [Sym(')')] + rest[1..];
    assert ts == [Sym('(')] + (body + ([Sym(')')] + (arrows + left)));
  }

  lemma SimpleExec(ts: seq<Tok>, rs: seq<Redirection>, left: seq<Tok>)
    requires !Starts(ts, '(') && Redirs(ts) == Got(rs, left)
    ensures ParsesExec(ts) == Words(left, [], rs)
  {
    hide Redirs, Words;
  }

  lemma SimpleText(ts: seq<Tok>, arrows: seq<Tok>, items: seq<Tok>, left: seq<Tok>, rest: seq<Tok>)
    requires ts == arrows + left && left == items + rest
    ensures ts == arrows + items + rest
  {
  }

  lemma {:induction false} PipeTree(ts: seq<Tok>) returns (x: Syntax)
    requires ParsesPipe(ts).Yes?
    ensures IsPipe(x) && ts == Print(x) + ParsesPipe(ts).rest && ParsesPipe(ts).cmd == Meaning(x)
    decreases |ts|, 1
  {
    var left := ParsesExec(ts);
    var l := ExecTree(ts);
    PipeStep(ts, left.cmd, left.rest);
    if Starts(left.rest, '|') {
      var r := PipeTree(left.rest[1..]);
      x := Piped(l, r);
      hide ParsesExec, ParsesPipe;
      Rejoin(ts, Print(l), Sym('|'), Print(r), left.rest, ParsesPipe(left.rest[1..]).rest);
    } else {
      x := l;
    }
  }

  lemma Rejoin(ts: seq<Tok>, l: seq<Tok>, t: Tok, r: seq<Tok>, mid: seq<Tok>, rest: seq<Tok>)
    requires ts == l + mid && mid != [] && mid[0] == t && mid[1..] == r + rest
    ensures ts == l + [t] + r + rest
  {
    assert mid == [t] + mid[1..];
    Apart(l, t, r, rest);
  }

  lemma {:induction false} AmpsTree(c: Cmd, ts: seq<Tok>) returns (n: nat)
    ensures Amps(c, ts).cmd == Backs(c, n) && ts == Ampersands(n) + Amps(c, ts).rest
    decreases |ts|
  {
    if Starts(ts, '&') {
      var m := AmpsTree(Back(c), ts[1..]);
      n := m + 1;
      assert ts == [Sym('&')] + ts[1..];
    } else {
      n := 0;
    }
  }

  function AddAmps(x: Syntax, n: nat): (r: Syntax) {
    if n == 0 then x else Amp(AddAmps(x, n - 1))
  }

  lemma {:induction false} AddAmpsMeans(x: Syntax, n: nat)
    requires IsAmps(x)
    ensures var r := AddAmps(x, n);
            IsAmps(r) && Print(r) == Print(x) + Ampersands(n) && Meaning(r) == Backs(Meaning(x), n)
  {
    if n > 0 {
      AddAmpsMeans(x, n - 1);
      AmpersandsOut(n - 1);
      BacksOut(Meaning(x), n - 1);
      hide Ampersands;
      Assoc(Print(x), Ampersands(n - 1), [Sym('&')]);
    } else {
      assert Print(x) + [] == Print(x);
    }
  }

  /** parsepipe and the loop over & together. */
  lemma {:induction false} FrontTree(ts: seq<Tok>) returns (x: Syntax)
    requires ParsesPipe(ts).Yes?
    ensures var left := Amps(ParsesPipe(ts).cmd, ParsesPipe(ts).rest);
            IsAmps(x) && !x.Semi? && ts == Print(x) + left.rest && left.cmd == Meaning(x)
    decreases |ts|, 2
  {
    var p := PipeTree(ts);
    hide ParsesPipe, Amps;
    var first := ParsesPipe(ts);
    var n := AmpsTree(first.cmd, first.rest);
    NoSemi(p, n);
    AddAmpsMeans(p, n);
    x := AddAmps(p, n);
    hide AddAmps, Print, Meaning, Ampersands, Backs;
    Assoc(Print(p), Ampersands(n), Amps(first.cmd, first.rest).rest);
  }

  lemma NoSemi(p: Syntax, n: nat)
    requires IsPipe(p)
    ensures IsAmps(p) && !AddAmps(p, n).Semi?
  {
  }

  lemma {:induction false} LineTree(ts: seq<Tok>) returns (x: Syntax)
    requires ParsesLine(ts).Yes?
    ensures IsLine(x) && ts == Print(x) + ParsesLine(ts).rest && ParsesLine(ts).cmd == Meaning(x)
    decreases |ts|, 3
  {
    var first := ParsesPipe(ts);
    var left := Amps(first.cmd, first.rest);
    var l := FrontTree(ts);
    LineStep(ts, left.cmd, left.rest);
    if Starts(left.rest, ';') {
      var r := LineTree(left.rest[1..]);
      x := Semi(l, r);
      hide ParsesLine, ParsesPipe, Amps;
      Rejoin(ts, Print(l), Sym(';'), Print(r), left.rest, ParsesLine(left.rest[1..]).rest);
    } else {
      x := l;
    }
  }

  // ---- the two together ----

  /** x is a derivation of the whole line, and c its meaning. */
  ghost predicate Derives(ts: seq<Tok>, x: Syntax, c: Cmd) {
    IsLine(x) && Print(x) == ts && Meaning(x) == c
  }

  /** The parser accepts exactly the lines that the grammar derives, as what they mean. */
  lemma AcceptsExactlyTheGrammar(ts: seq<Tok>, c: Cmd)
    ensures ParsesLine(ts) == Yes(c, []) <==> exists x :: Derives(ts, x, c)
  {
    if ParsesLine(ts) == Yes(c, []) {
      var x := LineTree(ts);
      assert Print(x) + [] == Print(x);
      assert Derives(ts, x, c);
    }
    if x :| Derives(ts, x, c) {
      LinePrinted(x, []);
      assert Print(x) + [] == Print(x);
    }
  }

  /** No line has two meanings: parentheses and precedence settle every grouping. */
  lemma GrammarIsUnambiguous(ts: seq<Tok>, x: Syntax, c: Cmd, y: Syntax, d: Cmd)
    requires Derives(ts, x, c) && Derives(ts, y, d)
    ensures c == d
  {
    AcceptsExactlyTheGrammar(ts, c);
    AcceptsExactlyTheGrammar(ts, d);
  }
}
