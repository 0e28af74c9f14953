/** The grammar of user/sh.c on tokens: the parser as a function and a printer,
    with the proof that parsing inverts printing on every command. */
module ShellGrammar {
  import opened Common

  const MAXARGS := 10
  const O_RDONLY := 0
  const O_WRONLY := 1
  const O_CREATE := 0x200
  const O_TRUNC := 0x400

  /** A symbol, with '+' for ">>", or a word. */
  datatype Tok = Sym(c: char) | Word(w: string)

  /** A command, with strings or places of strings as its words. */
  datatype Cmd<W> =
    | Exec(args: seq<W>)
    | Redir(cmd: Cmd<W>, file: W, mode: nat, fd: nat)
    | Pipe(left: Cmd<W>, right: Cmd<W>)
    | List(left: Cmd<W>, right: Cmd<W>)
    | Back(cmd: Cmd<W>)

  type Tree = Cmd<string>

  function ModeOf(op: char): nat {
    if op == '<' then O_RDONLY else if op == '>' then O_WRONLY + O_CREATE + O_TRUNC else O_WRONLY + O_CREATE
  }
  function FdOf(op: char): nat { if op == '<' then 0 else 1 }
  function OpOf(mode: nat): char {
    if mode == O_RDONLY then '<' else if mode == O_WRONLY + O_CREATE + O_TRUNC then '>' else '+'
  }

  predicate IsOp(t: Tok) { t == Sym('<') || t == Sym('>') || t == Sym('+') }

  /** One redirection. */
  datatype Rd<W> = Rd(file: W, mode: nat, fd: nat)

  /** Redirections applied from the inside out. */
  function Wrap<W>(base: Cmd<W>, rs: seq<Rd<W>>): Cmd<W>
    decreases |rs|
  {
    if rs == [] then base
    else var r := rs[|rs| - 1]; Redir(Wrap(base, rs[..|rs| - 1]), r.file, r.mode, r.fd)
  }

  // ----- The parser -----------------------------------------------------------------------

  predicate Starts(ts: seq<Tok>, c: char) { ts != [] && ts[0] == Sym(c) }

  /** The symbols that end a simple command. */
  predicate Stops(ts: seq<Tok>) { ts == [] || Starts(ts, '|') || Starts(ts, ')') || Starts(ts, '&') || Starts(ts, ';') }

  /** `parseredirs`: the redirections at the front, after `rs`. */
  function Redirs(rs: seq<Rd<string>>, ts: seq<Tok>): (r: Option<(seq<Rd<string>>, seq<Tok>)>)
    ensures r.Some? ==> |r.value.1| <= |ts|
    decreases |ts|
  {
    if ts == [] || !IsOp(ts[0]) then Some((rs, ts))
    else if |ts| == 1 || !ts[1].Word? then None
    else Redirs(rs + [Rd(ts[1].w, ModeOf(ts[0].c), FdOf(ts[0].c))], ts[2..])
  }

  /** The loop of `parseexec`. */
  function Args(args: seq<string>, rs: seq<Rd<string>>, ts: seq<Tok>): (r: Option<(Tree, seq<Tok>)>)
    ensures r.Some? ==> |r.value.1| <= |ts|
    decreases |ts|
  {
    if Stops(ts) then Some((Wrap(Exec(args), rs), ts))
    else if !ts[0].Word? || |args| + 1 >= MAXARGS then None
    else
      var r := Redirs(rs, ts[1..]);
      if r.None? then None else Args(args + [ts[0].w], r.value.0, r.value.1)
  }

  /** `parseexec`, with `parseblock`. */
  function ParseExec(ts: seq<Tok>): (r: Option<(Tree, seq<Tok>)>)
    ensures r.Some? ==> |r.value.1| <= |ts|
    decreases |ts|, 0
  {
    if Starts(ts, '(') then
      var line := ParseLine(ts[1..]);
      if line.None? || !Starts(line.value.1, ')') then None
      else
        var r := Redirs([], line.value.1[1..]);
        if r.None? then None else Some((Wrap(line.value.0, r.value.0), r.value.1))
    else
      var r := Redirs([], ts);
      if r.None? then None else Args([], r.value.0, r.value.1)
  }

  /** `parsepipe` */
  function ParsePipe(ts: seq<Tok>): (r: Option<(Tree, seq<Tok>)>)
    ensures r.Some? ==> |r.value.1| <= |ts|
    decreases |ts|, 1
  {
    var left := ParseExec(ts);
    if left.None? || !Starts(left.value.1, '|') then left
    else
      var right := ParsePipe(left.value.1[1..]);
      if right.None? then None else Some((Pipe(left.value.0, right.value.0), right.value.1))
  }

  /** The loop of `parseline`. */
  function Backs<W>(cmd: Cmd<W>, ts: seq<Tok>): (r: (Cmd<W>, seq<Tok>))
    ensures |r.1| <= |ts| && !Starts(r.1, '&')
    decreases |ts|
  {
    if Starts(ts, '&') then Backs(Back(cmd), ts[1..]) else (cmd, ts)
  }

  /** `parseline` */
  function ParseLine(ts: seq<Tok>): (r: Option<(Tree, seq<Tok>)>)
    ensures r.Some? ==> |r.value.1| <= |ts|
    decreases |ts|, 2
  {
    var left := ParsePipe(ts);
    if left.None? then None
    else
      var b := Backs(left.value.0, left.value.1);
      if !Starts(b.1, ';') then Some(b)
      else
        var right := ParseLine(b.1[1..]);
        if right.None? then None else Some((List(b.0, right.value.0), right.value.1))
  }

  /** A whole line of tokens, with nothing left over. */
  function Parse(ts: seq<Tok>): Option<Tree> {
    var r := ParseLine(ts);
    if r.None? || r.value.1 != [] then None else Some(r.value.0)
  }

  // ----- The printer -----------------------------------------------------------------------

  function Words(args: seq<string>): seq<Tok> { seq(|args|, (i: nat) requires i < |args| => Word(args[i])) }

  /** A compound command, as it stands between parentheses. */
  function Inner(t: Tree): seq<Tok>
    requires t.Pipe? || t.List? || t.Back?
    decreases t, 0
  {
    match t
    case Pipe(l, r) => PrintExec(l) + [Sym('|')] + PrintPipe(r)
    case List(l, r) => PrintBack(l) + [Sym(';')] + PrintLine(r)
    case Back(c) => PrintBack(c) + [Sym('&')]
  }

  function PrintExec(t: Tree): seq<Tok>
    decreases t, 1
  {
    match t
    case Exec(args) => Words(args)
    case Redir(c, file, mode, fd) => PrintExec(c) + [Sym(OpOf(mode)), Word(file)]
    case _ => [Sym('(')] + Inner(t) + [Sym(')')]
  }

  function PrintPipe(t: Tree): seq<Tok>
    decreases t, 2
  {
    if t.Pipe? then Inner(t) else PrintExec(t)
  }

  function PrintBack(t: Tree): seq<Tok>
    decreases t, 3
  {
    if t.Back? then Inner(t) else PrintPipe(t)
  }

  /** Any command, on a line of its own. */
  function PrintLine(t: Tree): seq<Tok>
    decreases t, 4
  {
    if t.List? then Inner(t) else PrintBack(t)
  }

  /** The commands the parser can build: not too many arguments, and one of the
      three kinds of redirection. */
  predicate Proper(t: Tree) {
    match t
    case Exec(args) => |args| < MAXARGS
    case Redir(c, file, mode, fd) => Proper(c) && ModeOf(OpOf(mode)) == mode && FdOf(OpOf(mode)) == fd
    case Pipe(l, r) => Proper(l) && Proper(r)
    case List(l, r) => Proper(l) && Proper(r)
    case Back(c) => Proper(c)
  }

  // ----- Parsing inverts printing ------------------------------------------------------------

  function PrintRedirs(rs: seq<Rd<string>>): seq<Tok>
    decreases |rs|
  {
    if rs == [] then []
    else var r := rs[|rs| - 1]; PrintRedirs(rs[..|rs| - 1]) + [Sym(OpOf(r.mode)), Word(r.file)]
  }

  predicate ProperRds(rs: seq<Rd<string>>) {
    forall i :: 0 <= i < |rs| ==> ModeOf(OpOf(rs[i].mode)) == rs[i].mode && FdOf(OpOf(rs[i].mode)) == rs[i].fd
  }

  lemma {:induction false} FirstRedir(rs: seq<Rd<string>>)
    requires rs != []
    ensures PrintRedirs(rs) == [Sym(OpOf(rs[0].mode)), Word(rs[0].file)] + PrintRedirs(rs[1..])
    decreases |rs|
  {
    if |rs| == 1 {
      assert rs[..0] == [] && rs[1..] == [];
    } else {
      var front := rs[..|rs| - 1];
      FirstRedir(front);
      assert front[1..] == rs[1..][..|rs| - 2] && front[0] == rs[0];
    }
  }

  lemma MoveFirst<T>(xs: seq<T>, ys: seq<T>)
    requires ys != []
    ensures xs + [ys[0]] + ys[1..] == xs + ys
  {
  }

  lemma {:induction false} RedirsInverse(rs0: seq<Rd<string>>, rs: seq<Rd<string>>, post: seq<Tok>)
    requires ProperRds(rs) && (post == [] || !IsOp(post[0]))
    ensures Redirs(rs0, PrintRedirs(rs) + post) == Some((rs0 + rs, post))
    decreases |rs|
  {
    if rs == [] {
      assert PrintRedirs(rs) + post == post && rs0 + rs == rs0;
    } else {
      FirstRedir(rs);
      var ts := PrintRedirs(rs) + post;
      assert ts[2..] == PrintRedirs(rs[1..]) + post;
      RedirsInverse(rs0 + [rs[0]], rs[1..], post);
      MoveFirst(rs0, rs);
    }
  }

  lemma ArgsStep(args: seq<string>, rs: seq<Rd<string>>, w: string, tail: seq<Tok>)
    requires |args| + 1 < MAXARGS && Redirs(rs, tail).Some?
    ensures Args(args, rs, [Word(w)] + tail) == Args(args + [w], Redirs(rs, tail).value.0, Redirs(rs, tail).value.1)
  {
    assert ([Word(w)] + tail)[1..] == tail;
  }

  lemma FirstArg(args: seq<string>, rs: seq<Tok>, post: seq<Tok>)
    requires args != []
    ensures Words(args) + rs + post == [Word(args[0])] + (Words(args[1..]) + rs + post)
  {
    assert Words(args) == [Word(args[0])] + Words(args[1..]);
  }

  lemma {:induction false} ArgsInverse(args0: seq<string>, args: seq<string>, rs0: seq<Rd<string>>, rs: seq<Rd<string>>,
                      post: seq<Tok>)
    requires ProperRds(rs) && Stops(post) && |args0| + |args| < MAXARGS && args != []
    ensures Args(args0, rs0, Words(args) + PrintRedirs(rs) + post) == Some((Wrap(Exec(args0 + args), rs0 + rs), post))
    decreases |args|
  {
    var w, more := args[0], args[1..];
    var tail := Words(more) + PrintRedirs(rs) + post;
    FirstArg(args, PrintRedirs(rs), post);
    if more == [] {
      assert tail == PrintRedirs(rs) + post && args == [w];
      RedirsInverse(rs0, rs, post);
      ArgsStep(args0, rs0, w, tail);
    } else {
      FirstArg(more, PrintRedirs(rs), post);
      assert Redirs(rs0, tail) == Some((rs0, tail));
      ArgsStep(args0, rs0, w, tail);
      ArgsInverse(args0 + [w], more, rs0, rs, post);
      MoveFirst(args0, args);
    }
  }

  /** A command under its redirections. */
  function Base<W>(t: Cmd<W>): (Cmd<W>, seq<Rd<W>>) {
    match t
    case Redir(c, file, mode, fd) => (Base(c).0, Base(c).1 + [Rd(file, mode, fd)])
    case _ => (t, [])
  }

  lemma {:induction false} BaseOf(t: Tree)
    ensures var b := Base(t); !b.0.Redir? && Wrap(b.0, b.1) == t && PrintExec(t) == PrintExec(b.0) + PrintRedirs(b.1)
    ensures var b := Base(t); Proper(t) ==> Proper(b.0) && ProperRds(b.1)
    ensures var b := Base(t); b.0 == t || b.0 < t
  {
    match t
    case Redir(c, file, mode, fd) =>
      BaseOf(c);
      var b, bc := Base(t), Base(c);
      assert b.1[..|b.1| - 1] == bc.1;
      assert PrintExec(bc.0) + PrintRedirs(bc.1) + [Sym(OpOf(mode)), Word(file)] == PrintExec(bc.0) + PrintRedirs(b.1);
    case _ =>
      assert PrintExec(t) + PrintRedirs([]) == PrintExec(t);
  }

  lemma SimpleInverse(args: seq<string>, rs: seq<Rd<string>>, post: seq<Tok>)
    requires ProperRds(rs) && Stops(post) && |args| < MAXARGS
    ensures ParseExec(Words(args) + PrintRedirs(rs) + post) == Some((Wrap(Exec(args), rs), post))
  {
    var ts := Words(args) + PrintRedirs(rs) + post;
    if args == [] {
      assert ts == PrintRedirs(rs) + post;
      if rs != [] { FirstRedir(rs); }
      RedirsInverse([], rs, post);
      assert [] + rs == rs;
    } else {
      assert ts[0] == Word(args[0]) && Redirs([], ts) == Some(([], ts)) && !Starts(ts, '(');
      ArgsInverse([], args, [], rs, post);
      assert [] + args == args && [] + rs == rs;
    }
  }

  /** A line in parentheses, and redirections after it. */
  lemma BlockInverse(b: Tree, line: seq<Tok>, rs: seq<Rd<string>>, post: seq<Tok>)
    requires ProperRds(rs) && Stops(post)
    requires ParseLine(line + ([Sym(')')] + (PrintRedirs(rs) + post)))
             == Some((b, [Sym(')')] + (PrintRedirs(rs) + post)))
    ensures ParseExec([Sym('(')] + line + [Sym(')')] + PrintRedirs(rs) + post) == Some((Wrap(b, rs), post))
  {
    var after := PrintRedirs(rs) + post;
    var ts := [Sym('(')] + line + [Sym(')')] + PrintRedirs(rs) + post;
    assert ts[1..] == line + ([Sym(')')] + after);
    assert ([Sym(')')] + after)[1..] == after;
    RedirsInverse([], rs, post);
    assert [] + rs == rs;
  }

  lemma {:induction false} ExecInverse(t: Tree, post: seq<Tok>)
    requires Proper(t) && Stops(post)
    ensures ParseExec(PrintExec(t) + post) == Some((t, post))
    decreases t, 2
  {
    BaseOf(t);
    var b, rs := Base(t).0, Base(t).1;
    if b.Exec? {
      SimpleInverse(b.args, rs, post);
    } else {
      InnerInverse(b, [Sym(')')] + (PrintRedirs(rs) + post));
      BlockInverse(b, Inner(b), rs, post);
    }
  }

  /** A compound command on a line that ends there. */
  lemma {:induction false} InnerInverse(t: Tree, post: seq<Tok>)
    requires Proper(t) && (t.Pipe? || t.List? || t.Back?) && (post == [] || Starts(post, ')'))
    ensures ParseLine(Inner(t) + post) == Some((t, post))
    decreases t, 1
  {
    match t
    case Pipe(l, r) =>
      PipeTreeInverse(l, r, post);
    case List(l, r) =>
      var rest := [Sym(';')] + PrintLine(r) + post;
      assert Inner(t) + post == PrintBack(l) + rest;
      BackInverse(l, rest);
      assert rest[1..] == PrintLine(r) + post;
      LineInverse(r, post);
    case Back(c) =>
      var rest := [Sym('&')] + post;
      assert Inner(t) + post == PrintBack(c) + rest;
      BackInverse(c, rest);
      assert rest[1..] == post;
  }

  lemma {:induction false} PipeTreeInverse(l: Tree, r: Tree, post: seq<Tok>)
    requires Proper(l) && Proper(r) && Stops(post) && !Starts(post, '|')
    ensures ParsePipe(Inner(Pipe(l, r)) + post) == Some((Pipe(l, r), post))
    decreases Pipe(l, r), 0
  {
    var rest := [Sym('|')] + PrintPipe(r) + post;
    assert Inner(Pipe(l, r)) + post == PrintExec(l) + rest;
    ExecInverse(l, rest);
    assert rest[1..] == PrintPipe(r) + post;
    PipeInverse(r, post);
  }

  lemma {:induction false} PipeInverse(t: Tree, post: seq<Tok>)
    requires Proper(t) && Stops(post) && !Starts(post, '|')
    ensures ParsePipe(PrintPipe(t) + post) == Some((t, post))
    decreases t, 3
  {
    if t.Pipe? { PipeTreeInverse(t.left, t.right, post); } else { ExecInverse(t, post); }
  }

  /** A command in the background is built as its `&`s are met. */
  lemma {:induction false} BackInverse(t: Tree, post: seq<Tok>)
    requires Proper(t) && Stops(post) && !Starts(post, '|')
    ensures var r := ParsePipe(PrintBack(t) + post); r.Some? && Backs(r.value.0, r.value.1) == Backs(t, post)
    decreases t, 4
  {
    if t.Back? {
      var rest := [Sym('&')] + post;
      assert PrintBack(t) + post == PrintBack(t.cmd) + rest;
      BackInverse(t.cmd, rest);
      assert rest[1..] == post;
    } else {
      PipeInverse(t, post);
    }
  }

  lemma {:induction false} LineInverse(t: Tree, post: seq<Tok>)
    requires Proper(t) && (post == [] || Starts(post, ')'))
    ensures ParseLine(PrintLine(t) + post) == Some((t, post))
    decreases t, 5
  {
    if t.List? { InnerInverse(t, post); } else { BackInverse(t, post); }
  }

  /** Every command of at most nine arguments is read back as it was printed. */
  lemma RoundTrip(t: Tree)
    requires Proper(t)
    ensures Parse(PrintLine(t)) == Some(t)
  {
    LineInverse(t, []);
    assert PrintLine(t) + [] == PrintLine(t);
  }

  // ----- The parser builds nothing else ---------------------------------------------------------

  lemma {:induction false} WrapProper(t: Tree, rs: seq<Rd<string>>)
    requires Proper(t) && ProperRds(rs)
    ensures Proper(Wrap(t, rs))
    decreases |rs|
  {
    if rs != [] { WrapProper(t, rs[..|rs| - 1]); }
  }

  lemma {:induction false} RedirsProper(rs: seq<Rd<string>>, ts: seq<Tok>)
    requires ProperRds(rs) && Redirs(rs, ts).Some?
    ensures ProperRds(Redirs(rs, ts).value.0)
    decreases |ts|
  {
    if ts != [] && IsOp(ts[0]) {
      RedirsProper(rs + [Rd(ts[1].w, ModeOf(ts[0].c), FdOf(ts[0].c))], ts[2..]);
    }
  }

  lemma {:induction false} ArgsProper(args: seq<string>, rs: seq<Rd<string>>, ts: seq<Tok>)
    requires |args| < MAXARGS && ProperRds(rs) && Args(args, rs, ts).Some?
    ensures Proper(Args(args, rs, ts).value.0)
    decreases |ts|
  {
    if Stops(ts) {
      WrapProper(Exec(args), rs);
    } else {
      RedirsProper(rs, ts[1..]);
      var r := Redirs(rs, ts[1..]).value;
      ArgsProper(args + [ts[0].w], r.0, r.1);
    }
  }

  lemma {:induction false} BacksProper(t: Tree, ts: seq<Tok>)
    requires Proper(t)
    ensures Proper(Backs(t, ts).0)
    decreases |ts|
  {
    if Starts(ts, '&') { BacksProper(Back(t), ts[1..]); }
  }

  lemma {:induction false} ExecProper(ts: seq<Tok>)
    requires ParseExec(ts).Some?
    ensures Proper(ParseExec(ts).value.0)
    decreases |ts|, 0
  {
    if Starts(ts, '(') {
      LineProper(ts[1..]);
      var line := ParseLine(ts[1..]).value;
      RedirsProper([], line.1[1..]);
      WrapProper(line.0, Redirs([], line.1[1..]).value.0);
    } else {
      RedirsProper([], ts);
      var r := Redirs([], ts).value;
      ArgsProper([], r.0, r.1);
    }
  }

  lemma {:induction false} PipeProper(ts: seq<Tok>)
    requires ParsePipe(ts).Some?
    ensures Proper(ParsePipe(ts).value.0)
    decreases |ts|, 1
  {
    ExecProper(ts);
    var left := ParseExec(ts).value;
    if Starts(left.1, '|') { PipeProper(left.1[1..]); }
  }

  lemma {:induction false} LineProper(ts: seq<Tok>)
    requires ParseLine(ts).Some?
    ensures Proper(ParseLine(ts).value.0)
    decreases |ts|, 2
  {
    PipeProper(ts);
    var left := ParsePipe(ts).value;
    BacksProper(left.0, left.1);
    var b := Backs(left.0, left.1);
    if Starts(b.1, ';') { LineProper(b.1[1..]); }
  }

  /** Whatever the parser accepts, printing the result and parsing that gives the
      same command. */
  lemma Stable(ts: seq<Tok>)
    requires Parse(ts).Some?
    ensures Proper(Parse(ts).value) && Parse(PrintLine(Parse(ts).value)) == Parse(ts)
  {
    LineProper(ts);
    RoundTrip(Parse(ts).value);
  }
}
