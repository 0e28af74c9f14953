/** The parser of user/sh.c: a cursor that moves along the line, commands whose
    words are places in the line, and `nulterminate`. */
module Shell {
  import opened Common
  import opened ShellGrammar
  import opened ShellLexer

  /** A word from `q` up to `eq`. */
  datatype Span = Span(q: nat, eq: nat)

  predicate SpanOk(s: string, p: Span) {
    && p.q < p.eq <= |s| && (forall j :: p.q <= j < p.eq ==> IsWordChar(s[j]))
    && (p.eq < |s| ==> !IsWordChar(s[p.eq]))
  }

  function Str(s: string, p: Span): string { if p.q <= p.eq <= |s| then s[p.q..p.eq] else "" }

  function Strs(s: string, args: seq<Span>): seq<string> {
    seq(|args|, (i: nat) requires i < |args| => Str(s, args[i]))
  }

  function RdOf(s: string, r: Rd<Span>): Rd<string> { Rd(Str(s, r.file), r.mode, r.fd) }

  function RdsOf(s: string, rs: seq<Rd<Span>>): seq<Rd<string>> {
    seq(|rs|, (i: nat) requires i < |rs| => RdOf(s, rs[i]))
  }

  /** The command with its words spelled out. */
  function TreeOf(s: string, c: Cmd<Span>): Tree {
    match c
    case Exec(args) => Exec(Strs(s, args))
    case Redir(d, file, mode, fd) => Redir(TreeOf(s, d), Str(s, file), mode, fd)
    case Pipe(l, r) => Pipe(TreeOf(s, l), TreeOf(s, r))
    case List(l, r) => List(TreeOf(s, l), TreeOf(s, r))
    case Back(d) => Back(TreeOf(s, d))
  }

  predicate SpansOk(s: string, c: Cmd<Span>) {
    match c
    case Exec(args) => forall i :: 0 <= i < |args| ==> SpanOk(s, args[i])
    case Redir(d, file, _, _) => SpansOk(s, d) && SpanOk(s, file)
    case Pipe(l, r) => SpansOk(s, l) && SpansOk(s, r)
    case List(l, r) => SpansOk(s, l) && SpansOk(s, r)
    case Back(d) => SpansOk(s, d)
  }

  predicate RdsOk(s: string, rs: seq<Rd<Span>>) { forall i :: 0 <= i < |rs| ==> SpanOk(s, rs[i].file) }

  lemma {:induction false} WrapTree(s: string, c: Cmd<Span>, rs: seq<Rd<Span>>)
    requires SpansOk(s, c) && RdsOk(s, rs)
    ensures TreeOf(s, Wrap(c, rs)) == Wrap(TreeOf(s, c), RdsOf(s, rs)) && SpansOk(s, Wrap(c, rs))
    decreases |rs|
  {
    if rs != [] {
      var front := rs[..|rs| - 1];
      WrapTree(s, c, front);
      assert RdsOf(s, rs)[..|rs| - 1] == RdsOf(s, front);
    }
  }

  // ----- gettoken and peek -------------------------------------------------------------------------

  /** What `gettoken` returns for a token. */
  function Kind(t: Tok): char { if t.Word? then 'a' else t.c }

  method SkipSpaces(s: string, i: nat) returns (k: nat)
    requires i <= |s|
    ensures k == Skip(s, i)
  {
    k := i;
    while k < |s| && IsSpace(s[k])
      invariant i <= k <= |s| && Skip(s, k) == Skip(s, i)
    {
      k := k + 1;
    }
  }

  method SkipWord(s: string, i: nat) returns (k: nat)
    requires i <= |s|
    ensures k == WordEnd(s, i)
  {
    k := i;
    while k < |s| && !IsSpace(s[k]) && !IsSymbol(s[k])
      invariant i <= k <= |s| && WordEnd(s, k) == WordEnd(s, i)
    {
      k := k + 1;
    }
  }

  /** The token at `q`, and where it ends. */
  method ScanToken(s: string, q: nat) returns (tok: char, k: nat)
    requires q < |s| && !IsSpace(s[q]) && NUL !in s
    ensures q < k <= |s| && tok == Kind(TokenAt(s, q).0) && k == TokenAt(s, q).1
    ensures TokenAt(s, q).0.Word? ==> SpanOk(s, Span(q, k)) && Str(s, Span(q, k)) == TokenAt(s, q).0.w
  {
    if s[q] == '|' || s[q] == '(' || s[q] == ')' || s[q] == ';' || s[q] == '&' || s[q] == '<' {
      tok, k := s[q], q + 1;
    } else if s[q] == '>' {
      tok, k := s[q], q + 1;
      if At(s, k) == '>' {
        tok, k := '+', k + 1;
      }
    } else {
      tok := 'a';
      k := SkipWord(s, q);
    }
  }

  lemma LexUnroll(s: string, i: nat)
    requires i <= |s|
    ensures var q := Skip(s, i);
            Lex(s, i) == if q == |s| then [] else [TokenAt(s, q).0] + Lex(s, TokenAt(s, q).1)
  {
  }

  /** The next token and the place of its text; NUL at the end of the line. */
  method GetToken(s: string, i: nat) returns (tok: char, p: Span, i': nat)
    requires i <= |s| && NUL !in s
    ensures i <= i' <= |s|
    ensures Lex(s, i) == [] ==> tok == NUL && i' == |s|
    ensures Lex(s, i) != [] ==> i < i' && Lex(s, i') == Lex(s, i)[1..] && tok == Kind(Lex(s, i)[0])
    ensures Lex(s, i) != [] && Lex(s, i)[0].Word? ==> SpanOk(s, p) && Str(s, p) == Lex(s, i)[0].w
  {
    LexUnroll(s, i);
    var q := SkipSpaces(s, i);
    if q == |s| {
      return NUL, Span(q, q), q;
    }
    var k;
    tok, k := ScanToken(s, q);
    LexSkipped(s, k);
    i' := SkipSpaces(s, k);
    p := Span(q, k);
  }

  /** Move to the next token and look whether it begins with one of `toks`. */
  method Peek(s: string, i: nat, toks: string) returns (r: bool, i': nat)
    requires i <= |s| && NUL !in s
    ensures i <= i' == Skip(s, i) && Lex(s, i') == Lex(s, i) && (r <==> i' < |s| && s[i'] in toks)
  {
    i' := SkipSpaces(s, i);
    LexSkipped(s, i);
    r := i' < |s| && s[i'] in toks;
  }

  /** What the next character says about the next token. */
  lemma NextChar(s: string, i: nat)
    requires i <= |s| && NUL !in s
    ensures var k := Skip(s, i);
            && (Lex(s, i) == [] <==> k == |s|)
            && (k < |s| ==> var t := Lex(s, i)[0];
                && (IsOp(t) <==> s[k] == '<' || s[k] == '>')
                && (t.Word? <==> !IsSymbol(s[k]))
                && forall c :: c == '|' || c == '(' || c == ')' || c == '&' || c == ';' ==>
                     (t == Sym(c) <==> s[k] == c))
  {
  }

  // ----- The parser ---------------------------------------------------------------------------------

  lemma RdsSnoc(s: string, rs: seq<Rd<Span>>, r: Rd<Span>)
    ensures RdsOf(s, rs + [r]) == RdsOf(s, rs) + [RdOf(s, r)]
  {
  }

  lemma StrsSnoc(s: string, args: seq<Span>, p: Span)
    ensures Strs(s, args + [p]) == Strs(s, args) + [Str(s, p)]
  {
  }

  /** peek for a redirection. */
  method PeekOp(s: string, i: nat) returns (r: bool, i': nat)
    requires i <= |s| && NUL !in s
    ensures i <= i' <= |s| && Lex(s, i') == Lex(s, i) && (r <==> Lex(s, i) != [] && IsOp(Lex(s, i)[0]))
  {
    NextChar(s, i);
    r, i' := Peek(s, i, "<>");
  }

  /** peek for one symbol. */
  method PeekSym(s: string, i: nat, c: char) returns (r: bool, i': nat)
    requires i <= |s| && NUL !in s && (c == '|' || c == '(' || c == ')' || c == '&' || c == ';')
    ensures i <= i' <= |s| && Lex(s, i') == Lex(s, i) && (r <==> Starts(Lex(s, i), c))
  {
    NextChar(s, i);
    r, i' := Peek(s, i, [c]);
  }

  /** peek for a symbol that ends a simple command. */
  method PeekStop(s: string, i: nat) returns (r: bool, i': nat)
    requires i <= |s| && NUL !in s
    ensures i <= i' <= |s| && Lex(s, i') == Lex(s, i) && (r <==> Lex(s, i) != [] && Stops(Lex(s, i)))
  {
    NextChar(s, i);
    r, i' := Peek(s, i, "|)&;");
  }

  lemma RedirsStep(rs: seq<Rd<string>>, ts: seq<Tok>)
    requires ts != [] && IsOp(ts[0])
    ensures ts[1..] == [] || !ts[1..][0].Word? ==> Redirs(rs, ts) == None
    ensures ts[1..] != [] && ts[1..][0].Word? ==>
              Redirs(rs, ts) == Redirs(rs + [Rd(ts[1..][0].w, ModeOf(ts[0].c), FdOf(ts[0].c))], ts[1..][1..])
  {
    if |ts| > 1 { assert ts[1..][1..] == ts[2..]; }
  }

  /** One turn of the loop of `parseredirs`. */
  method OneRedir(s: string, i: nat, rs: seq<Rd<Span>>) returns (ok: bool, rs': seq<Rd<Span>>, i': nat)
    requires i <= |s| && NUL !in s && RdsOk(s, rs) && Lex(s, i) != [] && IsOp(Lex(s, i)[0])
    ensures i < i' <= |s|
    ensures !ok ==> Redirs(RdsOf(s, rs), Lex(s, i)) == None
    ensures ok ==> RdsOk(s, rs') && Redirs(RdsOf(s, rs), Lex(s, i)) == Redirs(RdsOf(s, rs'), Lex(s, i'))
  {
    RedirsStep(RdsOf(s, rs), Lex(s, i));
    var tok, w, p, j;
    tok, p, j := GetToken(s, i);
    w, p, i' := GetToken(s, j);
    if w != 'a' {
      return false, rs, i';
    }
    var r := Rd(p, ModeOf(tok), FdOf(tok));
    RdsSnoc(s, rs, r);
    return true, rs + [r], i';
  }

  /** `parseredirs`; the redirections are collected in `rs`. */
  method ParseRedirs(s: string, i: nat, rs: seq<Rd<Span>>) returns (ok: bool, rs': seq<Rd<Span>>, i': nat)
    requires i <= |s| && NUL !in s && RdsOk(s, rs)
    ensures i <= i' <= |s| && (ok <==> Redirs(RdsOf(s, rs), Lex(s, i)).Some?)
    ensures ok ==> RdsOk(s, rs') && Redirs(RdsOf(s, rs), Lex(s, i)) == Some((RdsOf(s, rs'), Lex(s, i')))
  {
    rs' := rs;
    var more;
    more, i' := PeekOp(s, i);
    while more
      invariant i <= i' <= |s| && RdsOk(s, rs')
      invariant Redirs(RdsOf(s, rs), Lex(s, i)) == Redirs(RdsOf(s, rs'), Lex(s, i'))
      invariant more <==> Lex(s, i') != [] && IsOp(Lex(s, i')[0])
      decreases |s| - i'
    {
      ok, rs', i' := OneRedir(s, i', rs');
      if !ok {
        return;
      }
      more, i' := PeekOp(s, i');
    }
    return true, rs', i';
  }

  lemma ArgsUnroll(args: seq<string>, rs: seq<Rd<string>>, ts: seq<Tok>)
    requires ts != [] && !Stops(ts)
    ensures !ts[0].Word? || |args| + 1 >= MAXARGS || Redirs(rs, ts[1..]).None? ==> Args(args, rs, ts) == None
    ensures ts[0].Word? && |args| + 1 < MAXARGS && Redirs(rs, ts[1..]).Some? ==>
              Args(args, rs, ts) == Args(args + [ts[0].w], Redirs(rs, ts[1..]).value.0, Redirs(rs, ts[1..]).value.1)
  {
  }

  predicate ArgsOk(s: string, args: seq<Span>) { forall i :: 0 <= i < |args| ==> SpanOk(s, args[i]) }

  datatype Turn = End | Bad | More

  /** One turn of the loop of `parseexec`. */
  method OneArg(s: string, i: nat, args: seq<Span>, rs: seq<Rd<Span>>)
    returns (turn: Turn, args': seq<Span>, rs': seq<Rd<Span>>, i': nat)
    requires i <= |s| && NUL !in s && ArgsOk(s, args) && RdsOk(s, rs) && (Lex(s, i) == [] || !Stops(Lex(s, i)))
    ensures i <= i' <= |s| && (turn.End? <==> Lex(s, i) == []) && (turn.More? ==> i < i')
    ensures turn.End? ==> args' == args && rs' == rs && Lex(s, i') == []
    ensures turn.Bad? ==> Args(Strs(s, args), RdsOf(s, rs), Lex(s, i)) == None
    ensures turn.More? ==> && ArgsOk(s, args') && RdsOk(s, rs')
                           && Args(Strs(s, args), RdsOf(s, rs), Lex(s, i))
                              == Args(Strs(s, args'), RdsOf(s, rs'), Lex(s, i'))
  {
    if Lex(s, i) != [] { ArgsUnroll(Strs(s, args), RdsOf(s, rs), Lex(s, i)); }
    NextChar(s, i);
    var tok, p, j := GetToken(s, i);
    i' := j;
    if tok == NUL {
      return End, args, rs, i';
    }
    if tok != 'a' {
      return Bad, args, rs, i';
    }
    StrsSnoc(s, args, p);
    args' := args + [p];
    if |args'| >= MAXARGS {
      return Bad, args', rs, i';
    }
    var ok;
    ok, rs', i' := ParseRedirs(s, j, rs);
    turn := if ok then More else Bad;
  }

  /** A parsing method agrees with the grammar: it fails when that does, and
      otherwise builds the same command and stops at the same token. */
  predicate Parsed(s: string, i: nat, r: Option<Cmd<Span>>, i': nat, want: Option<(Tree, seq<Tok>)>) {
    && i <= i' <= |s| && (r.Some? <==> want.Some?)
    && (r.Some? ==> SpansOk(s, r.value) && want.value == (TreeOf(s, r.value), Lex(s, i')))
  }

  /** `parseexec` without a parenthesis. */
  method ParseSimple(s: string, i: nat) returns (r: Option<Cmd<Span>>, i': nat)
    requires i <= |s| && NUL !in s && !Starts(Lex(s, i), '(')
    ensures Parsed(s, i, r, i', ParseExec(Lex(s, i)))
  {
    var ok, rs;
    var args: seq<Span> := [];
    assert RdsOf(s, []) == [] && Strs(s, []) == [];
    ok, rs, i' := ParseRedirs(s, i, []);
    if !ok {
      return None, i';
    }
    ghost var all := Args([], RdsOf(s, rs), Lex(s, i'));
    var stop;
    stop, i' := PeekStop(s, i');
    while !stop
      invariant i <= i' <= |s| && ArgsOk(s, args) && RdsOk(s, rs)
      invariant all == Args(Strs(s, args), RdsOf(s, rs), Lex(s, i'))
      invariant (stop <==> Lex(s, i') != [] && Stops(Lex(s, i')))
      decreases |s| - i'
    {
      var turn;
      turn, args, rs, i' := OneArg(s, i', args, rs);
      if turn == End {
        break;
      }
      if turn == Bad {
        return None, i';
      }
      stop, i' := PeekStop(s, i');
    }
    WrapTree(s, Exec(args), rs);
    return Some(Wrap(Exec(args), rs)), i';
  }

  lemma ExecUnroll(ts: seq<Tok>)
    requires Starts(ts, '(')
    ensures var line := ParseLine(ts[1..]);
            if line.None? || !Starts(line.value.1, ')') then ParseExec(ts) == None
            else var rs := Redirs([], line.value.1[1..]);
                 ParseExec(ts) == if rs.None? then None else Some((Wrap(line.value.0, rs.value.0), rs.value.1))
  {
  }

  /** `parseblock` */
  method ParseBlock(s: string, i: nat) returns (r: Option<Cmd<Span>>, i': nat)
    requires i <= |s| && NUL !in s && Starts(Lex(s, i), '(')
    ensures Parsed(s, i, r, i', ParseExec(Lex(s, i)))
    decreases |s| - i, 0
  {
    ExecUnroll(Lex(s, i));
    var tok, p, close, ok, rs;
    tok, p, i' := GetToken(s, i);
    r, i' := ParseLineAt(s, i');
    if r.None? {
      return;
    }
    close, i' := PeekSym(s, i', ')');
    if !close {
      return None, i';
    }
    tok, p, i' := GetToken(s, i');
    assert RdsOf(s, []) == [];
    ok, rs, i' := ParseRedirs(s, i', []);
    if !ok {
      return None, i';
    }
    WrapTree(s, r.value, rs);
    return Some(Wrap(r.value, rs)), i';
  }

  /** `parseexec` */
  method ParseExecAt(s: string, i: nat) returns (r: Option<Cmd<Span>>, i': nat)
    requires i <= |s| && NUL !in s
    ensures Parsed(s, i, r, i', ParseExec(Lex(s, i)))
    decreases |s| - i, 1
  {
    var open;
    open, i' := PeekSym(s, i, '(');
    if open {
      r, i' := ParseBlock(s, i');
    } else {
      r, i' := ParseSimple(s, i');
    }
  }

  lemma PipeUnroll(ts: seq<Tok>)
    ensures var left := ParseExec(ts);
            if left.None? || !Starts(left.value.1, '|') then ParsePipe(ts) == left
            else var right := ParsePipe(left.value.1[1..]);
                 ParsePipe(ts) == if right.None? then None else Some((Pipe(left.value.0, right.value.0), right.value.1))
  {
  }

  /** `parsepipe` */
  method ParsePipeAt(s: string, i: nat) returns (r: Option<Cmd<Span>>, i': nat)
    requires i <= |s| && NUL !in s
    ensures Parsed(s, i, r, i', ParsePipe(Lex(s, i)))
    decreases |s| - i, 2
  {
    PipeUnroll(Lex(s, i));
    r, i' := ParseExecAt(s, i);
    if r.None? {
      return;
    }
    var bar;
    bar, i' := PeekSym(s, i', '|');
    if bar {
      var tok, p, right;
      tok, p, i' := GetToken(s, i');
      right, i' := ParsePipeAt(s, i');
      r := if right.None? then None else Some(Pipe(r.value, right.value));
    }
  }

  /** The loop of `parseline`. */
  method ParseBacks(s: string, i: nat, c: Cmd<Span>) returns (c': Cmd<Span>, i': nat)
    requires i <= |s| && NUL !in s && SpansOk(s, c)
    ensures i <= i' <= |s| && SpansOk(s, c') && (TreeOf(s, c'), Lex(s, i')) == Backs(TreeOf(s, c), Lex(s, i))
  {
    c' := c;
    var more;
    more, i' := PeekSym(s, i, '&');
    while more
      invariant i <= i' <= |s| && SpansOk(s, c') && (more <==> Starts(Lex(s, i'), '&'))
      invariant Backs(TreeOf(s, c'), Lex(s, i')) == Backs(TreeOf(s, c), Lex(s, i))
      decreases |s| - i'
    {
      var tok, p;
      tok, p, i' := GetToken(s, i');
      c' := Back(c');
      more, i' := PeekSym(s, i', '&');
    }
  }

  lemma LineUnroll(ts: seq<Tok>)
    ensures var left := ParsePipe(ts);
            if left.None? then ParseLine(ts) == None
            else var b := Backs(left.value.0, left.value.1);
                 if !Starts(b.1, ';') then ParseLine(ts) == Some(b)
                 else var right := ParseLine(b.1[1..]);
                      ParseLine(ts) == if right.None? then None else Some((List(b.0, right.value.0), right.value.1))
  {
  }

  /** `parseline` */
  method ParseLineAt(s: string, i: nat) returns (r: Option<Cmd<Span>>, i': nat)
    requires i <= |s| && NUL !in s
    ensures Parsed(s, i, r, i', ParseLine(Lex(s, i)))
    decreases |s| - i, 3
  {
    LineUnroll(Lex(s, i));
    r, i' := ParsePipeAt(s, i);
    if r.None? {
      return;
    }
    var c;
    c, i' := ParseBacks(s, i', r.value);
    r := Some(c);
    var semi;
    semi, i' := PeekSym(s, i', ';');
    if semi {
      var tok, p, right;
      tok, p, i' := GetToken(s, i');
      right, i' := ParseLineAt(s, i');
      r := if right.None? then None else Some(List(c, right.value));
    }
  }

  // ----- nulterminate ---------------------------------------------------------------------------------

  /** Where words end. */
  ghost function Ends(c: Cmd<Span>): set<nat> {
    match c
    case Exec(args) => set i | 0 <= i < |args| :: args[i].eq
    case Redir(d, file, _, _) => Ends(d) + {file.eq}
    case Pipe(l, r) => Ends(l) + Ends(r)
    case List(l, r) => Ends(l) + Ends(r)
    case Back(d) => Ends(d)
  }

  /** A NUL at the end of every word. */
  method Nulterminate(buf: array<char>, c: Cmd<Span>)
    requires forall e :: e in Ends(c) ==> e < buf.Length
    modifies buf
    ensures forall j :: 0 <= j < buf.Length ==> buf[j] == if j in Ends(c) then NUL else old(buf[j])
    decreases c
  {
    match c
    case Exec(args) =>
      var i := 0;
      while i < |args|
        invariant 0 <= i <= |args|
        invariant forall j :: 0 <= j < buf.Length ==>
                   buf[j] == if (exists k :: 0 <= k < i && args[k].eq == j) then NUL else old(buf[j])
      {
        assert args[i].eq in Ends(c);
        buf[args[i].eq] := NUL;
        i := i + 1;
      }
    case Redir(d, file, _, _) =>
      assert Ends(c) == Ends(d) + {file.eq} && Ends(d) <= Ends(c) && file.eq in Ends(c);
      Nulterminate(buf, d);
      buf[file.eq] := NUL;
    case Pipe(l, r) =>
      assert Ends(c) == Ends(l) + Ends(r) && Ends(l) <= Ends(c) && Ends(r) <= Ends(c);
      Nulterminate(buf, l);
      Nulterminate(buf, r);
    case List(l, r) =>
      assert Ends(c) == Ends(l) + Ends(r) && Ends(l) <= Ends(c) && Ends(r) <= Ends(c);
      Nulterminate(buf, l);
      Nulterminate(buf, r);
    case Back(d) =>
      assert Ends(c) == Ends(d);
      Nulterminate(buf, d);
  }

  /** The C string at `q`. */
  function CString(b: string, q: nat): string
    decreases |b| - q
  {
    if q >= |b| || b[q] == NUL then "" else [b[q]] + CString(b, q + 1)
  }

  lemma {:induction false} CStringIs(b: string, q: nat, e: nat)
    requires q <= e < |b| && b[e] == NUL && forall j :: q <= j < e ==> b[j] != NUL
    ensures CString(b, q) == b[q..e]
    decreases e - q
  {
    if q < e {
      CStringIs(b, q + 1, e);
      assert b[q..e] == [b[q]] + b[q + 1..e];
    }
  }

  /** The command that its pointers give, reading up to NUL. */
  function Read(b: string, c: Cmd<Span>): Tree {
    match c
    case Exec(args) => Exec(seq(|args|, (i: nat) requires i < |args| => CString(b, args[i].q)))
    case Redir(d, file, mode, fd) => Redir(Read(b, d), CString(b, file.q), mode, fd)
    case Pipe(l, r) => Pipe(Read(b, l), Read(b, r))
    case List(l, r) => List(Read(b, l), Read(b, r))
    case Back(d) => Back(Read(b, d))
  }

  /** `b` is the line `s` with NULs at the places `ends`, and at its end. */
  predicate Cut(s: string, b: string, ends: set<nat>) {
    && |b| == |s| + 1 && b[|s|] == NUL
    && (forall j :: 0 <= j < |s| ==> b[j] == if j in ends then NUL else s[j])
    && (forall e :: e in ends && e < |s| ==> !IsWordChar(s[e]))
  }

  lemma SpanRead(s: string, b: string, ends: set<nat>, p: Span)
    requires Cut(s, b, ends) && SpanOk(s, p) && p.eq in ends
    ensures CString(b, p.q) == Str(s, p)
  {
    CStringIs(b, p.q, p.eq);
    assert b[p.q..p.eq] == s[p.q..p.eq];
  }

  lemma {:induction false} CutRead(s: string, b: string, ends: set<nat>, c: Cmd<Span>)
    requires Cut(s, b, ends) && SpansOk(s, c) && Ends(c) <= ends
    ensures Read(b, c) == TreeOf(s, c)
  {
    match c
    case Exec(args) =>
      forall i | 0 <= i < |args| ensures CString(b, args[i].q) == Str(s, args[i]) {
        assert args[i].eq in Ends(c);
        SpanRead(s, b, ends, args[i]);
      }
    case Redir(d, file, mode, fd) =>
      CutRead(s, b, ends, d);
      SpanRead(s, b, ends, file);
    case Pipe(l, r) =>
      CutRead(s, b, ends, l);
      CutRead(s, b, ends, r);
    case List(l, r) =>
      CutRead(s, b, ends, l);
      CutRead(s, b, ends, r);
    case Back(d) =>
      CutRead(s, b, ends, d);
  }

  lemma {:induction false} EndsOk(s: string, c: Cmd<Span>, e: nat)
    requires SpansOk(s, c) && e in Ends(c)
    ensures e <= |s| && (e < |s| ==> !IsWordChar(s[e]))
  {
    match c
    case Exec(args) =>
    case Redir(d, file, _, _) => if e in Ends(d) { EndsOk(s, d, e); }
    case Pipe(l, r) => if e in Ends(l) { EndsOk(s, l, e); } else { EndsOk(s, r, e); }
    case List(l, r) => if e in Ends(l) { EndsOk(s, l, e); } else { EndsOk(s, r, e); }
    case Back(d) => EndsOk(s, d, e);
  }

  /** `parsecmd`: None for a syntax error.  Otherwise the words of the command,
      read from the buffer up to NUL, are exactly those of the line. */
  method ParseCmd(buf: array<char>, n: nat) returns (r: Option<Cmd<Span>>)
    requires n + 1 == buf.Length && buf[n] == NUL && NUL !in buf[..n]
    modifies buf
    ensures r.Some? <==> ParseText(old(buf[..n])).Some?
    ensures r.Some? ==> Some(Read(buf[..], r.value)) == ParseText(old(buf[..n]))
  {
    var s := buf[..n];
    var i;
    r, i := ParseLineAt(s, 0);
    if r.None? {
      return;
    }
    var skip;
    NextChar(s, i);
    skip, i := Peek(s, i, "");
    if i != n {
      return None;
    }
    forall e | e in Ends(r.value) ensures e <= |s| && (e < |s| ==> !IsWordChar(s[e])) { EndsOk(s, r.value, e); }
    Nulterminate(buf, r.value);
    CutRead(s, buf[..], Ends(r.value), r.value);
  }
}
