/** Tokens of a command line as user/sh.c finds them, character by character. */
module ShellLexer {
  import opened Common
  import opened ShellGrammar

  const NUL := '\0'

  predicate IsSpace(c: char) { c == ' ' || c == '\t' || c == '\r' || c == '\n' || c == '\U{0B}' }
  predicate IsSymbol(c: char) { c == '<' || c == '|' || c == '>' || c == '&' || c == ';' || c == '(' || c == ')' }
  predicate IsWordChar(c: char) { c != NUL && !IsSpace(c) && !IsSymbol(c) }

  /** The character at `i`; the line ends in NUL. */
  function At(s: string, i: nat): char { if i < |s| then s[i] else NUL }

  function Skip(s: string, i: nat): (k: nat)
    requires i <= |s|
    ensures i <= k <= |s| && (k < |s| ==> !IsSpace(s[k])) && forall j :: i <= j < k ==> IsSpace(s[j])
    decreases |s| - i
  {
    if i < |s| && IsSpace(s[i]) then Skip(s, i + 1) else i
  }

  function WordEnd(s: string, i: nat): (k: nat)
    requires i <= |s|
    ensures i <= k <= |s| && (k < |s| ==> IsSpace(s[k]) || IsSymbol(s[k]))
    ensures forall j :: i <= j < k ==> !IsSpace(s[j]) && !IsSymbol(s[j])
    decreases |s| - i
  {
    if i < |s| && !IsSpace(s[i]) && !IsSymbol(s[i]) then WordEnd(s, i + 1) else i
  }

  /** The token that begins at `q`, and where it ends. */
  function TokenAt(s: string, q: nat): (r: (Tok, nat))
    requires q < |s| && !IsSpace(s[q])
    ensures q < r.1 <= |s|
  {
    if s[q] == '>' && At(s, q + 1) == '>' then (Sym('+'), q + 2)
    else if IsSymbol(s[q]) then (Sym(s[q]), q + 1)
    else (Word(s[q..WordEnd(s, q)]), WordEnd(s, q))
  }

  /** All tokens from `i` on. */
  function Lex(s: string, i: nat): seq<Tok>
    requires i <= |s|
    decreases |s| - i
  {
    var q := Skip(s, i);
    if q == |s| then [] else [TokenAt(s, q).0] + Lex(s, TokenAt(s, q).1)
  }

  lemma {:induction false} SkipTo(s: string, i: nat, k: nat)
    requires i <= k <= |s| && (k < |s| ==> !IsSpace(s[k])) && forall j :: i <= j < k ==> IsSpace(s[j])
    ensures Skip(s, i) == k
    decreases k - i
  {
    if i < k { SkipTo(s, i + 1, k); }
  }

  lemma {:induction false} WordTo(s: string, i: nat, k: nat)
    requires i <= k <= |s| && (k < |s| ==> IsSpace(s[k])) && forall j :: i <= j < k ==> IsWordChar(s[j])
    ensures WordEnd(s, i) == k
    decreases k - i
  {
    if i < k { WordTo(s, i + 1, k); }
  }

  lemma LexSkipped(s: string, i: nat)
    requires i <= |s|
    ensures Lex(s, Skip(s, i)) == Lex(s, i)
  {
    SkipTo(s, Skip(s, i), Skip(s, i));
  }

  // ----- Writing tokens out -------------------------------------------------------------------

  function Text(t: Tok): string {
    match t
    case Sym(c) => if c == '+' then ">>" else [c]
    case Word(w) => w
  }

  /** A token that text can stand for. */
  predicate Plain(t: Tok) {
    match t
    case Sym(c) => c == '+' || IsSymbol(c)
    case Word(w) => w != "" && forall i :: 0 <= i < |w| ==> IsWordChar(w[i])
  }

  /** Each token from `k` on, after a space. */
  function ShowFrom(ts: seq<Tok>, k: nat): string
    decreases |ts| - k
  {
    if k >= |ts| then "" else " " + Text(ts[k]) + ShowFrom(ts, k + 1)
  }

  function Show(ts: seq<Tok>): string { ShowFrom(ts, 0) }

  lemma ShowFront(ts: seq<Tok>, k: nat)
    ensures ShowFrom(ts, k) == "" || ShowFrom(ts, k)[0] == ' '
  {
  }

  /** The token written at `q` and followed by a space, or by nothing, is read. */
  lemma TokenRead(s: string, q: nat, t: Tok)
    requires Plain(t) && q + |Text(t)| <= |s| && s[q..q + |Text(t)|] == Text(t)
    requires q + |Text(t)| == |s| || s[q + |Text(t)|] == ' '
    ensures q < |s| && !IsSpace(s[q]) && TokenAt(s, q) == (t, q + |Text(t)|)
  {
    var k := q + |Text(t)|;
    assert forall j :: 0 <= j < |Text(t)| ==> s[q + j] == s[q..k][j];
    match t
    case Sym(c) =>
      if c == '+' { assert s[q + 1] == s[q..k][1]; }
    case Word(w) =>
      forall j | q <= j < k ensures IsWordChar(s[j]) { assert s[j] == s[q..k][j - q]; }
      WordTo(s, q, k);
  }

  /** At `i` a space and the text of `t`, up to `j`. */
  predicate Written(s: string, i: nat, t: Tok, j: nat) {
    && Plain(t) && j == i + 1 + |Text(t)| && j <= |s| && s[i] == ' ' && s[i + 1..j] == Text(t)
    && (j == |s| || s[j] == ' ')
  }

  lemma LexStep(s: string, i: nat, t: Tok, j: nat)
    requires Written(s, i, t, j)
    ensures Lex(s, i) == [t] + Lex(s, j)
  {
    TokenRead(s, i + 1, t);
    SkipTo(s, i, i + 1);
  }

  /** Tokens written one after the other, `ts[k]` at `at[k]`. */
  predicate WrittenAll(s: string, ts: seq<Tok>, at: seq<nat>) {
    && |at| == |ts| + 1 && at[|ts|] == |s|
    && forall k :: 0 <= k < |ts| ==> Written(s, at[k], ts[k], at[k + 1])
  }

  lemma {:induction false} LexWritten(s: string, ts: seq<Tok>, at: seq<nat>, k: nat)
    requires WrittenAll(s, ts, at) && k <= |ts| && at[k] <= |s|
    ensures Lex(s, at[k]) == ts[k..]
    decreases |ts| - k
  {
    if k < |ts| {
      LexStep(s, at[k], ts[k], at[k + 1]);
      LexWritten(s, ts, at, k + 1);
    }
  }

  /** Where the parts of a text are. */
  lemma Parts(s: string, p: nat, x: string, rest: string)
    requires p <= |s| && s[p..] == " " + x + rest && (rest == "" || rest[0] == ' ')
    ensures var k := p + 1 + |x|;
            k <= |s| && s[p] == ' ' && s[p + 1..k] == x && (k == |s| || s[k] == ' ') && s[k..] == rest
  {
    var u, k := s[p..], p + 1 + |x|;
    assert |u| == 1 + |x| + |rest| && u[0] == ' ';
    assert s[p + 1..k] == u[1..1 + |x|] == x;
    assert s[k..] == u[1 + |x|..] == rest;
    if rest != "" { assert s[k] == s[k..][0]; }
  }

  /** Where token `k` begins in what is shown. */
  function Pos(ts: seq<Tok>, k: nat): nat
    requires k <= |ts|
  {
    if k == 0 then 0 else Pos(ts, k - 1) + 1 + |Text(ts[k - 1])|
  }

  lemma {:induction false} Suffix(ts: seq<Tok>, k: nat)
    requires k <= |ts|
    ensures Pos(ts, k) <= |Show(ts)| && Show(ts)[Pos(ts, k)..] == ShowFrom(ts, k)
  {
    if k > 0 {
      Suffix(ts, k - 1);
      ShowFront(ts, k);
      Parts(Show(ts), Pos(ts, k - 1), Text(ts[k - 1]), ShowFrom(ts, k));
    }
  }

  lemma TokenWritten(ts: seq<Tok>, k: nat)
    requires k < |ts| && Plain(ts[k])
    ensures Written(Show(ts), Pos(ts, k), ts[k], Pos(ts, k + 1))
  {
    Suffix(ts, k);
    ShowFront(ts, k + 1);
    Parts(Show(ts), Pos(ts, k), Text(ts[k]), ShowFrom(ts, k + 1));
  }

  /** Reading what was written gives the tokens back. */
  lemma LexShow(ts: seq<Tok>)
    requires forall i :: 0 <= i < |ts| ==> Plain(ts[i])
    ensures Lex(Show(ts), 0) == ts
  {
    var at := seq(|ts| + 1, (k: nat) requires k <= |ts| => Pos(ts, k));
    forall k | 0 <= k < |ts| ensures Written(Show(ts), at[k], ts[k], at[k + 1]) {
      TokenWritten(ts, k);
    }
    Suffix(ts, |ts|);
    assert |Show(ts)[Pos(ts, |ts|)..]| == 0;
    LexWritten(Show(ts), ts, at, 0);
    assert ts[0..] == ts;
  }

  // ----- Commands as text -----------------------------------------------------------------------

  predicate PlainTree(t: Tree) {
    match t
    case Exec(args) => forall i :: 0 <= i < |args| ==> Plain(Word(args[i]))
    case Redir(c, file, _, _) => PlainTree(c) && Plain(Word(file))
    case Pipe(l, r) => PlainTree(l) && PlainTree(r)
    case List(l, r) => PlainTree(l) && PlainTree(r)
    case Back(c) => PlainTree(c)
  }

  predicate AllPlain(ts: seq<Tok>) { forall i :: 0 <= i < |ts| ==> Plain(ts[i]) }

  lemma {:induction false} InnerPlain(t: Tree)
    requires PlainTree(t) && (t.Pipe? || t.List? || t.Back?)
    ensures AllPlain(Inner(t))
    decreases t, 0
  {
    match t
    case Pipe(l, r) => ExecPlain(l); ExecPlain(r); if r.Pipe? { InnerPlain(r); }
    case List(l, r) => LinePlain(l); LinePlain(r);
    case Back(c) => LinePlain(c);
  }

  lemma {:induction false} ExecPlain(t: Tree)
    requires PlainTree(t)
    ensures AllPlain(PrintExec(t))
    decreases t, 1
  {
    match t
    case Exec(args) =>
    case Redir(c, file, mode, fd) => ExecPlain(c);
    case _ => InnerPlain(t);
  }

  lemma {:induction false} LinePlain(t: Tree)
    requires PlainTree(t)
    ensures AllPlain(PrintLine(t)) && AllPlain(PrintBack(t))
    decreases t, 2
  {
    ExecPlain(t);
    if t.Pipe? || t.List? || t.Back? { InnerPlain(t); }
    assert PrintPipe(t) == if t.Pipe? then Inner(t) else PrintExec(t);
    assert PrintBack(t) == if t.Back? then Inner(t) else PrintPipe(t);
    assert PrintLine(t) == if t.List? then Inner(t) else PrintBack(t);
  }

  /** What the shell makes of a line. */
  function ParseText(s: string): Option<Tree> { Parse(Lex(s, 0)) }

  /** Write a command out and the shell reads the same command. */
  lemma TextRoundTrip(t: Tree)
    requires Proper(t) && PlainTree(t)
    ensures ParseText(Show(PrintLine(t))) == Some(t)
  {
    LinePlain(t);
    LexShow(PrintLine(t));
    RoundTrip(t);
  }
}
