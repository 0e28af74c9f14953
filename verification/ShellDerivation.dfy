/** The language of user/sh.c as a grammar: derivation trees, the tokens each one
    stands for and the command it means.  The parser accepts exactly the lines
    that have a derivation, and builds exactly what it means. */
module ShellDerivation {
  import opened Common
  import opened ShellGrammar

  /**   line  ::= pipe amps | pipe amps ";" line
        pipe  ::= exec | exec "|" pipe
        exec  ::= redirs items | "(" line ")" redirs
        item  ::= word redirs
        redir ::= ("<" | ">" | ">>") word          */
  datatype LineD = End(p: PipeD, amps: nat) | Then(p: PipeD, amps: nat, rest: LineD)
  datatype PipeD = Last(e: ExecD) | More(e: ExecD, rest: PipeD)
  datatype ExecD = Simple(pre: seq<RedirD>, items: seq<ItemD>) | Block(line: LineD, rs: seq<RedirD>)
  datatype ItemD = Item(word: string, rs: seq<RedirD>)
  datatype RedirD = RedirTo(op: char, file: string)

  // ----- Which trees are derivations ------------------------------------------------------

  predicate OkRedirs(rs: seq<RedirD>) { forall i :: 0 <= i < |rs| ==> IsOp(Sym(rs[i].op)) }

  predicate OkItems(items: seq<ItemD>) { forall i :: 0 <= i < |items| ==> OkRedirs(items[i].rs) }

  predicate OkExec(e: ExecD) {
    match e
    case Simple(pre, items) => OkRedirs(pre) && OkItems(items) && |items| < MAXARGS
    case Block(line, rs) => OkLine(line) && OkRedirs(rs)
  }

  predicate OkPipe(p: PipeD) {
    match p
    case Last(e) => OkExec(e)
    case More(e, rest) => OkExec(e) && OkPipe(rest)
  }

  predicate OkLine(d: LineD) {
    match d
    case End(p, _) => OkPipe(p)
    case Then(p, _, rest) => OkPipe(p) && OkLine(rest)
  }

  // ----- The tokens of a tree -----------------------------------------------------------------

  function TokRedirs(rs: seq<RedirD>): seq<Tok> {
    if rs == [] then [] else [Sym(rs[0].op), Word(rs[0].file)] + TokRedirs(rs[1..])
  }

  function TokItems(items: seq<ItemD>): seq<Tok> {
    if items == [] then [] else [Word(items[0].word)] + TokRedirs(items[0].rs) + TokItems(items[1..])
  }

  function Amps(n: nat): seq<Tok> { if n == 0 then [] else [Sym('&')] + Amps(n - 1) }

  function TokExec(e: ExecD): seq<Tok> {
    match e
    case Simple(pre, items) => TokRedirs(pre) + TokItems(items)
    case Block(line, rs) => [Sym('(')] + TokLine(line) + [Sym(')')] + TokRedirs(rs)
  }

  function TokPipe(p: PipeD): seq<Tok> {
    match p
    case Last(e) => TokExec(e)
    case More(e, rest) => TokExec(e) + [Sym('|')] + TokPipe(rest)
  }

  function TokLine(d: LineD): seq<Tok> {
    match d
    case End(p, amps) => TokPipe(p) + Amps(amps)
    case Then(p, amps, rest) => TokPipe(p) + Amps(amps) + [Sym(';')] + TokLine(rest)
  }

  // ----- The command a tree means ----------------------------------------------------------------

  function RedirsOf(rs: seq<RedirD>): seq<Rd<string>> {
    if rs == [] then [] else [Rd(rs[0].file, ModeOf(rs[0].op), FdOf(rs[0].op))] + RedirsOf(rs[1..])
  }

  function WordsOf(items: seq<ItemD>): seq<string> {
    if items == [] then [] else [items[0].word] + WordsOf(items[1..])
  }

  function ItemRedirs(items: seq<ItemD>): seq<Rd<string>> {
    if items == [] then [] else RedirsOf(items[0].rs) + ItemRedirs(items[1..])
  }

  function Backed(c: Tree, n: nat): Tree
    decreases n
  {
    if n == 0 then c else Backed(Back(c), n - 1)
  }

  function MeanExec(e: ExecD): Tree {
    match e
    case Simple(pre, items) => Wrap(Exec(WordsOf(items)), RedirsOf(pre) + ItemRedirs(items))
    case Block(line, rs) => Wrap(MeanLine(line), RedirsOf(rs))
  }

  function MeanPipe(p: PipeD): Tree {
    match p
    case Last(e) => MeanExec(e)
    case More(e, rest) => Pipe(MeanExec(e), MeanPipe(rest))
  }

  function MeanLine(d: LineD): Tree {
    match d
    case End(p, amps) => Backed(MeanPipe(p), amps)
    case Then(p, amps, rest) => List(Backed(MeanPipe(p), amps), MeanLine(rest))
  }

  // ----- Putting pieces together --------------------------------------------------------------

  lemma Regroup<T>(a: seq<T>, b: seq<T>, c: seq<T>)
    ensures a + b + c == a + (b + c)
  {
  }

  /** The tokens of a first item, of the others and of what follows. */
  lemma ItemTokens(it: ItemD, more: seq<ItemD>, post: seq<Tok>)
    ensures TokItems([it] + more) + post == [Word(it.word)] + (TokRedirs(it.rs) + (TokItems(more) + post))
  {
    assert ([it] + more)[1..] == more;
    Regroup([Word(it.word)], TokRedirs(it.rs), TokItems(more));
    Regroup([Word(it.word)], TokRedirs(it.rs) + TokItems(more), post);
    Regroup(TokRedirs(it.rs), TokItems(more), post);
  }

  /** What they mean, after `args0` and `rs0`. */
  lemma ItemMeaning(args0: seq<string>, rs0: seq<Rd<string>>, it: ItemD, more: seq<ItemD>)
    ensures args0 + WordsOf([it] + more) == args0 + [it.word] + WordsOf(more)
    ensures rs0 + ItemRedirs([it] + more) == rs0 + RedirsOf(it.rs) + ItemRedirs(more)
  {
    assert ([it] + more)[1..] == more;
    Regroup(args0, [it.word], WordsOf(more));
    Regroup(rs0, RedirsOf(it.rs), ItemRedirs(more));
  }

  lemma RedirTokens(r: RedirD, more: seq<RedirD>, post: seq<Tok>)
    ensures TokRedirs([r] + more) + post == [Sym(r.op), Word(r.file)] + (TokRedirs(more) + post)
    ensures RedirsOf([r] + more) == [Rd(r.file, ModeOf(r.op), FdOf(r.op))] + RedirsOf(more)
  {
    assert ([r] + more)[1..] == more;
    Regroup([Sym(r.op), Word(r.file)], TokRedirs(more), post);
  }

  /** The tokens of a block and of what follows. */
  lemma BlockTokens(line: LineD, rs: seq<RedirD>, post: seq<Tok>)
    ensures TokExec(Block(line, rs)) + post == [Sym('(')] + (TokLine(line) + ([Sym(')')] + (TokRedirs(rs) + post)))
  {
    var a, b, c, d := [Sym('(')], TokLine(line), [Sym(')')], TokRedirs(rs);
    Regroup(a + b + c, d, post);
    Regroup(a + b, c, d + post);
    Regroup(a, b, c + (d + post));
  }

  lemma MoreTokens(e: ExecD, rest: PipeD, post: seq<Tok>)
    ensures TokPipe(More(e, rest)) + post == TokExec(e) + ([Sym('|')] + (TokPipe(rest) + post))
  {
    Regroup(TokExec(e) + [Sym('|')], TokPipe(rest), post);
    Regroup(TokExec(e), [Sym('|')], TokPipe(rest) + post);
  }

  lemma ThenTokens(p: PipeD, amps: nat, rest: LineD, post: seq<Tok>)
    ensures TokLine(Then(p, amps, rest)) + post == TokPipe(p) + (Amps(amps) + ([Sym(';')] + (TokLine(rest) + post)))
  {
    var a, b, c, d := TokPipe(p), Amps(amps), [Sym(';')], TokLine(rest);
    Regroup(a + b + c, d, post);
    Regroup(a + b, c, d + post);
    Regroup(a, b, c + (d + post));
  }

  lemma EndTokens(p: PipeD, amps: nat, post: seq<Tok>)
    ensures TokLine(End(p, amps)) + post == TokPipe(p) + (Amps(amps) + post)
  {
    Regroup(TokPipe(p), Amps(amps), post);
  }

  lemma OneItemMore(it: ItemD, more: seq<ItemD>)
    requires OkRedirs(it.rs) && OkItems(more)
    ensures OkItems([it] + more)
  {
  }

  /** A first token and the others. */
  lemma FirstWord(ts: seq<Tok>)
    requires ts != [] && ts[0].Word?
    ensures ts == [Word(ts[0].w)] + ts[1..]
  {
  }

  lemma FirstOf(ts: seq<Tok>, c: char)
    requires Starts(ts, c)
    ensures ts == [Sym(c)] + ts[1..]
  {
  }

  // ----- Every derivation is parsed ----------------------------------------------------------------

  predicate NoOp(post: seq<Tok>) { post == [] || !IsOp(post[0]) }

  lemma {:induction false} RedirsParsed(rs0: seq<Rd<string>>, rs: seq<RedirD>, post: seq<Tok>)
    requires OkRedirs(rs) && NoOp(post)
    ensures Redirs(rs0, TokRedirs(rs) + post) == Some((rs0 + RedirsOf(rs), post))
    decreases |rs|
  {
    var ts := TokRedirs(rs) + post;
    if rs == [] {
      assert ts == post && rs0 + RedirsOf(rs) == rs0;
    } else {
      var r := Rd(rs[0].file, ModeOf(rs[0].op), FdOf(rs[0].op));
      assert rs == [rs[0]] + rs[1..];
      RedirTokens(rs[0], rs[1..], post);
      assert ts[2..] == TokRedirs(rs[1..]) + post;
      RedirsParsed(rs0 + [r], rs[1..], post);
      Regroup(rs0, [r], RedirsOf(rs[1..]));
    }
  }

  lemma ItemsNoOp(items: seq<ItemD>, post: seq<Tok>)
    requires Stops(post)
    ensures NoOp(TokItems(items) + post)
  {
    if items == [] { assert TokItems(items) + post == post; }
  }

  lemma {:induction false} ItemsParsed(args0: seq<string>, rs0: seq<Rd<string>>, items: seq<ItemD>, post: seq<Tok>)
    requires OkItems(items) && Stops(post) && |args0| + |items| < MAXARGS
    ensures Args(args0, rs0, TokItems(items) + post)
            == Some((Wrap(Exec(args0 + WordsOf(items)), rs0 + ItemRedirs(items)), post))
    decreases |items|
  {
    if items == [] {
      assert TokItems(items) + post == post && args0 + WordsOf(items) == args0 && rs0 + ItemRedirs(items) == rs0;
    } else {
      var it, more := items[0], items[1..];
      assert items == [it] + more;
      ItemTokens(it, more, post);
      ItemMeaning(args0, rs0, it, more);
      ItemsNoOp(more, post);
      RedirsParsed(rs0, it.rs, TokItems(more) + post);
      ArgsStep(args0, rs0, it.word, TokRedirs(it.rs) + (TokItems(more) + post));
      ItemsParsed(args0 + [it.word], rs0 + RedirsOf(it.rs), more, post);
    }
  }

  lemma SimpleParsed(pre: seq<RedirD>, items: seq<ItemD>, post: seq<Tok>)
    requires OkExec(Simple(pre, items)) && Stops(post)
    ensures ParseExec(TokExec(Simple(pre, items)) + post) == Some((MeanExec(Simple(pre, items)), post))
  {
    var ts := TokRedirs(pre) + (TokItems(items) + post);
    assert TokExec(Simple(pre, items)) + post == ts;
    ItemsNoOp(items, post);
    RedirsParsed([], pre, TokItems(items) + post);
    assert [] + RedirsOf(pre) == RedirsOf(pre);
    assert !Starts(ts, '(') by {
      if pre == [] {
        assert ts == TokItems(items) + post;
        if items == [] { assert ts == post; }
      }
    }
    ItemsParsed([], RedirsOf(pre), items, post);
    assert [] + WordsOf(items) == WordsOf(items);
  }

  lemma {:induction false} ExecParsed(e: ExecD, post: seq<Tok>)
    requires OkExec(e) && Stops(post)
    ensures ParseExec(TokExec(e) + post) == Some((MeanExec(e), post))
    decreases e
  {
    match e
    case Simple(pre, items) => SimpleParsed(pre, items, post);
    case Block(line, rs) =>
      var rest := [Sym(')')] + (TokRedirs(rs) + post);
      var ts := TokExec(e) + post;
      BlockTokens(line, rs, post);
      assert ts[1..] == TokLine(line) + rest && rest[1..] == TokRedirs(rs) + post;
      LineParsed(line, rest);
      RedirsParsed([], rs, post);
      assert [] + RedirsOf(rs) == RedirsOf(rs);
  }

  lemma {:induction false} PipeParsed(p: PipeD, post: seq<Tok>)
    requires OkPipe(p) && Stops(post) && !Starts(post, '|')
    ensures ParsePipe(TokPipe(p) + post) == Some((MeanPipe(p), post))
    decreases p
  {
    match p
    case Last(e) => ExecParsed(e, post);
    case More(e, rest) =>
      var after := [Sym('|')] + (TokPipe(rest) + post);
      MoreTokens(e, rest, post);
      ExecParsed(e, after);
      assert after[1..] == TokPipe(rest) + post;
      PipeParsed(rest, post);
  }

  lemma {:induction false} AmpsParsed(c: Tree, n: nat, post: seq<Tok>)
    requires !Starts(post, '&')
    ensures Backs(c, Amps(n) + post) == (Backed(c, n), post)
    decreases n
  {
    if n == 0 {
      assert Amps(n) + post == post;
    } else {
      assert (Amps(n) + post)[1..] == Amps(n - 1) + post;
      AmpsParsed(Back(c), n - 1, post);
    }
  }

  lemma AmpsStop(n: nat, post: seq<Tok>)
    requires Stops(post) && !Starts(post, '|')
    ensures Stops(Amps(n) + post) && !Starts(Amps(n) + post, '|')
  {
    if n == 0 { assert Amps(n) + post == post; }
  }

  lemma {:induction false} LineParsed(d: LineD, post: seq<Tok>)
    requires OkLine(d) && (post == [] || Starts(post, ')'))
    ensures ParseLine(TokLine(d) + post) == Some((MeanLine(d), post))
    decreases d
  {
    match d
    case End(p, amps) =>
      EndTokens(p, amps, post);
      AmpsStop(amps, post);
      PipeParsed(p, Amps(amps) + post);
      AmpsParsed(MeanPipe(p), amps, post);
    case Then(p, amps, rest) =>
      var after := [Sym(';')] + (TokLine(rest) + post);
      ThenTokens(p, amps, rest, post);
      AmpsStop(amps, after);
      PipeParsed(p, Amps(amps) + after);
      AmpsParsed(MeanPipe(p), amps, after);
      assert after[1..] == TokLine(rest) + post;
      LineParsed(rest, post);
  }

  // ----- Whatever is parsed has a derivation --------------------------------------------------------

  lemma {:induction false} RedirsDerived(rs0: seq<Rd<string>>, ts: seq<Tok>) returns (rs: seq<RedirD>)
    requires Redirs(rs0, ts).Some?
    ensures OkRedirs(rs) && ts == TokRedirs(rs) + Redirs(rs0, ts).value.1
    ensures Redirs(rs0, ts).value.0 == rs0 + RedirsOf(rs)
    decreases |ts|
  {
    rs := [];
    if ts != [] && IsOp(ts[0]) {
      var op, file := ts[0].c, ts[1].w;
      var rd := Rd(file, ModeOf(op), FdOf(op));
      var more := RedirsDerived(rs0 + [rd], ts[2..]);
      rs := [RedirTo(op, file)] + more;
      RedirTokens(RedirTo(op, file), more, Redirs(rs0, ts).value.1);
      assert ts == [ts[0], ts[1]] + ts[2..];
      Regroup(rs0, [rd], RedirsOf(more));
    }
  }

  lemma {:induction false} ItemsDerived(args0: seq<string>, rs0: seq<Rd<string>>, ts: seq<Tok>)
    returns (items: seq<ItemD>)
    requires Args(args0, rs0, ts).Some? && |args0| < MAXARGS
    ensures OkItems(items) && |args0| + |items| < MAXARGS && ts == TokItems(items) + Args(args0, rs0, ts).value.1
    ensures Args(args0, rs0, ts).value.0 == Wrap(Exec(args0 + WordsOf(items)), rs0 + ItemRedirs(items))
    ensures Stops(Args(args0, rs0, ts).value.1)
    decreases |ts|
  {
    items := [];
    if Stops(ts) {
      assert args0 + WordsOf(items) == args0 && rs0 + ItemRedirs(items) == rs0;
    } else {
      var w, tail := ts[0].w, ts[1..];
      FirstWord(ts);
      var r := Redirs(rs0, tail).value;
      var rs := RedirsDerived(rs0, tail);
      var more := ItemsDerived(args0 + [w], r.0, r.1);
      var it := Item(w, rs);
      items := [it] + more;
      ItemTokens(it, more, Args(args0 + [w], r.0, r.1).value.1);
      ItemMeaning(args0, rs0, it, more);
      OneItemMore(it, more);
    }
  }

  lemma SimpleDerived(ts: seq<Tok>) returns (e: ExecD)
    requires ParseExec(ts).Some? && !Starts(ts, '(')
    ensures OkExec(e) && ts == TokExec(e) + ParseExec(ts).value.1 && ParseExec(ts).value.0 == MeanExec(e)
  {
    var r := Redirs([], ts).value;
    var pre := RedirsDerived([], ts);
    var items := ItemsDerived([], r.0, r.1);
    e := Simple(pre, items);
    Regroup(TokRedirs(pre), TokItems(items), ParseExec(ts).value.1);
    assert [] + RedirsOf(pre) == RedirsOf(pre) && [] + WordsOf(items) == WordsOf(items);
  }

  lemma {:induction false} ExecDerived(ts: seq<Tok>) returns (e: ExecD)
    requires ParseExec(ts).Some?
    ensures OkExec(e) && ts == TokExec(e) + ParseExec(ts).value.1 && ParseExec(ts).value.0 == MeanExec(e)
    decreases |ts|, 0
  {
    if Starts(ts, '(') {
      var line := ParseLine(ts[1..]).value;
      var d := LineDerived(ts[1..]);
      var rs := RedirsDerived([], line.1[1..]);
      e := Block(d, rs);
      assert [] + RedirsOf(rs) == RedirsOf(rs);
      FirstOf(ts, '(');
      FirstOf(line.1, ')');
      BlockTokens(d, rs, ParseExec(ts).value.1);
    } else {
      e := SimpleDerived(ts);
    }
  }

  lemma {:induction false} PipeDerived(ts: seq<Tok>) returns (p: PipeD)
    requires ParsePipe(ts).Some?
    ensures OkPipe(p) && ts == TokPipe(p) + ParsePipe(ts).value.1 && ParsePipe(ts).value.0 == MeanPipe(p)
    decreases |ts|, 1
  {
    var e := ExecDerived(ts);
    var left := ParseExec(ts).value;
    p := Last(e);
    if Starts(left.1, '|') {
      var rest := PipeDerived(left.1[1..]);
      p := More(e, rest);
      FirstOf(left.1, '|');
      MoreTokens(e, rest, ParsePipe(left.1[1..]).value.1);
    }
  }

  lemma {:induction false} AmpsDerived(c: Tree, ts: seq<Tok>) returns (n: nat)
    ensures ts == Amps(n) + Backs(c, ts).1 && Backs(c, ts).0 == Backed(c, n)
    decreases |ts|
  {
    n := 0;
    if Starts(ts, '&') {
      var m := AmpsDerived(Back(c), ts[1..]);
      n := m + 1;
      assert ts == [ts[0]] + ts[1..];
    }
  }

  lemma {:induction false} LineDerived(ts: seq<Tok>) returns (d: LineD)
    requires ParseLine(ts).Some?
    ensures OkLine(d) && ts == TokLine(d) + ParseLine(ts).value.1 && ParseLine(ts).value.0 == MeanLine(d)
    decreases |ts|, 2
  {
    var p := PipeDerived(ts);
    var left := ParsePipe(ts).value;
    var n := AmpsDerived(left.0, left.1);
    var b := Backs(left.0, left.1);
    d := End(p, n);
    EndTokens(p, n, b.1);
    if Starts(b.1, ';') {
      var rest := LineDerived(b.1[1..]);
      d := Then(p, n, rest);
      FirstOf(b.1, ';');
      ThenTokens(p, n, rest, ParseLine(b.1[1..]).value.1);
    }
  }

  // ----- Main theorem ------------------------------------------------------------------------------------

  /** `d` derives the tokens `ts`, and means `t`. */
  predicate Derives(d: LineD, ts: seq<Tok>, t: Tree) { OkLine(d) && TokLine(d) == ts && MeanLine(d) == t }

  /** The parser builds `t` from a line if and only if the grammar derives the line
      with that meaning; so it rejects exactly the lines without a derivation. */
  lemma AcceptsTheLanguage(ts: seq<Tok>, t: Tree)
    ensures Parse(ts) == Some(t) <==> exists d :: Derives(d, ts, t)
  {
    if Parse(ts) == Some(t) {
      var d := LineDerived(ts);
      assert TokLine(d) + [] == TokLine(d);
      assert Derives(d, ts, t);
    }
    forall d | Derives(d, ts, t) ensures Parse(ts) == Some(t) {
      LineParsed(d, []);
      assert TokLine(d) + [] == TokLine(d);
    }
  }

  /** No line has two meanings. */
  lemma Unambiguous(d1: LineD, d2: LineD)
    requires OkLine(d1) && OkLine(d2) && TokLine(d1) == TokLine(d2)
    ensures MeanLine(d1) == MeanLine(d2)
  {
    var ts := TokLine(d1);
    LineParsed(d1, []);
    LineParsed(d2, []);
    assert ts + [] == ts;
  }
}
