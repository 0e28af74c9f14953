/** The line loop of user/grep.c on its buffer, for every way `read` may split
    the input. */
module Grep {
  import Regex

  const BUFSZ := 1024
  const NUL := '\0'

  /** Where the first newline of `s` is, or |s|. */
  function Newline(s: string, i: nat): (k: nat)
    requires i <= |s|
    ensures i <= k <= |s| && (k < |s| ==> s[k] == '\n') && forall j :: i <= j < k ==> s[j] != '\n'
    decreases |s| - i
  {
    if i == |s| || s[i] == '\n' then i else Newline(s, i + 1)
  }

  /** The part of `s` that a C function sees: up to the first NUL. */
  function Visible(s: string): (r: string)
    ensures r <= s && NUL !in r && (|r| < |s| ==> s[|r|] == NUL)
  {
    if s == "" || s[0] == NUL then "" else
      var r := Visible(s[1..]);
      assert s == [s[0]] + s[1..];
      [s[0]] + r
  }

  lemma {:induction false} VisibleIs(s: string, k: nat)
    requires k <= |s| && NUL !in s[..k] && (k < |s| ==> s[k] == NUL)
    ensures Visible(s) == s[..k]
  {
    if k > 0 {
      assert s[0] in s[..k] && s[1..][..k - 1] == s[..k][1..];
      VisibleIs(s[1..], k - 1);
      assert s[..k] == [s[0]] + s[1..][..k - 1];
    }
  }

  /** What is visible of two pieces. */
  lemma VisibleOfTwo(a: string, b: string)
    ensures Visible(a + b) == if NUL in a then Visible(a) else a + Visible(b)
  {
    var x, y := Visible(a), Visible(b);
    if NUL in a {
      assert (a + b)[..|x|] == x && |x| < |a|;
      VisibleIs(a + b, |x|);
    } else {
      assert (a + b)[..|a| + |y|] == a + y;
      VisibleIs(a + b, |a| + |y|);
    }
  }

  lemma VisibleFrom(a: string, p: nat)
    requires p <= |Visible(a)|
    ensures Visible(a[p..]) == Visible(a)[p..]
  {
    var x := Visible(a);
    assert a[p..][..|x| - p] == x[p..];
    VisibleIs(a[p..], |x| - p);
  }

  /** The lines that match, each with its newline.  What follows the last
      newline is not a line. */
  ghost function Selected(re: string, s: string): string
    decreases |s|
  {
    var k := Newline(s, 0);
    if k == |s| then "" else
      (if Regex.Matches(re, s[..k]) then s[..k + 1] else "") + Selected(re, s[k + 1..])
  }

  /** The same, but nothing from the first line on that the buffer cannot hold
      with its newline. */
  ghost function Shown(re: string, s: string): string
    decreases |s|
  {
    var k := Newline(s, 0);
    if k == |s| || k >= BUFSZ - 1 then "" else
      (if Regex.Matches(re, s[..k]) then s[..k + 1] else "") + Shown(re, s[k + 1..])
  }

  /** Every line has at most BUFSZ - 2 characters. */
  predicate ShortLines(s: string)
    decreases |s|
  {
    var k := Newline(s, 0);
    k == |s| || (k < BUFSZ - 1 && ShortLines(s[k + 1..]))
  }

  /** What is left when the first line that does not fit turns up. */
  function Unread(s: string): string
    decreases |s|
  {
    var k := Newline(s, 0);
    if k == |s| || k >= BUFSZ - 1 then s else Unread(s[k + 1..])
  }

  lemma Associates(a: string, b: string, c: string)
    ensures (a + b) + c == a + (b + c)
  {
  }

  lemma Shorter(a: string, b: string)
    ensures a == a + b <==> b == ""
  {
    assert |a + b| == |a| + |b|;
  }

  /** Exactly the matching lines from there on are missing. */
  lemma {:induction false} Missing(re: string, s: string)
    ensures Selected(re, s) == Shown(re, s) + Selected(re, Unread(s))
    ensures Shown(re, s) == Selected(re, s) <==> Selected(re, Unread(s)) == ""
    decreases |s|
  {
    var k := Newline(s, 0);
    if k < |s| && k < BUFSZ - 1 {
      var t := s[k + 1..];
      Missing(re, t);
      Associates(if Regex.Matches(re, s[..k]) then s[..k + 1] else "", Shown(re, t), Selected(re, Unread(t)));
    }
    Shorter(Shown(re, s), Selected(re, Unread(s)));
  }

  /** With short lines nothing is missing. */
  lemma {:induction false} ShortShown(re: string, s: string)
    requires ShortLines(s)
    ensures Selected(re, Unread(s)) == "" && Shown(re, s) == Selected(re, s)
    decreases |s|
  {
    var k := Newline(s, 0);
    if k < |s| { ShortShown(re, s[k + 1..]); }
  }

  lemma EmptyMatches(text: string)
    ensures Regex.Matches("", text)
  {
    Regex.NoPieces(Regex.Parse(""), text, 0);
    assert Regex.MatchesAt(Regex.Parse(""), text, 0);
  }

  /** A line that does not fit is not read. */
  lemma {:induction false} LongUnread(s: string)
    requires !ShortLines(s)
    ensures Selected("", Unread(s)) != ""
    decreases |s|
  {
    var k := Newline(s, 0);
    if k < BUFSZ - 1 {
      LongUnread(s[k + 1..]);
    } else {
      EmptyMatches(s[..k]);
    }
  }

  /** Nothing is missing, whatever the pattern, if and only if every line fits. */
  lemma NothingMissing(s: string)
    ensures (forall re :: Shown(re, s) == Selected(re, s)) <==> ShortLines(s)
  {
    if ShortLines(s) {
      forall re ensures Shown(re, s) == Selected(re, s) { ShortShown(re, s); }
    } else {
      LongUnread(s);
      Missing("", s);
    }
  }

  lemma NewlineIs(s: string, k: nat)
    requires k <= |s| && (k < |s| ==> s[k] == '\n') && forall j :: 0 <= j < k ==> s[j] != '\n'
    ensures Newline(s, 0) == k
  {
    var n := Newline(s, 0);
    assert n < |s| ==> s[n] == '\n';
  }

  /** A line of BUFSZ - 1 characters is not shown although it matches. */
  lemma LongLineLost(s: string)
    requires |s| == BUFSZ && s[BUFSZ - 1] == '\n' && forall j :: 0 <= j < BUFSZ - 1 ==> s[j] != '\n'
    ensures Shown("", s) == "" && Selected("", s) == s
  {
    NewlineIs(s, BUFSZ - 1);
    EmptyMatches(s[..BUFSZ - 1]);
    assert s[..BUFSZ] == s && s[BUFSZ..] == "" && Newline("", 0) == 0;
  }

  /** The first line of `a + b` is that of `a`, if `a` has one. */
  lemma FirstLine(re: string, a: string, b: string, k: nat)
    requires k < |a| && k < BUFSZ - 1 && a[k] == '\n' && forall j :: 0 <= j < k ==> a[j] != '\n'
    ensures Shown(re, a + b) == (if Regex.Matches(re, a[..k]) then a[..k + 1] else "") + Shown(re, a[k + 1..] + b)
  {
    var s := a + b;
    NewlineIs(s, k);
    assert s[..k] == a[..k] && s[..k + 1] == a[..k + 1] && s[k + 1..] == a[k + 1..] + b;
  }

  /** strchr(buf + p, newline) on a string that ends at `m`; that is where it
      stops when there is none. */
  method Strchr(buf: array<char>, p: nat, ghost m: nat) returns (q: nat)
    requires p <= m < buf.Length && buf[m] == NUL && forall j :: p <= j < m ==> buf[j] != NUL
    ensures p <= q <= m && (q < m <==> buf[q] == '\n') && forall j :: p <= j < q ==> buf[j] != '\n'
  {
    q := p;
    while buf[q] != NUL && buf[q] != '\n'
      invariant p <= q <= m && forall j :: p <= j < q ==> buf[j] != '\n'
      decreases m - q
    {
      q := q + 1;
    }
  }

  /** The string at `p`, as a C function sees it. */
  method CString(buf: array<char>, p: nat, ghost q: nat) returns (s: string)
    requires p <= q < buf.Length && buf[q] == NUL && forall j :: p <= j < q ==> buf[j] != NUL
    ensures s == buf[p..q]
  {
    var i := p;
    s := [];
    while buf[i] != NUL
      invariant p <= i <= q && s == buf[p..i]
      decreases q - i
    {
      s := s + [buf[i]];
      i := i + 1;
    }
  }

  /** One line, which ends at the newline `q`: what is written for it. */
  method Line(re: string, buf: array<char>, p: nat, q: nat, ghost m: nat) returns (line: string)
    requires p <= q < m < buf.Length == BUFSZ && buf[q] == '\n' && forall j :: p <= j < m ==> buf[j] != NUL
    modifies buf
    ensures forall j :: 0 <= j < buf.Length && j != q ==> buf[j] == old(buf[j])
    ensures line == if Regex.Matches(re, old(buf[p..q])) then old(buf[p..q + 1]) else ""
  {
    buf[q] := NUL;
    var text := CString(buf, p, q);
    assert text == old(buf[p..q]);
    var yes := Regex.Match(re, text);
    line := "";
    if yes {
      buf[q] := '\n';
      line := buf[p..q + 1];
    }
  }

  lemma Appended(out0: string, line: string, tail: string, all: string, out: string)
    requires all == line + tail && out == out0 + line
    ensures out + tail == out0 + all
  {
  }

  /** Midway through the lines of `s`: what follows `p` is untouched and the
      next newline is at `q`. */
  ghost predicate Scanning(re: string, b: string, s: string, rest: string, all: string, out: string, p: nat, q: nat) {
    && p <= q <= |s| < |b| && b[|s|] == NUL && NUL !in s && b[p..|s|] == s[p..]
    && (q < |s| ==> s[q] == '\n') && (forall j :: p <= j < q ==> s[j] != '\n')
    && out + Shown(re, s[p..] + rest) == all
  }

  lemma NextLine(re: string, s: string, rest: string, all: string, out: string, p: nat, q: nat)
    requires p <= q < |s| < BUFSZ && s[q] == '\n' && (forall j :: p <= j < q ==> s[j] != '\n')
    requires out + Shown(re, s[p..] + rest) == all
    ensures out + (if Regex.Matches(re, s[p..q]) then s[p..q + 1] else "") + Shown(re, s[q + 1..] + rest) == all
  {
    FirstLine(re, s[p..], rest, q - p);
    assert s[p..][..q - p] == s[p..q] && s[p..][..q - p + 1] == s[p..q + 1] && s[p..][q - p + 1..] == s[q + 1..];
    var line := if Regex.Matches(re, s[p..q]) then s[p..q + 1] else "";
    Appended(out, line, Shown(re, s[q + 1..] + rest), Shown(re, s[p..] + rest), out + line);
  }

  lemma TextAt(b: string, s: string, p: nat, q: nat)
    requires p <= q < |s| <= |b| && b[p..|s|] == s[p..]
    ensures b[p..q] == s[p..q] && b[p..q + 1] == s[p..q + 1] && forall j :: p <= j < |s| ==> b[j] == s[j]
  {
    forall j | p <= j < |s| ensures b[j] == s[j] { assert b[p..|s|][j - p] == s[p..][j - p]; }
  }

  lemma TextAfter(b: string, b': string, s: string, p: nat, q: nat)
    requires p <= q < |s| <= |b| == |b'| && b[p..|s|] == s[p..]
    requires forall j :: q < j < |b| ==> b'[j] == b[j]
    ensures b'[q + 1..|s|] == s[q + 1..]
  {
    TextAt(b, s, p, q);
  }

  /** One turn of the inner loop. */
  method ScanLine(re: string, buf: array<char>, p: nat, q: nat, out: string, ghost s: string, ghost rest: string,
                  ghost all: string)
    returns (out': string, q': nat)
    requires buf.Length == BUFSZ && q < |s| && Scanning(re, buf[..], s, rest, all, out, p, q)
    modifies buf
    ensures Scanning(re, buf[..], s, rest, all, out', q + 1, q') && (buf[q'] == '\n' <==> q' < |s|)
    ensures forall j :: q < j < BUFSZ ==> buf[j] == old(buf[j])
  {
    ghost var m := |s|;
    TextAt(buf[..], s, p, q);
    ghost var b := buf[..];
    assert buf[p..q] == b[p..q] && buf[p..q + 1] == b[p..q + 1];
    var line := Line(re, buf, p, q, m);
    TextAfter(b, buf[..], s, p, q);
    NextLine(re, s, rest, all, out, p, q);
    out' := out + line;
    q' := Strchr(buf, q + 1, m);
  }

  /** The loop over the lines of the visible part `s` of the buffer. */
  method ScanLines(re: string, buf: array<char>, ghost s: string, ghost rest: string) returns (out: string, p: nat)
    requires |s| < buf.Length == BUFSZ && buf[|s|] == NUL && NUL !in s && buf[..|s|] == s
    modifies buf
    ensures p <= |s| && out + Shown(re, s[p..] + rest) == Shown(re, s + rest) && '\n' !in s[p..]
    ensures forall j :: p <= j < BUFSZ ==> buf[j] == old(buf[j])
  {
    ghost var all := Shown(re, s + rest);
    p, out := 0, "";
    forall j | 0 <= j < |s| ensures buf[j] != NUL { assert buf[..|s|][j] == s[j]; }
    var q := Strchr(buf, 0, |s|);
    assert s[0..] == s && buf[..][0..|s|] == s;
    while buf[q] == '\n'
      invariant Scanning(re, buf[..], s, rest, all, out, p, q) && (buf[q] == '\n' <==> q < |s|)
      invariant forall j :: p <= j < BUFSZ ==> buf[j] == old(buf[j])
      decreases |s| - p
    {
      var q0 := q;
      out, q := ScanLine(re, buf, p, q, out, s, rest, all);
      p := q0 + 1;
    }
  }

  /** What is visible from `p` on, with what follows the buffer. */
  lemma Continues(t: string, p: nat, rest: string)
    requires p <= |Visible(t)|
    ensures var more := if NUL in t then "" else Visible(rest);
            Visible(t + rest) == Visible(t) + more && Visible(t[p..] + rest) == Visible(t)[p..] + more
  {
    VisibleOfTwo(t, rest);
    VisibleOfTwo(t[p..], rest);
    VisibleFrom(t, p);
    if NUL in t {
      assert t[p..][|Visible(t)| - p] == NUL;
    } else {
      assert t[..|t|] == t;
      VisibleIs(t, |t|);
    }
  }

  /** The inner loop: write the complete lines that are visible in buf[..m] and
      match. */
  method Lines(re: string, buf: array<char>, ghost m: nat, ghost rest: string) returns (out: string, p: nat)
    requires m < buf.Length == BUFSZ && buf[m] == NUL
    modifies buf
    ensures p <= m && out + Shown(re, Visible(buf[p..m] + rest)) == Shown(re, Visible(old(buf[..m]) + rest))
    ensures buf[p..m] == old(buf[p..m]) && '\n' !in Visible(buf[p..m])
  {
    ghost var t := buf[..m];
    ghost var s := Visible(t);
    assert buf[..|s|] == s;
    out, p := ScanLines(re, buf, s, if NUL in t then "" else Visible(rest));
    assert buf[p..m] == t[p..];
    VisibleFrom(t, p);
    Continues(t, p, rest);
  }

  /** `read` puts the next `n` characters after the first `m`. */
  method Append(buf: array<char>, m: nat, data: string)
    requires m + |data| < buf.Length
    modifies buf
    ensures buf[..m + |data|] == old(buf[..m]) + data && buf[m + |data|] == NUL
  {
    var i := 0;
    while i < |data|
      invariant 0 <= i <= |data| && buf[..m] == old(buf[..m]) && buf[m..m + i] == data[..i]
    {
      buf[m + i] := data[i];
      i := i + 1;
    }
    buf[m + |data|] := NUL;
    assert buf[..m + |data|] == buf[..m] + buf[m..m + |data|];
  }

  /** memmove of buf[p..m] to the front. */
  method ToFront(buf: array<char>, p: nat, m: nat)
    requires p <= m <= buf.Length
    modifies buf
    ensures buf[..m - p] == old(buf[p..m])
  {
    var i := 0;
    while i < m - p
      invariant 0 <= i <= m - p && buf[..i] == old(buf[p..p + i])
      invariant forall j :: p + i <= j < m ==> buf[j] == old(buf[j])
    {
      buf[i] := buf[p + i];
      i := i + 1;
    }
  }

  /** One turn of the outer loop, after `read` delivered `data`: `a` was in the
      buffer, `a'` is left in it. */
  method Turn(re: string, buf: array<char>, m: nat, data: string, ghost a: string, ghost rest: string)
    returns (lines: string, m': nat, ghost a': string)
    requires buf.Length == BUFSZ && m + |data| < BUFSZ && a == buf[..m]
    modifies buf
    ensures m' < BUFSZ && a' == buf[..m'] && '\n' !in Visible(a')
    ensures lines + Shown(re, Visible(a' + rest)) == Shown(re, Visible(a + data + rest))
  {
    Append(buf, m, data);
    ghost var s := a + data;
    assert s == buf[..m + |data|];
    var p;
    lines, p := Lines(re, buf, m + |data|, rest);
    a' := s[p..];
    assert buf[p..m + |data|] == a';
    ToFront(buf, p, m + |data|);
    m' := m + |data| - p;
  }

  /** With `a` in the buffer and `rest` still to be read, `out` is what has been
      shown of `all`. */
  ghost predicate Reading(re: string, a: string, rest: string, out: string, all: string) {
    '\n' !in Visible(a) && out + Shown(re, Visible(a + rest)) == all
  }

  lemma ReadOn(re: string, a: string, rest: string, out: string, lines: string, before: string, all: string)
    requires '\n' !in Visible(a) && out + before == all && lines + Shown(re, Visible(a + rest)) == before
    ensures Reading(re, a, rest, out + lines, all)
  {
  }

  /** `read` delivers as much as it likes, as long as it fits. */
  method ReadMore(re: string, buf: array<char>, m: nat, rest: string, out: string, ghost a: string, ghost all: string)
    returns (rest': string, out': string, m': nat, ghost a': string)
    requires buf.Length == BUFSZ && m < BUFSZ - 1 && a == buf[..m] && rest != "" && Reading(re, a, rest, out, all)
    modifies buf
    ensures m' < BUFSZ && a' == buf[..m'] && |rest'| < |rest| && Reading(re, a', rest', out', all)
  {
    var n :| 0 < n <= BUFSZ - m - 1 && n <= |rest|;
    var data, lines := rest[..n], "";
    rest' := rest[n..];
    assert a + rest == a + data + rest';
    ghost var before := Shown(re, Visible(a + rest));
    lines, m', a' := Turn(re, buf, m, data, a, rest');
    out' := out + lines;
    ReadOn(re, a', rest', out, lines, before, all);
  }

  /** Read until the input ends or the buffer is full. */
  method ReadAll(re: string, input: string, buf: array<char>, ghost all: string)
    returns (out: string, ghost a: string, ghost rest: string)
    requires buf.Length == BUFSZ && Reading(re, "", input, "", all)
    modifies buf
    ensures Reading(re, a, rest, out, all) && (rest == "" || |a| >= BUFSZ - 1)
  {
    var k, left := 0, input;
    out, a := "", "";
    assert buf[..0] == "";
    while left != "" && k < BUFSZ - 1
      invariant 0 <= k < BUFSZ && a == buf[..k] && Reading(re, a, left, out, all)
      decreases |left|
    {
      left, out, k, a := ReadMore(re, buf, k, left, out, a, all);
    }
    rest := left;
  }

  /** What is left to show of a buffer without a newline. */
  lemma NothingShown(re: string, a: string, b: string)
    requires '\n' !in a && (b == "" || |a| >= BUFSZ - 1)
    ensures Shown(re, a + b) == ""
  {
    forall j | 0 <= j < |a| ensures (a + b)[j] != '\n' {
      assert (a + b)[j] == a[j];
    }
  }

  lemma AllRead(re: string, a: string, rest: string, out: string, all: string)
    requires Reading(re, a, rest, out, all) && (rest == "" || |a| >= BUFSZ - 1)
    ensures out == all
  {
    VisibleOfTwo(a, rest);
    if NUL in a {
      NothingShown(re, Visible(a), "");
      assert Visible(a) + "" == Visible(a);
    } else {
      assert a[..|a|] == a;
      VisibleIs(a, |a|);
      NothingShown(re, a, Visible(rest));
    }
  }

  /** However `read` splits the input, the output is the matching lines before the
      first NUL, up to the first one that does not fit the buffer. */
  method Run(re: string, input: string, buf: array<char>) returns (out: string)
    requires buf.Length == BUFSZ
    modifies buf
    ensures out == Shown(re, Visible(input))
    ensures ShortLines(Visible(input)) ==> out == Selected(re, Visible(input))
  {
    ghost var a, rest;
    assert "" + input == input;
    out, a, rest := ReadAll(re, input, buf, Shown(re, Visible(input)));
    AllRead(re, a, rest, out, Shown(re, Visible(input)));
    if ShortLines(Visible(input)) { ShortShown(re, Visible(input)); }
  }
}
