/** The matcher of user/grep.c against a declarative semantics: a pattern is a
    list of pieces, and a text matches when it can be cut into segments that fit
    the pieces. */
module Regex {
  /** One character, or any number of them. */
  datatype Piece = One(c: char) | Many(c: char)

  datatype Pattern = Pattern(pieces: seq<Piece>, toEnd: bool)

  /** `.` stands for any character. */
  predicate Fits(c: char, x: char) { c == '.' || c == x }

  function Parse(re: string): Pattern {
    if re == "" then Pattern([], false)
    else if |re| >= 2 && re[1] == '*' then
      var rest := Parse(re[2..]);
      Pattern([Many(re[0])] + rest.pieces, rest.toEnd)
    else if re == "$" then Pattern([], true)
    else
      var rest := Parse(re[1..]);
      Pattern([One(re[0])] + rest.pieces, rest.toEnd)
  }

  /** Characters i..j of the text fit one piece. */
  predicate SegmentFits(piece: Piece, text: string, i: nat, j: nat) {
    && i <= j <= |text| && (piece.One? ==> j == i + 1)
    && forall k :: i <= k < j ==> Fits(piece.c, text[k])
  }

  /** `cuts` divides a part of the text that starts at `i` into segments, one
      for each piece. */
  predicate Cuts(p: Pattern, text: string, i: nat, cuts: seq<nat>) {
    && |cuts| == |p.pieces| + 1 && cuts[0] == i && cuts[|cuts| - 1] <= |text|
    && (p.toEnd ==> cuts[|cuts| - 1] == |text|)
    && forall k :: 0 <= k < |p.pieces| ==> SegmentFits(p.pieces[k], text, cuts[k], cuts[k + 1])
  }

  /** The pattern matches at position `i`. */
  ghost predicate MatchesAt(p: Pattern, text: string, i: nat) {
    exists cuts :: Cuts(p, text, i, cuts)
  }

  /** What a user means by a match. */
  ghost predicate Matches(re: string, text: string) {
    if re != "" && re[0] == '^' then MatchesAt(Parse(re[1..]), text, 0)
    else exists i :: 0 <= i <= |text| && MatchesAt(Parse(re), text, i)
  }

  function Tail(p: Pattern): Pattern
    requires p.pieces != []
  {
    Pattern(p.pieces[1..], p.toEnd)
  }

  lemma NoPieces(p: Pattern, text: string, i: nat)
    requires p.pieces == [] && i <= |text|
    ensures MatchesAt(p, text, i) <==> (p.toEnd ==> i == |text|)
  {
    if p.toEnd ==> i == |text| { assert Cuts(p, text, i, [i]); }
  }

  /** Match the first piece up to `j`, and the rest from there. */
  lemma Cons(p: Pattern, text: string, i: nat, j: nat)
    requires p.pieces != [] && SegmentFits(p.pieces[0], text, i, j) && MatchesAt(Tail(p), text, j)
    ensures MatchesAt(p, text, i)
  {
    var cuts :| Cuts(Tail(p), text, j, cuts);
    var all := [i] + cuts;
    forall k | 0 <= k < |p.pieces| ensures SegmentFits(p.pieces[k], text, all[k], all[k + 1]) {
      if k > 0 { assert SegmentFits(Tail(p).pieces[k - 1], text, cuts[k - 1], cuts[k]); }
    }
    assert Cuts(p, text, i, all);
  }

  lemma Uncons(p: Pattern, text: string, i: nat) returns (j: nat)
    requires p.pieces != [] && MatchesAt(p, text, i)
    ensures SegmentFits(p.pieces[0], text, i, j) && MatchesAt(Tail(p), text, j)
  {
    var cuts :| Cuts(p, text, i, cuts);
    j := cuts[1];
    assert SegmentFits(p.pieces[0], text, cuts[0], cuts[1]);
    var rest := cuts[1..];
    forall k | 0 <= k < |Tail(p).pieces| ensures SegmentFits(Tail(p).pieces[k], text, rest[k], rest[k + 1]) {
      assert SegmentFits(p.pieces[k + 1], text, cuts[k + 1], cuts[k + 2]);
    }
    assert Cuts(Tail(p), text, j, rest);
  }

  /** Does `re` match at the beginning of text[i..]? */
  method MatchHere(re: string, text: string, i: nat) returns (r: bool)
    requires i <= |text|
    ensures r <==> MatchesAt(Parse(re), text, i)
    decreases |re|, 1
  {
    ghost var p := Parse(re);
    if re == "" {
      NoPieces(p, text, i);
      return true;
    }
    if |re| >= 2 && re[1] == '*' {
      assert Tail(p) == Parse(re[2..]);
      r := MatchStar(re[0], re[2..], text, i, p);
      return;
    }
    if re == "$" {
      NoPieces(p, text, i);
      return i == |text|;
    }
    assert Tail(p) == Parse(re[1..]);
    if i < |text| && (re[0] == '.' || re[0] == text[i]) {
      r := MatchHere(re[1..], text, i + 1);
      if r {
        Cons(p, text, i, i + 1);
      } else if MatchesAt(p, text, i) {
        var j := Uncons(p, text, i);
      }
      return;
    }
    if MatchesAt(p, text, i) {
      var j := Uncons(p, text, i);
    }
    return false;
  }

  /** Does `c*re` match at the beginning of text[i..]? */
  method MatchStar(c: char, re: string, text: string, i: nat, ghost p: Pattern) returns (r: bool)
    requires i <= |text| && p.pieces != [] && p.pieces[0] == Many(c) && Tail(p) == Parse(re)
    ensures r <==> MatchesAt(p, text, i)
    decreases |re|, 2
  {
    var j := i;
    while true
      invariant i <= j <= |text| && (forall k :: i <= k < j ==> Fits(c, text[k]))
      invariant forall k :: i <= k < j ==> !MatchesAt(Parse(re), text, k)
      decreases |text| - j
    {
      r := MatchHere(re, text, j);
      if r {
        Cons(p, text, i, j);
        return true;
      }
      if !(j < |text| && (text[j] == c || c == '.')) {
        break;
      }
      j := j + 1;
    }
    if MatchesAt(p, text, i) {
      var k := Uncons(p, text, i);
    }
    return false;
  }

  /** `match`: anywhere in the text, or only at its beginning. */
  method Match(re: string, text: string) returns (r: bool)
    ensures r <==> Matches(re, text)
  {
    if re != "" && re[0] == '^' {
      r := MatchHere(re[1..], text, 0);
      return;
    }
    var i := 0;
    while true
      invariant 0 <= i <= |text| && forall k :: 0 <= k < i ==> !MatchesAt(Parse(re), text, k)
      decreases |text| - i
    {
      r := MatchHere(re, text, i);
      if r {
        return true;
      }
      if i == |text| {
        return false;
      }
      i := i + 1;
    }
  }
}
