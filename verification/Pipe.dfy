/** kernel/pipe.c as a first-in first-out queue.  A method is what a reader or a
    writer does between taking the lock and releasing it or going to sleep, so
    any order of calls is an interleaving of readers and writers. */
module Pipe {
  import opened Common

  const PIPESIZE := 512
  const WORD := 0x1_0000_0000          // nread and nwrite are uint

  predicate SlotOk(data: seq<char>, stored: seq<char>, k: nat) {
    |data| == PIPESIZE && (k < |stored| ==> data[k % PIPESIZE] == stored[k])
  }

  /** Of all the bytes ever stored the first `consumed` are gone and the rest are
      in the buffer. */
  predicate Queue(data: seq<char>, nread: nat, nwrite: nat, stored: seq<char>, consumed: nat) {
    && |data| == PIPESIZE && nread == consumed % WORD && nwrite == |stored| % WORD
    && consumed <= |stored| <= consumed + PIPESIZE
    && forall k :: consumed <= k < |stored| ==> SlotOk(data, stored, k)
  }

  /** The counters, although they wrap around, tell how many bytes there are. */
  lemma Counters(consumed: nat, total: nat)
    requires consumed <= total <= consumed + PIPESIZE
    ensures (total % WORD - consumed % WORD) % WORD == total - consumed
    ensures consumed % WORD == total % WORD <==> total == consumed
    ensures total % WORD == (consumed % WORD + PIPESIZE) % WORD <==> total == consumed + PIPESIZE
    ensures total % WORD % PIPESIZE == total % PIPESIZE
  {
    var a, b := consumed / WORD, total / WORD;
    assert consumed == WORD * a + consumed % WORD && total == WORD * b + total % WORD;
    AddMultiple(PIPESIZE, 0x80_0000 * b, total % WORD);
  }

  lemma Next(n: nat)
    ensures (n % WORD + 1) % WORD == (n + 1) % WORD
  {
    assert n == WORD * (n / WORD) + n % WORD;
  }

  lemma Put(data: seq<char>, nread: nat, nwrite: nat, stored: seq<char>, consumed: nat, c: char)
    requires Queue(data, nread, nwrite, stored, consumed) && |stored| < consumed + PIPESIZE
    ensures Queue(data[nwrite % PIPESIZE := c], nread, (nwrite + 1) % WORD, stored + [c], consumed)
  {
    Counters(consumed, |stored|);
    Next(|stored|);
    var data', stored' := data[nwrite % PIPESIZE := c], stored + [c];
    forall k | consumed <= k < |stored'| ensures SlotOk(data', stored', k) {
      if k < |stored| {
        assert SlotOk(data, stored, k);
        SlotsDiffer(PIPESIZE, k, |stored|);
      }
    }
  }

  lemma Get(data: seq<char>, nread: nat, nwrite: nat, stored: seq<char>, consumed: nat)
    requires Queue(data, nread, nwrite, stored, consumed) && consumed < |stored|
    ensures data[nread % PIPESIZE] == stored[consumed] && Queue(data, (nread + 1) % WORD, nwrite, stored, consumed + 1)
  {
    Counters(consumed, consumed);
    Next(consumed);
    assert SlotOk(data, stored, consumed);
  }

  /** `now` is `was` with bytes `i` to `j` of `src` behind it, each of them put
      there while the process was not killed. */
  ghost predicate Appended(src: seq<Option<char>>, killed: seq<bool>, i: nat, j: nat, was: seq<char>, now: seq<char>)
    requires |src| == |killed|
  {
    && i <= j <= |src| && |now| == |was| + j - i && was <= now
    && forall k :: i <= k < j ==> src[k] == Some(now[|was| + k - i]) && !killed[k]
  }

  lemma AppendedOne(src: seq<Option<char>>, killed: seq<bool>, i: nat, j: nat, was: seq<char>, now: seq<char>)
    requires |src| == |killed| && Appended(src, killed, i, j, was, now)
    requires j < |src| && src[j].Some? && !killed[j]
    ensures Appended(src, killed, i, j + 1, was, now + [src[j].value])
  {
    var more := now + [src[j].value];
    forall k | i <= k < j + 1 ensures src[k] == Some(more[|was| + k - i]) && !killed[k] {
      assert k < j ==> more[|was| + k - i] == now[|was| + k - i];
    }
  }

  datatype Outcome = Finished | Sleeps | Fails

  class Pipe {
    var data: seq<char>
    var nread: nat
    var nwrite: nat
    var readopen: bool
    var writeopen: bool
    ghost var stored: seq<char>
    ghost var consumed: nat

    ghost predicate Valid()
      reads this
    {
      Queue(data, nread, nwrite, stored, consumed)
    }

    constructor ()
      ensures Valid() && stored == [] && consumed == 0
    {
      data := seq(PIPESIZE, _ => '\0');
      nread, nwrite, readopen, writeopen := 0, 0, true, true;
      stored, consumed := [], 0;
    }

    predicate Full()
      reads this
      requires Valid()
      ensures Full() <==> |stored| == consumed + PIPESIZE
    {
      Counters(consumed, |stored|);
      nwrite == (nread + PIPESIZE) % WORD
    }

    predicate Empty()
      reads this
      requires Valid()
      ensures Empty() <==> consumed == |stored|
    {
      Counters(consumed, |stored|);
      nread == nwrite
    }

    method Store(ch: char)
      requires Valid() && !Full()
      modifies this`data, this`nwrite, this`stored
      ensures Valid() && stored == old(stored) + [ch]
    {
      Put(data, nread, nwrite, stored, consumed, ch);
      data := data[nwrite % PIPESIZE := ch];
      nwrite := (nwrite + 1) % WORD;
      stored := stored + [ch];
    }

    method Load() returns (ch: char)
      requires Valid() && !Empty()
      modifies this`nread, this`consumed
      ensures Valid() && consumed == old(consumed) + 1 <= |stored| && ch == stored[old(consumed)]
    {
      Get(data, nread, nwrite, stored, consumed);
      ch := data[nread % PIPESIZE];
      nread, consumed := (nread + 1) % WORD, consumed + 1;
    }

    /** `pipewrite` from byte `i` on, until it sleeps or returns.  `src` holds the
        bytes, None where copyin fails; `killed[k]` is what `killed` answers
        before byte `k`. */
    method Write(src: seq<Option<char>>, i: nat, killed: seq<bool>) returns (r: Outcome, i': nat)
      requires Valid() && i <= |src| == |killed|
      modifies this`data, this`nwrite, this`stored
      ensures Valid() && Appended(src, killed, i, i', old(stored), stored) && (i < i' ==> readopen)
      ensures r.Fails? <==> i' < |src| && (!readopen || killed[i'])
      ensures r.Sleeps? <==> i' < |src| && readopen && !killed[i'] && |stored| == consumed + PIPESIZE
      ensures r.Finished? ==> i' == |src| || src[i'].None?
    {
      i' := i;
      while i' < |src|
        invariant Valid() && Appended(src, killed, i, i', old(stored), stored) && (i < i' ==> readopen)
      {
        if !readopen || killed[i'] {
          return Fails, i';
        }
        if Full() {
          return Sleeps, i';
        }
        if src[i'].None? {
          return Finished, i';
        }
        AppendedOne(src, killed, i, i', old(stored), stored);
        Store(src[i'].value);
        i' := i' + 1;
      }
      return Finished, i';
    }

    /** `piperead`: bytes leave in the order they came.  `ok[i]` says whether
        copyout of byte i works; a byte for which it fails is lost. */
    method Read(n: nat, ok: seq<bool>, killed: bool) returns (r: Outcome, got: seq<char>)
      requires Valid() && |ok| == n
      modifies this`nread, this`consumed
      ensures Valid() && |got| <= n && old(consumed) <= consumed
      ensures got <= stored[old(consumed)..consumed] && consumed - old(consumed) <= |got| + 1
      ensures old(consumed) + |got| < consumed ==> |got| < n && !ok[|got|]
      ensures r.Sleeps? || r.Fails? ==>
                got == [] && consumed == old(consumed) == |stored| && writeopen && (r.Fails? <==> killed)
      ensures r.Finished? && |got| < n && consumed == old(consumed) + |got| ==> consumed == |stored|
      ensures r.Finished? && consumed == old(consumed) && n > 0 ==> !writeopen
    {
      got := [];
      if Empty() && writeopen {
        if killed {
          return Fails, got;
        }
        return Sleeps, got;
      }
      var i := 0;
      while i < n
        invariant Valid() && 0 <= i == |got| <= n && consumed == old(consumed) + i
        invariant got == stored[old(consumed)..consumed]
      {
        if Empty() {
          break;
        }
        var ch := Load();
        if !ok[i] {
          break;
        }
        got := got + [ch];
        i := i + 1;
      }
      return Finished, got;
    }
  }
}
