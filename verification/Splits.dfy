/** Writing several arrays one after the other, for every way in which `send` may split them. */
module Splits {
  import opened Frames
  import opened Codec
  import opened Stream
  import opened Arrays

  /** Sizes that successive sends may accept of the first of the arrays. */
  predicate AreSplits(arrays: seq<bytes>, splits: seq<seq<nat>>) {
    |splits| <= |arrays| && forall i :: 0 <= i < |splits| ==> Parts(|arrays[i]|, splits[i])
  }

  /** The splits account for all of their arrays. */
  predicate Full(arrays: seq<bytes>, splits: seq<seq<nat>>) {
    && |splits| == |arrays|
    && (forall i :: 0 <= i < |splits| ==> Parts(|arrays[i]|, splits[i]) && Sum(splits[i]) == |arrays[i]|)
  }

  /** What reaches the wire. */
  function SentAll(b: Build, arrays: seq<bytes>, splits: seq<seq<nat>>): bytes
    requires AreSplits(arrays, splits)
    decreases splits
  {
    if splits == [] then [] else Sent(b, arrays[0], splits[0]) + SentAll(b, arrays[1..], splits[1..])
  }

  /** What writing the arrays did to the wire: all of them were sent when it succeeded, and
      when it failed some, and of one more a proper part. */
  ghost predicate Wrote(b: Build, before: bytes, after: bytes, arrays: seq<bytes>, splits: seq<seq<nat>>, rv: int) {
    && AreSplits(arrays, splits) && after == before + SentAll(b, arrays, splits)
    && if rv == 0 then Full(arrays, splits)
       else
         && splits != []
         && var k := |splits| - 1;
           Full(arrays[..k], splits[..k]) && Sum(splits[k]) < |arrays[k]|
  }

  lemma {:induction false} SentAllJoin(b: Build, a: seq<bytes>, s: seq<seq<nat>>, a': seq<bytes>, s': seq<seq<nat>>)
    requires AreSplits(a, s) && |a| == |s| && AreSplits(a', s')
    ensures AreSplits(a + a', s + s')
    ensures SentAll(b, a + a', s + s') == SentAll(b, a, s) + SentAll(b, a', s')
    decreases s
  {
    if s == [] {
      assert a + a' == a' && s + s' == s';
    } else {
      SentAllJoin(b, a[1..], s[1..], a', s');
      assert (a + a')[1..] == a[1..] + a' && (s + s')[1..] == s[1..] + s';
    }
  }

  lemma {:induction false} SentAllFewer(b: Build, a: seq<bytes>, s: seq<seq<nat>>, a': seq<bytes>)
    requires AreSplits(a, s)
    ensures AreSplits(a + a', s) && SentAll(b, a + a', s) == SentAll(b, a, s)
    decreases s
  {
    if s != [] {
      SentAllFewer(b, a[1..], s[1..], a');
      assert (a + a')[1..] == a[1..] + a';
    }
  }

  lemma {:induction false} WroteThen(b: Build, before: bytes, mid: bytes, after: bytes, a: seq<bytes>, s: seq<seq<nat>>,
                                     a': seq<bytes>, s': seq<seq<nat>>, rv: int)
    requires Wrote(b, before, mid, a, s, 0) && Wrote(b, mid, after, a', s', rv)
    ensures Wrote(b, before, after, a + a', s + s', rv)
  {
    hide SentAll, Sum, Parts;
    SentAllJoin(b, a, s, a', s');
    if rv != 0 {
      var k, k' := |s| + |s'| - 1, |s'| - 1;
      assert (a + a')[..k] == a + a'[..k'] && (s + s')[..k] == s + s'[..k'];
    }
  }

  lemma {:induction false} WroteFirst(b: Build, before: bytes, after: bytes, a: seq<bytes>, s: seq<seq<nat>>,
                                      a': seq<bytes>, rv: int)
    requires Wrote(b, before, after, a, s, rv) && rv != 0
    ensures Wrote(b, before, after, a + a', s, rv)
  {
    hide SentAll, Sum, Parts;
    SentAllFewer(b, a, s, a');
    var k := |s| - 1;
    assert (a + a')[..k] == a[..k];
  }

  lemma WroteNothing(b: Build, out: bytes)
    ensures Wrote(b, out, out, [], [], 0)
  {
  }

  // ---------- what a peer sees ----------

  /** What a write of the bytes `e` did to the wire: all of them when it succeeded, a proper
      part when it failed. */
  ghost predicate Emitted(before: bytes, after: bytes, e: bytes, rv: int) {
    if rv == 0 then after == before + e
    else exists n :: 0 <= n < |e| && after == before + e[..n]
  }

  /** No array took more than one send. */
  predicate Unsplit(splits: seq<seq<nat>>) {
    forall i :: 0 <= i < |splits| ==> |splits[i]| <= 1
  }

  lemma {:induction false} SentExactly(b: Build, arr: bytes, parts: seq<nat>)
    requires Parts(|arr|, parts) && (b.advancesSend || |parts| <= 1)
    ensures Sent(b, arr, parts) == arr[..Sum(parts)]
  {
    if b.advancesSend {
      FaithfulSend(b, arr, parts);
    } else {
      UnsplitSend(b, arr, parts);
    }
  }

  lemma {:induction false} FullSent(b: Build, arrays: seq<bytes>, splits: seq<seq<nat>>)
    requires Full(arrays, splits) && (b.advancesSend || Unsplit(splits))
    ensures SentAll(b, arrays, splits) == Concat(arrays)
    decreases splits
  {
    hide Sum, Parts, Sent;
    if splits != [] {
      SentExactly(b, arrays[0], splits[0]);
      FullSent(b, arrays[1..], splits[1..]);
    }
  }

  /** Sends that move on, and sends that are not split, put exactly the concatenation of the
      arrays on the wire, or a proper part of it when one of them fails. */
  lemma {:induction false} WroteExactly(b: Build, before: bytes, after: bytes, arrays: seq<bytes>,
                                        splits: seq<seq<nat>>, rv: int)
    requires Wrote(b, before, after, arrays, splits, rv) && (b.advancesSend || Unsplit(splits))
    ensures Emitted(before, after, Concat(arrays), rv)
  {
    hide Sum, Parts, Sent, SentAll, Concat;
    if rv == 0 {
      FullSent(b, arrays, splits);
    } else {
      var k := |splits| - 1;
      var a, s := arrays[..k], splits[..k];
      FullSent(b, a, s);
      SentExactly(b, arrays[k], splits[k]);
      LastSent(b, arrays, splits);
      assert arrays == a + ([arrays[k]] + arrays[k + 1..]);
      ConcatJoin(a, [arrays[k]] + arrays[k + 1..]);
      ConcatJoin([arrays[k]], arrays[k + 1..]);
      ConcatOne(arrays[k]);
      PartOf(Concat(a), arrays[k], Concat(arrays[k + 1..]), Sum(splits[k]));
      assert after == before + Concat(arrays)[..|Concat(a)| + Sum(splits[k])];
    }
  }

  lemma PartOf(a: bytes, e: bytes, rest: bytes, n: nat)
    requires n < |e|
    ensures (a + (e + rest))[..|a| + n] == a + e[..n]
  {
  }

  lemma {:induction false} LastSent(b: Build, arrays: seq<bytes>, splits: seq<seq<nat>>)
    requires AreSplits(arrays, splits) && splits != []
    ensures var k := |splits| - 1;
      && AreSplits(arrays[..k], splits[..k])
      && SentAll(b, arrays, splits) == SentAll(b, arrays[..k], splits[..k]) + Sent(b, arrays[k], splits[k])
  {
    hide Sum, Parts, Sent;
    var k := |splits| - 1;
    var one := [splits[k]];
    assert one[1..] == [];
    SentAllJoin(b, arrays[..k], splits[..k], arrays[k..], one);
    assert arrays[..k] + arrays[k..] == arrays && splits[..k] + one == splits;
    assert arrays[k..][0] == arrays[k];
    assert SentAll(b, arrays[k..], one) == Sent(b, arrays[k], splits[k]) + [];
  }

  // ---------- a frame ----------

  /** The header of a frame is never one byte repeated. */
  lemma {:induction false} HeaderVaries(f: Frame)
    ensures !Uniform(FrameHeader(f))
  {
    hide SeqnoText, Codec.ItemsLength;
    var h := FrameHeader(f);
    assert h[|f.cmd|] == SP && h[|h| - 1] == NL;
  }

  function Whole(arrays: seq<bytes>): (splits: seq<seq<nat>>)
    ensures Full(arrays, splits)
  {
    if arrays == [] then [] else [if arrays[0] == [] then [] else [|arrays[0]|]] + Whole(arrays[1..])
  }

  /** bw2_writeFrame puts exactly the encoded frame on the wire, however `send` splits each of
      its arrays, if and only if each send goes on where the last one ended. */
  lemma {:induction false} FrameWriteIsExact(b: Build, f: Frame)
    ensures (forall splits | Full(FrameArrays(f), splits) :: SentAll(b, FrameArrays(f), splits) == Encode(f))
            <==> b.advancesSend
  {
    hide FrameHeader, ItemsArrays, Encode, Parts, Sum, Sent, Concat;
    var arrays := FrameArrays(f);
    FrameArraysConcat(f);
    if b.advancesSend {
      forall splits | Full(arrays, splits) ensures SentAll(b, arrays, splits) == Encode(f) {
        FullSent(b, arrays, splits);
      }
    } else {
      var h := arrays[0];
      HeaderVaries(f);
      var bad := RestartedSend(b, h, |h|);
      var splits := [bad] + Whole(arrays[1..]);
      assert splits[1..] == Whole(arrays[1..]);
      assert Full(arrays, splits);
      ConcatJoin([h], arrays[1..]);
      ConcatOne(h);
      assert [h] + arrays[1..] == arrays;
      DiffersEarly(h, Sent(b, h, bad), Concat(arrays[1..]), SentAll(b, arrays[1..], splits[1..]));
    }
  }

  lemma DiffersEarly(h: bytes, sent: bytes, rest: bytes, rest': bytes)
    requires |sent| == |h| && !Uniform(h) && forall i :: 0 <= i < |h| ==> sent[i] == h[0]
    ensures sent + rest' != h + rest
  {
    var i :| 0 <= i < |h| && h[i] != h[0];
    assert (sent + rest')[i] == h[0] && (h + rest)[i] == h[i];
  }
}
