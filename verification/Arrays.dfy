/** A frame as bw2_writeFrame hands it to the socket: one array after another. */
module Arrays {
  import opened Frames
  import opened Codec

  function Concat(es: seq<bytes>): bytes {
    if es == [] then [] else es[0] + Concat(es[1..])
  }

  lemma {:induction false} ConcatJoin(a: seq<bytes>, c: seq<bytes>)
    ensures Concat(a + c) == Concat(a) + Concat(c)
  {
    if a == [] {
      assert a + c == c;
    } else {
      assert (a + c)[1..] == a[1..] + c;
      ConcatJoin(a[1..], c);
    }
  }

  lemma {:induction false} ConcatOne(e: bytes)
    ensures Concat([e]) == e
  {
    assert [e][1..] == [];
  }

  lemma {:induction false} ConcatSnoc(es: seq<bytes>, e: bytes)
    ensures Concat(es + [e]) == Concat(es) + e
  {
    ConcatJoin(es, [e]);
    ConcatOne(e);
  }

  /** The local header, the value and the newline of one item. */
  function ItemArrays(it: Item): seq<bytes> {
    [LocalHeader(it), it.value, [NL]]
  }

  function ItemsArrays(its: seq<Item>): seq<bytes> {
    if its == [] then [] else ItemArrays(its[0]) + ItemsArrays(its[1..])
  }

  /** All arrays that bw2_writeFrame writes for a frame, in order. */
  function FrameArrays(f: Frame): seq<bytes> {
    [FrameHeader(f)] + (ItemsArrays(f.lists.kvs) + (ItemsArrays(f.lists.pos) + (ItemsArrays(f.lists.ros) + [END_LINE])))
  }

  lemma {:induction false} ItemArraysConcat(it: Item)
    ensures Concat(ItemArrays(it)) == EncodeItem(it)
  {
    hide LocalHeader;
    var a := ItemArrays(it);
    assert a[1..] == [it.value, [NL]] && a[1..][1..] == [[NL]];
    ConcatOne([NL]);
  }

  lemma {:induction false} ItemsArraysConcat(its: seq<Item>)
    ensures Concat(ItemsArrays(its)) == EncodeItems(its)
  {
    hide ItemArrays, EncodeItem;
    if its != [] {
      ItemsArraysConcat(its[1..]);
      ItemArraysConcat(its[0]);
      ConcatJoin(ItemArrays(its[0]), ItemsArrays(its[1..]));
    }
  }

  lemma {:induction false} EncodeItemsJoin(a: seq<Item>, c: seq<Item>)
    ensures EncodeItems(a + c) == EncodeItems(a) + EncodeItems(c)
  {
    hide EncodeItem;
    if a == [] {
      assert a + c == c;
    } else {
      assert (a + c)[1..] == a[1..] + c;
      EncodeItemsJoin(a[1..], c);
    }
  }

  lemma {:induction false} ItemsArraysJoin(a: seq<Item>, c: seq<Item>)
    ensures ItemsArrays(a + c) == ItemsArrays(a) + ItemsArrays(c)
  {
    hide ItemArrays;
    if a == [] {
      assert a + c == c;
    } else {
      assert (a + c)[1..] == a[1..] + c;
      ItemsArraysJoin(a[1..], c);
    }
  }

  lemma FrameInOrder(h: bytes, k: bytes, p: bytes, r: bytes, e: bytes)
    ensures h + (((k + p) + r) + e) == h + (k + (p + (r + e)))
  {
    assert ((k + p) + r) + e == k + (p + (r + e));
  }

  /** The arrays of a frame are its encoding. */
  lemma {:induction false} FrameArraysConcat(f: Frame)
    ensures Concat(FrameArrays(f)) == Encode(f)
  {
    hide FrameHeader, ItemsArrays, EncodeItems;
    var k, p, r := ItemsArrays(f.lists.kvs), ItemsArrays(f.lists.pos), ItemsArrays(f.lists.ros);
    var end := [END_LINE];
    ConcatJoin([FrameHeader(f)], k + (p + (r + end)));
    ConcatJoin(k, p + (r + end));
    ConcatJoin(p, r + end);
    ConcatJoin(r, end);
    ConcatOne(FrameHeader(f));
    ConcatOne(END_LINE);
    ItemsArraysConcat(f.lists.kvs);
    ItemsArraysConcat(f.lists.pos);
    ItemsArraysConcat(f.lists.ros);
    EncodeItemsJoin(f.lists.kvs + f.lists.pos, f.lists.ros);
    EncodeItemsJoin(f.lists.kvs, f.lists.pos);
    FrameInOrder(FrameHeader(f), EncodeItems(f.lists.kvs), EncodeItems(f.lists.pos), EncodeItems(f.lists.ros),
                 END_LINE);
  }

  /** Where the array that holds position `n` begins and ends in the concatenation. */
  function ArrayAt(arrays: seq<bytes>, n: nat): (r: (nat, nat))
    ensures r.0 <= n && n <= r.1
    ensures n < |Concat(arrays)| ==> n < r.1 <= |Concat(arrays)|
  {
    if arrays == [] then (n, n)
    else if n < |arrays[0]| then (0, |arrays[0]|)
    else
      var r := ArrayAt(arrays[1..], n - |arrays[0]|);
      (r.0 + |arrays[0]|, r.1 + |arrays[0]|)
  }

  /** Behind an array the next one begins. */
  lemma {:induction false} NextArray(arrays: seq<bytes>, n: nat)
    requires n < |Concat(arrays)|
    ensures var end := ArrayAt(arrays, n).1; ArrayAt(arrays, end).0 == end
  {
    if n < |arrays[0]| {
      FirstArray(arrays[1..]);
    } else {
      NextArray(arrays[1..], n - |arrays[0]|);
    }
  }

  lemma {:induction false} FirstArray(arrays: seq<bytes>)
    ensures ArrayAt(arrays, 0).0 == 0
  {
    if arrays != [] && arrays[0] == [] {
      FirstArray(arrays[1..]);
    }
  }
}
