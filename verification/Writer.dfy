/** bw2_writeFrame and bw2_frameLength over the linked lists of a frame. */
module Writer {
  import opened Decimal
  import opened Frames
  import opened Codec
  import opened RoundTrip
  import opened Stream
  import opened Sublists
  import opened Arrays
  import opened Splits
  import opened ObjectLists
  import opened FrameReader

  /** One array. */
  method WriteArray(b: Build, conn: Conn, arr: bytes) returns (rv: int, ghost splits: seq<seq<nat>>)
    modifies conn`output
    ensures rv == 0 || rv == -1
    ensures Wrote(b, old(conn.output), conn.output, [arr], splits, rv)
  {
    hide Sent, Parts, Sum;
    ghost var parts;
    rv, parts := WriteFullArray(b, conn, arr);
    splits := [parts];
    OneSent(b, arr, parts);
  }

  lemma OneSent(b: Build, arr: bytes, parts: seq<nat>)
    requires Parts(|arr|, parts)
    ensures AreSplits([arr], [parts]) && SentAll(b, [arr], [parts]) == Sent(b, arr, parts)
    ensures Sum(parts) <= |arr| && [arr][..0] == [] && [parts][..0] == []
  {
    assert [parts][1..] == [] && [arr][1..] == [];
  }

  ghost predicate Writable(obj: Object, tag: bytes)
    reads obj.mem
  {
    obj.Intact() && TagOf(obj.item) == tag
  }

  /** _bw2_frame_KV_len, _bw2_frame_PO_len and _bw2_frame_RO_len. */
  method ObjectLength(tag: bytes, obj: Object) returns (n: nat)
    requires Writable(obj, tag) && IsItemTag(tag)
    ensures n == ItemLength(obj.item)
  {
    var lenlen := NumDigits(obj.len);
    if tag == KV_TAG {
      n := 3 + obj.keyLen + 1 + lenlen + 1 + obj.len + 1;
    } else {
      var numlen := NumDigits(obj.num);
      n := if tag == PO_TAG then 3 + 1 + numlen + 1 + lenlen + 1 + obj.len + 1
           else 3 + numlen + 1 + lenlen + 1 + obj.len + 1;
    }
  }

  ghost predicate ListWritable(list: ObjectList, tag: bytes)
    reads list, list.repr, set n | n in list.repr :: n.mem
  {
    list.Valid() && forall n | n in list.repr :: Writable(n, tag)
  }

  lemma NoItems(nodes: seq<Object>)
    ensures ItemsOf(nodes[..0]) == [] && ItemsLength([]) == 0 && ItemsArrays([]) == []
  {
  }

  lemma {:induction false} ItemsLengthJoin(a: seq<Item>, c: seq<Item>)
    ensures ItemsLength(a + c) == ItemsLength(a) + ItemsLength(c)
  {
    hide ItemLength;
    if a == [] {
      assert a + c == c;
    } else {
      assert (a + c)[1..] == a[1..] + c;
      ItemsLengthJoin(a[1..], c);
    }
  }

  lemma {:induction false} ItemsSnoc(nodes: seq<Object>, k: nat)
    requires k < |nodes|
    ensures var done, upTo := ItemsOf(nodes[..k]), ItemsOf(nodes[..k + 1]);
            && ItemsLength(upTo) == ItemsLength(done) + ItemLength(nodes[k].item)
            && ItemsArrays(upTo) == ItemsArrays(done) + ItemArrays(nodes[k].item)
  {
    hide ItemArrays, ItemLength;
    var one := [nodes[k].item];
    assert nodes[..k + 1] == nodes[..k] + [nodes[k]];
    ItemsOfSnoc(nodes[..k], nodes[k]);
    ItemsLengthJoin(ItemsOf(nodes[..k]), one);
    ItemsArraysJoin(ItemsOf(nodes[..k]), one);
    assert one[1..] == [];
    assert ItemsArrays(one) == ItemArrays(one[0]) + [];
  }

  /** One of the three loops of bw2_frameLength. */
  method ListLength(list: ObjectList, tag: bytes) returns (n: nat)
    requires ListWritable(list, tag) && IsItemTag(tag)
    ensures n == ItemsLength(ItemsOf(list.nodes))
  {
    hide ItemLength, ItemsLength, ItemsArrays, ItemArrays, ItemsOf;
    n := 0;
    var curr := list.first;
    ghost var k := 0;
    NoItems(list.nodes);
    while curr != null
      invariant k <= |list.nodes| && curr == if k < |list.nodes| then list.nodes[k] else null
      invariant n == ItemsLength(ItemsOf(list.nodes[..k]))
      decreases |list.nodes| - k
    {
      var more := ObjectLength(tag, curr);
      ItemsSnoc(list.nodes, k);
      n := n + more;
      assert list.nodes[k].next == if k < |list.nodes| - 1 then list.nodes[k + 1] else null;
      curr := curr.next;
      k := k + 1;
    }
    assert list.nodes[..k] == list.nodes;
  }

  /** One object as the loops of bw2_writeFrame send it: local header, value, newline. */
  method WriteObject(b: Build, conn: Conn, tag: bytes, obj: Object) returns (rv: int, ghost splits: seq<seq<nat>>)
    requires Writable(obj, tag) && IsItemTag(tag)
    modifies conn`output
    ensures rv == 0 || rv == -1
    ensures Wrote(b, old(conn.output), conn.output, ItemArrays(obj.item), splits, rv)
  {
    hide Wrote, Digits;
    var value := obj.mem[..][obj.valueAt..obj.valueAt + obj.len];
    var name := if tag == KV_TAG then obj.mem[..][obj.keyAt..obj.keyAt + obj.keyLen]
                else if tag == PO_TAG then [COLON] + Digits(obj.num) else Digits(obj.num);
    var header := Clip(tag + (name + ([SP] + (Digits(obj.len) + [NL]))), MAX_LOCAL_HEADER_LENGTH - 1);
    assert header == LocalHeader(obj.item) && value == obj.item.value;
    assert [header] + [value, [NL]] == ItemArrays(obj.item) && [header, value] + [[NL]] == ItemArrays(obj.item);
    assert [header] + [value] == [header, value];
    ghost var out0, more := conn.output, [];
    rv, splits := WriteArray(b, conn, header);
    ghost var out1 := conn.output;
    if rv != 0 {
      WroteFirst(b, out0, out1, [header], splits, [value, [NL]], rv);
      return;
    }
    rv, more := WriteArray(b, conn, value);
    ghost var out2 := conn.output;
    WroteThen(b, out0, out1, out2, [header], splits, [value], more, rv);
    splits := splits + more;
    if rv != 0 {
      WroteFirst(b, out0, out2, [header, value], splits, [[NL]], rv);
      return;
    }
    rv, more := WriteArray(b, conn, [NL]);
    WroteThen(b, out0, out2, conn.output, [header, value], splits, [[NL]], more, rv);
    splits := splits + more;
  }

  /** One of the three loops of bw2_writeFrame. */
  method WriteList(b: Build, conn: Conn, tag: bytes, list: ObjectList) returns (rv: int, ghost splits: seq<seq<nat>>)
    requires ListWritable(list, tag) && IsItemTag(tag)
    modifies conn`output
    ensures rv == 0 || rv == -1
    ensures Wrote(b, old(conn.output), conn.output, ItemsArrays(ItemsOf(list.nodes)), splits, rv)
  {
    hide ItemArrays, ItemsOf, Wrote, ItemsArrays;
    rv, splits := 0, [];
    var curr := list.first;
    ghost var out0, k := conn.output, 0;
    NoItems(list.nodes);
    WroteNothing(b, out0);
    while curr != null
      invariant k <= |list.nodes| && curr == if k < |list.nodes| then list.nodes[k] else null
      invariant Wrote(b, out0, conn.output, ItemsArrays(ItemsOf(list.nodes[..k])), splits, 0)
      decreases |list.nodes| - k
    {
      ghost var out1, more := conn.output, [];
      rv, more := WriteObject(b, conn, tag, curr);
      ItemsSnoc(list.nodes, k);
      ghost var done, next := ItemsArrays(ItemsOf(list.nodes[..k])), ItemArrays(curr.item);
      WroteThen(b, out0, out1, conn.output, done, splits, next, more, rv);
      splits := splits + more;
      if rv != 0 {
        ArraysSplit(list.nodes, k + 1);
        WroteFirst(b, out0, conn.output, done + next, splits, ItemsArrays(ItemsOf(list.nodes[k + 1..])), rv);
        return;
      }
      assert list.nodes[k].next == if k < |list.nodes| - 1 then list.nodes[k + 1] else null;
      curr := curr.next;
      k := k + 1;
    }
    assert list.nodes[..k] == list.nodes;
    rv := 0;
  }

  lemma ArraysSplit(nodes: seq<Object>, k: nat)
    requires k <= |nodes|
    ensures ItemsArrays(ItemsOf(nodes)) == ItemsArrays(ItemsOf(nodes[..k])) + ItemsArrays(ItemsOf(nodes[k..]))
  {
    assert nodes == nodes[..k] + nodes[k..];
    ItemsOfConcat(nodes[..k], nodes[k..]);
    ItemsArraysJoin(ItemsOf(nodes[..k]), ItemsOf(nodes[k..]));
  }

  ghost predicate FrameWritable(frame: FrameObject)
    reads frame.hdrs, frame.pos, frame.ros, frame.hdrs.repr, frame.pos.repr, frame.ros.repr
    reads set n | n in frame.hdrs.repr :: n.mem
    reads set n | n in frame.pos.repr :: n.mem
    reads set n | n in frame.ros.repr :: n.mem
  {
    ListWritable(frame.hdrs, KV_TAG) && ListWritable(frame.pos, PO_TAG) && ListWritable(frame.ros, RO_TAG)
  }

  /** bw2_frameLength */
  method FrameLength(frame: FrameObject) returns (n: nat)
    requires FrameWritable(frame)
    ensures n == 4 + ItemsLength(frame.Lists().InWriteOrder())
  {
    hide ItemsOf, ListWritable, ItemsLength;
    var hdrs := ListLength(frame.hdrs, KV_TAG);
    var pos := ListLength(frame.pos, PO_TAG);
    var ros := ListLength(frame.ros, RO_TAG);
    var lists := frame.Lists();
    ItemsLengthJoin(lists.kvs + lists.pos, lists.ros);
    ItemsLengthJoin(lists.kvs, lists.pos);
    n := 4 + hdrs + pos + ros;
  }

  /** The arrays of a frame, cut before each part that is written. */
  lemma FrameInParts(h: seq<bytes>, k: seq<bytes>, p: seq<bytes>, r: seq<bytes>, e: seq<bytes>)
    ensures var all := h + (k + (p + (r + e)));
            && all == (((h + k) + p) + r) + e
            && all == ((h + k) + p) + (r + e)
            && all == (h + k) + (p + (r + e))
  {
    assert (h + k) + (p + (r + e)) == h + (k + (p + (r + e)));
    assert ((h + k) + p) + (r + e) == (h + k) + (p + (r + e));
    assert (((h + k) + p) + r) + e == ((h + k) + p) + (r + e);
  }

  /** bw2_writeFrame: the arrays of the frame one after the other, each as `send` splits it. In
      particular exactly the encoded frame is put on the wire, or a proper part of it when a
      send fails, if the sends move on or none of them is split. */
  method WriteFrame(b: Build, conn: Conn, frame: FrameObject) returns (rv: int, ghost splits: seq<seq<nat>>)
    requires FrameWritable(frame)
    modifies conn`output
    ensures rv == 0 || rv == -1
    ensures var f := Frame(frame.cmd, frame.seqno, frame.Lists());
      && Wrote(b, old(conn.output), conn.output, FrameArrays(f), splits, rv)
      && (b.advancesSend || Unsplit(splits) ==> Emitted(old(conn.output), conn.output, Encode(f), rv))
  {
    hide Wrote, Emitted, ItemsArrays, ItemsOf, ListWritable, Encode, Padded, SeqnoText, ItemsLength, Unsplit, Concat;
    ghost var f, out0 := Frame(frame.cmd, frame.seqno, frame.Lists()), conn.output;
    var framelen := FrameLength(frame);
    var header := frame.cmd + [SP] + Padded(framelen, 10) + [SP] + SeqnoText(frame.seqno) + [NL];
    rv, splits := WriteParts(b, conn, frame, header);
    FrameArraysConcat(f);
    if b.advancesSend || Unsplit(splits) {
      WroteExactly(b, out0, conn.output, FrameArrays(f), splits, rv);
    }
  }

  /** The header, the three lists and the end. */
  method WriteParts(b: Build, conn: Conn, frame: FrameObject, header: bytes)
    returns (rv: int, ghost splits: seq<seq<nat>>)
    requires FrameWritable(frame)
    modifies conn`output
    ensures rv == 0 || rv == -1
    ensures var lists := frame.Lists();
      var parts := ItemsArrays(lists.kvs) + (ItemsArrays(lists.pos) + (ItemsArrays(lists.ros) + [END_LINE]));
      Wrote(b, old(conn.output), conn.output, [header] + parts, splits, rv)
  {
    hide Wrote, ItemsArrays, ItemsOf, ListWritable;
    ghost var lists, out0, more := frame.Lists(), conn.output, [];
    ghost var h, e := [header], [END_LINE];
    ghost var k, p, r := ItemsArrays(lists.kvs), ItemsArrays(lists.pos), ItemsArrays(lists.ros);
    FrameInParts(h, k, p, r, e);
    rv, splits := WriteArray(b, conn, header);
    ghost var out1 := conn.output;
    if rv != 0 {
      WroteFirst(b, out0, out1, h, splits, k + (p + (r + e)), rv);
      return;
    }
    rv, more := WriteList(b, conn, KV_TAG, frame.hdrs);
    ghost var out2 := conn.output;
    WroteThen(b, out0, out1, out2, h, splits, k, more, rv);
    splits := splits + more;
    if rv != 0 {
      WroteFirst(b, out0, out2, h + k, splits, p + (r + e), rv);
      return;
    }
    rv, more := WriteList(b, conn, PO_TAG, frame.pos);
    ghost var out3 := conn.output;
    WroteThen(b, out0, out2, out3, h + k, splits, p, more, rv);
    splits := splits + more;
    if rv != 0 {
      WroteFirst(b, out0, out3, (h + k) + p, splits, r + e, rv);
      return;
    }
    rv, more := WriteList(b, conn, RO_TAG, frame.ros);
    ghost var out4 := conn.output;
    WroteThen(b, out0, out3, out4, (h + k) + p, splits, r, more, rv);
    splits := splits + more;
    if rv != 0 {
      WroteFirst(b, out0, out4, ((h + k) + p) + r, splits, e, rv);
      return;
    }
    rv, more := WriteArray(b, conn, END_LINE);
    WroteThen(b, out0, out4, conn.output, ((h + k) + p) + r, splits, e, more, rv);
    splits := splits + more;
  }

  // ---------- building a request ----------

  lemma StillWritable(list: ObjectList, tag: bytes)
    requires list.Valid() && forall n | n in list.repr :: Writable(n, tag)
    ensures ListWritable(list, tag)
  {
  }

  /** A chain of objects is appended to a frame that is to be written. */
  method AppendChain(frame: FrameObject, tag: bytes, chain: Object, ghost added: seq<Object>)
    requires frame.Valid() && FrameWritable(frame)
    requires IsItemTag(tag) && Distinct(added) && Chained(added, null) && added != [] && chain == added[0]
    requires forall i :: 0 <= i < |added| ==> added[i] !in frame.Objects() && Writable(added[i], tag)
    modifies frame.hdrs, frame.pos, frame.ros, frame.hdrs.last, frame.pos.last, frame.ros.last
    ensures frame.Valid() && FrameWritable(frame)
    ensures frame.Lists() == AddAll(old(frame.Lists()), ItemsOf(added))
  {
    hide ItemsOf, Distinct, Chained, ObjectList.Valid, AddAll, Object.Intact;
    frame.hdrs.TailBelongs();
    frame.pos.TailBelongs();
    frame.ros.TailBelongs();
    frame.Append(tag, chain, added);
    StillWritable(frame.hdrs, KV_TAG);
    StillWritable(frame.pos, PO_TAG);
    StillWritable(frame.ros, RO_TAG);
  }

  /** What the API functions do with what they are given: the bytes on the wire are those of the
      frame with the new items behind the earlier ones of their type, in the order of the
      chain. */
  method AppendAndWrite(b: Build, conn: Conn, frame: FrameObject, tag: bytes, chain: Object,
                        ghost added: seq<Object>)
    returns (rv: int, ghost splits: seq<seq<nat>>)
    requires frame.Valid() && FrameWritable(frame)
    requires IsItemTag(tag) && Distinct(added) && Chained(added, null) && added != [] && chain == added[0]
    requires forall i :: 0 <= i < |added| ==> added[i] !in frame.Objects() && Writable(added[i], tag)
    modifies frame.hdrs, frame.pos, frame.ros, frame.hdrs.last, frame.pos.last, frame.ros.last, conn`output
    ensures rv == 0 || rv == -1
    ensures var f := Frame(frame.cmd, frame.seqno, AddAll(old(frame.Lists()), ItemsOf(added)));
      && Wrote(b, old(conn.output), conn.output, FrameArrays(f), splits, rv)
      && (b.advancesSend || Unsplit(splits) ==> Emitted(old(conn.output), conn.output, Encode(f), rv))
  {
    hide Wrote, Emitted, FrameArrays, Unsplit, Encode, AddAll, ItemsOf, FrameWritable, Writable, Distinct, Chained;
    hide FrameObject.Valid;
    frame.TailsBelong();
    AppendChain(frame, tag, chain, added);
    rv, splits := WriteFrame(b, conn, frame);
  }
}
