/** bw2_readFrame: builds a frame's three lists in place from the stream. */
module FrameReader {
  import opened Decimal
  import opened Frames
  import opened Codec
  import opened RoundTrip
  import opened Stream
  import opened Sublists
  import opened ObjectLists
  import opened Reader

  /** Two blocks share no byte. */
  ghost predicate Apart(x: Object, y: Object) {
    x.mem != y.mem || x.base + x.size <= y.base || y.base + y.size <= x.base
  }

  /** struct bw2_frame */
  class FrameObject {
    var cmd: bytes
    var seqno: int
    const hdrs: ObjectList
    const pos: ObjectList
    const ros: ObjectList

    constructor ()
      ensures Valid() && Lists() == NO_ITEMS && Objects() == {}
      ensures fresh(this) && fresh(hdrs) && fresh(pos) && fresh(ros)
    {
      cmd, seqno := [], 0;
      hdrs := new ObjectList();
      pos := new ObjectList();
      ros := new ObjectList();
    }

    ghost predicate Valid()
      reads hdrs, pos, ros, hdrs.repr, pos.repr, ros.repr
    {
      && hdrs != pos && hdrs != ros && pos != ros
      && hdrs.repr !! pos.repr !! ros.repr
      && hdrs.Valid() && pos.Valid() && ros.Valid()
    }

    ghost function Lists(): Lists
      reads hdrs, pos, ros
    {
      Frames.Lists.Lists(ItemsOf(hdrs.nodes), ItemsOf(pos.nodes), ItemsOf(ros.nodes))
    }

    ghost function Objects(): set<Object>
      reads hdrs, pos, ros
    {
      hdrs.repr + pos.repr + ros.repr
    }

    lemma TailsBelong()
      requires Valid()
      ensures hdrs.last != null ==> hdrs.last in Objects()
      ensures pos.last != null ==> pos.last in Objects()
      ensures ros.last != null ==> ros.last in Objects()
    {
      hide ObjectList.Valid;
      hdrs.TailBelongs();
      pos.TailBelongs();
      ros.TailBelongs();
    }

    /** Appends a chain of objects of one type to the list for that type. */
    method Append(tag: bytes, chain: Object, ghost added: seq<Object>)
      requires Valid() && IsItemTag(tag) && Distinct(added) && Chained(added, null) && added != [] && chain == added[0]
      requires forall i :: 0 <= i < |added| ==> added[i] !in Objects() && TagOf(added[i].item) == tag
      modifies hdrs, pos, ros, hdrs.last, pos.last, ros.last
      ensures Valid() && Objects() == old(Objects()) + set n | n in added
      ensures Lists() == AddAll(old(Lists()), ItemsOf(added))
      ensures hdrs.repr == old(hdrs.repr) + if tag == KV_TAG then set n | n in added else {}
      ensures pos.repr == old(pos.repr) + if tag == PO_TAG then set n | n in added else {}
      ensures ros.repr == old(ros.repr) + if tag == RO_TAG then set n | n in added else {}
    {
      hide Distinct, Chained, ObjectList.Valid, AddAll;
      hdrs.TailBelongs();
      pos.TailBelongs();
      ros.TailBelongs();
      AddAllOfKind(Lists(), ItemsOf(added), tag);
      if tag == KV_TAG {
        hdrs.Append(chain, added);
      } else if tag == PO_TAG {
        pos.Append(chain, added);
      } else {
        ros.Append(chain, added);
      }
    }

    /** Links an object at the end of the list for its type. */
    method Push(tag: bytes, obj: Object)
      requires Valid() && obj !in Objects() && tag == TagOf(obj.item)
      modifies hdrs, pos, ros, hdrs.last, pos.last, ros.last, obj`next
      ensures Valid() && Objects() == old(Objects()) + {obj}
      ensures Lists() == old(Lists()).Add(obj.item)
    {
      hide ItemsOf, Distinct, Chained, ObjectList.Valid;
      hdrs.TailBelongs();
      pos.TailBelongs();
      ros.TailBelongs();
      if tag == KV_TAG {
        hdrs.Push(obj);
      } else if tag == PO_TAG {
        pos.Push(obj);
      } else {
        ros.Push(obj);
      }
    }
  }

  /** Every object still holds its item, inside the used part of the frame heap if there is
      one, and no two blocks overlap. */
  ghost predicate Sound(objs: set<Object>, h: FrameHeap)
    reads h, h.blocks
  {
    && (forall n | n in objs :: n.mem in h.blocks && n.Intact())
    && (forall n | n in objs && h.mem != null :: n.mem == h.mem && n.base + n.size <= h.used)
    && (forall x, y | x in objs && y in objs && x != y :: if h.mem == null then x.mem != y.mem else Apart(x, y))
  }

  /** Under malloc, every block handed out is the memory of one of the objects. */
  ghost predicate Accounted(objs: set<Object>, h: FrameHeap)
    reads h
  {
    h.mem == null ==> h.blocks == set n | n in objs :: n.mem
  }

  lemma SoundWithOneMore(objs: set<Object>, obj: Object, h: FrameHeap)
    requires Sound(objs, h) && obj.mem in h.blocks && obj.Intact()
    requires if h.mem == null then forall n | n in objs :: n.mem != obj.mem
             else
               && obj.mem == h.mem && obj.base + obj.size <= h.used
               && forall n | n in objs :: n.base + n.size <= obj.base
    ensures Sound(objs + {obj}, h)
  {
  }

  /** The objects held their items when the heap's memory was `was` and `used` of it was used. */
  ghost predicate SoundBefore(objs: set<Object>, h: FrameHeap, was: bytes, used: nat, blocks: set<array<byte>>) {
    && (forall n | n in objs :: n.mem in blocks)
    && (forall n | n in objs && h.mem != null :: n.mem == h.mem && n.base + n.size <= used && n.HeldBy(was))
    && (forall x, y | x in objs && y in objs && x != y :: if h.mem == null then x.mem != y.mem else Apart(x, y))
  }

  lemma SoundNow(objs: set<Object>, h: FrameHeap)
    requires Sound(objs, h)
    ensures SoundBefore(objs, h, if h.mem == null then [] else h.mem[..], h.used, h.blocks)
    ensures h.mem == null ==> forall n | n in objs :: n.Intact()
  {
    hide Object.HeldBy, Apart;
  }

  /** What is written behind the used part of the heap, or in new blocks, does no harm. */
  lemma StaysSound(objs: set<Object>, h: FrameHeap, was: bytes, used: nat, blocks: set<array<byte>>)
    requires SoundBefore(objs, h, was, used, blocks) && blocks <= h.blocks
    requires h.mem == null ==> forall n | n in objs :: n.Intact()
    requires h.mem != null ==> used <= h.used <= h.mem.Length == |was| && h.mem[..used] == was[..used]
    ensures Sound(objs, h)
  {
    hide Object.HeldBy, Apart;
    if h.mem != null {
      assert h.mem[..][..used] == h.mem[..used];
      forall n | n in objs ensures n.Intact() {
        n.HeldByPrefix(was, h.mem[..], used);
      }
    }
  }

  /** Reading one more object leaves those already read as they were. */
  method ReadBeside(b: Build, conn: Conn, h: FrameHeap, tag: bytes, ghost objs: set<Object>)
      returns (code: Code, obj: Object?)
    requires h.Valid() && Sound(objs, h) && Accounted(objs, h) && IsItemTag(tag)
    modifies conn`input, h`used, h`blocks, h.mem
    ensures old(h.blocks) <= h.blocks && fresh(h.blocks - old(h.blocks))
    ensures h.Valid() && Sound(if obj == null then objs else objs + {obj}, h)
    ensures code != Ok ==> obj == null
    ensures code == Ok || code == Err(ERROR_FRAME_HEAP_FULL) ==>
              Accounted(if obj == null then objs else objs + {obj}, h)
    ensures var r := ItemAfter(b, tag, old(conn.input), conn.broken);
            var before := old(h.State());
            && conn.input == r.rest
            && (!r.Got? ==> code == CodeOf(r) && code != Err(ERROR_FRAME_HEAP_FULL) && code != Ok)
            && (r.Got? && before.Fits(r.value) ==>
                  && code == Ok && obj != null && fresh(obj) && obj.item == r.value && TagOf(obj.item) == tag
                  && h.State() == before.Alloc(r.value))
            && (r.Got? && !before.Fits(r.value) ==>
                  obj == null && h.State() == before
                  && code == if b.reportsFull then Err(ERROR_FRAME_HEAP_FULL) else Ok)
  {
    hide ItemAfter, Heap.Room, Heap.SizeFor, Sound, Object.Intact, Apart;
    ghost var was, used, blocks := if h.mem == null then [] else h.mem[..], h.used, h.blocks;
    SoundNow(objs, h);
    code, obj := ReadObject(b, conn, h, tag);
    if code != Ok {
      obj := null;
    }
    StaysSound(objs, h, was, used, blocks);
    if obj != null {
      SoundWithOneMore(objs, obj, h);
    }
  }

  /** Links an object that was read beside those of the frame. */
  method Attach(h: FrameHeap, frame: FrameObject, tag: bytes, obj: Object)
    requires frame.Valid() && obj !in frame.Objects() && tag == TagOf(obj.item)
    requires Sound(frame.Objects() + {obj}, h) && Accounted(frame.Objects() + {obj}, h)
    modifies frame.hdrs, frame.pos, frame.ros, frame.Objects(), obj`next
    ensures frame.Valid() && frame.Objects() == old(frame.Objects()) + {obj}
    ensures frame.Lists() == old(frame.Lists()).Add(obj.item)
    ensures Sound(frame.Objects(), h) && Accounted(frame.Objects(), h)
  {
    hide ItemsOf, FrameObject.Valid, Sound, Accounted;
    frame.TailsBelong();
    frame.Push(tag, obj);
  }

  /** One object of a frame: read, placed in memory and linked, or dropped for want of room. */
  method ReadNext(b: Build, conn: Conn, h: FrameHeap, frame: FrameObject, tag: bytes) returns (code: Code)
    requires h.Valid() && frame.Valid() && Sound(frame.Objects(), h) && Accounted(frame.Objects(), h)
    requires IsItemTag(tag)
    modifies conn`input, h`used, h`blocks, h.mem, frame.hdrs, frame.pos, frame.ros, frame.Objects()
    ensures h.Valid() && frame.Valid() && Sound(frame.Objects(), h)
    ensures fresh(frame.Objects() - old(frame.Objects())) && fresh(h.blocks - old(h.blocks))
    ensures code == Ok ==> Accounted(frame.Objects(), h)
    ensures var r := ItemAfter(b, tag, old(conn.input), conn.broken);
            var before := old(h.State());
            && conn.input == r.rest
            && (!r.Got? ==> code == CodeOf(r))
            && (r.Got? && before.Fits(r.value) ==>
                  code == Ok && h.State() == before.Alloc(r.value) && frame.Lists() == old(frame.Lists()).Add(r.value))
            && (r.Got? && !before.Fits(r.value) ==>
                  && code == (if b.reportsFull then Ok else Null)
                  && h.State() == before && frame.Lists() == old(frame.Lists()))
  {
    hide ItemAfter, ItemsOf, FrameObject.Valid, FrameHeap.Valid, Heap.Room, Heap.SizeFor, Sound, Accounted;
    var obj;
    code, obj := ReadBeside(b, conn, h, tag, frame.Objects());
    if code == Err(ERROR_FRAME_HEAP_FULL) {
      return Ok;
    } else if code != Ok {
      return;
    }
    if obj == null {
      return Null;
    }
    Attach(h, frame, tag, obj);
  }

  /** Reads into a local array of `n` bytes. */
  method ReadLocal(conn: Conn, n: nat) returns (status: Status, text: bytes)
    modifies conn`input
    ensures var s := old(conn.input);
            if n <= |s| then status == ArrayFull && text == s[..n] && conn.input == s[n..]
            else status == EndStatus(conn.broken) && conn.input == []
  {
    var local := new byte[n];
    status := ReadUntilFull(conn, local, 0, n);
    text := local[0..0 + n];
  }

  /** One turn of the loop of bw2_readFrame; `more` says whether it goes round again. */
  method ReadTurn(b: Build, conn: Conn, h: FrameHeap, frame: FrameObject) returns (code: Code, more: bool)
    requires h.Valid() && frame.Valid() && Sound(frame.Objects(), h) && Accounted(frame.Objects(), h)
    modifies conn`input, h`used, h`blocks, h.mem, frame.hdrs, frame.pos, frame.ros, frame.Objects()
    ensures h.Valid() && frame.Valid() && Sound(frame.Objects(), h)
    ensures fresh(frame.Objects() - old(frame.Objects())) && fresh(h.blocks - old(h.blocks))
    ensures more || code == Ok ==> Accounted(frame.Objects(), h)
    ensures var r := NextItem(b, old(conn.input), conn.broken);
            var before, lists := old(h.State()), old(frame.Lists());
            && conn.input == r.rest
            && (!r.Got? ==> !more && code == CodeOf(r))
            && (r.Got? && r.value == None ==> !more && code == Ok && frame.Lists() == lists)
            && (r.Got? && r.value.Some? && before.Fits(r.value.value) ==>
                  && more && h.State() == before.Alloc(r.value.value)
                  && frame.Lists() == lists.Add(r.value.value))
            && (r.Got? && r.value.Some? && !before.Fits(r.value.value) ==>
                  && more == b.reportsFull && (!more ==> code == Null)
                  && h.State() == before && frame.Lists() == lists)
  {
    hide ItemAfter, ItemsOf, ObjectList.Valid, Heap.Room, Heap.SizeFor, Sound, Accounted;
    more := false;
    var status, tag := ReadLocal(conn, 3);
    if status != ArrayFull {
      return Err(ERROR_MALFORMED_FRAME), false;
    }
    if IsItemTag(tag) {
      code := ReadNext(b, conn, h, frame, tag);
      more := code == Ok;
    } else if tag == END_TAG {
      var ok := ConsumeNewline(conn);
      code := if ok then Ok else Err(ERROR_MALFORMED_FRAME);
    } else {
      code := Err(ERROR_MALFORMED_FRAME);
    }
  }

  /** The loop of bw2_readFrame. */
  method ReadObjects(b: Build, conn: Conn, h: FrameHeap, frame: FrameObject) returns (code: Code)
    requires h.Valid() && frame.Valid() && Sound(frame.Objects(), h) && Accounted(frame.Objects(), h)
    modifies conn`input, h`used, h`blocks, h.mem, frame.hdrs, frame.pos, frame.ros, frame.Objects()
    ensures h.Valid() && frame.Valid() && Sound(frame.Objects(), h)
    ensures fresh(frame.Objects() - old(frame.Objects())) && fresh(h.blocks - old(h.blocks))
    ensures code == Ok ==> Accounted(frame.Objects(), h)
    ensures var r := ReadItems(b, old(h.State()), old(frame.Lists()), old(conn.input), conn.broken);
            && code == CodeOf(r) && conn.input == r.rest
            && (r.Got? ==> frame.Lists() == r.value)
  {
    hide NextItem, ItemsOf, FrameObject.Valid, FrameHeap.Valid, Heap.Room, Heap.SizeFor, Sound, Accounted;
    hide FrameObject.Lists;
    ghost var all := ReadItems(b, h.State(), frame.Lists(), conn.input, conn.broken);
    var more := true;
    code := Ok;
    while more
      invariant h.Valid() && frame.Valid() && Sound(frame.Objects(), h)
      invariant fresh(frame.Objects() - old(frame.Objects())) && fresh(h.blocks - old(h.blocks))
      invariant more || code == Ok ==> Accounted(frame.Objects(), h)
      invariant more ==> ReadItems(b, h.State(), frame.Lists(), conn.input, conn.broken) == all
      invariant !more ==> code == CodeOf(all) && conn.input == all.rest && (all.Got? ==> frame.Lists() == all.value)
      decreases more, |conn.input|
    {
      code, more := ReadTurn(b, conn, h, frame);
    }
  }

  /** The first part of bw2_readFrame. */
  method ReadHeader(conn: Conn) returns (code: Code, cmd: bytes, seqno: int)
    modifies conn`input
    ensures var r := Header(old(conn.input), conn.broken);
            && code == CodeOf(r) && conn.input == r.rest
            && (r.Got? ==> (cmd, seqno) == r.value)
  {
    hide StrToULL;
    ghost var s := conn.input;
    cmd, seqno := [], 0;
    var status, text := ReadLocal(conn, FRAME_HEADER_LENGTH);
    if status == EofReached {
      return Err(ERROR_MALFORMED_FRAME), cmd, seqno;
    } else if status == Error {
      return Err(ERROR_CONNECTION_LOST), cmd, seqno;
    }
    assert text[..4] == s[..4] && text[16..26] == s[16..26];
    if text[4] != SP || text[15] != SP || text[26] != NL {
      return Err(ERROR_MALFORMED_FRAME), cmd, seqno;
    }
    code, cmd, seqno := Ok, text[..4], ToInt32(StrToULL(text[16..26]).value);
  }

  /** bw2_readFrame from its header on, into an empty frame object. */
  method ReadInto(b: Build, conn: Conn, h: FrameHeap, frame: FrameObject) returns (code: Code)
    requires h.Valid() && frame.Valid() && Sound(frame.Objects(), h) && Accounted(frame.Objects(), h)
    requires frame.Lists() == NO_ITEMS
    modifies conn`input, h`used, h`blocks, h.mem
    modifies frame`cmd, frame`seqno, frame.hdrs, frame.pos, frame.ros, frame.Objects()
    ensures frame.Valid() && Sound(frame.Objects(), h)
    ensures fresh(frame.Objects() - old(frame.Objects())) && fresh(h.blocks - old(h.blocks))
    ensures code == Ok ==> Accounted(frame.Objects(), h)
    ensures var r := Codec.ReadFrame(b, old(h.State()), old(conn.input), conn.broken);
            && code == CodeOf(r) && conn.input == r.rest
            && (r.Got? ==> Frame(frame.cmd, frame.seqno, frame.Lists()) == r.value)
  {
    hide ItemsOf, Sound, Accounted, ReadItems, Header, FrameObject.Valid, FrameHeap.Valid;
    var cmd, seqno;
    code, cmd, seqno := ReadHeader(conn);
    if code == Ok {
      frame.cmd, frame.seqno := cmd, seqno;
      code := ReadObjects(b, conn, h, frame);
    }
  }

  /** bw2_readFrame: a frame object whose lists are the frame the specification reads, and
      whose blocks lie apart from each other in the memory given. */
  method ReadFrame(b: Build, conn: Conn, mem: array?<byte>, kvStruct: nat, poStruct: nat, roStruct: nat)
    returns (code: Code, frame: FrameObject, ghost h: FrameHeap)
    requires kvStruct < TWO_TO_THE_32 && poStruct < TWO_TO_THE_32 && roStruct < TWO_TO_THE_32
    modifies conn`input, mem
    ensures frame.Valid() && Sound(frame.Objects(), h) && h.mem == mem && fresh(frame) && fresh(frame.Objects())
    ensures fresh(frame.hdrs) && fresh(frame.pos) && fresh(frame.ros)
    ensures code == Ok ==> Accounted(frame.Objects(), h)
    ensures mem == null ==> fresh(h.blocks)
    ensures var empty := Heap(mem != null, if mem == null then 0 else mem.Length, 0, kvStruct, poStruct, roStruct);
            var r := Codec.ReadFrame(b, empty, old(conn.input), conn.broken);
            && code == CodeOf(r) && conn.input == r.rest
            && (r.Got? ==> Frame(frame.cmd, frame.seqno, frame.Lists()) == r.value)
  {
    hide ItemsOf, Sound, Accounted, Codec.ReadFrame, FrameObject.Valid, FrameHeap.Valid;
    var heap := new FrameHeap(mem, kvStruct, poStruct, roStruct);
    h := heap;
    frame := new FrameObject();
    EmptyIsSound(h);
    code := ReadInto(b, conn, heap, frame);
  }

  lemma EmptyIsSound(h: FrameHeap)
    requires h.blocks == if h.mem == null then {} else {h.mem}
    ensures Sound({}, h) && Accounted({}, h)
  {
  }
}
