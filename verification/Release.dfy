/** bw2_frameFreeResources: under malloc every block of a frame is freed, once. */
module Release {
  import opened Decimal
  import opened Frames
  import opened Codec
  import opened Stream
  import opened Sublists
  import opened ObjectLists
  import opened Reader
  import opened FrameReader

  /** The C heap: the blocks that are live. An object's struct is the head of its own block,
      so its link is gone once the block is freed. */
  class Allocator {
    ghost var live: set<array<byte>>

    method Free(obj: Object)
      requires obj.mem in live
      modifies this, obj`next
      ensures live == old(live) - {obj.mem}
    {
      live := live - {obj.mem};
      obj.next := *;
    }
  }

  ghost function Blocks(nodes: seq<Object>): set<array<byte>> {
    set n | n in nodes :: n.mem
  }

  ghost predicate OwnBlocks(nodes: seq<Object>) {
    forall i, j :: 0 <= i < j < |nodes| ==> nodes[i].mem != nodes[j].mem
  }

  /** One of the three loops: the link is read before its node is freed. */
  method FreeList(allocator: Allocator, list: ObjectList)
    requires list.Valid() && OwnBlocks(list.nodes) && Blocks(list.nodes) <= allocator.live
    modifies allocator, list.repr
    ensures allocator.live == old(allocator.live) - Blocks(list.nodes)
  {
    ghost var nodes, k := list.nodes, 0;
    var curr := list.first;
    while curr != null
      invariant list.nodes == nodes && k <= |nodes| && curr == if k < |nodes| then nodes[k] else null
      invariant allocator.live == old(allocator.live) - Blocks(nodes[..k])
      invariant forall i :: k <= i < |nodes| ==> nodes[i].next == old(nodes[i].next)
      decreases |nodes| - k
    {
      var next := curr.next;
      assert old(nodes[k].next) == if k < |nodes| - 1 then nodes[k + 1] else null;
      assert curr.mem in Blocks(nodes);
      allocator.Free(curr);
      assert nodes[..k + 1] == nodes[..k] + [curr];
      curr := next;
      k := k + 1;
    }
    assert nodes[..k] == nodes;
  }

  ghost predicate OwnBlocksApart(frame: FrameObject)
    reads frame.hdrs, frame.pos, frame.ros
  {
    && OwnBlocks(frame.hdrs.nodes) && OwnBlocks(frame.pos.nodes) && OwnBlocks(frame.ros.nodes)
    && Blocks(frame.hdrs.nodes) !! Blocks(frame.pos.nodes) !! Blocks(frame.ros.nodes)
  }

  ghost function FrameBlocks(frame: FrameObject): set<array<byte>>
    reads frame.hdrs, frame.pos, frame.ros
  {
    Blocks(frame.hdrs.nodes) + Blocks(frame.pos.nodes) + Blocks(frame.ros.nodes)
  }

  /** bw2_frameFreeResources */
  method FreeResources(allocator: Allocator, frame: FrameObject)
    requires frame.Valid() && OwnBlocksApart(frame) && FrameBlocks(frame) <= allocator.live
    modifies allocator, frame.Objects()
    ensures allocator.live == old(allocator.live) - old(FrameBlocks(frame))
  {
    hide Distinct, Chained, ObjectList.Valid, OwnBlocks;
    FreeList(allocator, frame.hdrs);
    FreeList(allocator, frame.pos);
    FreeList(allocator, frame.ros);
  }

  lemma ListOwnBlocks(list: ObjectList, objs: set<Object>, h: FrameHeap)
    requires list.Valid() && list.repr <= objs && Sound(objs, h) && h.mem == null
    ensures OwnBlocks(list.nodes)
    ensures Blocks(list.nodes) == set n | n in list.repr :: n.mem
  {
    forall i, j | 0 <= i < j < |list.nodes| ensures list.nodes[i].mem != list.nodes[j].mem {
      assert list.nodes[i] in objs && list.nodes[j] in objs && list.nodes[i] != list.nodes[j];
    }
  }

  lemma DifferentBlocks(x: set<Object>, y: set<Object>, objs: set<Object>, h: FrameHeap)
    requires Sound(objs, h) && h.mem == null && x <= objs && y <= objs && x !! y
    ensures (set n | n in x :: n.mem) !! (set n | n in y :: n.mem)
  {
    forall n, m | n in x && m in y ensures n.mem != m.mem {
      assert n in objs && m in objs;
    }
  }

  lemma {:induction false} SoundBlocks(frame: FrameObject, h: FrameHeap)
    requires frame.Valid() && Sound(frame.Objects(), h) && Accounted(frame.Objects(), h) && h.mem == null
    ensures OwnBlocksApart(frame) && FrameBlocks(frame) == h.blocks
  {
    hide Sound, OwnBlocks, ObjectList.Valid;
    var objs := frame.Objects();
    ListOwnBlocks(frame.hdrs, objs, h);
    ListOwnBlocks(frame.pos, objs, h);
    ListOwnBlocks(frame.ros, objs, h);
    DifferentBlocks(frame.hdrs.repr, frame.pos.repr, objs, h);
    DifferentBlocks(frame.hdrs.repr, frame.ros.repr, objs, h);
    DifferentBlocks(frame.pos.repr, frame.ros.repr, objs, h);
  }

  /** The memory of one turn of the daemon's loop without a frame heap: read a frame, use it,
      free it. The blocks live afterwards are those that were live before. */
  method ReadAndRelease(b: Build, conn: Conn, allocator: Allocator, kvStruct: nat, poStruct: nat, roStruct: nat)
    returns (code: Code, ghost f: Frame)
    requires kvStruct < TWO_TO_THE_32 && poStruct < TWO_TO_THE_32 && roStruct < TWO_TO_THE_32
    modifies conn`input, allocator
    ensures var r := Codec.ReadFrame(b, Heap(false, 0, 0, kvStruct, poStruct, roStruct), old(conn.input), conn.broken);
            code == CodeOf(r) && conn.input == r.rest && (r.Got? ==> f == r.value)
    ensures code == Ok ==> allocator.live == old(allocator.live)
  {
    hide Codec.ReadFrame, Sound, Accounted, FrameObject.Valid;
    var frame;
    ghost var h;
    code, frame, h := FrameReader.ReadFrame(b, conn, null, kvStruct, poStruct, roStruct);
    f := Frame(frame.cmd, frame.seqno, frame.Lists());
    assert h.blocks !! allocator.live;
    allocator.live := allocator.live + h.blocks;
    if code == Ok {
      SoundBlocks(frame, h);
      FreeResources(allocator, frame);
    }
  }
}
