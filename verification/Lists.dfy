/** The in-memory objects of a frame: headers, payload objects and routing objects on singly
    linked lists with a tail pointer. */
module ObjectLists {
  import opened Decimal
  import opened Frames
  import opened Sublists

  /** struct bw2_header, bw2_payloadobj or bw2_routingobj: a link, and where in memory the key
      and the value are. The object's block is `mem[base..base + size]`; `item` is what the
      object was made to hold. */
  class Object {
    var next: Object?
    const num: nat
    const mem: array<byte>
    const keyAt: nat
    const keyLen: nat
    const valueAt: nat
    const len: nat
    ghost const item: Item
    ghost const base: nat
    ghost const size: nat

    constructor (num: nat, mem: array<byte>, keyAt: nat, keyLen: nat, valueAt: nat, len: nat,
                 ghost item: Item, ghost base: nat, ghost size: nat)
      ensures this.num == num && this.mem == mem && next == null
      ensures this.keyAt == keyAt && this.keyLen == keyLen && this.valueAt == valueAt && this.len == len
      ensures this.item == item && this.base == base && this.size == size
    {
      this.num, this.mem := num, mem;
      this.keyAt, this.keyLen, this.valueAt, this.len := keyAt, keyLen, valueAt, len;
      this.item, this.base, this.size := item, base, size;
      next := null;
    }

    ghost predicate InBlock() {
      base <= keyAt && keyAt + keyLen <= valueAt && valueAt + len <= base + size <= mem.Length
    }

    /** The item is what these contents of the memory show. */
    ghost predicate HeldBy(contents: bytes) {
      && InBlock() && |contents| == mem.Length
      && contents[valueAt..valueAt + len] == item.value
      && match item
         case KV(key, _) =>
           contents[keyAt..keyAt + keyLen] == key && keyAt + keyLen < valueAt && contents[keyAt + keyLen] == 0
         case PO(n, _) => num == n
         case RO(n, _) => num == n
    }

    /** The memory still holds the item. */
    ghost predicate Intact()
      reads mem
    {
      HeldBy(mem[..])
    }

    /** Writing behind the block does no harm. */
    lemma HeldByPrefix(before: bytes, after: bytes, used: nat)
      requires HeldBy(before) && |before| == |after| && base + size <= used <= |before|
      requires after[..used] == before[..used]
      ensures HeldBy(after)
    {
      SamePart(before, after, used, valueAt, valueAt + len);
      SamePart(before, after, used, keyAt, keyAt + keyLen);
      if item.KV? {
        assert after[..used][keyAt + keyLen] == before[..used][keyAt + keyLen];
      }
    }
  }

  lemma SamePart(before: bytes, after: bytes, used: nat, from: nat, to: nat)
    requires |before| == |after| && from <= to <= used <= |before| && after[..used] == before[..used]
    ensures after[from..to] == before[from..to]
  {
    forall i | from <= i < to ensures after[i] == before[i] {
      assert after[..used][i] == before[..used][i];
    }
  }

  /** Each node links to the one behind it and the last one to `after`. */
  ghost predicate Chained(nodes: seq<Object>, after: Object?)
    reads nodes
  {
    forall i {:trigger nodes[i].next} :: 0 <= i < |nodes|
        ==> nodes[i].next == if i < |nodes| - 1 then nodes[i + 1] else after
  }

  lemma JoinLinks(a: seq<Object>, c: seq<Object>)
    requires c != [] && Chained(a, c[0]) && Chained(c, null)
    ensures Chained(a + c, null)
  {
    var all := a + c;
    forall i | 0 <= i < |all| ensures all[i].next == if i < |all| - 1 then all[i + 1] else null {
      if i >= |a| {
        var k := i - |a|;
        assert all[i] == c[k] && c[k].next == if k < |c| - 1 then c[k + 1] else null;
      } else {
        assert a[i].next == if i < |a| - 1 then a[i + 1] else c[0];
      }
    }
  }

  ghost function ItemsOf(nodes: seq<Object>): (its: seq<Item>)
    ensures |its| == |nodes|
  {
    seq(|nodes|, i requires 0 <= i < |nodes| => nodes[i].item)
  }

  lemma ItemsOfSnoc(a: seq<Object>, obj: Object)
    ensures ItemsOf(a + [obj]) == ItemsOf(a) + [obj.item]
  {
  }

  lemma ItemsOfConcat(a: seq<Object>, c: seq<Object>)
    ensures ItemsOf(a + c) == ItemsOf(a) + ItemsOf(c)
  {
  }

  /** One of the three lists of a frame, for example `hdrs` and `lasthdr`. */
  class ObjectList {
    var first: Object?
    var last: Object?
    ghost var nodes: seq<Object>
    ghost var repr: set<Object>

    ghost predicate Valid()
      reads this, repr
    {
      && (forall i :: 0 <= i < |nodes| ==> nodes[i] in repr)
      && (forall n | n in repr :: n in nodes)
      && Distinct(nodes) && Chained(nodes, null)
      && first == (if nodes == [] then null else nodes[0])
      && last == (if nodes == [] then null else nodes[|nodes| - 1])
    }

    lemma TailBelongs()
      requires Valid()
      ensures last != null ==> last in repr
    {
    }

    constructor ()
      ensures Valid() && nodes == [] && repr == {}
    {
      first, last, nodes, repr := null, null, [], {};
    }

    /** The reader's inline code: links one object behind the tail. */
    method Push(obj: Object)
      requires Valid() && obj !in repr
      modifies this, obj`next, last
      ensures Valid() && nodes == old(nodes) + [obj] && repr == old(repr) + {obj}
      ensures ItemsOf(nodes) == ItemsOf(old(nodes)) + [obj.item]
    {
      hide ItemsOf;
      obj.next := null;
      if last == null {
        first := obj;
      } else {
        last.next := obj;
      }
      last := obj;
      JoinLinks(nodes, [obj]);
      ItemsOfSnoc(nodes, obj);
      nodes, repr := nodes + [obj], repr + {obj};
    }

    /** The loop of the append functions: follows the chain to its end. */
    static method EndOf(chain: Object, ghost added: seq<Object>) returns (end: Object)
      requires Chained(added, null) && added != [] && chain == added[0]
      ensures end == added[|added| - 1]
    {
      end := chain;
      ghost var k := 0;
      assert added[0].next == if 1 < |added| then added[1] else null;
      while end.next != null
        invariant k < |added| && end == added[k]
        invariant end.next == if k + 1 < |added| then added[k + 1] else null
        decreases |added| - k
      {
        end := end.next;
        k := k + 1;
        assert added[k].next == if k + 1 < |added| then added[k + 1] else null;
      }
    }

    /** bw2_appendKV, bw2_appendPO and bw2_appendRO: appends a whole chain and moves the tail
        pointer to its end. */
    method Append(chain: Object, ghost added: seq<Object>)
      requires Valid() && Distinct(added) && Chained(added, null) && added != [] && chain == added[0]
      requires forall i :: 0 <= i < |added| ==> added[i] !in repr
      modifies this, last
      ensures Valid() && nodes == old(nodes) + added && last == added[|added| - 1]
      ensures repr == old(repr) + set n | n in added
      ensures ItemsOf(nodes) == ItemsOf(old(nodes)) + ItemsOf(added)
      ensures forall i :: 0 <= i < |added| ==> added[i].next == old(added[i].next)
    {
      hide ItemsOf;
      var end := EndOf(chain, added);
      if last == null {
        first := chain;
      } else {
        last.next := chain;
      }
      last := end;
      assert Chained(added, null) by {
        forall i | 0 <= i < |added|
          ensures added[i].next == if i < |added| - 1 then added[i + 1] else null
        {
          assert added[i].next == old(added[i].next);
        }
      }
      JoinLinks(nodes, added);
      ItemsOfConcat(nodes, added);
      nodes, repr := nodes + added, repr + (set n | n in added);
    }
  }
}
