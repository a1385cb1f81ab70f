/** The request list as the daemon's code handles it: nodes linked through `next`, taken out in
    place through a pointer to the link that leads to them, with callbacks that may give a
    node's memory away. */
module Dispatch {
  import opened Frames
  import opened Protocol
  import opened Sublists

  /** struct bw2_reqctx, as far as the list goes. */
  class ReqCtx {
    var seqno: int
    var rv: int
    var next: ReqCtx?

    constructor (seqno: int)
      ensures this.seqno == seqno
    {
      this.seqno := seqno;
    }
  }

  /** One invocation of `onframe`. */
  datatype Visit = Visit(node: ReqCtx, rv: int, final: bool, stop: bool)

  /** Which of the numbers in `ns` are not the frame's. */
  function Misses(ns: seq<int>, seqno: int): (ms: seq<bool>)
    ensures |ms| == |ns| && forall i :: 0 <= i < |ms| ==> ms[i] == (ns[i] != seqno)
  {
    seq(|ns|, i requires 0 <= i < |ns| => ns[i] != seqno)
  }

  predicate Ended(node: ReqCtx, visits: seq<Visit>) {
    exists i :: 0 <= i < |visits| && visits[i].node == node && (visits[i].final || visits[i].stop)
  }

  /** Which of the nodes a visit has ended, by a final frame or by its answer. */
  function Endings(nodes: seq<ReqCtx>, visits: seq<Visit>): (es: seq<bool>)
    ensures |es| == |nodes| && forall j :: 0 <= j < |es| ==> es[j] == Ended(nodes[j], visits)
  {
    seq(|nodes|, j requires 0 <= j < |nodes| => Ended(nodes[j], visits))
  }

  function Visited(visits: seq<Visit>): (nodes: seq<ReqCtx>)
    ensures |nodes| == |visits| && forall i :: 0 <= i < |nodes| ==> nodes[i] == visits[i].node
  {
    seq(|visits|, i requires 0 <= i < |visits| => visits[i].node)
  }

  /** What dispatching a frame to the list `nodes`, whose numbers are `ns`, comes to: the nodes
      with its number are visited, each once and in order, and those visits that were final or
      answered with stop are the ones whose nodes are missing from the list afterwards. */
  ghost predicate DispatchedTo(nodes: seq<ReqCtx>, ns: seq<int>, frame: Frame, visits: seq<Visit>, left: seq<ReqCtx>)
    requires |ns| == |nodes|
  {
    && Visited(visits) == Kept(nodes, Misses(ns, frame.seqno))
    && (forall i :: 0 <= i < |visits| ==> visits[i].rv == 0 && visits[i].final == Finishes(frame))
    && left == Kept(nodes, Endings(nodes, visits))
  }

  lemma DispatchMissed(nodes: seq<ReqCtx>, ns: seq<int>, frame: Frame, visits: seq<Visit>, left: seq<ReqCtx>, k: nat)
    requires |ns| == |nodes| && Distinct(nodes) && k < |nodes| && ns[k] != frame.seqno
    requires DispatchedTo(nodes[..k], ns[..k], frame, visits, left)
    ensures DispatchedTo(nodes[..k + 1], ns[..k + 1], frame, visits, left + [nodes[k]])
  {
    assert nodes[..k + 1][..k] == nodes[..k] && ns[..k + 1][..k] == ns[..k];
    assert Misses(ns[..k + 1], frame.seqno)[..k] == Misses(ns[..k], frame.seqno);
    assert Endings(nodes[..k + 1], visits)[..k] == Endings(nodes[..k], visits);
    if Ended(nodes[k], visits) {
      VisitedBefore(nodes[..k], ns[..k], frame, visits, nodes[k]);
    }
  }

  lemma VisitedBefore(nodes: seq<ReqCtx>, ns: seq<int>, frame: Frame, visits: seq<Visit>, node: ReqCtx)
    requires |ns| == |nodes| && Visited(visits) == Kept(nodes, Misses(ns, frame.seqno)) && Ended(node, visits)
    ensures node in nodes
  {
    var i :| 0 <= i < |visits| && visits[i].node == node;
    var from := KeptInOrder(nodes, Misses(ns, frame.seqno));
    assert Visited(visits)[i] == nodes[from[i]];
  }

  lemma DispatchHit(nodes: seq<ReqCtx>, ns: seq<int>, frame: Frame, visits: seq<Visit>, left: seq<ReqCtx>,
    k: nat, visit: Visit)
    requires |ns| == |nodes| && Distinct(nodes) && k < |nodes| && ns[k] == frame.seqno
    requires DispatchedTo(nodes[..k], ns[..k], frame, visits, left)
    requires visit.node == nodes[k] && visit.rv == 0 && visit.final == Finishes(frame)
    ensures DispatchedTo(nodes[..k + 1], ns[..k + 1], frame, visits + [visit],
                         left + if visit.final || visit.stop then [] else [nodes[k]])
  {
    var visits' := visits + [visit];
    assert nodes[..k + 1][..k] == nodes[..k] && ns[..k + 1][..k] == ns[..k];
    assert Misses(ns[..k + 1], frame.seqno)[..k] == Misses(ns[..k], frame.seqno);
    assert Visited(visits') == Visited(visits) + [nodes[k]];
    forall j | 0 <= j < k ensures Ended(nodes[j], visits') == Ended(nodes[j], visits) {
      if i :| 0 <= i < |visits| && visits[i].node == nodes[j] && (visits[i].final || visits[i].stop) {
        assert visits'[i].node == nodes[j];
      }
    }
    assert Endings(nodes[..k + 1], visits')[..k] == Endings(nodes[..k], visits);
    if Ended(nodes[k], visits) {
      VisitedBefore(nodes[..k], ns[..k], frame, visits, nodes[k]);
    }
    assert visits'[|visits|] == visit;
  }

  /** Where a dispatch of `frame` to the list `orig` stands: of its first `k` nodes `kept` are
      left, after the visits `vs`. */
  ghost predicate Midway(orig: seq<ReqCtx>, origNs: seq<int>, frame: Frame, k: nat, kept: nat, vs: seq<Visit>,
    nodes: seq<ReqCtx>, ns: seq<int>) {
    && |orig| == |origNs| && Distinct(orig) && k <= |orig|
    && kept <= |nodes| && |nodes| == |ns|
    && nodes[kept..] == orig[k..] && ns[kept..] == origNs[k..]
    && DispatchedTo(orig[..k], origNs[..k], frame, vs, nodes[..kept])
  }

  lemma DispatchBegins(orig: seq<ReqCtx>, ns: seq<int>, frame: Frame)
    requires |orig| == |ns| && Distinct(orig)
    ensures Midway(orig, ns, frame, 0, 0, [], orig, ns)
  {
    assert Kept<ReqCtx>([], []) == [];
  }

  lemma DispatchEnds(orig: seq<ReqCtx>, origNs: seq<int>, frame: Frame, k: nat, kept: nat, vs: seq<Visit>,
    nodes: seq<ReqCtx>, ns: seq<int>)
    requires Midway(orig, origNs, frame, k, kept, vs, nodes, ns) && kept == |nodes|
    ensures |orig| == |origNs| && DispatchedTo(orig, origNs, frame, vs, nodes)
  {
    assert k == |orig| by {
      assert |nodes[kept..]| == |orig[k..]|;
    }
    assert orig[..k] == orig && origNs[..k] == origNs && nodes[..kept] == nodes;
  }

  /** One turn of the loop brings the dispatch one node further. */
  lemma DispatchAdvances(orig: seq<ReqCtx>, origNs: seq<int>, frame: Frame, k: nat, kept: nat, vs: seq<Visit>,
                         nodes: seq<ReqCtx>, ns: seq<int>, stop: bool)
    requires Midway(orig, origNs, frame, k, kept, vs, nodes, ns) && kept < |nodes|
    ensures k < |orig| && nodes[kept] == orig[k] && ns[kept] == origNs[k]
    ensures ns[kept] != frame.seqno ==> Midway(orig, origNs, frame, k + 1, kept + 1, vs, nodes, ns)
    ensures ns[kept] == frame.seqno ==>
              var vs' := vs + [Visit(nodes[kept], 0, Finishes(frame), stop)];
              if Finishes(frame) || stop
              then Midway(orig, origNs, frame, k + 1, kept, vs', nodes[..kept] + nodes[kept + 1..],
                ns[..kept] + ns[kept + 1..])
              else Midway(orig, origNs, frame, k + 1, kept + 1, vs', nodes, ns)
  {
    hide DispatchedTo, Finishes;
    assert |nodes[kept..]| == |orig[k..]|;
    assert nodes[kept..][0] == orig[k] && ns[kept..][0] == origNs[k];
    assert nodes[kept + 1..] == nodes[kept..][1..] == orig[k + 1..];
    assert ns[kept + 1..] == ns[kept..][1..] == origNs[k + 1..];
    assert nodes[..kept + 1] == nodes[..kept] + [orig[k]];
    if ns[kept] != frame.seqno {
      DispatchMissed(orig, origNs, frame, vs, nodes[..kept], k);
    } else {
      DispatchHit(orig, origNs, frame, vs, nodes[..kept], k, Visit(orig[k], 0, Finishes(frame), stop));
      assert nodes[..kept] + [] == nodes[..kept];
      var nodes', ns' := nodes[..kept] + nodes[kept + 1..], ns[..kept] + ns[kept + 1..];
      assert nodes'[..kept] == nodes[..kept] && nodes'[kept..] == nodes[kept + 1..] && ns'[kept..] == ns[kept + 1..];
    }
  }

  /** The teardown's call of `onframe` on `node`. */
  predicate IsSweepOf(visit: Visit, node: ReqCtx) {
    visit.node == node && visit.rv == ERROR_CONNECTION_LOST && visit.final
  }

  /** The turns that a teardown of `n` requests takes, of at most `turns`. */
  function TurnsTaken(advances: bool, n: nat, turns: nat): nat {
    if n == 0 then 0 else if advances && n <= turns then n else turns
  }

  /** The visits of the turns taken so far: each node in its turn, or the first in every one. */
  ghost predicate Sweeps(advances: bool, nodes: seq<ReqCtx>, vs: seq<Visit>) {
    forall i :: 0 <= i < |vs| ==>
      var at := if advances then i else 0;
      at < |nodes| && IsSweepOf(vs[i], nodes[at])
  }

  lemma EmptySweep(advances: bool, nodes: seq<ReqCtx>)
    ensures Sweeps(advances, nodes, [])
  {
  }

  lemma SweepsOneMore(advances: bool, nodes: seq<ReqCtx>, vs: seq<Visit>, visit: Visit)
    requires Sweeps(advances, nodes, vs)
    requires var at := if advances then |vs| else 0; at < |nodes| && IsSweepOf(visit, nodes[at])
    ensures Sweeps(advances, nodes, vs + [visit])
  {
  }

  /** struct bw2_client, as far as its requests go. `nodes` is what the list holds, `ns` the
      sequence numbers they carry, `visits` the callbacks the daemon has run. */
  class Client {
    var reqs: ReqCtx?
    var connected: bool
    var curseqno: int
    ghost var nodes: seq<ReqCtx>
    ghost var ns: seq<int>
    ghost var visits: seq<Visit>
    ghost var repr: set<ReqCtx>

    /** Apart from the one at `at`, the nodes are linked in order and carry their numbers. */
    ghost predicate LinkedBut(at: int)
      reads this, repr
    {
      && |ns| == |nodes| && Distinct(nodes)
      && (forall i :: 0 <= i < |nodes| ==> nodes[i] in repr)
      && (forall i :: 0 <= i < |nodes| && i != at ==> nodes[i].seqno == ns[i])
      && (forall i {:trigger nodes[i].next} :: 0 <= i < |nodes| && i != at ==>
            nodes[i].next == if i + 1 < |nodes| then nodes[i + 1] else null)
      && reqs == if nodes == [] then null else nodes[0]
    }

    ghost predicate Valid()
      reads this, repr
    {
      LinkedBut(-1)
    }

    /** _bw2_getSeqNo: the mask keeps the low 31 bits of the sum, which wraps to 0. */
    method GetSeqNo(ghost draws: nat) returns (seqno: int)
      requires curseqno == SeqNo(draws)
      modifies this`curseqno
      ensures seqno == SeqNo(draws) && curseqno == SeqNo(draws + 1)
    {
      seqno := curseqno;
      curseqno := (curseqno + 1) % SEQNOS;
    }

    /** The first half of bw2_transact. */
    method Link(ctx: ReqCtx) returns (rv: int)
      requires Valid() && ctx !in repr
      modifies this`reqs, this`nodes, this`ns, this`repr, ctx`next
      ensures Valid()
      ensures rv == if connected then 0 else ERROR_CONNECTION_LOST
      ensures nodes == if connected then [ctx] + old(nodes) else old(nodes)
      ensures ns == if connected then [ctx.seqno] + old(ns) else old(ns)
    {
      if !connected {
        return ERROR_CONNECTION_LOST;
      }
      ctx.next := reqs;
      reqs := ctx;
      nodes, ns, repr := [ctx] + nodes, [ctx.seqno] + ns, repr + {ctx};
      rv := 0;
    }

    /** `onframe`, of which the list knows only this: it may set `rv`, it says whether to stop,
        and once it has made the request's last use of its memory, anything may be there. */
    method OnFrame(node: ReqCtx, final: bool) returns (stop: bool)
      modifies node, this`visits
      ensures visits == old(visits) + [Visit(node, old(node.rv), final, stop)]
      ensures !final && !stop ==> node.next == old(node.next) && node.seqno == old(node.seqno)
    {
      var rv := node.rv;
      stop := *;
      node.rv := *;
      if final || stop {
        node.next := *;
        node.seqno := *;
      }
      visits := visits + [Visit(node, rv, final, stop)];
    }

    /** `*currptr = next`. `prev` is the node whose `next` field `currptr` points to, or null
        when it points to the head of the list; the node that goes is no longer looked at. */
    method Unlink(prev: ReqCtx?, next: ReqCtx?, ghost at: nat)
      requires at < |nodes| && LinkedBut(at)
      requires next == if at + 1 < |nodes| then nodes[at + 1] else null
      requires prev == if at == 0 then null else nodes[at - 1]
      modifies this`reqs, this`nodes, this`ns, repr
      ensures Valid() && nodes == old(nodes[..at] + nodes[at + 1..]) && ns == old(ns[..at] + ns[at + 1..])
    {
      if prev == null {
        reqs := next;
      } else {
        prev.next := next;
      }
      ghost var was := nodes;
      nodes, ns := nodes[..at] + nodes[at + 1..], ns[..at] + ns[at + 1..];
      forall i {:trigger nodes[i].next} | 0 <= i < |nodes|
        ensures nodes[i].seqno == ns[i] && nodes[i].next == if i + 1 < |nodes| then nodes[i + 1] else null
      {
        assert nodes[i] == was[if i < at then i else i + 1];
      }
    }

    /** `*currptr`. */
    method Deref(prev: ReqCtx?, ghost at: nat) returns (curr: ReqCtx?)
      requires Valid() && at <= |nodes|
      requires prev == if at == 0 then null else nodes[at - 1]
      ensures curr == if at < |nodes| then nodes[at] else null
    {
      curr := if prev == null then reqs else prev.next;
    }

    /** One turn of the dispatch loop, at the node `curr` behind `prev`. */
    method Turn(frame: Frame, prev: ReqCtx?, curr: ReqCtx, ghost at: nat)
        returns (prev': ReqCtx?, ghost gone: bool, ghost stop: bool)
      requires Valid() && at < |nodes| == |ns| && curr == nodes[at]
      requires prev == if at == 0 then null else nodes[at - 1]
      modifies this`reqs, this`nodes, this`ns, this`visits, repr
      ensures Valid()
      ensures nodes == if gone then old(nodes[..at] + nodes[at + 1..]) else old(nodes)
      ensures ns == if gone then old(ns[..at] + ns[at + 1..]) else old(ns)
      ensures prev' == if gone then prev else curr
      ensures if old(ns[at]) != frame.seqno then !gone && visits == old(visits)
              else visits == old(visits) + [Visit(curr, 0, Finishes(frame), stop)] && gone == (Finishes(frame) || stop)
    {
      hide IsFinal, Finishes;
      gone, prev', stop := false, curr, false;
      if curr.seqno == frame.seqno {
        var final := IsFinal(frame);
        IsFinalExactly(frame);
        var next := curr.next;
        curr.rv := 0;
        var answer := OnFrame(curr, final);
        stop := answer;
        if final || answer {
          Unlink(prev, next, at);
          gone, prev' := true, prev;
        }
      }
    }

    /** The dispatch loop of bw2_daemon. */
    method Dispatch(frame: Frame)
      requires Valid()
      modifies this`reqs, this`nodes, this`ns, this`visits, repr
      ensures Valid() && old(visits) <= visits && old(|nodes| == |ns|)
      ensures DispatchedTo(old(nodes), old(ns), frame, visits[|old(visits)|..], nodes)
    {
      hide DispatchedTo, Finishes, LinkedBut, Distinct, Midway;
      ghost var orig, origNs, before := nodes, ns, visits;
      ghost var vs: seq<Visit> := [];
      ghost var k, kept := 0, 0;
      ValidShape();
      DispatchBegins(orig, origNs, frame);
      var prev: ReqCtx? := null;
      var curr := Deref(prev, 0);
      while curr != null
        invariant Valid() && kept <= |nodes| == |ns|
        invariant curr == if kept < |nodes| then nodes[kept] else null
        invariant prev == if kept == 0 then null else nodes[kept - 1]
        invariant visits == before + vs
        invariant Midway(orig, origNs, frame, k, kept, vs, nodes, ns)
        decreases |nodes| - kept
      {
        ghost var was, wasNs := nodes, ns;
        ghost var gone, stop;
        prev, gone, stop := Turn(frame, prev, curr, kept);
        DispatchAdvances(orig, origNs, frame, k, kept, vs, was, wasNs, stop);
        vs := if wasNs[kept] == frame.seqno then vs + [Visit(curr, 0, Finishes(frame), stop)] else vs;
        k, kept := k + 1, if gone then kept else kept + 1;
        curr := Deref(prev, kept);
      }
      DispatchEnds(orig, origNs, frame, k, kept, vs, nodes, ns);
      assert visits[|before|..] == vs;
    }

    /** One turn of the teardown loop. As written `curr` stays where it is; put right, its
        successor is read before the callback, as in the dispatch loop. */
    method SweepTurn(advances: bool, curr: ReqCtx) returns (next: ReqCtx?, ghost visit: Visit)
      modifies curr, this`visits
      ensures visits == old(visits) + [visit] && IsSweepOf(visit, curr)
      ensures next == if advances then old(curr.next) else curr
    {
      next := if advances then curr.next else curr;
      curr.rv := ERROR_CONNECTION_LOST;
      var stop := OnFrame(curr, true);
      visit := Visit(curr, ERROR_CONNECTION_LOST, true, stop);
    }

    /** The next nodes to sweep are linked, whatever the callbacks have done to those before. */
    ghost predicate LinkedFrom(orig: seq<ReqCtx>, k: nat)
      reads orig
    {
      forall i {:trigger orig[i].next} :: k <= i < |orig| ==>
        orig[i].next == if i + 1 < |orig| then orig[i + 1] else null
    }

    /** The teardown of bw2_daemon, as far as it gets in `turns` turns of its loop; `over` says
        whether it gets to the end. */
    method TearDown(advances: bool, turns: nat) returns (over: bool)
      requires Valid()
      modifies this`connected, this`reqs, this`nodes, this`ns, this`visits, repr
      ensures !connected && old(visits) <= visits
      ensures |visits| == old(|visits|) + TurnsTaken(advances, old(|nodes|), turns)
      ensures Sweeps(advances, old(nodes), visits[old(|visits|)..])
      ensures over <==> old(nodes) == [] || (advances && old(|nodes|) <= turns)
      ensures over ==> Valid() && nodes == []
    {
      hide IsSweepOf, Sweeps;
      ghost var orig, before := nodes, visits;
      ghost var vs: seq<Visit> := [];
      EmptySweep(advances, orig);
      connected := false;
      var curr := reqs;
      var left: nat := turns;
      while curr != null && left > 0
        invariant left <= turns && |vs| == turns - left && nodes == orig && repr == old(repr) && !connected
        invariant visits == before + vs && Sweeps(advances, orig, vs) && (orig == [] ==> vs == [])
        invariant advances ==> |vs| <= |orig| && LinkedFrom(orig, |vs|)
        invariant curr == if (if advances then |vs| else 0) < |orig| then orig[if advances then |vs| else 0] else null
        invariant forall i :: 0 <= i < |orig| ==> orig[i] in repr
      {
        ghost var visit;
        curr, visit := SweepTurn(advances, curr);
        SweepsOneMore(advances, orig, vs, visit);
        vs, left := vs + [visit], left - 1;
      }
      over := curr == null;
      if over {
        reqs := null;
        nodes, ns := [], [];
      }
      assert visits[|before|..] == vs;
    }

    lemma ValidShape()
      requires Valid()
      ensures |nodes| == |ns| && Distinct(nodes)
    {
    }
  }
}
