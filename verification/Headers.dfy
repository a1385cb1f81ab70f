/** The client's questions about a received frame, asked of its linked headers. */
module Headers {
  import opened Frames
  import opened Codec
  import opened ObjectLists
  import opened FrameReader
  import opened Writer

  lemma RestOfItems(nodes: seq<Object>, k: nat)
    requires k < |nodes|
    ensures ItemsOf(nodes)[k..][0] == nodes[k].item && ItemsOf(nodes)[k..][1..] == ItemsOf(nodes)[k + 1..]
  {
  }

  /** bw2_getFirstHeader */
  method GetFirstHeader(frame: FrameObject, key: bytes) returns (hdr: Object?)
    requires ListWritable(frame.hdrs, KV_TAG)
    ensures hdr != null ==> Writable(hdr, KV_TAG)
    ensures FirstHeader(frame.Lists().kvs, key) == if hdr == null then None else Some(hdr.item.value)
  {
    hide SameText, ItemsOf;
    ghost var nodes := frame.hdrs.nodes;
    ghost var kvs := ItemsOf(nodes);
    hdr := frame.hdrs.first;
    ghost var k := 0;
    while hdr != null
      invariant k <= |nodes| && hdr == if k < |nodes| then nodes[k] else null
      invariant |kvs| == |nodes| && FirstHeader(kvs, key) == FirstHeader(kvs[k..], key)
      decreases |nodes| - k
    {
      RestOfItems(nodes, k);
      if SameText(hdr.mem[hdr.keyAt..hdr.keyAt + hdr.keyLen], key, MAX_KEY_LENGTH + 1) {
        KeyInMemory(hdr);
        return;
      }
      KeyInMemory(hdr);
      assert nodes[k].next == if k + 1 < |nodes| then nodes[k + 1] else null;
      hdr := hdr.next;
      k := k + 1;
    }
    assert kvs[k..] == [];
  }

  lemma KeyInMemory(hdr: Object)
    requires Writable(hdr, KV_TAG)
    ensures hdr.InBlock() && hdr.item.KV? && hdr.mem[hdr.keyAt..hdr.keyAt + hdr.keyLen] == hdr.item.key
    ensures hdr.mem[hdr.valueAt..hdr.valueAt + hdr.len] == hdr.item.value
  {
    assert hdr.mem[hdr.keyAt..hdr.keyAt + hdr.keyLen] == hdr.mem[..][hdr.keyAt..hdr.keyAt + hdr.keyLen];
    assert hdr.mem[hdr.valueAt..hdr.valueAt + hdr.len] == hdr.mem[..][hdr.valueAt..hdr.valueAt + hdr.len];
  }

  ghost function FrameOf(frame: FrameObject): Frame
    reads frame, frame.hdrs, frame.pos, frame.ros
  {
    Frame(frame.cmd, frame.seqno, frame.Lists())
  }

  /** bw2_frameMustResponse: 0 if and only if the frame is a response with status "okay". */
  method FrameMustResponse(frame: FrameObject) returns (code: int)
    requires ListWritable(frame.hdrs, KV_TAG)
    ensures code == MustResponse(FrameOf(frame))
    ensures code == 0 <==> frame.cmd == RESPONSE && Says(FrameOf(frame), STATUS, OKAY)
  {
    hide FirstHeader, MatchesLiteral, Says, ListWritable, Object.Intact, ItemsOf;
    MustResponseExactly(FrameOf(frame));
    if frame.cmd == RESPONSE {
      var statushdr := GetFirstHeader(frame, STATUS);
      if statushdr == null {
        return ERROR_MISSING_HEADER;
      }
      KeyInMemory(statushdr);
      var value := statushdr.mem[statushdr.valueAt..statushdr.valueAt + statushdr.len];
      code := if MatchesLiteral(value, OKAY) then 0 else ERROR_RESPONSE_STATUS;
    } else {
      code := ERROR_UNEXPECTED_FRAME;
    }
  }

  /** The daemon's `final`. */
  method FrameIsFinal(frame: FrameObject) returns (final: bool)
    requires ListWritable(frame.hdrs, KV_TAG)
    ensures final == IsFinal(FrameOf(frame)) && (final <==> Finishes(FrameOf(frame)))
  {
    hide FirstHeader, MatchesLiteral, Finishes, ListWritable, Object.Intact, ItemsOf;
    IsFinalExactly(FrameOf(frame));
    var finishhdr := GetFirstHeader(frame, FINISHED);
    if finishhdr == null {
      return false;
    }
    KeyInMemory(finishhdr);
    final := MatchesLiteral(finishhdr.mem[finishhdr.valueAt..finishhdr.valueAt + finishhdr.len], TRUE);
  }
}
