/** The wire format as functions: what bw2_writeFrame emits and what bw2_readFrame makes of
    any byte stream. */
module Codec {
  import opened Decimal
  import opened Frames

  /** The places where the code departs from what it is evidently for, one flag each; a flag
      that is true stands for the code with that one place put right. */
  datatype Build = Build(
    guardsCount: bool,    // utils.c:98 increments through a NULL count when a token fills its buffer
    reportsFull: bool,    // frame.c:481, 543, 590 return 0 with no object when the heap is full
    checksColon: bool,    // frame.c:508 writes through strchr's NULL when a PO number has no colon
    advancesSend: bool)   // utils.c:188 always sends from the start of the array

  const AS_WRITTEN := Build(false, false, false, false)

  /** What reading from the stream ends in. `Fault` is a write through a null pointer. */
  datatype Step<+T> =
    | Got(value: T, rest: bytes)
    | Failed(code: int, rest: bytes)
    | Fault(rest: bytes)

  const SP: byte := 32
  const NL: byte := 10
  const COLON: byte := 58
  const DOT: byte := 46

  const KV_TAG: bytes := [107, 118, 32]     // "kv "
  const PO_TAG: bytes := [112, 111, 32]     // "po "
  const RO_TAG: bytes := [114, 111, 32]     // "ro "
  const END_TAG: bytes := [101, 110, 100]   // "end"
  const END_LINE: bytes := [101, 110, 100, 10]

  const FRAME_HEADER_LENGTH: nat := 27
  const MAX_LOCAL_HEADER_LENGTH: nat := 3 + MAX_KEY_LENGTH + 1 + 10 + 1 + 1

  // ---------- writing ----------

  function TagOf(it: Item): bytes {
    match it
    case KV(_, _) => KV_TAG
    case PO(_, _) => PO_TAG
    case RO(_, _) => RO_TAG
  }

  /** The first token of an item: its key or its number. */
  function NameOf(it: Item): bytes {
    match it
    case KV(key, _) => key
    case PO(num, _) => [COLON] + Digits(num)
    case RO(num, _) => Digits(num)
  }

  function HeaderText(it: Item): bytes {
    TagOf(it) + (NameOf(it) + ([SP] + (Digits(|it.value|) + [NL])))
  }

  /** snprintf into the local header buffer keeps all but the last byte for text. */
  function LocalHeader(it: Item): bytes {
    Clip(HeaderText(it), MAX_LOCAL_HEADER_LENGTH - 1)
  }

  function EncodeItem(it: Item): bytes {
    LocalHeader(it) + (it.value + [NL])
  }

  function EncodeItems(its: seq<Item>): bytes {
    if its == [] then [] else EncodeItem(its[0]) + EncodeItems(its[1..])
  }

  function EncodeBody(its: seq<Item>): bytes {
    EncodeItems(its) + END_LINE
  }

  /** _bw2_frame_KV_len, _bw2_frame_PO_len and _bw2_frame_RO_len. */
  function ItemLength(it: Item): nat {
    var value := |Digits(|it.value|)| + 1 + |it.value| + 1;
    match it
    case KV(key, _) => 3 + |key| + 1 + value
    case PO(num, _) => 3 + 1 + |Digits(num)| + 1 + value
    case RO(num, _) => 3 + |Digits(num)| + 1 + value
  }

  function ItemsLength(its: seq<Item>): nat {
    if its == [] then 0 else ItemLength(its[0]) + ItemsLength(its[1..])
  }

  /** The ten bytes that `%010d` leaves in the header. */
  function SeqnoText(seqno: int): (s: bytes)
    ensures |s| == 10
  {
    if seqno >= 0 then Padded(seqno, 10)
    else
      var ds := Digits(-seqno);
      if |ds| <= 9 then [45] + Padded(-seqno, 9) else [45] + ds[..9]
  }

  function FrameHeader(f: Frame): bytes {
    f.cmd + [SP] + Padded(4 + ItemsLength(f.lists.InWriteOrder()), 10) + [SP] + SeqnoText(f.seqno) + [NL]
  }

  function Encode(f: Frame): bytes {
    FrameHeader(f) + EncodeBody(f.lists.InWriteOrder())
  }

  // ---------- reading ----------

  /** The first position of `x`, or the length. */
  function Find(s: bytes, x: byte): (k: nat)
    ensures k <= |s| && x !in s[..k]
    ensures k < |s| ==> s[k] == x
  {
    if s == [] || s[0] == x then 0
    else
      var k := Find(s[1..], x);
      assert s[..k + 1] == [s[0]] + s[1..][..k];
      k + 1
  }

  /** The status of a read that meets the end of the stream while reading a token. */
  function EndCode(broken: bool): int {
    if broken then -1 else ERROR_MALFORMED_FRAME
  }

  /** The codes that reading an object can end in; a full heap is not one of them. */
  predicate ReadErrors(code: int) {
    code == ERROR_MALFORMED_FRAME || code == -1
  }

  /** _bw2_frame_read_token with a buffer of `cap + 1` bytes. */
  function Token(b: Build, cap: nat, delimiter: byte, s: bytes, broken: bool): (r: Step<bytes>)
    ensures r.Got? ==> |r.rest| < |s| && |r.value| <= cap
    ensures r.Failed? ==> ReadErrors(r.code)
  {
    var k := Find(s, delimiter);
    if k < |s| && k < cap then Got(s[..k], s[k + 1..])
    else if |s| <= cap then Failed(EndCode(broken), [])
    else if !b.guardsCount then Fault(s[cap + 1..])
    else if k < |s| then Got(s[..cap], s[k + 1..])
    else Failed(EndCode(broken), [])
  }

  /** One field of a dotted number: a strtoull value of at most 255 that stops at a dot, or
      at the end of the text for the last field. Also says where the next field starts. */
  function Octet(text: bytes, from: nat, last: bool): (r: Option<(nat, nat)>)
    requires from <= |text|
    ensures r.Some? ==> r.value.0 <= 255 && r.value.1 <= |text|
  {
    var n := StrToULL(text[from..]);
    var end := from + n.end;
    if n.overflow || n.value > 255 then None
    else if last then (if end == |text| then Some((n.value, end)) else None)
    else if end < |text| && text[end] == DOT then Some((n.value, end + 1))
    else None
  }

  /** The last `fields` fields of a dotted number, eight bits each behind those in `high`. */
  function DotFields(text: bytes, from: nat, fields: nat, high: nat): Option<nat>
    requires from <= |text| && fields >= 1
    decreases fields
  {
    match Octet(text, from, fields == 1)
    case None => None
    case Some((value, next)) =>
      if fields == 1 then Some(high * 0x100 + value)
      else DotFields(text, next, fields - 1, high * 0x100 + value)
  }

  /** bw2_ponum_from_dot_form. */
  function DotForm(text: bytes): Option<nat> {
    DotFields(text, 0, 4, 0)
  }

  /** The number of a payload object from its token, in either spelling. */
  function PONumber(b: Build, token: bytes, rest: bytes): (r: Step<nat>)
    ensures r.rest == rest && (r.Failed? ==> ReadErrors(r.code))
  {
    var text := CStr(token);
    var colon := Find(text, COLON);
    if colon == |text| then
      if b.checksColon then Failed(ERROR_MALFORMED_FRAME, rest) else Fault(rest)
    else if colon == 0 then
      var n := StrToULL(text[1..]);
      if n.overflow then Failed(ERROR_MALFORMED_FRAME, rest) else Got(n.value % TWO_TO_THE_32, rest)
    else
      match DotForm(text[..colon])
      case None => Failed(ERROR_MALFORMED_FRAME, rest)
      case Some(n) => Got(n, rest)
  }

  predicate IsItemTag(tag: bytes) {
    tag == KV_TAG || tag == PO_TAG || tag == RO_TAG
  }

  function NameCap(tag: bytes): nat {
    if tag == KV_TAG then MAX_KEY_LENGTH
    else if tag == PO_TAG then MAX_PONUM_LENGTH
    else MAX_RONUM_LENGTH
  }

  /** The value of an item and the newline behind it. */
  function Value(len: nat, s: bytes): (r: Step<bytes>)
    ensures r.Got? ==> |r.rest| < |s| && |r.value| == len
    ensures r.Failed? ==> ReadErrors(r.code)
  {
    if |s| < len then Failed(ERROR_MALFORMED_FRAME, [])
    else if |s| == len then Failed(ERROR_MALFORMED_FRAME, [])
    else if s[len] != NL then Failed(ERROR_MALFORMED_FRAME, s[len + 1..])
    else Got(s[..len], s[len + 1..])
  }

  /** The two tokens behind a tag: the name up to a space and the length up to a newline. */
  function Tokens(b: Build, tag: bytes, s: bytes, broken: bool): (r: Step<(bytes, bytes)>)
    ensures r.Got? ==> |r.rest| < |s| && |r.value.0| <= NameCap(tag)
    ensures r.Failed? ==> ReadErrors(r.code)
  {
    match Token(b, NameCap(tag), SP, s, broken)
    case Failed(code, rest) => Failed(code, rest)
    case Fault(rest) => Fault(rest)
    case Got(name, s1) =>
      match Token(b, MAX_LENGTH_DIGITS, NL, s1, broken)
      case Failed(code, rest) => Failed(code, rest)
      case Fault(rest) => Fault(rest)
      case Got(length, s2) => Got((name, length), s2)
  }

  /** The number a name stands for: headers have none, routing objects keep eight bits. */
  function NumberOf(b: Build, tag: bytes, name: bytes, rest: bytes): (r: Step<nat>)
    ensures r.rest == rest && (r.Failed? ==> ReadErrors(r.code))
  {
    if tag == PO_TAG then PONumber(b, name, rest)
    else if tag == RO_TAG then Got(StrToULL(CStr(name)).value % 256, rest)
    else Got(0, rest)
  }

  function MakeItem(tag: bytes, key: bytes, num: nat, value: bytes): (it: Item)
    ensures IsItemTag(tag) ==> TagOf(it) == tag
  {
    if tag == KV_TAG then KV(key, value)
    else if tag == PO_TAG then PO(num, value)
    else RO(num, value)
  }

  /** The item that follows the tag `tag`, whatever becomes of its memory. */
  function ItemAfter(b: Build, tag: bytes, s: bytes, broken: bool): (r: Step<Item>)
    ensures r.Got? ==> |r.rest| < |s| && (IsItemTag(tag) ==> TagOf(r.value) == tag)
    ensures r.Failed? ==> ReadErrors(r.code)
  {
    match Tokens(b, tag, s, broken)
    case Failed(code, rest) => Failed(code, rest)
    case Fault(rest) => Fault(rest)
    case Got((name, length), s2) =>
      match NumberOf(b, tag, name, s2)
      case Failed(code, rest) => Failed(code, rest)
      case Fault(rest) => Fault(rest)
      case Got(num, _) =>
        match Value(StrToULL(CStr(length)).value, s2)
        case Failed(code, rest) => Failed(code, rest)
        case Fault(rest) => Fault(rest)
        case Got(value, s3) => Got(MakeItem(tag, CStr(name), num, value), s3)
  }

  /** One turn of the loop in bw2_readFrame: an item, or the end of the frame. */
  function NextItem(b: Build, s: bytes, broken: bool): (r: Step<Option<Item>>)
    ensures r.Got? ==> |r.rest| < |s|
  {
    if |s| < 3 then Failed(ERROR_MALFORMED_FRAME, [])
    else
      var tag := s[..3];
      if tag == END_TAG then
        if |s| == 3 then Failed(ERROR_MALFORMED_FRAME, [])
        else if s[3] != NL then Failed(ERROR_MALFORMED_FRAME, s[4..])
        else Got(None, s[4..])
      else if IsItemTag(tag) then
        match ItemAfter(b, tag, s[3..], broken)
        case Failed(code, rest) => Failed(code, rest)
        case Fault(rest) => Fault(rest)
        case Got(it, rest) => Got(Some(it), rest)
      else Failed(ERROR_MALFORMED_FRAME, s[3..])
  }

  /** The memory a frame is read into. The struct sizes are those of the platform. */
  datatype Heap = Heap(bounded: bool, size: nat, used: nat, kvStruct: nat, poStruct: nat, roStruct: nat) {
    /** The block size, in the arithmetic of a 64-bit size_t. */
    function SizeFor(tag: bytes, keyLen: nat, len: nat): nat {
      (if tag == KV_TAG then kvStruct + (keyLen + 1) + len
       else if tag == PO_TAG then len + poStruct
       else len + roStruct) % TWO_TO_THE_64
    }

    function BlockSize(it: Item): nat {
      SizeFor(TagOf(it), if it.KV? then |it.key| else 0, |it.value|)
    }

    /** The overflow test of the callers and the space test of _bw2_frame_heap_alloc. */
    predicate Room(block: nat, len: nat) {
      block >= len && (bounded ==> used + block <= size)
    }

    predicate Fits(it: Item) {
      Room(BlockSize(it), |it.value|)
    }

    /** Only the frame heap keeps a count; malloc leaves it alone. */
    function Alloc(it: Item): Heap {
      if bounded then this.(used := used + BlockSize(it)) else this
    }
  }

  /** The loop of bw2_readFrame. */
  function ReadItems(b: Build, h: Heap, lists: Lists, s: bytes, broken: bool): Step<Lists>
    decreases |s|
  {
    match NextItem(b, s, broken)
    case Failed(code, rest) => Failed(code, rest)
    case Fault(rest) => Fault(rest)
    case Got(None, rest) => Got(lists, rest)
    case Got(Some(it), rest) =>
      if h.Fits(it) then ReadItems(b, h.Alloc(it), lists.Add(it), rest, broken)
      else if b.reportsFull then ReadItems(b, h, lists, rest, broken)
      else Fault(rest)
  }

  /** The cast of an unsigned value to int32_t. */
  function ToInt32(v: nat): int {
    var w := v % TWO_TO_THE_32;
    if w >= 0x8000_0000 then w - TWO_TO_THE_32 else w
  }

  /** The 27 bytes in front: command and sequence number. The announced length is not used. */
  function Header(s: bytes, broken: bool): Step<(bytes, int)> {
    if |s| < FRAME_HEADER_LENGTH then
      Failed(if broken then ERROR_CONNECTION_LOST else ERROR_MALFORMED_FRAME, [])
    else if s[4] != SP || s[15] != SP || s[26] != NL then
      Failed(ERROR_MALFORMED_FRAME, s[FRAME_HEADER_LENGTH..])
    else
      Got((s[..4], ToInt32(StrToULL(s[16..26]).value)), s[FRAME_HEADER_LENGTH..])
  }

  /** bw2_readFrame on the bytes `s`, after which the connection ends or (`broken`) fails. */
  function ReadFrame(b: Build, h: Heap, s: bytes, broken: bool): Step<Frame> {
    match Header(s, broken)
    case Failed(code, rest) => Failed(code, rest)
    case Fault(rest) => Fault(rest)
    case Got((cmd, seqno), body) =>
      match ReadItems(b, h, NO_ITEMS, body, broken)
      case Failed(code, rest) => Failed(code, rest)
      case Fault(rest) => Fault(rest)
      case Got(lists, rest) => Got(Frame(cmd, seqno, lists), rest)
  }
}
