/** bw2_readFrame and its helpers: the reader loops, the frame heap and the lists they build. */
module Reader {
  import opened Decimal
  import opened Frames
  import opened Codec
  import opened Stream
  import opened ObjectLists

  const ERROR_FRAME_HEAP_FULL := 2
  const ERROR_BAD_ARG := 3

  /** A return code, or the write through a null pointer that comes instead of one. */
  datatype Code = Ok | Err(code: int) | Null

  function CodeOf<T>(r: Step<T>): Code {
    match r
    case Got(_, _) => Ok
    case Failed(code, _) => Err(code)
    case Fault(_) => Null
  }

  lemma {:induction false} CStrOfBuffer(token: bytes, rest: bytes)
    ensures CStr(token + ([0] + rest)) == CStr(token)
  {
    if token != [] && token[0] != 0 {
      assert (token + ([0] + rest))[1..] == token[1..] + ([0] + rest);
      CStrOfBuffer(token[1..], rest);
    }
  }

  /** _bw2_frame_read_token: leaves the token in the buffer as a C string. */
  method ReadToken(b: Build, conn: Conn, buf: array<byte>, delimiter: byte) returns (code: Code)
    modifies conn`input, buf
    ensures buf.Length == 0 ==> code == Err(ERROR_BAD_ARG) && conn.input == old(conn.input)
    ensures buf.Length > 0 ==>
              var r := Token(b, buf.Length - 1, delimiter, old(conn.input), conn.broken);
              && code == CodeOf(r) && conn.input == r.rest
              && (r.Got? ==> CStr(buf[..]) == CStr(r.value))
  {
    if buf.Length == 0 {
      return Err(ERROR_BAD_ARG);
    }
    ghost var s := conn.input;
    var cap := buf.Length - 1;
    var status, n := ReadUntilChar(conn, buf, cap, delimiter);
    buf[n] := 0;
    assert buf[..] == s[..n] + ([0] + buf[n + 1..]);
    CStrOfBuffer(s[..n], buf[n + 1..]);
    if status == Error {
      return Err(-1);
    } else if status == EofReached {
      return Err(ERROR_MALFORMED_FRAME);
    } else if status == ArrayFull {
      FindPast(s, cap, delimiter);
      status := DropUntilChar(b, conn, delimiter);
      if status == NullWrite {
        return Null;
      } else if status == EofReached {
        return Err(ERROR_MALFORMED_FRAME);
      } else if status == Error {
        return Err(-1);
      }
    }
    code := Ok;
  }

  lemma {:induction false} FindPast(s: bytes, n: nat, x: byte)
    requires n <= |s| && Find(s, x) >= n
    ensures Find(s, x) == n + Find(s[n..], x)
  {
    if n > 0 {
      FindPast(s[1..], n - 1, x);
      assert s[1..][n - 1..] == s[n..];
    }
  }

  /** bw2_ponum_from_dot_form: strtoull at a cursor that steps over each field and its dot. */
  method PonumFromDotForm(text: bytes) returns (ponum: Option<nat>)
    ensures ponum == DotForm(text)
  {
    hide StrToULL;
    var numstr := 0;
    var first := StrToULL(text[numstr..]);
    var end := numstr + first.end;
    if first.overflow || first.value > 255 || end == |text| || text[end] != DOT {
      return None;
    }
    numstr := end + 1;
    var second := StrToULL(text[numstr..]);
    end := numstr + second.end;
    if second.overflow || second.value > 255 || end == |text| || text[end] != DOT {
      return None;
    }
    numstr := end + 1;
    var third := StrToULL(text[numstr..]);
    end := numstr + third.end;
    if third.overflow || third.value > 255 || end == |text| || text[end] != DOT {
      return None;
    }
    numstr := end + 1;
    var fourth := StrToULL(text[numstr..]);
    end := numstr + fourth.end;
    if fourth.overflow || fourth.value > 255 || end != |text| {
      return None;
    }
    ponum := Some(first.value * 0x100_0000 + second.value * 0x1_0000 + third.value * 0x100 + fourth.value);
  }

  /** The number in the name of an object, as its reader takes it; headers have none. */
  method ReadNumber(b: Build, tag: bytes, name: bytes) returns (code: Code, num: nat)
    requires CStr(name) == name
    ensures var r := NumberOf(b, tag, name, []); code == CodeOf(r) && (r.Got? ==> num == r.value)
  {
    hide StrToULL, DotForm;
    code, num := Ok, 0;
    if tag == PO_TAG {
      var colon := Find(name, COLON);
      if colon == |name| {
        code := if b.checksColon then Err(ERROR_MALFORMED_FRAME) else Null;
      } else if colon == 0 {
        var n := StrToULL(name[1..]);
        if n.overflow {
          return Err(ERROR_MALFORMED_FRAME), 0;
        }
        num := n.value % TWO_TO_THE_32;
      } else {
        var ponum := PonumFromDotForm(name[..colon]);
        if ponum == None {
          return Err(ERROR_MALFORMED_FRAME), 0;
        }
        num := ponum.value;
      }
    } else if tag == RO_TAG {
      num := StrToULL(name).value % 256;
    }
  }

  /** The frame heap of one read: a caller's buffer, or malloc when there is none. */
  class FrameHeap {
    const mem: array?<byte>
    const kvStruct: nat
    const poStruct: nat
    const roStruct: nat
    var used: nat
    ghost var blocks: set<array<byte>>    // all memory handed out

    ghost predicate Valid()
      reads this
    {
      && kvStruct < TWO_TO_THE_32 && poStruct < TWO_TO_THE_32 && roStruct < TWO_TO_THE_32
      && (mem != null ==> used <= mem.Length)
      && (mem == null ==> used == 0)
      && (mem != null ==> mem in blocks)
    }

    function State(): Heap
      reads this
    {
      Heap(mem != null, if mem == null then 0 else mem.Length, used, kvStruct, poStruct, roStruct)
    }

    constructor (mem: array?<byte>, kvStruct: nat, poStruct: nat, roStruct: nat)
      requires kvStruct < TWO_TO_THE_32 && poStruct < TWO_TO_THE_32 && roStruct < TWO_TO_THE_32
      ensures Valid() && used == 0 && this.mem == mem && blocks == if mem == null then {} else {mem}
      ensures this.kvStruct == kvStruct && this.poStruct == poStruct && this.roStruct == roStruct
    {
      this.mem, used := mem, 0;
      blocks := if mem == null then {} else {mem};
      this.kvStruct, this.poStruct, this.roStruct := kvStruct, poStruct, roStruct;
    }

    /** _bw2_frame_heap_alloc: the next `size` bytes of the buffer if it has them. */
    method Alloc(size: nat) returns (block: array?<byte>, base: nat)
      requires Valid()
      modifies `used, `blocks
      ensures Valid() && blocks == old(blocks) + (if block == null then {} else {block})
      ensures mem == null ==> block != null && fresh(block) && block.Length == size && base == 0 && used == old(used)
      ensures mem != null && old(used) + size <= mem.Length ==>
                block == mem && base == old(used) && used == base + size
      ensures mem != null && old(used) + size > mem.Length ==> block == null && used == old(used)
    {
      base := 0;
      if mem == null {
        block := new byte[size];
        blocks := blocks + {block};
      } else {
        var left := mem.Length - used;
        if left < size {
          block := null;
        } else {
          block, base := mem, used;
          used := used + size;
        }
      }
    }
  }

  /** _bw2_frame_consume_newline */
  method ConsumeNewline(conn: Conn) returns (ok: bool)
    modifies conn`input
    ensures var s := old(conn.input);
            && ok == (s != [] && s[0] == NL)
            && conn.input == if s == [] then [] else s[1..]
  {
    var rv, c := conn.RecvByte();
    ok := rv == 1 && c == NL;
  }

  /** Copies the text of the key, with its terminator, and reads the value into a block. */
  method Fill(conn: Conn, block: array<byte>, ghost base: nat, keyAt: nat, text: bytes, valueAt: nat, len: nat)
    returns (status: Status)
    requires base <= keyAt && keyAt + |text| <= valueAt && valueAt + len <= block.Length
    modifies conn`input, block
    ensures block[..base] == old(block[..base])
    ensures var s := old(conn.input);
            if len <= |s| then
              && status == ArrayFull && conn.input == s[len..]
              && block[keyAt..keyAt + |text|] == text && block[valueAt..valueAt + len] == s[..len]
            else
              status == EndStatus(conn.broken) && conn.input == []
  {
    forall i | 0 <= i < |text| {
      block[keyAt + i] := text[i];
    }
    ghost var was := block[..valueAt];
    assert was[..base] == old(block[..base]) && was[keyAt..keyAt + |text|] == text;
    status := ReadUntilFull(conn, block, valueAt, len);
    assert block[..valueAt] == was;
    assert block[..base] == was[..base] && block[keyAt..keyAt + |text|] == was[keyAt..keyAt + |text|];
  }

  /** Without wrap-around the test against the value length is exact. */
  lemma SizeIsExact(h: Heap, tag: bytes, keyLen: nat, len: nat)
    requires h.kvStruct < TWO_TO_THE_32 && h.poStruct < TWO_TO_THE_32 && h.roStruct < TWO_TO_THE_32
    requires keyLen <= MAX_KEY_LENGTH && len < TWO_TO_THE_64
    ensures h.SizeFor(tag, keyLen, len) >= len ==>
              h.SizeFor(tag, keyLen, len) ==
              (if tag == KV_TAG then h.kvStruct + (keyLen + 1) + len
               else if tag == PO_TAG then len + h.poStruct
               else len + h.roStruct)
  {
  }

  /** The two tokens at the head of an object, as the C strings its reader goes on to parse. */
  method ReadTokens(b: Build, conn: Conn, tag: bytes) returns (code: Code, name: bytes, length: bytes)
    modifies conn`input
    ensures var r := Tokens(b, tag, old(conn.input), conn.broken);
            && code == CodeOf(r) && conn.input == r.rest
            && (r.Got? ==> name == CStr(r.value.0) && length == CStr(r.value.1))
  {
    hide Token, CStr;
    name, length := [], [];
    var nameBuf := new byte[NameCap(tag) + 1];
    code := ReadToken(b, conn, nameBuf, SP);
    if code != Ok {
      return;
    }
    var lengthBuf := new byte[MAX_LENGTH_DIGITS + 1];
    code := ReadToken(b, conn, lengthBuf, NL);
    name, length := CStr(nameBuf[..]), CStr(lengthBuf[..]);
  }

  /** An object whose block is new: next in the frame heap, or its own under malloc. */
  ghost predicate Placed(obj: Object, h: FrameHeap, before: Heap)
    reads obj.mem, h
  {
    && obj.Intact()
    && h.State() == (if before.bounded then before.(used := before.used + obj.size) else before)
    && (h.mem != null ==> obj.mem == h.mem && obj.base == before.used)
  }

  /** Memory for an object of this shape, and where in it the key and the value go. */
  method TakeBlock(h: FrameHeap, tag: bytes, keyLen: nat, len: nat)
    returns (block: array?<byte>, keyAt: nat, valueAt: nat, ghost base: nat)
    requires h.Valid() && keyLen <= MAX_KEY_LENGTH && len < TWO_TO_THE_64
    requires tag == KV_TAG || keyLen == 0
    modifies h`used, h`blocks
    ensures h.Valid() && old(h.used) <= h.used
    ensures h.blocks == old(h.blocks) + (if block == null then {} else {block})
    ensures var before := old(h.State());
            var size := before.SizeFor(tag, keyLen, len);
            if before.Room(size, len) then
              && block != null && base <= keyAt && keyAt + (if tag == KV_TAG then keyLen + 1 else 0) <= valueAt
                 && valueAt + len <= base + size <= block.Length
              && h.State() == (if before.bounded then before.(used := before.used + size) else before)
              && (if before.bounded then block == h.mem && base == before.used else fresh(block))
            else
              block == null && h.State() == before
  {
    var size := h.State().SizeFor(tag, keyLen, len);
    SizeIsExact(h.State(), tag, keyLen, len);
    hide Heap.SizeFor;
    block, base := null, 0;
    var at: nat := 0;
    if size >= len {
      block, at := h.Alloc(size);
    }
    if block == null {
      keyAt, valueAt := 0, 0;
    } else {
      base := at;
      valueAt := at + size - len;
      keyAt := valueAt - (if tag == KV_TAG then keyLen + 1 else 0);
    }
  }

  /** Reads the value of an object into its block, and the newline behind it. */
  method Receive(conn: Conn, block: array<byte>, ghost base: nat, keyAt: nat, text: bytes, valueAt: nat, len: nat)
    returns (ok: bool)
    requires base <= keyAt && keyAt + |text| <= valueAt && valueAt + len <= block.Length
    modifies conn`input, block
    ensures block[..base] == old(block[..base])
    ensures var r := Value(len, old(conn.input));
            && ok == r.Got? && conn.input == r.rest
            && (ok ==> block[keyAt..keyAt + |text|] == text && block[valueAt..valueAt + len] == r.value)
  {
    var status := Fill(conn, block, base, keyAt, text, valueAt, len);
    if status != ArrayFull {
      return false;
    }
    ok := ConsumeNewline(conn);
  }

  /** Drops the value of an object that has no block, and the newline behind it. */
  method Skip(conn: Conn, len: nat) returns (ok: bool)
    modifies conn`input
    ensures var r := Value(len, old(conn.input)); ok == r.Got? && conn.input == r.rest
  {
    var status := DropFullArray(conn, len);
    if status != ArrayFull {
      return false;
    }
    ok := ConsumeNewline(conn);
  }

  /** The key of a header as a C string; other objects have none. */
  function Terminated(tag: bytes, key: bytes): bytes {
    if tag == KV_TAG then key + [0] else []
  }

  /** The object whose key and value are in the block. */
  method Describe(block: array<byte>, ghost base: nat, ghost size: nat, tag: bytes, key: bytes, num: nat,
                  keyAt: nat, valueAt: nat, len: nat, ghost value: bytes) returns (obj: Object)
    requires base <= keyAt && keyAt + |Terminated(tag, key)| <= valueAt && valueAt + len <= base + size <= block.Length
    requires block[keyAt..keyAt + |Terminated(tag, key)|] == Terminated(tag, key)
    requires block[valueAt..valueAt + len] == value && (tag == KV_TAG || key == [])
    ensures fresh(obj) && obj.Intact() && obj.item == MakeItem(tag, key, num, value)
    ensures obj.mem == block && obj.base == base && obj.size == size
  {
    assert block[valueAt..valueAt + len] == block[..][valueAt..valueAt + len];
    if tag == KV_TAG {
      assert block[..][keyAt..keyAt + |key|] == Terminated(tag, key)[..|key|];
      assert block[..][keyAt + |key|] == block[keyAt..keyAt + |key| + 1][|key|];
    }
    obj := new Object(num, block, keyAt, |key|, valueAt, len, MakeItem(tag, key, num, value), base, size);
  }

  /** Takes memory for the object, fills it and consumes the newline; without memory, drops
      the value instead. */
  method ReadBody(b: Build, conn: Conn, h: FrameHeap, tag: bytes, key: bytes, num: nat, len: nat)
      returns (code: Code, obj: Object?)
    requires h.Valid() && |key| <= MAX_KEY_LENGTH && len < TWO_TO_THE_64
    requires tag == KV_TAG || key == []
    modifies conn`input, h`used, h`blocks, h.mem
    ensures h.Valid() && old(h.blocks) <= h.blocks && fresh(h.blocks - old(h.blocks))
    ensures h.mem != null ==> old(h.used) <= h.used && h.mem[..old(h.used)] == old(h.mem[..h.used])
    ensures var r := Value(len, old(conn.input));
            var before := old(h.State());
            var size := before.SizeFor(tag, |key|, len);
            && conn.input == r.rest
            && (!r.Got? ==> code == CodeOf(r))
            && (r.Got? && before.Room(size, len) ==>
                  && code == Ok && obj != null && fresh(obj) && Placed(obj, h, before)
                  && obj.item == MakeItem(tag, key, num, r.value) && obj.size == size
                  && (h.mem == null ==> fresh(obj.mem)) && h.blocks == old(h.blocks) + {obj.mem})
            && (r.Got? && !before.Room(size, len) ==>
                  obj == null && h.State() == before && h.blocks == old(h.blocks)
                  && code == if b.reportsFull then Err(ERROR_FRAME_HEAP_FULL) else Ok)
  {
    hide Heap.SizeFor, Value, Object.Intact, MakeItem;
    ValueFailsMalformed(len, conn.input);
    ghost var value := Value(len, conn.input);
    ghost var size := h.State().SizeFor(tag, |key|, len);
    obj := null;
    var block, keyAt, valueAt;
    ghost var base;
    block, keyAt, valueAt, base := TakeBlock(h, tag, |key|, len);
    ghost var blocks, state := h.blocks, h.State();
    if block == null {
      var ok := Skip(conn, len);
      code := if !ok then Err(ERROR_MALFORMED_FRAME) else if b.reportsFull then Err(ERROR_FRAME_HEAP_FULL) else Ok;
    } else {
      var ok := Receive(conn, block, base, keyAt, Terminated(tag, key), valueAt, len);
      if !ok {
        return Err(ERROR_MALFORMED_FRAME), null;
      }
      assert h.blocks == blocks && h.State() == state;
      obj := Describe(block, base, size, tag, key, num, keyAt, valueAt, len, value.value);
      code := Ok;
    }
  }

  lemma ValueFailsMalformed(len: nat, s: bytes)
    ensures var r := Value(len, s); !r.Got? ==> CodeOf(r) == Err(ERROR_MALFORMED_FRAME)
  {
  }

  lemma {:induction false} NumberOfCString(b: Build, tag: bytes, name: bytes, rest: bytes)
    ensures CStr(CStr(name)) == CStr(name)
    ensures var r, r' := NumberOf(b, tag, CStr(name), []), NumberOf(b, tag, name, rest);
            && CodeOf(r) == CodeOf(r')
            && (r.Got? ==> r'.Got? && r.value == r'.value)
  {
    hide StrToULL, DotForm, Find;
    CStrOfText(CStr(name));
  }

  /** _bw2_frame_read_KV, _bw2_frame_read_PO and _bw2_frame_read_RO. */
  method ReadObject(b: Build, conn: Conn, h: FrameHeap, tag: bytes) returns (code: Code, obj: Object?)
    requires h.Valid() && IsItemTag(tag)
    modifies conn`input, h`used, h`blocks, h.mem
    ensures h.Valid() && old(h.blocks) <= h.blocks && fresh(h.blocks - old(h.blocks))
    ensures h.mem != null ==> old(h.used) <= h.used && h.mem[..old(h.used)] == old(h.mem[..h.used])
    ensures var r := ItemAfter(b, tag, old(conn.input), conn.broken);
            && conn.input == r.rest
            && (!r.Got? ==> code == CodeOf(r))
            && (r.Got? && old(h.State()).Fits(r.value) ==>
                  && code == Ok && obj != null && fresh(obj) && Placed(obj, h, old(h.State()))
                  && h.State() == old(h.State()).Alloc(r.value)
                  && obj.item == r.value
                  && (h.mem == null ==> fresh(obj.mem)) && h.blocks == old(h.blocks) + {obj.mem})
            && (r.Got? && !old(h.State()).Fits(r.value) ==>
                  obj == null && h.State() == old(h.State()) && h.blocks == old(h.blocks)
                  && code == if b.reportsFull then Err(ERROR_FRAME_HEAP_FULL) else Ok)
  {
    hide Tokens, NumberOf, StrToULL, Heap.SizeFor, CStr;
    obj := null;
    var name, length;
    ghost var tokens := Tokens(b, tag, conn.input, conn.broken);
    code, name, length := ReadTokens(b, conn, tag);
    if code != Ok {
      return;
    }
    NumberOfCString(b, tag, tokens.value.0, conn.input);
    var num;
    code, num := ReadNumber(b, tag, name);
    if code != Ok {
      return;
    }
    var key := if tag == KV_TAG then name else [];
    code, obj := ReadBody(b, conn, h, tag, key, num, StrToULL(length).value);
  }
}
