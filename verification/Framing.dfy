/** Framing: what reading consumes never depends on the heap, on later bytes or on how many
    frames share the stream. */
module Framing {
  import opened Decimal
  import opened Frames
  import opened Codec
  import opened Arrays
  import opened RoundTrip

  // ---------- the heap never decides what is consumed ----------

  /** The items up to the end of the frame, in arrival order, with memory for all of them. */
  function Scan(b: Build, s: bytes, broken: bool): Step<seq<Item>>
    decreases |s|
  {
    match NextItem(b, s, broken)
    case Failed(code, rest) => Failed(code, rest)
    case Fault(rest) => Fault(rest)
    case Got(None, rest) => Got([], rest)
    case Got(Some(it), rest) =>
      match Scan(b, rest, broken)
      case Failed(code, rest') => Failed(code, rest')
      case Fault(rest') => Fault(rest')
      case Got(its, rest') => Got([it] + its, rest')
  }

  /** First fit: each item that fits in what the kept ones before it have left. */
  function FirstFit(h: Heap, its: seq<Item>): seq<Item>
    decreases its
  {
    if its == [] then []
    else if h.Fits(its[0]) then [its[0]] + FirstFit(h.Alloc(its[0]), its[1..])
    else FirstFit(h, its[1..])
  }

  function HeapAfter(h: Heap, its: seq<Item>): Heap
    decreases its
  {
    if its == [] then h
    else HeapAfter(if h.Fits(its[0]) then h.Alloc(its[0]) else h, its[1..])
  }

  function TotalSize(h: Heap, its: seq<Item>): nat {
    if its == [] then 0 else h.BlockSize(its[0]) + TotalSize(h, its[1..])
  }

  /** The choice at any point depends only on the space the items before it took. */
  lemma {:induction false} FirstFitConcat(h: Heap, a: seq<Item>, c: seq<Item>)
    ensures FirstFit(h, a + c) == FirstFit(h, a) + FirstFit(HeapAfter(h, a), c)
    decreases a
  {
    if a == [] {
      assert a + c == c;
    } else {
      assert (a + c)[1..] == a[1..] + c;
      FirstFitConcat(if h.Fits(a[0]) then h.Alloc(a[0]) else h, a[1..], c);
    }
  }

  /** The kept items account for the used space, which stays inside the heap. */
  lemma {:induction false} HeapStaysBounded(h: Heap, its: seq<Item>)
    requires h.bounded && h.used <= h.size
    ensures HeapAfter(h, its).used == h.used + TotalSize(h, FirstFit(h, its)) <= h.size
    decreases its
  {
    if its != [] {
      var h' := if h.Fits(its[0]) then h.Alloc(its[0]) else h;
      HeapStaysBounded(h', its[1..]);
      SameSizes(h, h', FirstFit(h', its[1..]));
      if h.Fits(its[0]) {
        assert FirstFit(h, its)[0] == its[0] && FirstFit(h, its)[1..] == FirstFit(h', its[1..]);
      }
    }
  }

  lemma {:induction false} SameSizes(h: Heap, h': Heap, its: seq<Item>)
    requires h' == h.(used := h'.used)
    ensures TotalSize(h, its) == TotalSize(h', its)
  {
    if its != [] {
      SameSizes(h, h', its[1..]);
    }
  }

  /** Everything is kept exactly when the block sizes add up to no more than the space left. */
  lemma {:induction false} AllFitBySum(h: Heap, its: seq<Item>)
    requires h.bounded && h.used <= h.size
    requires forall i :: 0 <= i < |its| ==> h.BlockSize(its[i]) >= |its[i].value|
    ensures RoomForAll(h, its) <==> h.used + TotalSize(h, its) <= h.size
    ensures RoomForAll(h, its) <==> FirstFit(h, its) == its
    decreases its
  {
    if its != [] {
      var h' := h.Alloc(its[0]);
      if h.Fits(its[0]) {
        forall i | 0 <= i < |its[1..]| ensures h'.BlockSize(its[1..][i]) >= |its[1..][i].value| {
          assert its[1..][i] == its[i + 1] && h'.BlockSize(its[i + 1]) == h.BlockSize(its[i + 1]);
        }
        AllFitBySum(h', its[1..]);
        SameSizes(h, h', its[1..]);
        assert its == [its[0]] + its[1..];
      } else {
        FirstFitIsShorter(h, its[1..]);
      }
    }
  }

  lemma {:induction false} FirstFitIsShorter(h: Heap, its: seq<Item>)
    ensures |FirstFit(h, its)| <= |its|
    decreases its
  {
    if its != [] {
      FirstFitIsShorter(if h.Fits(its[0]) then h.Alloc(its[0]) else h, its[1..]);
    }
  }

  /** With malloc, and struct sizes of any real platform, every item in bounds gets memory. */
  lemma {:induction false} MallocFitsAll(h: Heap, its: seq<Item>)
    requires !h.bounded && h.kvStruct < TWO_TO_THE_32 && h.poStruct < TWO_TO_THE_32 && h.roStruct < TWO_TO_THE_32
    requires ItemsOk(its)
    ensures RoomForAll(h, its)
    decreases its
  {
    if its != [] {
      PowersOfTen();
      MallocFitsAll(h.Alloc(its[0]), its[1..]);
    }
  }

  /** What the reader makes of a scan when the heap-full status reaches it, and when it does
      not: then it survives exactly if nothing had to be dropped. */
  lemma {:induction false} ReadItemsByScan(b: Build, h: Heap, lists: Lists, s: bytes, broken: bool)
    ensures var r := ReadItems(b, h, lists, s, broken);
            match Scan(b, s, broken)
            case Failed(code, rest) => (b.reportsFull ==> r == Step<Lists>.Failed(code, rest)) && !r.Got?
            case Fault(rest) => (b.reportsFull ==> r == Step<Lists>.Fault(rest)) && r.Fault?
            case Got(its, rest) =>
              if b.reportsFull || RoomForAll(h, its) then r == Got(AddAll(lists, FirstFit(h, its)), rest)
              else r.Fault?
    decreases |s|
  {
    match NextItem(b, s, broken)
    case Got(Some(it), rest) =>
      if h.Fits(it) {
        ReadItemsByScan(b, h.Alloc(it), lists.Add(it), rest, broken);
      } else {
        ReadItemsByScan(b, h, lists, rest, broken);
      }
      match Scan(b, rest, broken) {
        case Got(its, _) =>
          var all := [it] + its;
          assert all[0] == it && all[1..] == its;
        case _ =>
      }
    case _ =>
  }

  /** A bounded heap reads greedily and keeps the framing: same outcome and same bytes consumed
      as with memory for everything, and first fit decides what is kept. As written, a frame
      is read exactly when all of it fits. */
  lemma {:induction false} HeapBoundedReading(b: Build, h: Heap, s: bytes, broken: bool)
    ensures var r := ReadFrame(b, h, s, broken);
            match Header(s, broken)
            case Got((cmd, seqno), body) =>
              var all := Scan(b, body, broken);
              && (r.Got? <==> all.Got? && (b.reportsFull || RoomForAll(h, all.value)))
              && (r.Got? ==> r == Got(Frame(cmd, seqno, AddAll(NO_ITEMS, FirstFit(h, all.value))), all.rest))
              && (b.reportsFull && all.Failed? ==> r == Step<Frame>.Failed(all.code, all.rest))
            case Failed(code, rest) => r == Step<Frame>.Failed(code, rest)
            case Fault(_) => false
  {
    if |s| >= FRAME_HEADER_LENGTH {
      ReadItemsByScan(b, h, NO_ITEMS, s[FRAME_HEADER_LENGTH..], broken);
    }
  }

  // ---------- what a failed read reports ----------

  /** A stream that ends inside the header is a malformed frame, and a broken one there a lost
      connection. */
  lemma ShortHeader(b: Build, h: Heap, s: bytes, broken: bool)
    requires |s| < 27
    ensures ReadFrame(b, h, s, broken) == Failed(if broken then ERROR_CONNECTION_LOST else ERROR_MALFORMED_FRAME, [])
  {
  }

  /** A stream that ends inside a token is a malformed frame, and a broken one there the -1 of
      the socket. */
  lemma ShortToken(b: Build, cap: nat, delimiter: byte, s: bytes, broken: bool)
    requires delimiter !in s && (|s| <= cap || b.guardsCount)
    ensures Token(b, cap, delimiter, s, broken) == Failed(if broken then -1 else ERROR_MALFORMED_FRAME, [])
  {
  }

  lemma {:induction false} ItemCodes(b: Build, h: Heap, lists: Lists, s: bytes, broken: bool)
    ensures var r := ReadItems(b, h, lists, s, broken);
      r.Failed? ==> r.code == ERROR_MALFORMED_FRAME || (broken && r.code == -1)
    decreases |s|
  {
    TurnCodes(b, s, broken);
    hide NextItem;
    match NextItem(b, s, broken)
    case Got(Some(it), rest) =>
      if h.Fits(it) {
        ItemCodes(b, h.Alloc(it), lists.Add(it), rest, broken);
      } else {
        ItemCodes(b, h, lists, rest, broken);
      }
    case _ =>
  }

  lemma TurnCodes(b: Build, s: bytes, broken: bool)
    ensures var r := NextItem(b, s, broken);
      r.Failed? ==> r.code == ERROR_MALFORMED_FRAME || (broken && r.code == -1)
  {
    hide CStr, StrToULL, PONumber;
    if |s| >= 3 && IsItemTag(s[..3]) {
      var name := Token(b, NameCap(s[..3]), SP, s[3..], broken);
      if name.Got? {
        NumberCodes(b, s[..3], name.value, []);
      }
    }
  }

  lemma NumberCodes(b: Build, tag: bytes, name: bytes, rest: bytes)
    ensures forall rest' :: var r := NumberOf(b, tag, name, rest'); r.Failed? ==> r.code == ERROR_MALFORMED_FRAME
  {
    hide CStr, StrToULL, DotForm, Find;
  }

  /** A failed read reports a lost connection exactly if the connection broke inside the header,
      -1 only if it broke behind it, and a malformed frame in all other cases. */
  lemma {:induction false} FailureCodes(b: Build, h: Heap, s: bytes, broken: bool)
    requires ReadFrame(b, h, s, broken).Failed?
    ensures var code := ReadFrame(b, h, s, broken).code;
      && (code == ERROR_CONNECTION_LOST <==> broken && |s| < 27)
      && (code == -1 ==> broken && |s| >= 27)
      && (code == ERROR_CONNECTION_LOST || code == -1 || code == ERROR_MALFORMED_FRAME)
  {
    hide ReadItems, StrToULL;
    var header := Header(s, broken);
    if header.Got? {
      ItemCodes(b, h, NO_ITEMS, header.rest, broken);
    }
  }

  // ---------- what can be received ----------

  lemma AddKeepsSorted(lists: Lists, it: Item)
    requires lists.Sorted()
    ensures lists.Add(it).Sorted()
  {
  }

  lemma {:induction false} ReadItemsSorted(b: Build, h: Heap, lists: Lists, s: bytes, broken: bool)
    requires lists.Sorted()
    ensures var r := ReadItems(b, h, lists, s, broken); r.Got? ==> r.value.Sorted()
    decreases |s|
  {
    hide NextItem, Heap.Fits, Heap.Alloc, Lists.Sorted, Lists.Add;
    match NextItem(b, s, broken)
    case Got(Some(it), rest) =>
      AddKeepsSorted(lists, it);
      if h.Fits(it) {
        ReadItemsSorted(b, h.Alloc(it), lists.Add(it), rest, broken);
      } else {
        ReadItemsSorted(b, h, lists, rest, broken);
      }
    case _ =>
  }

  /** Whatever bytes arrive, a frame that is read has a command of four bytes, a 32-bit number,
      and each list holds its own kind. */
  lemma {:induction false} OnlySuchAreReceived(b: Build, h: Heap, s: bytes, broken: bool)
    ensures var r := ReadFrame(b, h, s, broken); r.Got? ==> r.value.Received()
  {
    hide StrToULL, ReadItems;
    var header := Header(s, broken);
    if header.Got? {
      ReadItemsSorted(b, h, NO_ITEMS, header.rest, broken);
    }
  }

  // ---------- later bytes never matter ----------

  lemma {:induction false} FindExtends(s: bytes, t: bytes, x: byte)
    ensures Find(s, x) < |s| ==> Find(s + t, x) == Find(s, x)
  {
    if s != [] && s[0] != x {
      assert (s + t)[1..] == s[1..] + t;
      FindExtends(s[1..], t, x);
    }
  }

  lemma TokenExtends(b: Build, cap: nat, d: byte, s: bytes, t: bytes, broken: bool, broken': bool)
    ensures var r := Token(b, cap, d, s, broken);
            r.Got? ==> Token(b, cap, d, s + t, broken') == Got(r.value, r.rest + t)
  {
    FindExtends(s, t, d);
    var k := Find(s, d);
    if k < |s| {
      assert (s + t)[..k] == s[..k] && (s + t)[k + 1..] == s[k + 1..] + t;
      assert |s| > cap ==> (s + t)[..cap] == s[..cap];
    }
  }

  lemma TokensExtend(b: Build, tag: bytes, s: bytes, t: bytes, broken: bool, broken': bool)
    ensures var r := Tokens(b, tag, s, broken);
            r.Got? ==> Tokens(b, tag, s + t, broken') == Got(r.value, r.rest + t)
  {
    TokenExtends(b, NameCap(tag), SP, s, t, broken, broken');
    var name := Token(b, NameCap(tag), SP, s, broken);
    if name.Got? {
      TokenExtends(b, MAX_LENGTH_DIGITS, NL, name.rest, t, broken, broken');
    }
  }

  lemma NumberExtends(b: Build, tag: bytes, name: bytes, s: bytes, s': bytes)
    ensures var r := NumberOf(b, tag, name, s);
            r.Got? ==> NumberOf(b, tag, name, s') == Got(r.value, s')
  {
  }

  lemma ValueExtends(len: nat, s: bytes, t: bytes)
    ensures var r := Value(len, s); r.Got? ==> Value(len, s + t) == Got(r.value, r.rest + t)
  {
    if |s| > len {
      assert (s + t)[..len] == s[..len] && (s + t)[len + 1..] == s[len + 1..] + t;
    }
  }

  lemma ItemAfterExtends(b: Build, tag: bytes, s: bytes, t: bytes, broken: bool, broken': bool)
    ensures var r := ItemAfter(b, tag, s, broken);
            r.Got? ==> ItemAfter(b, tag, s + t, broken') == Got(r.value, r.rest + t)
  {
    TokensExtend(b, tag, s, t, broken, broken');
    var tokens := Tokens(b, tag, s, broken);
    if tokens.Got? {
      NumberExtends(b, tag, tokens.value.0, tokens.rest, tokens.rest + t);
      ValueExtends(StrToULL(CStr(tokens.value.1)).value, tokens.rest, t);
    }
  }

  lemma {:induction false} NextItemExtends(b: Build, s: bytes, t: bytes, broken: bool, broken': bool)
    ensures var r := NextItem(b, s, broken);
            r.Got? ==> NextItem(b, s + t, broken') == Got(r.value, r.rest + t)
  {
    hide ItemAfter;
    if |s| >= 3 {
      assert (s + t)[..3] == s[..3] && (s + t)[3..] == s[3..] + t;
      ItemAfterExtends(b, s[..3], s[3..], t, broken, broken');
      assert |s| >= 4 ==> (s + t)[4..] == s[4..] + t;
    }
  }

  lemma {:induction false} ReadItemsExtends(b: Build, h: Heap, lists: Lists, s: bytes, t: bytes, broken: bool,
    broken': bool)
    ensures var r := ReadItems(b, h, lists, s, broken);
            r.Got? ==> ReadItems(b, h, lists, s + t, broken') == Got(r.value, r.rest + t)
    decreases |s|
  {
    NextItemExtends(b, s, t, broken, broken');
    match NextItem(b, s, broken)
    case Got(Some(it), rest) =>
      if h.Fits(it) {
        ReadItemsExtends(b, h.Alloc(it), lists.Add(it), rest, t, broken, broken');
      } else {
        ReadItemsExtends(b, h, lists, rest, t, broken, broken');
      }
    case _ =>
  }

  /** The format is self-delimiting: a frame that was read is the same frame whatever follows,
      and whatever follows is left in the stream. */
  lemma {:induction false} ReadFrameExtends(b: Build, h: Heap, s: bytes, t: bytes, broken: bool, broken': bool)
    requires ReadFrame(b, h, s, broken).Got?
    ensures var r := ReadFrame(b, h, s, broken);
            ReadFrame(b, h, s + t, broken') == Got(r.value, r.rest + t)
  {
    hide ReadItems, StrToULL;
    ReadItemsExtends(b, h, NO_ITEMS, s[FRAME_HEADER_LENGTH..], t, broken, broken');
    assert (s + t)[FRAME_HEADER_LENGTH..] == s[FRAME_HEADER_LENGTH..] + t;
    assert (s + t)[..4] == s[..4] && (s + t)[16..26] == s[16..26];
  }

  lemma {:induction false} ProperPrefixIsNoFrame(b: Build, h: Heap, p: bytes, t: bytes, f: Frame, broken: bool)
    requires ReadFrame(b, h, p + t, broken) == Got(f, []) && t != []
    ensures !ReadFrame(b, h, p, broken).Got?
  {
    var r := ReadFrame(b, h, p, broken);
    if r.Got? {
      assert r.rest + t != [] by {
        assert |r.rest + t| > 0;
      }
      ReadFrameExtends(b, h, p, t, broken, broken);
    }
  }

  /** No proper prefix of an encoded frame reads as a frame. */
  lemma PartialFrameIsNoFrame(b: Build, h: Heap, f: Frame, n: nat, broken: bool)
    requires Readable(b, h, f) && n < |Encode(f)|
    ensures !ReadFrame(b, h, Encode(f)[..n], broken).Got?
  {
    hide ReadFrame, Encode;
    var e := Encode(f);
    assert ReadFrame(b, h, e, broken) == Got(f, []) by {
      FrameRoundTrip(b, h, f, [], broken);
      assert e + [] == e;
    }
    assert e[..n] + e[n..] == e;
    ProperPrefixIsNoFrame(b, h, e[..n], e[n..], f, broken);
  }

  // ---------- many frames on one stream ----------

  /** The frames a reader takes from a stream before the first read that fails. */
  function ReadAll(b: Build, h: Heap, s: bytes, broken: bool): seq<Frame>
    decreases |s|
  {
    match ReadFrame(b, h, s, broken)
    case Got(f, rest) =>
      ReadFrameProgress(b, h, s, broken);
      [f] + ReadAll(b, h, rest, broken)
    case _ => []
  }

  lemma {:induction false} ReadItemsProgress(b: Build, h: Heap, lists: Lists, s: bytes, broken: bool)
    ensures var r := ReadItems(b, h, lists, s, broken); r.Got? ==> |r.rest| < |s|
    decreases |s|
  {
    match NextItem(b, s, broken)
    case Got(Some(it), rest) =>
      if h.Fits(it) {
        ReadItemsProgress(b, h.Alloc(it), lists.Add(it), rest, broken);
      } else {
        ReadItemsProgress(b, h, lists, rest, broken);
      }
    case _ =>
  }

  lemma ReadFrameProgress(b: Build, h: Heap, s: bytes, broken: bool)
    ensures var r := ReadFrame(b, h, s, broken); r.Got? ==> |r.rest| < |s|
  {
    if |s| >= FRAME_HEADER_LENGTH {
      ReadItemsProgress(b, h, NO_ITEMS, s[FRAME_HEADER_LENGTH..], broken);
    }
  }

  predicate Readable(b: Build, h: Heap, f: Frame) {
    FrameOk(f) && RoomForAll(h, f.lists.InWriteOrder()) && (b.guardsCount || AllShort(f.lists.InWriteOrder()))
  }

  lemma ReadAllStep(b: Build, h: Heap, s: bytes, f: Frame, rest: bytes, broken: bool)
    requires ReadFrame(b, h, s, broken) == Got(f, rest)
    ensures ReadAll(b, h, s, broken) == [f] + ReadAll(b, h, rest, broken)
  {
    ReadFrameProgress(b, h, s, broken);
  }

  /** The bytes `e` read as the frame `f`, whatever follows them. */
  ghost predicate ReadsAs(b: Build, h: Heap, e: bytes, f: Frame, broken: bool) {
    forall rest :: ReadAll(b, h, e + rest, broken) == [f] + ReadAll(b, h, rest, broken)
  }

  lemma {:induction false} ReadableFrameReads(b: Build, h: Heap, f: Frame, broken: bool)
    requires Readable(b, h, f)
    ensures ReadsAs(b, h, Encode(f), f, broken)
  {
    forall rest ensures ReadAll(b, h, Encode(f) + rest, broken) == [f] + ReadAll(b, h, rest, broken) {
      FrameRoundTrip(b, h, f, rest, broken);
      ReadAllStep(b, h, Encode(f) + rest, f, rest, broken);
    }
  }

  lemma {:induction false} WholeFramesFirst(b: Build, h: Heap, es: seq<bytes>, fs: seq<Frame>, rest: bytes,
    broken: bool)
    requires |es| == |fs| && forall i :: 0 <= i < |fs| ==> ReadsAs(b, h, es[i], fs[i], broken)
    ensures ReadAll(b, h, Concat(es) + rest, broken) == fs + ReadAll(b, h, rest, broken)
    decreases |fs|
  {
    hide ReadFrame;
    if fs == [] {
      assert Concat(es) + rest == rest;
    } else {
      var tail := Concat(es[1..]) + rest;
      assert Concat(es) + rest == es[0] + tail;
      assert ReadsAs(b, h, es[0], fs[0], broken);
      WholeFramesFirst(b, h, es[1..], fs[1..], rest, broken);
      assert fs == [fs[0]] + fs[1..];
    }
  }

  /** A stream of whole frames followed by a proper part of one more reads as exactly the
      whole frames. */
  lemma {:induction false} StreamRoundTrip(b: Build, h: Heap, es: seq<bytes>, fs: seq<Frame>, last: Frame,
                                           n: nat, broken: bool)
    requires |es| == |fs| && forall i :: 0 <= i < |fs| ==> Readable(b, h, fs[i]) && es[i] == Encode(fs[i])
    requires Readable(b, h, last) && n < |Encode(last)|
    ensures ReadAll(b, h, Concat(es) + Encode(last)[..n], broken) == fs
  {
    forall i | 0 <= i < |fs| ensures ReadsAs(b, h, es[i], fs[i], broken) {
      ReadableFrameReads(b, h, fs[i], broken);
    }
    WholeFramesFirst(b, h, es, fs, Encode(last)[..n], broken);
    PartialFrameIsNoFrame(b, h, last, n, broken);
  }
}
