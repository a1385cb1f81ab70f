/** What the writer emits is what the reader reads, for every frame and every stream behind it. */
module RoundTrip {
  import opened Decimal
  import opened Frames
  import opened Codec

  /** The bounds of the format: tokens fit their buffers and lengths fit ten digits. */
  predicate ItemOk(it: Item) {
    && |it.value| < Pow10(MAX_LENGTH_DIGITS)
    && match it
       case KV(key, _) => |key| <= MAX_KEY_LENGTH && SP !in key && 0 !in key
       case PO(num, _) => num < TWO_TO_THE_32
       case RO(num, _) => num < 256
  }

  predicate ItemsOk(its: seq<Item>) {
    forall i :: 0 <= i < |its| ==> ItemOk(its[i])
  }

  predicate FrameOk(f: Frame) {
    && |f.cmd| == 4
    && 0 <= f.seqno < 0x8000_0000
    && f.lists.Sorted()
    && ItemsOk(f.lists.InWriteOrder())
  }

  /** Both tokens leave a byte of their buffer unused: a key of at most 30 bytes, a routing
      object number below 100, a value shorter than 10^9 bytes. */
  predicate Short(it: Item) {
    && |it.value| < Pow10(MAX_LENGTH_DIGITS - 1)
    && match it
       case KV(key, _) => |key| < MAX_KEY_LENGTH
       case PO(_, _) => true
       case RO(num, _) => num < 100
  }

  predicate AllShort(its: seq<Item>) {
    forall i :: 0 <= i < |its| ==> Short(its[i])
  }

  function AddAll(lists: Lists, its: seq<Item>): Lists
    decreases its
  {
    if its == [] then lists else AddAll(lists.Add(its[0]), its[1..])
  }

  predicate RoomForAll(h: Heap, its: seq<Item>)
    decreases its
  {
    its == [] || (h.Fits(its[0]) && RoomForAll(h.Alloc(its[0]), its[1..]))
  }

  // ---------- tokens ----------

  lemma {:induction false} FindDelimiter(t: bytes, d: byte, s: bytes)
    requires d !in t
    ensures Find(t + ([d] + s), d) == |t|
  {
    if t != [] {
      assert (t + ([d] + s))[1..] == t[1..] + ([d] + s);
      FindDelimiter(t[1..], d, s);
    }
  }

  /** A token of at most `cap` bytes comes back whole; one that fills the buffer comes back
      only where the count is guarded. */
  lemma TokenRoundTrip(b: Build, cap: nat, t: bytes, d: byte, s: bytes, broken: bool)
    requires d !in t && |t| <= cap
    ensures var r := Token(b, cap, d, t + ([d] + s), broken);
            if |t| < cap || b.guardsCount then r == Got(t, s) else r.Fault?
  {
    var line := t + ([d] + s);
    FindDelimiter(t, d, s);
    assert line[..|t|] == t && line[|t| + 1..] == s;
  }

  lemma DigitsAreText(n: nat)
    ensures SP !in Digits(n) && NL !in Digits(n) && COLON !in Digits(n) && 0 !in Digits(n)
    ensures CStr(Digits(n)) == Digits(n)
    ensures n < TWO_TO_THE_64 ==> StrToULL(Digits(n)) == Number(n, |Digits(n)|, false)
  {
    CStrOfText(Digits(n));
    if n < TWO_TO_THE_64 {
      StrToULLOfDigits(n, []);
      assert Digits(n) + [] == Digits(n);
    }
  }

  lemma PowersOfTen()
    ensures Pow10(2) == 100 && Pow10(3) == 1000
    ensures Pow10(9) == 1_000_000_000 && Pow10(10) == 10_000_000_000
  {
    assert Pow10(5) == 100_000;
  }

  lemma NameFits(it: Item)
    requires ItemOk(it)
    ensures SP !in NameOf(it) && CStr(NameOf(it)) == NameOf(it)
    ensures |NameOf(it)| <= NameCap(TagOf(it)) && |Digits(|it.value|)| <= MAX_LENGTH_DIGITS
    ensures |HeaderText(it)| < MAX_LOCAL_HEADER_LENGTH
    ensures Short(it) <==> |NameOf(it)| < NameCap(TagOf(it)) && |Digits(|it.value|)| < MAX_LENGTH_DIGITS
  {
    PowersOfTen();
    DigitsAtMost(|it.value|, 10);
    DigitsAtMost(|it.value|, 9);
    match it
    case KV(key, _) =>
      CStrOfText(key);
    case PO(num, _) =>
      DigitsAreText(num);
      DigitsAtMost(num, 10);
      CStrOfText(NameOf(it));
    case RO(num, _) =>
      DigitsAreText(num);
      DigitsAtMost(num, 3);
      DigitsAtMost(num, 2);
  }

  lemma PONumberRoundTrip(b: Build, num: nat, rest: bytes)
    requires num < TWO_TO_THE_32
    ensures PONumber(b, [COLON] + Digits(num), rest) == Got(num, rest)
  {
    DigitsAreText(num);
    hide StrToULL, Digits;
    var text := [COLON] + Digits(num);
    CStrOfText(text);
    assert text[1..] == Digits(num);
  }

  // ---------- items ----------

  lemma Regroup(a: bytes, b: bytes, c: bytes, d: bytes, e: bytes, f: bytes, g: bytes, s: bytes)
    ensures ((a + (b + (c + (d + e)))) + (f + g)) + s == a + (b + (c + (d + (e + (f + (g + s))))))
  {
    var tail := f + (g + s);
    assert ((a + (b + (c + (d + e)))) + (f + g)) + s == (a + (b + (c + (d + e)))) + tail;
    assert (a + (b + (c + (d + e)))) + tail == a + ((b + (c + (d + e))) + tail);
    assert (b + (c + (d + e))) + tail == b + ((c + (d + e)) + tail);
    assert (c + (d + e)) + tail == c + (d + (e + tail));
  }

  lemma ItemUnfolds(it: Item, s: bytes)
    requires ItemOk(it)
    ensures EncodeItem(it) + s ==
            TagOf(it) + (NameOf(it) + ([SP] + (Digits(|it.value|) + ([NL] + (it.value + ([NL] + s))))))
  {
    NameFits(it);
    hide NameOf, TagOf, Digits;
    Regroup(TagOf(it), NameOf(it), [SP], Digits(|it.value|), [NL], it.value, [NL], s);
  }

  lemma TokensRoundTrip(b: Build, it: Item, s: bytes, broken: bool)
    requires ItemOk(it)
    ensures var line := NameOf(it) + ([SP] + (Digits(|it.value|) + ([NL] + s)));
            var r := Tokens(b, TagOf(it), line, broken);
            if b.guardsCount || Short(it) then r == Got((NameOf(it), Digits(|it.value|)), s) else r.Fault?
  {
    NameFits(it);
    DigitsAreText(|it.value|);
    TokenRoundTrip(b, NameCap(TagOf(it)), NameOf(it), SP, Digits(|it.value|) + ([NL] + s), broken);
    TokenRoundTrip(b, MAX_LENGTH_DIGITS, Digits(|it.value|), NL, s, broken);
  }

  lemma NumberRoundTrip(b: Build, it: Item, rest: bytes)
    requires ItemOk(it)
    ensures var r := NumberOf(b, TagOf(it), NameOf(it), rest);
            r.Got? && MakeItem(TagOf(it), CStr(NameOf(it)), r.value, it.value) == it
  {
    hide StrToULL, Digits, PONumber;
    NameFits(it);
    match it
    case KV(_, _) =>
    case PO(num, _) => PONumberRoundTrip(b, num, rest);
    case RO(num, _) => DigitsAreText(num);
  }

  lemma ItemAfterRoundTrip(b: Build, it: Item, s: bytes, broken: bool)
    requires ItemOk(it)
    ensures var line := NameOf(it) + ([SP] + (Digits(|it.value|) + ([NL] + (it.value + ([NL] + s)))));
            var r := ItemAfter(b, TagOf(it), line, broken);
            if b.guardsCount || Short(it) then r == Got(it, s) else r.Fault?
  {
    hide StrToULL, Digits, Tokens, NumberOf, Value, NameOf, TagOf, MakeItem, CStr;
    var s2 := it.value + ([NL] + s);
    TokensRoundTrip(b, it, s2, broken);
    NumberRoundTrip(b, it, s2);
    PowersOfTen();
    DigitsAreText(|it.value|);
    ValueRoundTrip(it.value, s);
  }

  lemma ValueRoundTrip(value: bytes, s: bytes)
    ensures Value(|value|, value + ([NL] + s)) == Got(value, s)
  {
    var s2 := value + ([NL] + s);
    assert s2[..|value|] == value && s2[|value| + 1..] == s;
  }

  lemma NextItemRoundTrip(b: Build, it: Item, s: bytes, broken: bool)
    requires ItemOk(it)
    ensures var r := NextItem(b, EncodeItem(it) + s, broken);
            if b.guardsCount || Short(it) then r == Got(Some(it), s) else r.Fault?
  {
    hide ItemAfter, EncodeItem, NameOf, Digits;
    var line := NameOf(it) + ([SP] + (Digits(|it.value|) + ([NL] + (it.value + ([NL] + s)))));
    ItemUnfolds(it, s);
    var whole := TagOf(it) + line;
    assert whole[..3] == TagOf(it) && whole[3..] == line;
    ItemAfterRoundTrip(b, it, s, broken);
  }

  lemma NextItemAtEnd(b: Build, s: bytes, broken: bool)
    ensures NextItem(b, END_LINE + s, broken) == Got(None, s)
  {
    var whole := END_LINE + s;
    assert whole[..3] == END_TAG && whole[4..] == s;
  }

  // ---------- frames ----------

  lemma NoneIsShort()
    ensures AllShort([])
  {
  }

  lemma FirstAndRest(its: seq<Item>)
    requires its != []
    ensures ItemsOk(its) <==> ItemOk(its[0]) && ItemsOk(its[1..])
    ensures AllShort(its) <==> Short(its[0]) && AllShort(its[1..])
  {
    hide ItemOk, Short;
    assert forall i :: 1 <= i < |its| ==> its[i] == its[1..][i - 1];
  }

  /** Items in any order come back in that order, each on the list of its type, and the bytes
      behind the frame are left alone; text such as "end" inside a value does not matter. */
  lemma {:induction false} ItemsRoundTrip(b: Build, h: Heap, lists: Lists, its: seq<Item>, s: bytes, broken: bool)
    requires ItemsOk(its) && RoomForAll(h, its)
    ensures var r := ReadItems(b, h, lists, EncodeBody(its) + s, broken);
            if b.guardsCount || AllShort(its) then r == Got(AddAll(lists, its), s) else r.Fault?
    decreases its
  {
    hide NextItem, EncodeItem, ItemOk, Short, ItemsOk, AllShort, Heap.Fits, Heap.Alloc;
    if its == [] {
      NoneIsShort();
      assert EncodeBody(its) + s == END_LINE + s;
      NextItemAtEnd(b, s, broken);
    } else {
      var tail := EncodeBody(its[1..]) + s;
      assert EncodeBody(its) + s == EncodeItem(its[0]) + tail;
      FirstAndRest(its);
      NextItemRoundTrip(b, its[0], tail, broken);
      if b.guardsCount || Short(its[0]) {
        ItemsRoundTrip(b, h.Alloc(its[0]), lists.Add(its[0]), its[1..], s, broken);
      }
    }
  }

  /** The items of one type, in arrival order. */
  function OfKind(its: seq<Item>, tag: bytes): seq<Item> {
    if its == [] then []
    else (if TagOf(its[0]) == tag then [its[0]] else []) + OfKind(its[1..], tag)
  }

  function ListOf(lists: Lists, tag: bytes): seq<Item> {
    if tag == KV_TAG then lists.kvs else if tag == PO_TAG then lists.pos else lists.ros
  }

  /** Reading sorts stably: each list gains the items of its type, in arrival order. */
  lemma {:induction false} AddAllPartitions(lists: Lists, its: seq<Item>, tag: bytes)
    requires IsItemTag(tag)
    ensures ListOf(AddAll(lists, its), tag) == ListOf(lists, tag) + OfKind(its, tag)
    decreases its
  {
    if its != [] {
      AddAllPartitions(lists.Add(its[0]), its[1..], tag);
    }
  }

  /** Items of one type go behind those that their list holds. */
  function Extended(lists: Lists, tag: bytes, its: seq<Item>): Lists {
    if tag == KV_TAG then lists.(kvs := lists.kvs + its)
    else if tag == PO_TAG then lists.(pos := lists.pos + its)
    else lists.(ros := lists.ros + its)
  }

  lemma AddExtends(lists: Lists, tag: bytes, it: Item, its: seq<Item>)
    requires TagOf(it) == tag
    ensures Extended(lists.Add(it), tag, its) == Extended(lists, tag, [it] + its)
  {
    assert forall a: seq<Item> :: (a + [it]) + its == a + ([it] + its);
  }

  lemma {:induction false} AddAllOfKind(lists: Lists, its: seq<Item>, tag: bytes)
    requires forall i :: 0 <= i < |its| ==> TagOf(its[i]) == tag
    ensures AddAll(lists, its) == Extended(lists, tag, its)
    decreases its
  {
    if its == [] {
      NothingExtends(lists, tag);
    } else {
      hide TagOf, Extended, Frames.Lists.Add;
      AddAllOfKind(lists.Add(its[0]), its[1..], tag);
      AddExtends(lists, tag, its[0], its[1..]);
      assert its == [its[0]] + its[1..];
    }
  }

  lemma NothingExtends(lists: Lists, tag: bytes)
    ensures Extended(lists, tag, []) == lists
  {
  }

  lemma {:induction false} OfKindUniform(its: seq<Item>, kind: bytes, tag: bytes)
    requires forall i :: 0 <= i < |its| ==> TagOf(its[i]) == kind
    ensures OfKind(its, tag) == if kind == tag then its else []
  {
    if its != [] {
      OfKindUniform(its[1..], kind, tag);
    }
  }

  lemma {:induction false} OfKindConcat(a: seq<Item>, b: seq<Item>, tag: bytes)
    ensures OfKind(a + b, tag) == OfKind(a, tag) + OfKind(b, tag)
  {
    hide TagOf;
    if a == [] {
      assert a + b == b;
    } else {
      assert (a + b)[0] == a[0] && (a + b)[1..] == a[1..] + b;
      OfKindConcat(a[1..], b, tag);
      var head := if TagOf(a[0]) == tag then [a[0]] else [];
      assert OfKind(a, tag) == head + OfKind(a[1..], tag);
      assert OfKind(a + b, tag) == head + OfKind(a[1..] + b, tag);
    }
  }

  lemma OfKindInWriteOrder(lists: Lists, tag: bytes)
    requires lists.Sorted() && IsItemTag(tag)
    ensures OfKind(lists.InWriteOrder(), tag) == ListOf(lists, tag)
  {
    OfKindConcat(lists.kvs + lists.pos, lists.ros, tag);
    OfKindConcat(lists.kvs, lists.pos, tag);
    OfKindUniform(lists.kvs, KV_TAG, tag);
    OfKindUniform(lists.pos, PO_TAG, tag);
    OfKindUniform(lists.ros, RO_TAG, tag);
  }

  lemma AddAllInWriteOrder(lists: Lists)
    requires lists.Sorted()
    ensures AddAll(NO_ITEMS, lists.InWriteOrder()) == lists
  {
    hide AddAll, OfKind;
    forall tag | IsItemTag(tag)
      ensures ListOf(AddAll(NO_ITEMS, lists.InWriteOrder()), tag) == ListOf(lists, tag)
    {
      AddAllPartitions(NO_ITEMS, lists.InWriteOrder(), tag);
      OfKindInWriteOrder(lists, tag);
    }
    var all := AddAll(NO_ITEMS, lists.InWriteOrder());
    assert ListOf(all, KV_TAG) == all.kvs && ListOf(all, PO_TAG) == all.pos && ListOf(all, RO_TAG) == all.ros;
  }

  lemma HeaderFields(cmd: bytes, length: bytes, seqno: bytes, s: bytes)
    requires |cmd| == 4 && |length| == 10 && |seqno| == 10
    ensures var e := (cmd + [SP] + length + [SP] + seqno + [NL]) + s;
            && e[4] == SP && e[15] == SP && e[26] == NL
            && e[..4] == cmd && e[16..26] == seqno && e[27..] == s
  {
  }

  lemma {:induction false} HeaderRoundTrip(f: Frame, s: bytes)
    requires FrameOk(f)
    ensures var e := FrameHeader(f) + s;
            && |FrameHeader(f)| == FRAME_HEADER_LENGTH
            && e[4] == SP && e[15] == SP && e[26] == NL && e[..4] == f.cmd && e[27..] == s
            && ToInt32(StrToULL(e[16..26]).value) == f.seqno
  {
    hide StrToULL, Digits, ItemsLength, Padded;
    var seqno := Padded(f.seqno, 10);
    assert StrToULL(seqno).value == f.seqno by {
      PowersOfTen();
      DigitsAtMost(f.seqno, 10);
      StrToULLOfPadded(f.seqno, 10, []);
      assert seqno + [] == seqno;
    }
    HeaderFields(f.cmd, Padded(4 + ItemsLength(f.lists.InWriteOrder()), 10), seqno, s);
  }

  /** The cast to int32_t takes the number modulo 2^32. */
  lemma ToInt32Exactly(v: nat)
    ensures -0x8000_0000 <= ToInt32(v) < 0x8000_0000 && (ToInt32(v) - v) % 0x1_0000_0000 == 0
  {
  }

  /** Negative numbers survive as well as long as they fit the field. */
  lemma NegativeSeqnoRoundTrip(seqno: int)
    requires seqno < 0 && -seqno < Pow10(9)
    ensures ToInt32(StrToULL(SeqnoText(seqno)).value) == seqno
  {
    hide StrToULL, Digits, ValueOf;
    DigitsAtMost(-seqno, 9);
    PowersOfTen();
    var ds := Padded(-seqno, 9);
    ValueOfPadded(9 - |Digits(-seqno)|, -seqno);
    StrToULLExactly([], [45], ds, []);
    assert [] + ([45] + (ds + [])) == [45] + ds;
  }

  /** The round trip: reading an encoded frame gives the frame back and leaves exactly what
      follows it. Without the guarded count this holds exactly when every token is short. */
  lemma {:induction false} FrameRoundTrip(b: Build, h: Heap, f: Frame, s: bytes, broken: bool)
    requires FrameOk(f) && RoomForAll(h, f.lists.InWriteOrder())
    ensures ReadFrame(b, h, Encode(f) + s, broken) == Got(f, s)
            <==> b.guardsCount || AllShort(f.lists.InWriteOrder())
  {
    hide ReadItems, EncodeItems, FrameHeader, StrToULL;
    var its := f.lists.InWriteOrder();
    var body := EncodeBody(its) + s;
    assert Encode(f) + s == FrameHeader(f) + body;
    HeaderRoundTrip(f, body);
    ItemsRoundTrip(b, h, NO_ITEMS, its, s, broken);
    AddAllInWriteOrder(f.lists);
  }

  /** A routing object numbered 100 is enough to lose a frame as the code is written. */
  lemma UnguardedCountLosesFrames()
    ensures exists f: Frame ::
              && FrameOk(f)
              && (forall h: Heap, s, broken | RoomForAll(h, f.lists.InWriteOrder()) ::
                    ReadFrame(AS_WRITTEN, h, Encode(f) + s, broken) != Got(f, s))
  {
    hide ReadFrame, Encode;
    var it := RO(100, []);
    var f := Frame(RESPONSE, 0, Lists([], [], [it]));
    PowersOfTen();
    assert f.lists.InWriteOrder() == [it];
    assert FrameOk(f);
    assert !AllShort(f.lists.InWriteOrder()) by {
      assert !Short(f.lists.InWriteOrder()[0]);
    }
    forall h: Heap, s, broken | RoomForAll(h, f.lists.InWriteOrder())
      ensures ReadFrame(AS_WRITTEN, h, Encode(f) + s, broken) != Got(f, s)
    {
      FrameRoundTrip(AS_WRITTEN, h, f, s, broken);
    }
  }

  // ---------- the announced length ----------

  predicate Uncut(it: Item) {
    |HeaderText(it)| < MAX_LOCAL_HEADER_LENGTH
  }

  /** An item takes the announced number of bytes exactly when its local header is not cut. */
  lemma ItemLengthExact(it: Item)
    ensures |EncodeItem(it)| <= ItemLength(it)
    ensures |EncodeItem(it)| == ItemLength(it) <==> Uncut(it)
  {
  }

  /** bw2_frameLength announces the number of bytes behind the header if no local header is
      cut, as none of an item in bounds is, and too many otherwise. */
  lemma {:induction false} AnnouncedLengthExact(its: seq<Item>)
    ensures 4 + ItemsLength(its) >= |EncodeBody(its)|
    ensures 4 + ItemsLength(its) == |EncodeBody(its)| <==> forall i :: 0 <= i < |its| ==> Uncut(its[i])
    ensures ItemsOk(its) ==> 4 + ItemsLength(its) == |EncodeBody(its)|
  {
    hide EncodeItem, ItemLength, Uncut, ItemOk;
    if its != [] {
      ItemLengthExact(its[0]);
      AnnouncedLengthExact(its[1..]);
      if ItemOk(its[0]) {
        OkIsUncut(its[0]);
      }
      assert forall i :: 1 <= i < |its| ==> its[i] == its[1..][i - 1];
    }
  }

  lemma OkIsUncut(it: Item)
    requires ItemOk(it)
    ensures Uncut(it)
  {
    NameFits(it);
  }

  lemma HeaderAt(cmd: bytes, length: bytes, seqno: bytes, body: bytes)
    requires |cmd| == 4 && |length| == 10 && |seqno| == 10
    ensures var e := (cmd + [SP] + length + [SP] + seqno + [NL]) + body; |e| == 27 + |body| && e[5..15] == length
  {
  }

  /** The ten digits behind the command are the length that was computed: the number of bytes
      behind the header if no local header is cut, and more if one is. */
  lemma {:induction false} HeaderAnnounces(f: Frame)
    requires |f.cmd| == 4 && 4 + ItemsLength(f.lists.InWriteOrder()) < Pow10(10)
    ensures |Encode(f)| >= 27
    ensures var announced := StrToULL(Encode(f)[5..15]);
      && !announced.overflow && announced.end == 10 && announced.value >= |Encode(f)| - 27
      && (announced.value == |Encode(f)| - 27 <==>
            forall i :: 0 <= i < |f.lists.InWriteOrder()| ==> Uncut(f.lists.InWriteOrder()[i]))
  {
    hide StrToULL, Digits, ItemsLength, EncodeBody, Uncut, Padded, SeqnoText;
    var its := f.lists.InWriteOrder();
    var length := Padded(4 + ItemsLength(its), 10);
    HeaderAt(f.cmd, length, SeqnoText(f.seqno), EncodeBody(its));
    PowersOfTen();
    AnnouncedLengthExact(its);
    DigitsAtMost(4 + ItemsLength(its), 10);
    StrToULLOfPadded(4 + ItemsLength(its), 10, []);
    assert length + [] == length;
  }

  /** In particular every frame in bounds announces its own length. */
  lemma {:induction false} HeaderAnnouncesLength(f: Frame)
    requires FrameOk(f) && |Encode(f)| - 27 < Pow10(10)
    ensures StrToULL(Encode(f)[5..15]).value == |Encode(f)| - 27
  {
    hide StrToULL, ItemsLength, EncodeBody, Uncut, FrameHeader;
    var its := f.lists.InWriteOrder();
    AnnouncedLengthExact(its);
    HeaderRoundTrip(f, []);
    assert |Encode(f)| == 27 + |EncodeBody(its)|;
    HeaderAnnounces(f);
  }

  // ---------- the two spellings of a payload number ----------

  /** Fields separated by dots. */
  function Dotted(fields: seq<nat>): bytes
    requires fields != []
  {
    if |fields| == 1 then Digits(fields[0]) else Digits(fields[0]) + ([DOT] + Dotted(fields[1..]))
  }

  /** The number with these fields, eight bits each, below `high`. */
  function Packed(high: nat, fields: seq<nat>): nat
    decreases fields
  {
    if fields == [] then high else Packed(high * 0x100 + fields[0], fields[1..])
  }

  predicate AreOctets(fields: seq<nat>) {
    forall i :: 0 <= i < |fields| ==> fields[i] <= 255
  }

  lemma OctetRoundTrip(pre: bytes, n: nat, rest: bytes, last: bool)
    requires n <= 255
    requires if last then rest == [] else rest != [] && rest[0] == DOT
    ensures Octet(pre + (Digits(n) + rest), |pre|, last) ==
            Some((n, |pre| + |Digits(n)| + (if last then 0 else 1)))
  {
    hide StrToULL, Digits;
    var text := pre + (Digits(n) + rest);
    assert text[|pre|..] == Digits(n) + rest;
    StrToULLOfDigits(n, rest);
  }

  lemma {:induction false} DotFieldsRoundTrip(pre: bytes, fields: seq<nat>, high: nat)
    requires fields != [] && AreOctets(fields)
    ensures DotFields(pre + Dotted(fields), |pre|, |fields|, high) == Some(Packed(high, fields))
    decreases fields
  {
    hide Octet;
    var last := |fields| == 1;
    var rest := if last then [] else [DOT] + Dotted(fields[1..]);
    assert Dotted(fields) == Digits(fields[0]) + rest;
    var text := pre + Dotted(fields);
    var next := |pre| + |Digits(fields[0])| + (if last then 0 else 1);
    assert Octet(text, |pre|, last) == Some((fields[0], next)) by {
      OctetRoundTrip(pre, fields[0], rest, last);
    }
    var high' := high * 0x100 + fields[0];
    assert Packed(high, fields) == Packed(high', fields[1..]);
    if last {
      assert fields[1..] == [];
    } else {
      var pre' := pre + (Digits(fields[0]) + [DOT]);
      assert text == pre' + Dotted(fields[1..]);
      DotFieldsRoundTrip(pre', fields[1..], high');
    }
  }

  /** A plain number is kept modulo 2^32, and rejected if it does not fit 64 bits. */
  lemma PlainNumberExactly(b: Build, n: nat, rest: bytes)
    ensures PONumber(b, [COLON] + Digits(n), rest) ==
            if n < TWO_TO_THE_64 then Got(n % TWO_TO_THE_32, rest) else Failed(ERROR_MALFORMED_FRAME, rest)
  {
    hide DotForm, Pow10;
    DigitsAreText(n);
    ValueOfDigits(n);
    StrToULLExactly([], [], Digits(n), []);
    hide StrToULL, Digits, ValueOf;
    assert [] + ([] + (Digits(n) + [])) == Digits(n);
    var text := [COLON] + Digits(n);
    CStrOfText(text);
    assert text[1..] == Digits(n);
  }

  lemma OctetTooLarge(pre: bytes, n: nat, rest: bytes, last: bool)
    requires n > 255 && (rest == [] || rest[0] == DOT)
    ensures Octet(pre + (Digits(n) + rest), |pre|, last) == None
  {
    ValueOfDigits(n);
    StrToULLExactly([], [], Digits(n), rest);
    hide StrToULL, Digits, ValueOf;
    assert [] + ([] + (Digits(n) + rest)) == Digits(n) + rest;
    var text := pre + (Digits(n) + rest);
    assert text[|pre|..] == Digits(n) + rest;
  }

  lemma DotFieldsNext(text: bytes, from: nat, fields: nat, high: nat, octet: Option<(nat, nat)>)
    requires from <= |text| && fields >= 1 && Octet(text, from, fields == 1) == octet
    ensures octet == None ==> DotFields(text, from, fields, high) == None
    ensures octet.Some? && fields > 1 ==>
              octet.value.1 <= |text| &&
              DotFields(text, from, fields, high) ==
                DotFields(text, octet.value.1, fields - 1, high * 0x100 + octet.value.0)
  {
    hide Octet;
  }

  lemma RestIsOff(fields: seq<nat>)
    requires fields != [] && !AreOctets(fields) && fields[0] <= 255
    ensures |fields| > 1 && !AreOctets(fields[1..])
  {
    var i :| 0 <= i < |fields| && fields[i] > 255;
    assert fields[1..][i - 1] > 255;
  }

  lemma DottedUnfolds(pre: bytes, fields: seq<nat>)
    requires fields != []
    ensures var rest := if |fields| == 1 then [] else [DOT] + Dotted(fields[1..]);
      Dotted(fields) == Digits(fields[0]) + rest
    ensures |fields| > 1 ==>
              pre + Dotted(fields) == (pre + (Digits(fields[0]) + [DOT])) + Dotted(fields[1..])
  {
    if |fields| > 1 {
      Reassociate(pre, Digits(fields[0]), [DOT], Dotted(fields[1..]));
    } else {
      assert Digits(fields[0]) + [] == Digits(fields[0]);
    }
  }

  lemma Reassociate(a: bytes, b: bytes, c: bytes, d: bytes)
    ensures a + (b + (c + d)) == (a + (b + c)) + d
  {
    assert b + (c + d) == (b + c) + d;
  }

  /** Dotted fields are rejected if one of them is no octet. */
  lemma {:induction false} DotFieldsReject(pre: bytes, fields: seq<nat>, high: nat)
    requires fields != [] && !AreOctets(fields)
    ensures DotFields(pre + Dotted(fields), |pre|, |fields|, high) == None
    decreases fields
  {
    hide Octet, DotFields, Dotted, AreOctets, Digits;
    var last := |fields| == 1;
    var rest := if last then [] else [DOT] + Dotted(fields[1..]);
    DottedUnfolds(pre, fields);
    var text := pre + Dotted(fields);
    if fields[0] > 255 {
      OctetTooLarge(pre, fields[0], rest, last);
      DotFieldsNext(text, |pre|, |fields|, high, None);
    } else {
      RestIsOff(fields);
      OctetRoundTrip(pre, fields[0], rest, last);
      var pre' := pre + (Digits(fields[0]) + [DOT]);
      DotFieldsReject(pre', fields[1..], high * 0x100 + fields[0]);
      DotFieldsNext(text, |pre|, |fields|, high, Some((fields[0], |pre'|)));
    }
  }

  /** A dotted number is accepted exactly if its four fields are octets. */
  lemma {:induction false} DotFormExactly(fields: seq<nat>)
    requires |fields| == 4
    ensures DotForm(Dotted(fields)) == if AreOctets(fields) then Some(Packed(0, fields)) else None
  {
    hide DotFields, Dotted;
    assert [] + Dotted(fields) == Dotted(fields);
    if AreOctets(fields) {
      DotFieldsRoundTrip([], fields, 0);
    } else {
      DotFieldsReject([], fields, 0);
    }
  }

  lemma DotFormRoundTrip(fields: seq<nat>)
    requires |fields| == 4 && AreOctets(fields)
    ensures DotForm(Dotted(fields)) == Some(Packed(0, fields))
  {
    DotFieldsRoundTrip([], fields, 0);
    assert [] + Dotted(fields) == Dotted(fields);
  }

  /** The octets of a 32-bit number, most significant first. */
  function Octets(n: nat): (fields: seq<nat>)
    requires n < TWO_TO_THE_32
    ensures |fields| == 4 && AreOctets(fields)
  {
    [n / 0x100_0000, n / 0x1_0000 % 0x100, n / 0x100 % 0x100, n % 0x100]
  }

  lemma PackedFour(fields: seq<nat>)
    requires |fields| == 4
    ensures Packed(0, fields) == fields[0] * 0x100_0000 + fields[1] * 0x1_0000 + fields[2] * 0x100 + fields[3]
  {
    var high2 := fields[0] * 0x100 + fields[1];
    var high3 := high2 * 0x100 + fields[2];
    assert fields[1..][1..] == fields[2..] && fields[2..][1..] == fields[3..] && fields[3..][1..] == [];
    assert Packed(high3, fields[3..]) == Packed(high3 * 0x100 + fields[3], []);
    assert Packed(high2, fields[2..]) == Packed(high3, fields[3..]);
    assert Packed(fields[0], fields[1..]) == Packed(high2, fields[2..]);
  }

  lemma OctetsPacked(n: nat)
    requires n < TWO_TO_THE_32
    ensures Packed(0, Octets(n)) == n
  {
    PackedFour(Octets(n));
    assert n / 0x1_0000 == n / 0x100 / 0x100 && n / 0x100_0000 == n / 0x1_0000 / 0x100;
  }

  lemma {:induction false} PackedIsInjective(high: nat, a: seq<nat>, high': nat, b: seq<nat>)
    requires |a| == |b| && AreOctets(a) && AreOctets(b)
    requires Packed(high, a) == Packed(high', b)
    ensures high == high' && a == b
    decreases a
  {
    if a != [] {
      PackedIsInjective(high * 0x100 + a[0], a[1..], high' * 0x100 + b[0], b[1..]);
      assert a == [a[0]] + a[1..] && b == [b[0]] + b[1..];
    }
  }

  lemma {:induction false} DottedIsText(fields: seq<nat>)
    requires fields != []
    ensures COLON !in Dotted(fields) && 0 !in Dotted(fields)
    ensures Dotted(fields) != []
  {
    DigitsAreText(fields[0]);
    if |fields| > 1 {
      DottedIsText(fields[1..]);
    }
  }

  /** Both spellings of a payload object number read as that number. */
  lemma {:induction false} PayloadNumberSpellingsAgree(b: Build, n: nat, rest: bytes)
    requires n < TWO_TO_THE_32
    ensures PONumber(b, [COLON] + Digits(n), rest) == Got(n, rest)
    ensures PONumber(b, Dotted(Octets(n)) + [COLON], rest) == Got(n, rest)
  {
    PONumberRoundTrip(b, n, rest);
    var dotted := Dotted(Octets(n));
    OctetsPacked(n);
    DotFormRoundTrip(Octets(n));
    DottedIsText(Octets(n));
    var text := dotted + [COLON];
    CStrOfText(text);
    FindDelimiter(dotted, COLON, []);
    assert [COLON] + [] == [COLON];
    assert text[..|dotted|] == dotted;
  }

  /** Canonical dotted forms and 32-bit numbers correspond one to one. */
  lemma {:induction false} DottedIsOneToOne(fields: seq<nat>, n: nat)
    requires |fields| == 4 && AreOctets(fields) && n < TWO_TO_THE_32
    ensures DotForm(Dotted(fields)) == Some(n) <==> fields == Octets(n)
  {
    DotFormRoundTrip(fields);
    OctetsPacked(n);
    if Packed(0, fields) == n {
      PackedIsInjective(0, fields, 0, Octets(n));
    }
  }
}
