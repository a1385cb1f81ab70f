/** What the reader accepts: every stream that it reads a frame from is spelled as the format
    says, byte for byte. This is the converse of the round trip. */
module Grammar {
  import opened Decimal
  import opened Frames
  import opened Codec
  import opened Arrays
  import opened RoundTrip
  import opened Framing

  /** The characters of the text, one byte each. */
  predicate Spells(b: bytes, text: string) {
    |b| == |text| && forall i :: 0 <= i < |b| ==> b[i] as int == text[i] as int
  }

  /** The words of the format, and the sizes of its buffers. */
  lemma Words()
    ensures MAX_KEY_LENGTH == 31 && MAX_PONUM_LENGTH == 27 && MAX_RONUM_LENGTH == 3 && MAX_LENGTH_DIGITS == 10
    ensures FRAME_HEADER_LENGTH == 27 && MAX_LOCAL_HEADER_LENGTH == 47
    ensures Spells(KV_TAG, "kv ") && Spells(PO_TAG, "po ") && Spells(RO_TAG, "ro ")
    ensures Spells(END_LINE, "end\n") && END_TAG == END_LINE[..3]
    ensures Spells([SP], " ") && Spells([NL], "\n") && Spells([COLON], ":") && Spells([DOT], ".")
    ensures Spells(RESPONSE, "resp") && Spells(RESULT, "rslt") && Spells(STATUS, "status") && Spells(OKAY, "okay")
    ensures Spells(FINISHED, "finished") && Spells(TRUE, "true") && Spells(HANDLE, "handle")
  {
  }

  /** A token, what was dropped of it, its delimiter and the rest make up the stream. */
  lemma TokenSpelled(b: Build, cap: nat, delimiter: byte, s: bytes, broken: bool) returns (dropped: bytes)
    requires Token(b, cap, delimiter, s, broken).Got?
    ensures var r := Token(b, cap, delimiter, s, broken);
      && s == r.value + (dropped + ([delimiter] + r.rest))
      && delimiter !in r.value && delimiter !in dropped
      && (dropped != [] ==> b.guardsCount && |r.value| == cap)
  {
    var k := Find(s, delimiter);
    var r := Token(b, cap, delimiter, s, broken);
    assert s[..k] + ([delimiter] + s[k + 1..]) == s;
    if k < cap {
      dropped := [];
      assert dropped + ([delimiter] + r.rest) == [delimiter] + r.rest;
    } else {
      dropped := s[cap..k];
      assert s[..k] == s[..cap] + dropped;
      PartsHaveNone(s[..cap], dropped, delimiter);
    }
  }

  lemma PartsHaveNone(a: bytes, c: bytes, x: byte)
    requires x !in a + c
    ensures x !in a && x !in c
  {
    assert forall i :: 0 <= i < |a| ==> a[i] == (a + c)[i];
    assert forall i :: 0 <= i < |c| ==> c[i] == (a + c)[|a| + i];
  }

  lemma ValueSpelled(len: nat, s: bytes)
    requires Value(len, s).Got?
    ensures var r := Value(len, s); s == r.value + ([NL] + r.rest) && |r.value| == len
  {
  }

  /** What a name says of its item: the key, or the number in one of its spellings. */
  predicate Names(b: Build, name: bytes, it: Item) {
    match it
    case KV(key, _) => key == CStr(name)
    case PO(num, _) => PONumber(b, name, []) == Got(num, [])
    case RO(num, _) => num == StrToULL(CStr(name)).value % 256
  }

  /** The bytes of an item: its tag, its name, a space, its length, a newline, its value and a
      newline; what does not fit the buffers of the two tokens is dropped. */
  ghost predicate SpellsItem(b: Build, line: bytes, it: Item) {
    exists name: bytes, more: bytes, length: bytes, more': bytes ::
      && line == ItemLine(TagOf(it), name + more, length + more', it.value)
      && SP !in name && SP !in more && NL !in length && NL !in more'
      && |name| <= NameCap(TagOf(it)) && |length| <= MAX_LENGTH_DIGITS
      && (more != [] ==> b.guardsCount && |name| == NameCap(TagOf(it)))
      && (more' != [] ==> b.guardsCount && |length| == MAX_LENGTH_DIGITS)
      && Names(b, name, it) && |it.value| == StrToULL(CStr(length)).value
  }

  function ItemLine(tag: bytes, name: bytes, length: bytes, value: bytes): bytes {
    tag + (name + ([SP] + (length + ([NL] + (value + [NL])))))
  }

  lemma ItemLineJoins(tag: bytes, name: bytes, length: bytes, value: bytes, rest: bytes)
    ensures ItemLine(tag, name, length, value) + rest ==
            tag + (name + ([SP] + (length + ([NL] + (value + ([NL] + rest))))))
  {
    assert (value + [NL]) + rest == value + ([NL] + rest);
    var a := [NL] + (value + [NL]);
    assert a + rest == [NL] + (value + ([NL] + rest));
    var c := [SP] + (length + a);
    assert c + rest == [SP] + (length + (a + rest));
    assert (tag + (name + c)) + rest == tag + (name + (c + rest));
  }

  lemma NumberNames(b: Build, tag: bytes, name: bytes, rest: bytes, value: bytes)
    requires IsItemTag(tag) && NumberOf(b, tag, name, rest).Got?
    ensures Names(b, name, MakeItem(tag, CStr(name), NumberOf(b, tag, name, rest).value, value))
  {
    hide CStr, StrToULL, DotForm, Find;
  }

  lemma LineJoins(tag: bytes, name: bytes, more: bytes, length: bytes, more': bytes, value: bytes,
                  s: bytes, s1: bytes, s2: bytes, rest: bytes)
    requires s == name + (more + ([SP] + s1)) && s1 == length + (more' + ([NL] + s2)) && s2 == value + ([NL] + rest)
    ensures tag + s == ItemLine(tag, name + more, length + more', value) + rest
  {
    hide ItemLine;
    ItemLineJoins(tag, name + more, length + more', value, rest);
    assert s == (name + more) + ([SP] + s1);
    assert s1 == (length + more') + ([NL] + s2);
  }

  lemma ItemParts(b: Build, tag: bytes, s: bytes, broken: bool)
    requires ItemAfter(b, tag, s, broken).Got?
    ensures var name := Token(b, NameCap(tag), SP, s, broken);
      && name.Got?
      && var length := Token(b, MAX_LENGTH_DIGITS, NL, name.rest, broken);
      && length.Got?
      && var num := NumberOf(b, tag, name.value, length.rest);
      var value := Value(StrToULL(CStr(length.value)).value, length.rest);
      && num.Got? && value.Got?
      && ItemAfter(b, tag, s, broken) == Got(MakeItem(tag, CStr(name.value), num.value, value.value), value.rest)
  {
    hide Token, NumberOf, Value, MakeItem, CStr, StrToULL;
  }

  lemma ItemSpelled(b: Build, tag: bytes, s: bytes, broken: bool) returns (line: bytes)
    requires IsItemTag(tag) && ItemAfter(b, tag, s, broken).Got?
    ensures var r := ItemAfter(b, tag, s, broken); tag + s == line + r.rest && SpellsItem(b, line, r.value)
  {
    hide Token, NumberOf, Value, MakeItem, CStr, StrToULL, Names, ItemAfter, SpellsItem, ItemLine, NameCap;
    ItemParts(b, tag, s, broken);
    var name := Token(b, NameCap(tag), SP, s, broken);
    var more := TokenSpelled(b, NameCap(tag), SP, s, broken);
    var length := Token(b, MAX_LENGTH_DIGITS, NL, name.rest, broken);
    var more' := TokenSpelled(b, MAX_LENGTH_DIGITS, NL, name.rest, broken);
    var len := StrToULL(CStr(length.value)).value;
    var value, it := Value(len, length.rest), ItemAfter(b, tag, s, broken).value;
    ValueSpelled(len, length.rest);
    NumberNames(b, tag, name.value, length.rest, value.value);
    line := ItemLine(tag, name.value + more, length.value + more', value.value);
    LineJoins(tag, name.value, more, length.value, more', value.value, s, name.rest, length.rest, value.rest);
    MadeValue(tag, CStr(name.value), NumberOf(b, tag, name.value, length.rest).value, value.value);
    LineSpells(b, tag, name.value, more, length.value, more', it);
  }

  lemma MadeValue(tag: bytes, key: bytes, num: nat, value: bytes)
    ensures MakeItem(tag, key, num, value).value == value
  {
  }

  lemma LineSpells(b: Build, tag: bytes, name: bytes, more: bytes, length: bytes, more': bytes, it: Item)
    requires tag == TagOf(it) && SP !in name && SP !in more && NL !in length && NL !in more'
    requires |name| <= NameCap(tag) && |length| <= MAX_LENGTH_DIGITS
    requires more != [] ==> b.guardsCount && |name| == NameCap(tag)
    requires more' != [] ==> b.guardsCount && |length| == MAX_LENGTH_DIGITS
    requires Names(b, name, it) && |it.value| == StrToULL(CStr(length)).value
    ensures SpellsItem(b, ItemLine(tag, name + more, length + more', it.value), it)
  {
    hide ItemLine, Names, StrToULL, CStr, NameCap;
  }

  ghost predicate SpellsItems(b: Build, lines: seq<bytes>, its: seq<Item>) {
    |lines| == |its| && forall i :: 0 <= i < |its| ==> SpellsItem(b, lines[i], its[i])
  }

  lemma {:induction false} ScanSpelled(b: Build, s: bytes, broken: bool) returns (lines: seq<bytes>)
    requires Scan(b, s, broken).Got?
    ensures var r := Scan(b, s, broken);
      s == Concat(lines) + (END_LINE + r.rest) && SpellsItems(b, lines, r.value)
    decreases |s|
  {
    hide ItemAfter, SpellsItem;
    assert s == s[..3] + s[3..];
    if s[..3] == END_TAG {
      lines := [];
      assert s == END_LINE + s[4..];
      assert Concat(lines) + (END_LINE + s[4..]) == END_LINE + s[4..];
    } else {
      var it := ItemAfter(b, s[..3], s[3..], broken);
      var line := ItemSpelled(b, s[..3], s[3..], broken);
      var more := ScanSpelled(b, it.rest, broken);
      lines := [line] + more;
      assert lines[1..] == more;
      assert line + (Concat(more) + (END_LINE + Scan(b, s, broken).rest))
          == (line + Concat(more)) + (END_LINE + Scan(b, s, broken).rest);
    }
  }

  /** Every stream that a frame is read from begins with four bytes of command, a space, ten
      bytes, a space, ten bytes that give the number modulo 2^32, and a newline; then come its
      items, spelled as they should be, of which the frame holds those that fit the heap, each
      on the list of its kind; then the end line, and what is left in the stream. */
  lemma {:induction false} ReadFramesAreSpelled(b: Build, h: Heap, s: bytes, broken: bool)
      returns (lines: seq<bytes>, its: seq<Item>)
    requires ReadFrame(b, h, s, broken).Got?
    ensures var r := ReadFrame(b, h, s, broken);
      && |s| >= 27 && s[4] == SP && s[15] == SP && s[26] == NL
      && s[27..] == Concat(lines) + (END_LINE + r.rest) && SpellsItems(b, lines, its)
      && r.value == Frame(s[..4], ToInt32(StrToULL(s[16..26]).value), AddAll(NO_ITEMS, FirstFit(h, its)))
  {
    hide ReadItems, Scan, StrToULL, SpellsItem;
    HeapBoundedReading(b, h, s, broken);
    lines := ScanSpelled(b, s[27..], broken);
    its := Scan(b, s[27..], broken).value;
  }
}
