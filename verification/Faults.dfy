/** Where the reader writes through a null pointer: on which streams it does so as written, and
    that on all others it reads what it reads with every place put right. */
module Faults {
  import opened Decimal
  import opened Frames
  import opened Codec

  const PUT_RIGHT := Build(true, true, true, true)

  /** A token fills its buffer with the delimiter still to come, and the stream goes on. */
  predicate Overflows(cap: nat, delimiter: byte, s: bytes) {
    |s| > cap && delimiter !in s[..cap]
  }

  lemma {:induction false} FindBeyond(s: bytes, x: byte, n: nat)
    requires n <= |s|
    ensures x !in s[..n] <==> Find(s, x) >= n
  {
    var k := Find(s, x);
    if k >= n {
      assert s[..n] == s[..k][..n];
    } else {
      assert s[..n][k] == x;
    }
  }

  lemma TokenFaults(b: Build, cap: nat, delimiter: byte, s: bytes, broken: bool)
    ensures var r := Token(b, cap, delimiter, s, broken);
      && (r.Fault? <==> !b.guardsCount && Overflows(cap, delimiter, s))
      && (!r.Fault? ==> r == Token(PUT_RIGHT, cap, delimiter, s, broken))
  {
    if |s| > cap {
      FindBeyond(s, delimiter, cap);
    }
  }

  /** The tokens of an object with this tag, or the number in them, lead to such a write. */
  predicate ItemHazard(b: Build, tag: bytes, s: bytes, broken: bool) {
    var name := Token(PUT_RIGHT, NameCap(tag), SP, s, broken);
    || (!b.guardsCount && Overflows(NameCap(tag), SP, s))
    || (name.Got? && !b.guardsCount && Overflows(MAX_LENGTH_DIGITS, NL, name.rest))
    || (name.Got? && !b.checksColon && tag == PO_TAG && COLON !in CStr(name.value)
        && Token(PUT_RIGHT, MAX_LENGTH_DIGITS, NL, name.rest, broken).Got?)
  }

  lemma TokensFault(b: Build, tag: bytes, s: bytes, broken: bool)
    ensures var r, name := Tokens(b, tag, s, broken), Token(PUT_RIGHT, NameCap(tag), SP, s, broken);
      && (r.Fault? <==>
            !b.guardsCount && (Overflows(NameCap(tag), SP, s)
                               || (name.Got? && Overflows(MAX_LENGTH_DIGITS, NL, name.rest))))
      && (!r.Fault? ==> r == Tokens(PUT_RIGHT, tag, s, broken))
  {
    hide Token, Overflows, NameCap;
    TokenFaults(b, NameCap(tag), SP, s, broken);
    var name := Token(PUT_RIGHT, NameCap(tag), SP, s, broken);
    TokenFaults(PUT_RIGHT, NameCap(tag), SP, s, broken);
    if name.Got? {
      TokenFaults(b, MAX_LENGTH_DIGITS, NL, name.rest, broken);
      TokenFaults(PUT_RIGHT, MAX_LENGTH_DIGITS, NL, name.rest, broken);
    }
  }

  lemma NumberFaults(b: Build, tag: bytes, name: bytes, rest: bytes)
    ensures var r := NumberOf(b, tag, name, rest);
      && (r.Fault? <==> tag == PO_TAG && !b.checksColon && COLON !in CStr(name))
      && (!r.Fault? ==> r == NumberOf(PUT_RIGHT, tag, name, rest))
  {
    var text := CStr(name);
    FindBeyond(text, COLON, |text|);
    assert text[..|text|] == text;
  }

  lemma {:induction false} ItemFaults(b: Build, tag: bytes, s: bytes, broken: bool)
    ensures var r := ItemAfter(b, tag, s, broken);
      && (r.Fault? <==> ItemHazard(b, tag, s, broken))
      && (!r.Fault? ==> r == ItemAfter(PUT_RIGHT, tag, s, broken))
  {
    hide Token, Overflows, NameCap, NumberOf, CStr;
    TokensFault(b, tag, s, broken);
    TokensFault(PUT_RIGHT, tag, s, broken);
    var tokens := Tokens(PUT_RIGHT, tag, s, broken);
    if tokens.Got? {
      NumberFaults(b, tag, tokens.value.0, tokens.rest);
      NumberFaults(PUT_RIGHT, tag, tokens.value.0, tokens.rest);
    }
  }

  /** A turn of the loop that starts with `h` and `s` ends in such a write. */
  predicate TurnHazard(b: Build, h: Heap, s: bytes, broken: bool) {
    && |s| >= 3 && IsItemTag(s[..3])
    && (|| ItemHazard(b, s[..3], s[3..], broken)
        || (var it := ItemAfter(PUT_RIGHT, s[..3], s[3..], broken);
            it.Got? && !b.reportsFull && !h.Fits(it.value)))
  }

  /** The heap and the rest of the stream at the start of each turn, put right. */
  function Turns(h: Heap, s: bytes, broken: bool): (ts: seq<(Heap, bytes)>)
    ensures |ts| >= 1 && ts[0] == (h, s)
    decreases |s|
  {
    match NextItem(PUT_RIGHT, s, broken)
    case Got(Some(it), rest) => [(h, s)] + Turns(if h.Fits(it) then h.Alloc(it) else h, rest, broken)
    case _ => [(h, s)]
  }

  lemma {:induction false} TurnFaults(b: Build, h: Heap, s: bytes, broken: bool)
    ensures var r := NextItem(b, s, broken);
      && (TurnHazard(b, h, s, broken) <==>
            r.Fault? || (r.Got? && r.value.Some? && !b.reportsFull && !h.Fits(r.value.value)))
      && (!r.Fault? ==> r == NextItem(PUT_RIGHT, s, broken))
  {
    hide ItemAfter, ItemHazard, Heap.Fits;
    if |s| >= 3 {
      ItemFaults(b, s[..3], s[3..], broken);
    }
  }

  /** Some turn ends in such a write. */
  ghost predicate SomeHazard(b: Build, turns: seq<(Heap, bytes)>, broken: bool) {
    exists k :: 0 <= k < |turns| && TurnHazard(b, turns[k].0, turns[k].1, broken)
  }

  lemma SomeHazardNext(b: Build, turns: seq<(Heap, bytes)>, broken: bool)
    requires turns != []
    ensures SomeHazard(b, turns, broken) <==>
            TurnHazard(b, turns[0].0, turns[0].1, broken) || SomeHazard(b, turns[1..], broken)
  {
    hide TurnHazard;
    if k :| 0 <= k < |turns| && TurnHazard(b, turns[k].0, turns[k].1, broken) && k > 0 {
      assert turns[1..][k - 1] == turns[k];
    }
  }

  lemma {:induction false} LoopFaults(b: Build, h: Heap, lists: Lists, s: bytes, broken: bool)
    ensures var r := ReadItems(b, h, lists, s, broken);
      && (r.Fault? <==> SomeHazard(b, Turns(h, s, broken), broken))
      && (!r.Fault? ==> r == ReadItems(PUT_RIGHT, h, lists, s, broken))
    decreases |s|
  {
    hide NextItem, TurnHazard, SomeHazard, Heap.Fits;
    TurnFaults(b, h, s, broken);
    TurnFaults(PUT_RIGHT, h, s, broken);
    SomeHazardNext(b, Turns(h, s, broken), broken);
    NoHazard(b, broken);
    match NextItem(b, s, broken)
    case Got(Some(it), rest) =>
      if h.Fits(it) {
        LoopFaults(b, h.Alloc(it), lists.Add(it), rest, broken);
      } else {
        LoopFaults(b, h, lists, rest, broken);
      }
      assert Turns(h, s, broken)[1..] == Turns(if h.Fits(it) then h.Alloc(it) else h, rest, broken);
    case Got(None, _) => assert Turns(h, s, broken)[1..] == [];
    case Failed(_, _) => assert Turns(h, s, broken)[1..] == [];
    case Fault(_) =>
  }

  lemma NoHazard(b: Build, broken: bool)
    ensures !SomeHazard(b, [], broken)
  {
  }

  /** The reader writes through a null pointer if and only if one of the objects it comes to
      has a token that fills its buffer, a payload number without a colon, or no room in the
      heap, where the code does not provide for it; otherwise it reads the same frame, or
      fails in the same way, and consumes the same bytes as with every place put right. */
  lemma ReadFrameFaults(b: Build, h: Heap, s: bytes, broken: bool)
    ensures var r, header := ReadFrame(b, h, s, broken), Header(s, broken);
      && (r.Fault? <==> header.Got? && SomeHazard(b, Turns(h, header.rest, broken), broken))
      && (!r.Fault? ==> r == ReadFrame(PUT_RIGHT, h, s, broken))
  {
    hide ReadItems, SomeHazard, Turns;
    var header := Header(s, broken);
    if header.Got? {
      LoopFaults(b, h, NO_ITEMS, header.rest, broken);
    }
  }

  /** Put right, it never does. */
  lemma {:induction false} PutRightNeverFaults(h: Heap, s: bytes, broken: bool)
    ensures !ReadFrame(PUT_RIGHT, h, s, broken).Fault?
  {
    hide ReadFrame, Header, ItemAfter, Turns;
    ReadFrameFaults(PUT_RIGHT, h, s, broken);
  }
}
