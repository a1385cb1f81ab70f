/** Frames as values, and the two questions the client asks of a received frame. */
module Frames {
  import opened Decimal

  type bytes = seq<byte>

  datatype Option<+T> = None | Some(value: T)

  const ERROR_MALFORMED_FRAME := 1
  const ERROR_UNEXPECTED_FRAME := 5
  const ERROR_MISSING_HEADER := 6
  const ERROR_RESPONSE_STATUS := 7
  const ERROR_CONNECTION_LOST := 10

  const MAX_KEY_LENGTH: nat := 31
  const MAX_PONUM_LENGTH: nat := 27
  const MAX_RONUM_LENGTH: nat := 3
  const MAX_LENGTH_DIGITS: nat := 10

  const RESPONSE: bytes := [114, 101, 115, 112]                        // "resp"
  const RESULT: bytes := [114, 115, 108, 116]                          // "rslt"
  const PUBLISH: bytes := [112, 117, 98, 108]                          // "publ"
  const PERSIST: bytes := [112, 101, 114, 115]                         // "pers"
  const SET_ENTITY: bytes := [115, 101, 116, 101]                      // "sete"
  const UNSUBSCRIBE: bytes := [117, 115, 117, 98]                      // "usub"
  const MAKE_DOT: bytes := [109, 97, 107, 100]                         // "makd"
  const MAKE_ENTITY: bytes := [109, 97, 107, 101]                      // "make"
  const MAKE_CHAIN: bytes := [109, 97, 107, 99]                        // "makc"
  const SUBSCRIBE: bytes := [115, 117, 98, 115]                        // "subs"
  const QUERY: bytes := [113, 117, 101, 114]                           // "quer"
  const LIST: bytes := [108, 105, 115, 116]                            // "list"
  const STATUS: bytes := [115, 116, 97, 116, 117, 115]                 // "status"
  const OKAY: bytes := [111, 107, 97, 121]                             // "okay"
  const FINISHED: bytes := [102, 105, 110, 105, 115, 104, 101, 100]    // "finished"
  const TRUE: bytes := [116, 114, 117, 101]                            // "true"
  const HANDLE: bytes := [104, 97, 110, 100, 108, 101]                 // "handle"

  /** A key/value header, a payload object or a routing object. */
  datatype Item =
    | KV(key: bytes, value: bytes)
    | PO(num: nat, value: bytes)
    | RO(num: nat, value: bytes)

  /** The three linked lists of a frame, each in link order. */
  datatype Lists = Lists(kvs: seq<Item>, pos: seq<Item>, ros: seq<Item>) {
    function Add(it: Item): Lists {
      match it
      case KV(_, _) => this.(kvs := kvs + [it])
      case PO(_, _) => this.(pos := pos + [it])
      case RO(_, _) => this.(ros := ros + [it])
    }

    /** The order in which bw2_writeFrame emits the lists. */
    function InWriteOrder(): seq<Item> {
      kvs + pos + ros
    }

    predicate Sorted() {
      && (forall i :: 0 <= i < |kvs| ==> kvs[i].KV?)
      && (forall i :: 0 <= i < |pos| ==> pos[i].PO?)
      && (forall i :: 0 <= i < |ros| ==> ros[i].RO?)
    }
  }

  const NO_ITEMS := Lists([], [], [])

  datatype Frame = Frame(cmd: bytes, seqno: int, lists: Lists) {
    /** What bw2_readFrame can make of a stream: four bytes, 32 bits, three kinds of objects. */
    predicate Received() {
      |cmd| == 4 && -0x8000_0000 <= seqno < 0x8000_0000 && lists.Sorted()
    }
  }

  /** The C string held by a buffer: the bytes before the first NUL. */
  function CStr(buf: bytes): (s: bytes)
    ensures |s| <= |buf| && 0 !in s
  {
    if buf == [] || buf[0] == 0 then [] else [buf[0]] + CStr(buf[1..])
  }

  lemma {:induction false} CStrOfText(s: bytes)
    requires 0 !in s
    ensures CStr(s) == s
  {
    if s != [] {
      CStrOfText(s[1..]);
    }
  }

  function Clip(s: bytes, n: nat): bytes {
    if |s| <= n then s else s[..n]
  }

  /** strncmp(a, b, n) == 0 for two buffers that hold C strings. */
  predicate SameText(a: bytes, b: bytes, n: nat) {
    Clip(CStr(a) + [0], n) == Clip(CStr(b) + [0], n)
  }

  /** Below the limit strncmp is equality of the C strings. */
  lemma SameTextExactly(a: bytes, b: bytes, n: nat)
    requires |CStr(b)| < n
    ensures SameText(a, b, n) <==> CStr(a) == CStr(b)
  {
    var x, y := CStr(a), CStr(b);
    assert Clip(y + [0], n) == y + [0];
    assert (y + [0])[|y|] == 0;
    if |x| < n {
      assert Clip(x + [0], n) == x + [0];
      assert x == (x + [0])[..|x|] && y == (y + [0])[..|y|];
    } else {
      assert Clip(x + [0], n) == x[..n] && 0 !in x[..n];
    }
  }

  /** strncmp(value, literal, len) == 0, where `value` is `len` bytes with no terminator. */
  predicate MatchesLiteral(value: bytes, literal: bytes) {
    var n := if |value| <= |literal| then |value| else |literal| + 1;
    value[..n] == (literal + [0])[..n]
  }

  /** The text passes for the literal: it is a prefix of it, the empty text included, or has the
      literal and its terminator in front. */
  predicate PassesFor(value: bytes, literal: bytes) {
    value <= literal || literal + [0] <= value
  }

  /** The comparison over the length of the value is weaker than equality. */
  lemma MatchesLiteralExactly(value: bytes, literal: bytes)
    ensures MatchesLiteral(value, literal) <==> PassesFor(value, literal)
  {
    var ended := literal + [0];
    if |value| <= |literal| {
      assert ended[..|value|] == literal[..|value|];
    } else {
      assert ended[..|literal| + 1] == ended;
    }
  }

  function FirstHeader(kvs: seq<Item>, key: bytes): Option<bytes> {
    if kvs == [] then None
    else if kvs[0].KV? && SameText(kvs[0].key, key, MAX_KEY_LENGTH + 1) then Some(kvs[0].value)
    else FirstHeader(kvs[1..], key)
  }

  /** The header has the key; keys are C strings. */
  predicate HasKey(it: Item, key: bytes) {
    it.KV? && CStr(it.key) == key
  }

  /** Header `k` is the first with the key. */
  predicate IsFirst(kvs: seq<Item>, key: bytes, k: int) {
    0 <= k < |kvs| && HasKey(kvs[k], key) && forall i :: 0 <= i < k ==> !HasKey(kvs[i], key)
  }

  /** bw2_getFirstHeader finds the earliest header with the key, or none if there is none. */
  lemma {:induction false} FirstHeaderIsEarliest(kvs: seq<Item>, key: bytes) returns (k: nat)
    requires 0 !in key && |key| <= MAX_KEY_LENGTH
    ensures k <= |kvs| && forall i :: 0 <= i < k ==> !HasKey(kvs[i], key)
    ensures k < |kvs| ==> HasKey(kvs[k], key)
    ensures FirstHeader(kvs, key) == if k < |kvs| then Some(kvs[k].value) else None
  {
    CStrOfText(key);
    if kvs == [] {
      k := 0;
    } else {
      hide SameText;
      if kvs[0].KV? {
        SameTextExactly(kvs[0].key, key, MAX_KEY_LENGTH + 1);
      }
      if HasKey(kvs[0], key) {
        k := 0;
      } else {
        var k' := FirstHeaderIsEarliest(kvs[1..], key);
        k := k' + 1;
        forall i | 0 <= i < k ensures !HasKey(kvs[i], key) {
          if i > 0 {
            assert kvs[i] == kvs[1..][i - 1];
          }
        }
      }
    }
  }

  /** The first header with the key has a value that passes for the literal. */
  ghost predicate Says(f: Frame, key: bytes, literal: bytes) {
    exists k {:trigger IsFirst(f.lists.kvs, key, k)} ::
      IsFirst(f.lists.kvs, key, k) && PassesFor(f.lists.kvs[k].value, literal)
  }

  /** The frame is the last of its stream. */
  ghost predicate Finishes(f: Frame) {
    Says(f, FINISHED, TRUE)
  }

  /** Some header has the key. */
  ghost predicate Mentions(f: Frame, key: bytes) {
    exists k :: 0 <= k < |f.lists.kvs| && HasKey(f.lists.kvs[k], key)
  }

  /** bw2_frameMustResponse. */
  function MustResponse(f: Frame): int {
    if f.cmd != RESPONSE then ERROR_UNEXPECTED_FRAME
    else
      match FirstHeader(f.lists.kvs, STATUS)
      case None => ERROR_MISSING_HEADER
      case Some(status) => if MatchesLiteral(status, OKAY) then 0 else ERROR_RESPONSE_STATUS
  }

  /** The `final` flag the daemon computes for every frame it dispatches. */
  predicate IsFinal(f: Frame) {
    var finished := FirstHeader(f.lists.kvs, FINISHED);
    finished.Some? && MatchesLiteral(finished.value, TRUE)
  }

  predicate HasHandle(f: Frame) {
    FirstHeader(f.lists.kvs, HANDLE).Some?
  }

  /** What a lookup followed by a comparison comes to. */
  lemma LookupExactly(f: Frame, key: bytes, literal: bytes)
    requires 0 !in key && |key| <= MAX_KEY_LENGTH
    ensures var found := FirstHeader(f.lists.kvs, key);
      && (found.Some? <==> Mentions(f, key))
      && (found.Some? && MatchesLiteral(found.value, literal) <==> Says(f, key, literal))
  {
    hide MatchesLiteral, PassesFor, HasKey;
    var kvs := f.lists.kvs;
    var k := FirstHeaderIsEarliest(kvs, key);
    if k < |kvs| {
      MatchesLiteralExactly(kvs[k].value, literal);
      assert IsFirst(kvs, key, k);
      forall j | IsFirst(kvs, key, j) ensures j == k {
      }
    }
  }

  /** A frame is an accepted response if it has the command "resp" and its first "status" passes
      for "okay"; otherwise the code says which of these is wrong. */
  lemma MustResponseExactly(f: Frame)
    ensures MustResponse(f) == 0 <==> f.cmd == RESPONSE && Says(f, STATUS, OKAY)
    ensures MustResponse(f) == ERROR_UNEXPECTED_FRAME <==> f.cmd != RESPONSE
    ensures MustResponse(f) == ERROR_MISSING_HEADER <==> f.cmd == RESPONSE && !Mentions(f, STATUS)
    ensures MustResponse(f) == ERROR_RESPONSE_STATUS <==>
            f.cmd == RESPONSE && Mentions(f, STATUS) && !Says(f, STATUS, OKAY)
  {
    hide FirstHeader, MatchesLiteral, Says, Mentions;
    LookupExactly(f, STATUS, OKAY);
  }

  /** A frame is final if its first "finished" passes for "true". */
  lemma IsFinalExactly(f: Frame)
    ensures IsFinal(f) <==> Finishes(f)
  {
    hide FirstHeader, MatchesLiteral, Says, Mentions;
    LookupExactly(f, FINISHED, TRUE);
  }

  lemma HasHandleExactly(f: Frame)
    ensures HasHandle(f) <==> Mentions(f, HANDLE)
  {
    hide FirstHeader, Says, Mentions;
    LookupExactly(f, HANDLE, []);
  }
}
