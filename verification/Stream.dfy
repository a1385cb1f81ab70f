/** The connection and the byte loops over it (utils.c). `recv` and `send` may move any positive
    number of bytes at a time; every contract here is independent of how many. */
module Stream {
  import opened Decimal
  import opened Frames
  import opened Codec

  datatype Status = CharFound | EofReached | ArrayFull | Error | NullWrite

  function EndStatus(broken: bool): Status {
    if broken then Error else EofReached
  }

  /** A socket: the bytes still to arrive, after which it ends or (`broken`) fails, and the
      bytes sent so far. */
  class Conn {
    var input: bytes
    var output: bytes
    const broken: bool

    constructor (input: bytes, broken: bool)
      ensures this.input == input && this.broken == broken && output == []
    {
      this.input, this.broken, output := input, broken, [];
    }

    /** recv(fd, &arr[at], len, 0) */
    method Recv(arr: array<byte>, at: nat, len: nat) returns (rv: int)
      requires 0 < len && at + len <= arr.Length
      modifies this`input, arr
      ensures old(input) == [] ==>
                rv == (if broken then -1 else 0) && input == [] && arr[..] == old(arr[..])
      ensures old(input) != [] ==>
                && 1 <= rv <= len && rv <= |old(input)|
                && input == old(input)[rv..]
                && arr[..at] == old(arr[..at]) && arr[at..at + rv] == old(input)[..rv]
                && arr[at + rv..] == old(arr[at + rv..])
    {
      if input == [] {
        rv := if broken then -1 else 0;
      } else {
        rv :| 1 <= rv <= len && rv <= |input|;
        ghost var was := arr[..];
        forall i | 0 <= i < rv {
          arr[at + i] := input[i];
        }
        assert arr[..at] == was[..at] && arr[at + rv..] == was[at + rv..];
        input := input[rv..];
      }
    }

    /** recv(fd, &c, 1, 0) */
    method RecvByte() returns (rv: int, c: byte)
      modifies this`input
      ensures old(input) == [] ==> rv == (if broken then -1 else 0) && input == []
      ensures old(input) != [] ==> rv == 1 && c == old(input)[0] && input == old(input)[1..]
    {
      c := 0;
      if input == [] {
        rv := if broken then -1 else 0;
      } else {
        rv, c := 1, input[0];
        input := input[1..];
      }
    }

    /** send(fd, data, |data|, 0) */
    method Send(data: bytes) returns (rv: int)
      requires data != []
      modifies this`output
      ensures rv == -1 || 1 <= rv <= |data|
      ensures output == old(output) + data[..if rv == -1 then 0 else rv]
    {
      var failed: bool := *;
      if failed {
        rv := -1;
      } else {
        rv :| 1 <= rv <= |data|;
      }
      output := output + data[..if rv == -1 then 0 else rv];
    }
  }

  /** bw2_read_until_char */
  method ReadUntilChar(conn: Conn, arr: array<byte>, maxlen: nat, until: byte) returns (status: Status, bytesread: nat)
    requires maxlen <= arr.Length
    modifies conn`input, arr
    ensures var s := old(conn.input);
            var k := Find(s, until);
            && bytesread <= |s| && bytesread <= maxlen && arr[..bytesread] == s[..bytesread]
            && if k < |s| && k < maxlen then
                 status == CharFound && bytesread == k && conn.input == s[k + 1..]
               else if maxlen <= |s| then
                 status == ArrayFull && bytesread == maxlen && conn.input == s[maxlen..]
               else
                 status == EndStatus(conn.broken) && bytesread == |s| && conn.input == []
  {
    ghost var s := conn.input;
    bytesread := 0;
    while bytesread != maxlen
      invariant bytesread <= maxlen && bytesread <= |s|
      invariant conn.input == s[bytesread..] && arr[..bytesread] == s[..bytesread]
      invariant Find(s, until) == bytesread + Find(conn.input, until)
      decreases maxlen - bytesread
    {
      var rv, c := conn.RecvByte();
      if rv == 0 {
        return EofReached, bytesread;
      } else if rv == -1 {
        return Error, bytesread;
      } else if c == until {
        return CharFound, bytesread;
      }
      arr[bytesread] := c;
      bytesread := bytesread + 1;
    }
    status := ArrayFull;
  }

  /** bw2_drop_until_char with a null `bytesread`, as its only caller passes it. */
  method DropUntilChar(b: Build, conn: Conn, until: byte) returns (status: Status)
    modifies conn`input
    ensures var s := old(conn.input);
            var k := Find(s, until);
            if s != [] && !b.guardsCount then status == NullWrite && conn.input == s[1..]
            else if k < |s| then status == CharFound && conn.input == s[k + 1..]
            else status == EndStatus(conn.broken) && conn.input == []
  {
    ghost var s := conn.input;
    ghost var dropped: nat := 0;
    while true
      invariant dropped <= |s| && conn.input == s[dropped..]
      invariant dropped > 0 ==> b.guardsCount
      invariant Find(s, until) == dropped + Find(conn.input, until)
      decreases |conn.input|
    {
      var rv, c := conn.RecvByte();
      if rv == 0 {
        return EofReached;
      } else if rv == -1 {
        return Error;
      }
      if !b.guardsCount {
        return NullWrite;
      }
      if c == until {
        return CharFound;
      }
      dropped := dropped + 1;
    }
  }

  /** bw2_read_until_full: the array is filled whatever the sizes of the pieces. */
  method ReadUntilFull(conn: Conn, arr: array<byte>, at: nat, len: nat) returns (status: Status)
    requires at + len <= arr.Length
    modifies conn`input, arr
    ensures arr[..at] == old(arr[..at]) && arr[at + len..] == old(arr[at + len..])
    ensures var s := old(conn.input);
            if len <= |s| then
              status == ArrayFull && conn.input == s[len..] && arr[at..at + len] == s[..len]
            else
              status == EndStatus(conn.broken) && conn.input == [] && arr[at..at + |s|] == s
  {
    ghost var s := conn.input;
    var done := 0;
    while done != len
      invariant done <= len && done <= |s|
      invariant conn.input == s[done..]
      invariant arr[..at] == old(arr[..at]) && arr[at + len..] == old(arr[at + len..])
      invariant arr[at..at + done] == s[..done]
      decreases len - done
    {
      ghost var tail := arr[at + done..];
      var rv := conn.Recv(arr, at + done, len - done);
      if rv == 0 {
        return EofReached;
      } else if rv == -1 {
        return Error;
      }
      assert arr[..at] == arr[..at + done][..at] && arr[at..at + done] == arr[..at + done][at..];
      assert arr[at..at + done + rv] == arr[at..at + done] + arr[at + done..at + done + rv];
      assert arr[at + len..] == arr[at + done + rv..][len - done - rv..] == tail[len - done..];
      done := done + rv;
    }
    status := ArrayFull;
  }

  /** bw2_drop_full_array */
  method DropFullArray(conn: Conn, len: nat) returns (status: Status)
    modifies conn`input
    ensures var s := old(conn.input);
            if len <= |s| then status == ArrayFull && conn.input == s[len..]
            else status == EndStatus(conn.broken) && conn.input == []
  {
    ghost var s := conn.input;
    var left := len;
    while left != 0
      invariant 0 <= left <= len && len - left <= |s| && conn.input == s[len - left..]
      decreases left
    {
      var rv, _ := conn.RecvByte();
      if rv == 0 {
        return EofReached;
      } else if rv == -1 {
        return Error;
      }
      left := left - rv;
    }
    status := ArrayFull;
  }

  // ---------- sending ----------

  function Sum(parts: seq<nat>): nat {
    if parts == [] then 0 else Sum(parts[..|parts| - 1]) + parts[|parts| - 1]
  }

  /** Sizes that successive sends may accept of `len` bytes. */
  predicate Parts(len: nat, parts: seq<nat>) {
    (forall i :: 0 <= i < |parts| ==> parts[i] >= 1) && Sum(parts) <= len
  }

  /** What reaches the wire when successive sends accept `parts` bytes of `arr`: with the
      pointer moved on, each part continues the last; as written each starts over. */
  function Sent(b: Build, arr: bytes, parts: seq<nat>): bytes
    requires Parts(|arr|, parts)
  {
    if parts == [] then []
    else
      var front, n := parts[..|parts| - 1], parts[|parts| - 1];
      Sent(b, arr, front) + (if b.advancesSend then arr[Sum(front)..Sum(parts)] else arr[..n])
  }

  function Piece(b: Build, arr: bytes, written: nat): (piece: bytes)
    requires written <= |arr|
    ensures |piece| == |arr| - written
  {
    if b.advancesSend then arr[written..] else arr[..|arr| - written]
  }

  lemma SentSnoc(b: Build, arr: bytes, parts: seq<nat>, n: nat)
    requires Parts(|arr|, parts) && 1 <= n <= |arr| - Sum(parts)
    ensures Sum(parts + [n]) == Sum(parts) + n && Parts(|arr|, parts + [n])
    ensures Sent(b, arr, parts + [n]) == Sent(b, arr, parts) + Piece(b, arr, Sum(parts))[..n]
  {
    assert (parts + [n])[..|parts|] == parts;
    assert Piece(b, arr, Sum(parts))[..n] == if b.advancesSend then arr[Sum(parts)..Sum(parts) + n] else arr[..n];
  }

  /** Sends that move on, and sends of one repeated byte, put a prefix of the array on the wire. */
  lemma {:induction false} FaithfulSend(b: Build, arr: bytes, parts: seq<nat>)
    requires Parts(|arr|, parts) && (b.advancesSend || Uniform(arr))
    ensures Sent(b, arr, parts) == arr[..Sum(parts)]
  {
    if parts != [] {
      FaithfulSend(b, arr, parts[..|parts| - 1]);
    }
  }

  /** A send that takes everything at once is exact in any case. */
  lemma UnsplitSend(b: Build, arr: bytes, parts: seq<nat>)
    requires Parts(|arr|, parts) && |parts| <= 1
    ensures Sent(b, arr, parts) == arr[..Sum(parts)]
  {
    if parts != [] {
      assert parts[..0] == [] && Sum(parts) == parts[0];
    }
  }

  predicate Uniform(arr: bytes) {
    forall i :: 0 <= i < |arr| ==> arr[i] == arr[0]
  }

  /** One byte per send repeats the first byte of the array. */
  lemma {:induction false} RestartedSend(b: Build, arr: bytes, n: nat) returns (parts: seq<nat>)
    requires n <= |arr| && !b.advancesSend
    ensures Parts(|arr|, parts) && Sum(parts) == n && |Sent(b, arr, parts)| == n
    ensures forall i :: 0 <= i < n ==> Sent(b, arr, parts)[i] == arr[0]
  {
    if n == 0 {
      parts := [];
    } else {
      var front := RestartedSend(b, arr, n - 1);
      parts := front + [1];
      assert parts[..|parts| - 1] == front;
    }
  }

  /** A full write puts exactly the array on the wire, for every way `send` may split it, if
      and only if the pointer advances or all bytes of the array are the same. */
  lemma {:induction false} FullWriteIsExact(b: Build, arr: bytes)
    ensures (forall parts | Parts(|arr|, parts) && Sum(parts) == |arr| :: Sent(b, arr, parts) == arr)
            <==> b.advancesSend || Uniform(arr)
  {
    if b.advancesSend || Uniform(arr) {
      forall parts | Parts(|arr|, parts) && Sum(parts) == |arr| ensures Sent(b, arr, parts) == arr {
        FaithfulSend(b, arr, parts);
      }
    } else {
      var parts := RestartedSend(b, arr, |arr|);
      var i :| 0 <= i < |arr| && arr[i] != arr[0];
      assert Sent(b, arr, parts)[i] != arr[i];
    }
  }

  lemma NothingSent(b: Build, arr: bytes)
    ensures Parts(|arr|, []) && Sum([]) == 0 && Sent(b, arr, []) == []
  {
  }

  /** bw2_write_full_array */
  method WriteFullArray(b: Build, conn: Conn, arr: bytes) returns (rv: int, ghost parts: seq<nat>)
    modifies conn`output
    ensures Parts(|arr|, parts) && conn.output == old(conn.output) + Sent(b, arr, parts)
    ensures if Sum(parts) == |arr| then rv == 0 else rv == -1
    ensures b.advancesSend || |parts| <= 1 ==> conn.output == old(conn.output) + arr[..Sum(parts)]
  {
    hide Sent, Parts, Sum, Piece;
    NothingSent(b, arr);
    var written := 0;
    parts := [];
    while written != |arr|
      invariant written <= |arr| && Parts(|arr|, parts) && Sum(parts) == written
      invariant conn.output == old(conn.output) + Sent(b, arr, parts)
      decreases |arr| - written
    {
      var n := conn.Send(Piece(b, arr, written));
      if n == -1 {
        rv := -1;
        break;
      }
      SentSnoc(b, arr, parts, n);
      parts := parts + [n];
      written := written + n;
    }
    if written == |arr| {
      rv := 0;
    }
    if b.advancesSend {
      FaithfulSend(b, arr, parts);
    } else if |parts| <= 1 {
      UnsplitSend(b, arr, parts);
    }
  }
}
