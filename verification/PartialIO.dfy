/** readn and the two writen loops against an adversarial operating system: short counts, writes of
    nothing, interruptions, EAGAIN, end of file and errors, in any order. */
module PartialIO {

  type byte = bv8

  const MAX_BUFF: nat := 4096

  // ---------- The operating system ----------

  /** What one read returns: between one byte and a buffer full, end of file, or an errno. */
  datatype ReadResult = Got(bytes: seq<byte>) | Eof | ReadIntr | ReadAgain | ReadFail

  /** What one write returns. Of an offer of n bytes the system takes at most n. */
  datatype WriteResult = Took(n: nat) | WriteIntr | WriteAgain | WriteFail

  predicate PlausibleRead(r: ReadResult) {
    r.Got? ==> 0 < |r.bytes| <= MAX_BUFF
  }

  predicate EndsRead(r: ReadResult) {
    r.Eof? || r.ReadAgain? || r.ReadFail?
  }

  predicate EndsWrite(r: WriteResult) {
    r.WriteAgain? || r.WriteFail?
  }

  /** A result that brings a write loop closer to its end. */
  predicate Progresses(r: WriteResult) {
    EndsWrite(r) || (r.Took? && r.n > 0)
  }

  /** Only finitely many results make no progress. */
  ghost predicate ProgressesFrom(os: nat -> WriteResult, n: nat) {
    forall i: nat :: i >= n ==> Progresses(os(i))
  }

  function Min(a: nat, b: nat): nat {
    if a < b then a else b
  }

  // ---------- readn ----------

  /** What the first k reads deliver. */
  function Received(os: nat -> ReadResult, k: nat): seq<byte> {
    if k == 0 then [] else Received(os, k - 1) + if os(k - 1).Got? then os(k - 1).bytes else []
  }

  /** The loop is over at result k, and not before. */
  ghost predicate ReadEndsAt(os: nat -> ReadResult, k: nat) {
    EndsRead(os(k)) && forall i: nat :: i < k ==> !EndsRead(os(i))
  }

  /** The first k results without the interruptions. */
  function Essential(os: nat -> ReadResult, k: nat): seq<ReadResult> {
    if k == 0 then [] else Essential(os, k - 1) + if os(k - 1).ReadIntr? then [] else [os(k - 1)]
  }

  function Bytes(rs: seq<ReadResult>): seq<byte> {
    if rs == [] then [] else
      var r := rs[|rs| - 1];
      Bytes(rs[..|rs| - 1]) + if r.Got? then r.bytes else []
  }

  lemma {:induction false} ReceivedIsEssential(os: nat -> ReadResult, k: nat)
    ensures Received(os, k) == Bytes(Essential(os, k))
  {
    if k > 0 {
      ReceivedIsEssential(os, k - 1);
      var e, r := Essential(os, k - 1), os(k - 1);
      if r.ReadIntr? {
        assert e + [] == e && Received(os, k - 1) + [] == Received(os, k - 1);
      } else {
        assert (e + [r])[..|e|] == e && (e + [r])[|e|] == r;
        assert Bytes(e + [r]) == Bytes(e) + if r.Got? then r.bytes else [];
      }
    }
  }

  /** Interruptions make no difference: two sequences of results that are the same without them, up to and
      with the result that ends each, deliver the same bytes and end in the same way. */
  lemma InterruptionsDontMatter(os1: nat -> ReadResult, k1: nat, os2: nat -> ReadResult, k2: nat)
    requires ReadEndsAt(os1, k1) && ReadEndsAt(os2, k2)
    requires Essential(os1, k1 + 1) == Essential(os2, k2 + 1)
    ensures Received(os1, k1) == Received(os2, k2) && os1(k1) == os2(k2)
  {
    ReceivedIsEssential(os1, k1);
    ReceivedIsEssential(os2, k2);
    var e1, e2 := Essential(os1, k1), Essential(os2, k2);
    assert e1 + [os1(k1)] == e2 + [os2(k2)];
    assert e1 == (e1 + [os1(k1)])[..|e1|] && e2 == (e2 + [os2(k2)])[..|e2|];
    assert (e1 + [os1(k1)])[|e1|] == os1(k1) && (e2 + [os2(k2)])[|e2|] == os2(k2);
  }

  // ---------- writen ----------

  /** What the counts of the first k results add up to. */
  function Taken(os: nat -> WriteResult, k: nat): nat {
    if k == 0 then 0 else Taken(os, k - 1) + if os(k - 1).Took? then os(k - 1).n else 0
  }

  /** How much of total bytes the first k writes deliver. */
  function Sent(os: nat -> WriteResult, total: nat, k: nat): (sent: nat)
    ensures sent <= total
  {
    Min(Taken(os, k), total)
  }

  /** Conversion of a size to int. */
  function Int32(x: nat): int {
    (x + 0x8000_0000) % 0x1_0000_0000 - 0x8000_0000
  }

  /** What writen leaves of a string of which writeSum bytes were sent: it compares writeSum with the
      size converted to int. */
  function Leftover(s: seq<byte>, writeSum: nat): seq<byte>
    requires writeSum <= |s|
  {
    if writeSum == Int32(|s|) then [] else s[writeSum..]
  }

  /** The unsent part of size bytes is a positive multiple of 4 GiB, and less than 2 GiB were sent. */
  predicate Drops(size: nat, writeSum: nat) {
    writeSum < size && (size - writeSum) % 0x1_0000_0000 == 0 && writeSum < 0x8000_0000
  }

  /** The comparison through int drops unsent bytes exactly then. */
  lemma DropsExactly(s: seq<byte>, writeSum: nat)
    requires writeSum <= |s|
    ensures Leftover(s, writeSum) != s[writeSum..] <==> Drops(|s|, writeSum)
  {}

  /** Whether a string can lose bytes at all shows before the call: there is a count at which it does
      exactly when it has at least 4 GiB and its size beyond a multiple of 4 GiB is less than 2 GiB; and
      that excess is then such a count. */
  lemma CanDropExactly(s: seq<byte>)
    ensures (exists w: nat :: w <= |s| && Leftover(s, w) != s[w..])
            <==> (|s| >= 0x1_0000_0000 && |s| % 0x1_0000_0000 < 0x8000_0000)
    ensures |s| >= 0x1_0000_0000 && |s| % 0x1_0000_0000 < 0x8000_0000 ==>
              Leftover(s, |s| % 0x1_0000_0000) != s[|s| % 0x1_0000_0000..]
  {
    forall w: nat | w <= |s| ensures Leftover(s, w) != s[w..] <==> Drops(|s|, w) {
      DropsExactly(s, w);
    }
    if |s| >= 0x1_0000_0000 && |s| % 0x1_0000_0000 < 0x8000_0000 {
      var w := |s| % 0x1_0000_0000;
      assert Drops(|s|, w);
      assert Leftover(s, w) != s[w..];
    }
  }

  /** Below 4 GiB nothing is ever dropped. */
  lemma SmallBuffersAreSafe(s: seq<byte>, writeSum: nat)
    requires writeSum <= |s| < 0x1_0000_0000
    ensures Leftover(s, writeSum) == s[writeSum..]
  {}

  /** A string of exactly 4 GiB, met by EAGAIN at once, is lost entirely. */
  lemma FourGiBAreLost(s: seq<byte>)
    requires |s| == 0x1_0000_0000
    ensures Leftover(s, 0) == []
  {}

  // ---------- The loops ----------

  /** A connection and its two buffers. */
  class Connection {
    var inBuffer: seq<byte>
    var outBuffer: seq<byte>

    constructor ()
      ensures inBuffer == [] && outBuffer == []
    {
      inBuffer, outBuffer := [], [];
    }

    /** Read until something ends it. Everything that was delivered is in inBuffer, also when the result
        is -1; zero is set only at end of file. k is the number of results consumed before the last: an
        interruption ends nothing, and end of file, EAGAIN or an error ends it at once. */
    method Readn(os: nat -> ReadResult, zeroIn: bool) returns (readSum: int, zero: bool, ghost k: nat)
      requires exists n: nat :: EndsRead(os(n))
      requires forall i: nat :: PlausibleRead(os(i))
      modifies this`inBuffer
      ensures ReadEndsAt(os, k)
      ensures os(k).Eof? || os(k).ReadAgain? || os(k).ReadFail?
      ensures forall i: nat :: i < k ==> os(i).Got? || os(i).ReadIntr?
      ensures inBuffer == old(inBuffer) + Received(os, k)
      ensures zero == (zeroIn || os(k).Eof?)
      ensures readSum == if os(k).ReadFail? then -1 else |Received(os, k)|
    {
      ghost var n: nat :| EndsRead(os(n));
      readSum, zero := 0, zeroIn;
      k := 0;
      var i := 0;
      while true
        invariant i == k <= n && zero == zeroIn
        invariant forall j: nat :: j < k ==> !EndsRead(os(j)) && (os(j).Got? || os(j).ReadIntr?)
        invariant inBuffer == old(inBuffer) + Received(os, k)
        invariant readSum == |Received(os, k)|
        decreases n - k
      {
        var r := os(i);
        match r {
          case ReadIntr =>
            i, k := i + 1, k + 1;
          case ReadAgain =>
            return;
          case ReadFail =>
            readSum := -1;
            return;
          case Eof =>
            zero := true;
            return;
          case Got(bytes) =>
            readSum := readSum + |bytes|;
            inBuffer := inBuffer + bytes;
            i, k := i + 1, k + 1;
        }
      }
    }

    /** writen on the output buffer. The bytes delivered are exactly the first Sent of it, in order,
        whatever the outcome; short of an error it stops early only on EAGAIN; and what it leaves in the
        buffer is the rest on success, and everything - also what was delivered - on an error. */
    method WritenBuffer(os: nat -> WriteResult) returns (writeSum: int, delivered: seq<byte>, ghost k: nat)
      requires exists n: nat :: ProgressesFrom(os, n)
      modifies this`outBuffer
      ensures forall i: nat :: i < k ==> os(i).Took? || os(i).WriteIntr?
      ensures k > 0 ==> Taken(os, k - 1) < |old(outBuffer)|
      ensures Taken(os, k) >= |old(outBuffer)| || os(k).WriteAgain? || os(k).WriteFail?
      ensures delivered <= old(outBuffer)
      ensures |delivered| == if Taken(os, k) < |old(outBuffer)| then Taken(os, k) else |old(outBuffer)|
      ensures writeSum == -1 <==> Taken(os, k) < |old(outBuffer)| && os(k).WriteFail?
      ensures writeSum != -1 ==> writeSum == |delivered| && outBuffer == Leftover(old(outBuffer), writeSum)
      ensures writeSum != -1 && writeSum < |old(outBuffer)| ==> os(k).WriteAgain?
      ensures writeSum == -1 ==> outBuffer == old(outBuffer)
    {
      writeSum, delivered, k := WriteLoop(os, outBuffer);
      if writeSum == -1 {
        return;
      }
      if writeSum == Int32(|outBuffer|) {
        outBuffer := [];
      } else {
        outBuffer := outBuffer[writeSum..];
      }
    }
  }

  /** The loop that both overloads of writen share, which is all of writen(fd, buff, n). It keeps
      writeSum + nleft == n, and terminates when only finitely many results make no progress; k is the
      number of results it consumes before the last. */
  method WriteLoop(os: nat -> WriteResult, buff: seq<byte>) returns (writeSum: int, delivered: seq<byte>, k: nat)
    requires exists n: nat :: ProgressesFrom(os, n)
    ensures forall i: nat :: i < k ==> os(i).Took? || os(i).WriteIntr?
    ensures k > 0 ==> Taken(os, k - 1) < |buff|
    ensures Taken(os, k) >= |buff| || os(k).WriteAgain? || os(k).WriteFail?
    ensures delivered <= buff && |delivered| == if Taken(os, k) < |buff| then Taken(os, k) else |buff|
    ensures writeSum == if Taken(os, k) < |buff| && os(k).WriteFail? then -1 else |delivered|
  {
    ghost var n: nat :| ProgressesFrom(os, n);
    var nleft := |buff|;
    var ptr := 0;
    writeSum, delivered, k := 0, [], 0;
    while nleft > 0
      invariant writeSum + nleft == |buff| && ptr == writeSum && 0 <= nleft
      invariant if nleft > 0 then writeSum == Taken(os, k) else Taken(os, k) >= |buff|
      invariant delivered == buff[..ptr]
      invariant forall j: nat :: j < k ==> os(j).Took? || os(j).WriteIntr?
      invariant k > 0 ==> Taken(os, k - 1) < |buff|
      decreases if k < n then n - k else 0, nleft
    {
      var r := os(k);
      assert k >= n ==> Progresses(r);
      assert Taken(os, k + 1) == Taken(os, k) + if r.Took? then r.n else 0;
      match r {
        case WriteIntr =>
        case WriteAgain =>
          return;
        case WriteFail =>
          writeSum := -1;
          return;
        case Took(m) =>
          var nwritten := Min(m, nleft);
          assert buff[..ptr + nwritten] == buff[..ptr] + buff[ptr..ptr + nwritten];
          delivered := delivered + buff[ptr..ptr + nwritten];
          writeSum := writeSum + nwritten;
          nleft := nleft - nwritten;
          ptr := ptr + nwritten;
      }
      k := k + 1;
    }
  }
}
