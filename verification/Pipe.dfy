/** A sender that appends to its output buffer and calls writen, a receiver that calls readn, and a
    bounded byte pipe between them, interleaved system call by system call. */
module Pipe {
  import opened PartialIO

  datatype Writer = Resting | Writing(writeSum: nat)

  datatype State = State(
    sbuff: seq<byte>,      // the sender's buffer
    writer: Writer,        // whether the sender is inside writen, and how far
    pipe: seq<byte>,
    capacity: nat,
    inBuffer: seq<byte>,   // the receiver's buffer
    appended: seq<byte>)   // everything ever appended to sbuff

  datatype Event =
    | Append(bytes: seq<byte>)   // between calls of writen
    | Start                      // writen is called
    | Write(n: nat)              // one write takes n bytes (none: interrupted, or a count of zero)
    | Stop                       // writen returns a count: everything is sent, or EAGAIN
    | Fail                       // writen returns -1
    | Read(n: nat)               // one read of readn delivers n bytes

  predicate Enabled(s: State, e: Event) {
    match e
    case Append(_) => s.writer.Resting?
    case Start => s.writer.Resting?
    case Write(n) => s.writer.Writing? && s.writer.writeSum + n <= |s.sbuff| && |s.pipe| + n <= s.capacity
    case Stop => s.writer.Writing? && s.writer.writeSum <= |s.sbuff|
    case Fail => s.writer.Writing? && s.writer.writeSum < |s.sbuff|
    case Read(n) => n <= |s.pipe| && n <= MAX_BUFF
  }

  function Apply(s: State, e: Event): State
    requires Enabled(s, e)
  {
    match e
    case Append(bytes) => s.(sbuff := s.sbuff + bytes, appended := s.appended + bytes)
    case Start => s.(writer := Writing(0))
    case Write(n) =>
      var w := s.writer.writeSum;
      s.(pipe := s.pipe + s.sbuff[w..w + n], writer := Writing(w + n))
    case Stop => s.(sbuff := Leftover(s.sbuff, s.writer.writeSum), writer := Resting)
    case Fail => s.(writer := Resting)
    case Read(n) => s.(inBuffer := s.inBuffer + s.pipe[..n], pipe := s.pipe[n..])
  }

  predicate Legal(s: State, es: seq<Event>)
    decreases es
  {
    es == [] || (Enabled(s, es[0]) && Legal(Apply(s, es[0]), es[1..]))
  }

  function Exec(s: State, es: seq<Event>): State
    requires Legal(s, es)
    decreases es
  {
    if es == [] then s else Exec(Apply(s, es[0]), es[1..])
  }

  /** What the sender has not handed over yet. */
  function Unsent(s: State): seq<byte> {
    if s.writer.Resting? then s.sbuff
    else if s.writer.writeSum <= |s.sbuff| then s.sbuff[s.writer.writeSum..]
    else []
  }

  /** Everything ever appended is: received, then in flight, then unsent. */
  predicate Conserved(s: State) {
    && (s.writer.Writing? ==> s.writer.writeSum <= |s.sbuff|)
    && |s.pipe| <= s.capacity
    && s.appended == s.inBuffer + s.pipe + Unsent(s)
  }

  lemma AppendConserves(s: State, bytes: seq<byte>)
    requires Conserved(s) && Enabled(s, Append(bytes))
    ensures Conserved(Apply(s, Append(bytes)))
  {}

  lemma WriteConserves(s: State, n: nat)
    requires Conserved(s) && Enabled(s, Write(n))
    ensures Conserved(Apply(s, Write(n)))
  {}

  lemma ReadConserves(s: State, n: nat)
    requires Conserved(s) && Enabled(s, Read(n))
    ensures Conserved(Apply(s, Read(n)))
  {}

  lemma StepConserves(s: State, e: Event)
    requires Conserved(s) && Enabled(s, e) && !e.Stop? && !e.Fail?
    ensures Conserved(Apply(s, e))
  {
    match e
    case Append(bytes) => AppendConserves(s, bytes);
    case Write(n) => WriteConserves(s, n);
    case Read(n) => ReadConserves(s, n);
    case Start => assert s.sbuff[0..] == s.sbuff;
  }

  /** writen that returns a count keeps the bytes exactly when it does not drop a multiple of 4 GiB. */
  lemma StopConservesExactly(s: State)
    requires Conserved(s) && Enabled(s, Stop)
    ensures Conserved(Apply(s, Stop)) <==> !Drops(|s.sbuff|, s.writer.writeSum)
  {}

  /** writen that returns -1 keeps the bytes exactly when no byte was delivered before the error:
      otherwise the delivered ones are still in the buffer, and will be sent again. */
  lemma FailConservesExactly(s: State)
    requires Conserved(s) && Enabled(s, Fail)
    ensures Conserved(Apply(s, Fail)) <==> s.writer.writeSum == 0
    ensures Unsent(Apply(s, Fail)) == s.sbuff[..s.writer.writeSum] + Unsent(s)
  {}

  /** No call of writen in the run drops a multiple of 4 GiB. */
  predicate NoDrop(s: State, es: seq<Event>)
    requires Legal(s, es)
    decreases es
  {
    es == [] ||
    ((es[0].Stop? ==> !Drops(|s.sbuff|, s.writer.writeSum)) && NoDrop(Apply(s, es[0]), es[1..]))
  }

  /** No call of writen in the run returns -1 after it has delivered something. */
  predicate NoLateFail(s: State, es: seq<Event>)
    requires Legal(s, es)
    decreases es
  {
    es == [] || ((es[0].Fail? ==> s.writer.writeSum == 0) && NoLateFail(Apply(s, es[0]), es[1..]))
  }

  /** Neither happens. */
  predicate Sound(s: State, es: seq<Event>)
    requires Legal(s, es)
  {
    NoDrop(s, es) && NoLateFail(s, es)
  }

  /** For any interleaving of appends, writes and reads over a bounded pipe: no byte is lost, duplicated
      or reordered. */
  lemma {:induction false} PipeConserves(s: State, es: seq<Event>)
    requires Conserved(s) && Legal(s, es) && Sound(s, es)
    ensures Conserved(Exec(s, es))
    decreases es
  {
    if es != [] {
      match es[0] {
        case Stop => StopConservesExactly(s);
        case Fail => FailConservesExactly(s);
        case _ => StepConserves(s, es[0]);
      }
      PipeConserves(Apply(s, es[0]), es[1..]);
    }
  }

  /** By how much the bytes received, in flight and unsent outnumber those appended. */
  function Surplus(s: State): int {
    |s.inBuffer| + |s.pipe| + |Unsent(s)| - |s.appended|
  }

  predicate InRange(s: State) {
    s.writer.Writing? ==> s.writer.writeSum <= |s.sbuff|
  }

  lemma SurplusStep(s: State, e: Event)
    requires InRange(s) && Enabled(s, e) && (e.Stop? ==> !Drops(|s.sbuff|, s.writer.writeSum))
    ensures InRange(Apply(s, e))
    ensures Surplus(Apply(s, e)) == Surplus(s) + if e.Fail? then s.writer.writeSum else 0
  {
    match e
    case Stop => DropsExactly(s.sbuff, s.writer.writeSum);
    case Write(n) => WriteSurplus(s, n);
    case Read(n) => ReadSurplus(s, n);
    case _ =>
  }

  lemma WriteSurplus(s: State, n: nat)
    requires InRange(s) && Enabled(s, Write(n))
    ensures Surplus(Apply(s, Write(n))) == Surplus(s)
  {}

  lemma ReadSurplus(s: State, n: nat)
    requires Enabled(s, Read(n))
    ensures Surplus(Apply(s, Read(n))) == Surplus(s)
  {}

  /** A late failure sends bytes a second time, and nothing ever makes up for that. */
  lemma {:induction false} SurplusStays(s: State, es: seq<Event>)
    requires InRange(s) && Legal(s, es) && NoDrop(s, es)
    ensures Surplus(Exec(s, es)) >= Surplus(s)
    ensures !NoLateFail(s, es) ==> Surplus(Exec(s, es)) > Surplus(s)
    decreases es
  {
    if es != [] {
      SurplusStep(s, es[0]);
      SurplusStays(Apply(s, es[0]), es[1..]);
    }
  }

  /** So where no 4 GiB are dropped, a run conserves the bytes if and only if no writen fails late. */
  lemma PipeConservesExactly(s: State, es: seq<Event>)
    requires Conserved(s) && Legal(s, es) && NoDrop(s, es)
    ensures Conserved(Exec(s, es)) <==> NoLateFail(s, es)
  {
    if NoLateFail(s, es) {
      PipeConserves(s, es);
    } else {
      SurplusStays(s, es);
    }
  }

  /** The receiver only ever sees a prefix of what was appended, and everything once nothing is left. */
  lemma ReceiverSeesPrefix(s: State, es: seq<Event>)
    requires Conserved(s) && Legal(s, es) && Sound(s, es)
    ensures Exec(s, es).inBuffer <= Exec(s, es).appended
    ensures Exec(s, es).pipe == [] && Unsent(Exec(s, es)) == [] ==> Exec(s, es).inBuffer == Exec(s, es).appended
  {
    PipeConserves(s, es);
  }

  // ---------- The calls are such runs ----------

  /** The system calls of one writen, which gets results w from the k-th on, and of one readn, which
      gets results r from the m-th on, in the order es. A call without effect moves no byte. */
  predicate Calls(s: State, es: seq<Event>, w: nat -> WriteResult, k: nat, r: nat -> ReadResult, m: nat)
    requires Legal(s, es)
    decreases es
  {
    es == [] ||
    match es[0]
    case Write(n) =>
      && n == (if w(k).Took? then Min(w(k).n, |s.sbuff| - s.writer.writeSum) else 0)
      && Calls(Apply(s, es[0]), es[1..], w, k + 1, r, m)
    case Read(n) =>
      s.pipe[..n] == (if r(m).Got? then r(m).bytes else []) && Calls(Apply(s, es[0]), es[1..], w, k, r, m + 1)
    case _ => false
  }

  function Count(es: seq<Event>, write: bool): nat {
    if es == [] then 0 else
      (if (if write then es[0].Write? else es[0].Read?) then 1 else 0) + Count(es[1..], write)
  }

  lemma WriteCall(s: State, n: nat, w: nat -> WriteResult, k: nat)
    requires s.writer == Writing(Sent(w, |s.sbuff|, k)) && Enabled(s, Write(n))
    requires n == if w(k).Took? then Min(w(k).n, |s.sbuff| - s.writer.writeSum) else 0
    ensures var s' := Apply(s, Write(n));
            s'.sbuff == s.sbuff && s'.writer == Writing(Sent(w, |s.sbuff|, k + 1)) && s'.inBuffer == s.inBuffer
  {}

  lemma ReadCall(s: State, n: nat, r: nat -> ReadResult, m: nat, was: seq<byte>)
    requires s.inBuffer == was + Received(r, m) && Enabled(s, Read(n))
    requires s.pipe[..n] == if r(m).Got? then r(m).bytes else []
    ensures var s' := Apply(s, Read(n));
            s'.sbuff == s.sbuff && s'.writer == s.writer && s'.inBuffer == was + Received(r, m + 1)
  {
    assert Received(r, m + 1) == Received(r, m) + s.pipe[..n];
  }

  lemma {:induction false} SenderSide(
    s: State, es: seq<Event>, w: nat -> WriteResult, k: nat, r: nat -> ReadResult, m: nat)
    requires s.writer == Writing(Sent(w, |s.sbuff|, k))
    requires Legal(s, es) && Calls(s, es, w, k, r, m)
    ensures Exec(s, es).sbuff == s.sbuff
    ensures Exec(s, es).writer == Writing(Sent(w, |s.sbuff|, k + Count(es, true)))
    decreases es
  {
    if es != [] {
      if es[0].Write? {
        WriteCall(s, es[0].n, w, k);
        SenderSide(Apply(s, es[0]), es[1..], w, k + 1, r, m);
      } else {
        SenderSide(Apply(s, es[0]), es[1..], w, k, r, m + 1);
      }
    }
  }

  lemma {:induction false} ReceiverSide(
    s: State, es: seq<Event>, w: nat -> WriteResult, k: nat, r: nat -> ReadResult, m: nat, was: seq<byte>)
    requires s.inBuffer == was + Received(r, m)
    requires Legal(s, es) && Calls(s, es, w, k, r, m)
    ensures Exec(s, es).inBuffer == was + Received(r, m + Count(es, false))
    decreases es
  {
    if es != [] {
      if es[0].Read? {
        ReadCall(s, es[0].n, r, m, was);
        ReceiverSide(Apply(s, es[0]), es[1..], w, k, r, m + 1, was);
      } else {
        ReceiverSide(Apply(s, es[0]), es[1..], w, k + 1, r, m, was);
      }
    }
  }

  /** However the system calls of a writen and a readn interleave, what the two methods say of their
      results alone - the first Sent bytes delivered, Received appended to inBuffer - is what happens to
      the buffers at the two ends of the pipe; and what was in flight leaves it first. */
  lemma CallsInterleave(s: State, es: seq<Event>, w: nat -> WriteResult, r: nat -> ReadResult)
    requires Conserved(s) && s.writer == Writing(0)
    requires Legal(s, es) && Calls(s, es, w, 0, r, 0)
    ensures Exec(s, es).sbuff == s.sbuff
    ensures Exec(s, es).writer == Writing(Sent(w, |s.sbuff|, Count(es, true)))
    ensures Exec(s, es).inBuffer == s.inBuffer + Received(r, Count(es, false))
    ensures Received(r, Count(es, false)) + Exec(s, es).pipe
            == s.pipe + s.sbuff[..Sent(w, |s.sbuff|, Count(es, true))]
  {
    BothSides(s, es, w, r);
    LeavesFirst(s, es, w, r, Sent(w, |s.sbuff|, Count(es, true)), Received(r, Count(es, false)));
  }

  lemma BothSides(s: State, es: seq<Event>, w: nat -> WriteResult, r: nat -> ReadResult)
    requires s.writer == Writing(0) && Legal(s, es) && Calls(s, es, w, 0, r, 0)
    ensures Exec(s, es).sbuff == s.sbuff
    ensures Exec(s, es).writer == Writing(Sent(w, |s.sbuff|, Count(es, true)))
    ensures Exec(s, es).inBuffer == s.inBuffer + Received(r, Count(es, false))
  {
    assert Sent(w, |s.sbuff|, 0) == 0 && s.inBuffer + Received(r, 0) == s.inBuffer;
    SenderSide(s, es, w, 0, r, 0);
    ReceiverSide(s, es, w, 0, r, 0, s.inBuffer);
  }

  lemma LeavesFirst(
    s: State, es: seq<Event>, w: nat -> WriteResult, r: nat -> ReadResult, sent: nat, received: seq<byte>)
    requires Conserved(s) && s.writer == Writing(0) && Legal(s, es) && Calls(s, es, w, 0, r, 0)
    requires Exec(s, es).sbuff == s.sbuff && Exec(s, es).writer == Writing(sent)
    requires Exec(s, es).inBuffer == s.inBuffer + received && sent <= |s.sbuff|
    ensures received + Exec(s, es).pipe == s.pipe + s.sbuff[..sent]
  {
    Through(s, es, w, 0, r, 0);
    InFlight(s, Exec(s, es), sent, received);
  }

  lemma InFlight(s: State, s': State, sent: nat, received: seq<byte>)
    requires Conserved(s) && s.writer == Writing(0) && Conserved(s') && s'.writer == Writing(sent)
    requires s'.sbuff == s.sbuff && s'.appended == s.appended && s'.inBuffer == s.inBuffer + received
    ensures received + s'.pipe == s.pipe + s.sbuff[..sent]
  {
    Cancel(s.inBuffer, s.pipe, s.sbuff, sent, received, s'.pipe);
  }

  lemma Cancel(
    before: seq<byte>, pipe: seq<byte>, sbuff: seq<byte>, sent: nat, received: seq<byte>, pipe': seq<byte>)
    requires sent <= |sbuff|
    requires before + pipe + sbuff == (before + received) + pipe' + sbuff[sent..]
    ensures received + pipe' == pipe + sbuff[..sent]
  {
    var all := before + pipe + sbuff;
    assert |received + pipe'| == |pipe| + sent;
    assert pipe + sbuff[..sent] == all[|before|..][..|pipe| + sent];
    assert received + pipe' == all[|before|..][..|pipe| + sent];
  }

  /** A writen and a readn move bytes through the pipe; they append none and lose none. */
  lemma {:induction false} Through(
    s: State, es: seq<Event>, w: nat -> WriteResult, k: nat, r: nat -> ReadResult, m: nat)
    requires Conserved(s) && s.writer.Writing? && Legal(s, es) && Calls(s, es, w, k, r, m)
    ensures Conserved(Exec(s, es)) && Exec(s, es).writer.Writing? && Exec(s, es).appended == s.appended
    decreases es
  {
    if es != [] {
      StepConserves(s, es[0]);
      if es[0].Write? {
        Through(Apply(s, es[0]), es[1..], w, k + 1, r, m);
      } else {
        Through(Apply(s, es[0]), es[1..], w, k, r, m + 1);
      }
    }
  }
}
