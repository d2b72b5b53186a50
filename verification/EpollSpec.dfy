/** The registration table and the interest-mask caches, as values: what each operation does to the
    table, the channels and the kernel, and what every run of operations keeps. Channels are identified
    by values of a type C. */
module EpollSpec {

  type Mask = bv32

  const EPOLLIN: Mask := 0x1
  const EPOLLPRI: Mask := 0x2
  const EPOLLOUT: Mask := 0x4
  const EPOLLERR: Mask := 0x8
  const EPOLLHUP: Mask := 0x10
  const EPOLLRDHUP: Mask := 0x2000
  const EPOLLONESHOT: Mask := 0x4000_0000
  const EPOLLET: Mask := 0x8000_0000

  predicate OneShot(m: Mask) {
    m & EPOLLONESHOT != 0
  }

  /** The fields of a channel that matter here. */
  datatype Chan = Chan(fd: nat, events: Mask, revents: Mask, last: Mask)

  /** A kernel registration: the interest mask, and whether it can still fire. A one-shot registration
      is disarmed by the first report and rearmed only by EPOLL_CTL_MOD. */
  datatype Reg = Reg(mask: Mask, armed: bool)

  datatype Table<!C(==)> = Table(fd2chan: map<nat, C>, chans: map<C, Chan>, kernel: map<nat, Reg>)

  /** One entry of the buffer that epoll_wait fills. */
  datatype Report = Report(fd: nat, mask: Mask)

  /** An operation; ok says whether the kernel is willing to perform the system call, should it be
      made and be permissible. */
  datatype Op<!C(==)> =
    | Add(c: C, ok: bool)
    | Mod(c: C, ok: bool)
    | Del(c: C, ok: bool)
    | SetEvents(c: C, events: Mask)
    | Dispatch(reports: seq<Report>)
    | SetFd(c: C, fd: nat)
    | Close(fd: nat)

  function Assign<C(==)>(s: Table<C>, c: C, ch: Chan): Table<C> {
    s.(chans := s.chans[c := ch])
  }

  function Unmap<C(==)>(s: Table<C>, fd: nat): Table<C> {
    s.(fd2chan := s.fd2chan - {fd})
  }

  // ---------- The kernel ----------

  /** EPOLL_CTL_ADD fails on a registered descriptor, the other two on an unregistered one. */
  predicate CanAdd(kernel: map<nat, Reg>, fd: nat, ok: bool) { ok && fd !in kernel }
  predicate CanChange(kernel: map<nat, Reg>, fd: nat, ok: bool) { ok && fd in kernel }

  /** epoll_wait reports a descriptor at most once, and only one that is registered and armed. */
  predicate Deliverable(kernel: map<nat, Reg>, reports: seq<Report>) {
    && (forall i :: 0 <= i < |reports| ==> reports[i].fd in kernel && kernel[reports[i].fd].armed)
    && (forall i, j :: 0 <= i < j < |reports| ==> reports[i].fd != reports[j].fd)
  }

  function Reported(reports: seq<Report>): set<nat> {
    set r <- reports :: r.fd
  }

  function AfterReport(kernel: map<nat, Reg>, reports: seq<Report>): map<nat, Reg> {
    map fd | fd in kernel ::
      if fd in Reported(reports) && OneShot(kernel[fd].mask) then Reg(kernel[fd].mask, false) else kernel[fd]
  }

  // ---------- The operations ----------

  /** epoll_add: the cache is updated and the table filled before the call, and emptied if it fails. */
  function AddOp<C(==)>(s: Table<C>, c: C, ok: bool): Table<C>
    requires c in s.chans
  {
    var ch := s.chans[c];
    var s1 := Assign(s, c, ch.(last := ch.events));
    if CanAdd(s.kernel, ch.fd, ok) then
      s1.(fd2chan := s.fd2chan[ch.fd := c], kernel := s.kernel[ch.fd := Reg(ch.events, true)])
    else Unmap(s1, ch.fd)
  }

  /** EPOLL_CTL_MOD and what follows it. */
  function ModCall<C(==)>(s: Table<C>, ch: Chan, ok: bool): Table<C> {
    if CanChange(s.kernel, ch.fd, ok) then s.(kernel := s.kernel[ch.fd := Reg(ch.events, true)])
    else Unmap(s, ch.fd)
  }

  /** epoll_mod: the call is skipped if the cache says that nothing changed. */
  function ModOp<C(==)>(s: Table<C>, c: C, ok: bool): Table<C>
    requires c in s.chans
  {
    var ch := s.chans[c];
    var s1 := Assign(s, c, ch.(last := ch.events));
    if ch.last == ch.events then s1 else ModCall(s1, ch, ok)
  }

  /** epoll_mod without the shortcut. */
  function ModAlways<C(==)>(s: Table<C>, c: C, ok: bool): Table<C>
    requires c in s.chans
  {
    var ch := s.chans[c];
    ModCall(Assign(s, c, ch.(last := ch.events)), ch, ok)
  }

  /** epoll_del: the table entry goes, whatever the kernel says. */
  function DelOp<C(==)>(s: Table<C>, c: C, ok: bool): Table<C>
    requires c in s.chans
  {
    var fd := s.chans[c].fd;
    var s1 := Unmap(s, fd);
    if CanChange(s.kernel, fd, ok) then s1.(kernel := s.kernel - {fd}) else s1
  }

  /** getEventsRequest on one buffer entry. */
  function Mark<C(==)>(s: Table<C>, r: Report): Table<C>
    requires Closed(s)
  {
    if r.fd in s.fd2chan then
      var c := s.fd2chan[r.fd];
      Assign(s, c, s.chans[c].(revents := r.mask, events := 0))
    else s
  }

  function MarkAll<C(==)>(s: Table<C>, reports: seq<Report>): (s': Table<C>)
    requires Closed(s)
    ensures Closed(s') && s'.fd2chan == s.fd2chan && s'.kernel == s.kernel && s'.chans.Keys == s.chans.Keys
    decreases reports
  {
    if reports == [] then s else MarkAll(Mark(s, reports[0]), reports[1..])
  }

  /** The channels getEventsRequest returns: those of the mapped descriptors, in order of report. */
  function Active<C(==)>(fd2chan: map<nat, C>, reports: seq<Report>): seq<C> {
    if reports == [] then []
    else if reports[0].fd in fd2chan then [fd2chan[reports[0].fd]] + Active(fd2chan, reports[1..])
    else Active(fd2chan, reports[1..])
  }

  function DispatchOp<C(==)>(s: Table<C>, reports: seq<Report>): Table<C>
    requires Closed(s)
  {
    MarkAll(s, reports).(kernel := AfterReport(s.kernel, reports))
  }

  // ---------- Runs ----------

  /** The table only holds channels that exist. */
  predicate Closed<C(==)>(s: Table<C>) {
    forall fd :: fd in s.fd2chan ==> s.fd2chan[fd] in s.chans
  }

  predicate Mapped<C(==)>(s: Table<C>, c: C) {
    c in s.chans && s.chans[c].fd in s.fd2chan && s.fd2chan[s.chans[c].fd] == c
  }

  /** The rules a program has to follow: no epoll_mod of a channel whose descriptor belongs to another
      channel in the table, no setFd of a channel in the table, no close of a descriptor in it. */
  predicate OpOk<C(==)>(s: Table<C>, op: Op<C>) {
    match op
    case Add(c, _) => c in s.chans
    case Mod(c, _) => c in s.chans && (s.chans[c].fd in s.fd2chan ==> Mapped(s, c))
    case Del(c, _) => c in s.chans
    case SetEvents(c, _) => c in s.chans
    case Dispatch(reports) => Deliverable(s.kernel, reports)
    case SetFd(c, _) => c in s.chans && !Mapped(s, c)
    case Close(fd) => fd !in s.fd2chan
  }

  function Apply<C(==)>(s: Table<C>, op: Op<C>): Table<C>
    requires Closed(s) && OpOk(s, op)
  {
    match op
    case Add(c, ok) => AddOp(s, c, ok)
    case Mod(c, ok) => ModOp(s, c, ok)
    case Del(c, ok) => DelOp(s, c, ok)
    case SetEvents(c, events) => Assign(s, c, s.chans[c].(events := events))
    case Dispatch(reports) => DispatchOp(s, reports)
    case SetFd(c, fd) => Assign(s, c, s.chans[c].(fd := fd))
    case Close(fd) => s.(kernel := s.kernel - {fd})
  }

  /** The table is right about the kernel: an entry for fd is a channel on fd, the kernel has fd
      registered with exactly the mask that channel cached, and unless the registration is one-shot it
      is armed. */
  ghost predicate Agrees<C>(s: Table<C>) {
    && Closed(s)
    && forall fd :: fd in s.fd2chan ==>
         var ch := s.chans[s.fd2chan[fd]];
         && ch.fd == fd
         && fd in s.kernel && s.kernel[fd].mask == ch.last
         && (s.kernel[fd].armed || OneShot(s.kernel[fd].mask))
  }

  ghost predicate Run<C(!new)>(s: Table<C>, ops: seq<Op<C>>)
    requires Agrees(s)
    decreases ops
  {
    ops == [] || (OpOk(s, ops[0]) && (StepAgrees(s, ops[0]); Run(Apply(s, ops[0]), ops[1..])))
  }

  ghost function After<C(!new)>(s: Table<C>, ops: seq<Op<C>>): Table<C>
    requires Agrees(s) && Run(s, ops)
    decreases ops
  {
    if ops == [] then s else StepAgrees(s, ops[0]); After(Apply(s, ops[0]), ops[1..])
  }

  // ---------- Agreement ----------

  lemma {:induction false} MarkAllKeeps<C>(s: Table<C>, reports: seq<Report>, c: C)
    requires Closed(s) && c in s.chans
    ensures var ch := MarkAll(s, reports).chans[c]; ch.fd == s.chans[c].fd && ch.last == s.chans[c].last
    ensures (forall r :: r in reports ==> r.fd !in s.fd2chan || s.fd2chan[r.fd] != c) ==>
              MarkAll(s, reports).chans[c] == s.chans[c]
    decreases reports
  {
    if reports != [] {
      var s1 := Mark(s, reports[0]);
      MarkAllKeeps(s1, reports[1..], c);
      assert forall r :: r in reports[1..] ==> r in reports;
      assert reports[0] in reports;
    }
  }

  lemma DispatchAgrees<C>(s: Table<C>, reports: seq<Report>)
    requires Agrees(s)
    ensures Agrees(DispatchOp(s, reports))
  {
    var s' := DispatchOp(s, reports);
    forall fd | fd in s'.fd2chan
      ensures s'.chans[s'.fd2chan[fd]].fd == fd && fd in s'.kernel
      ensures s'.kernel[fd].mask == s'.chans[s'.fd2chan[fd]].last
      ensures s'.kernel[fd].armed || OneShot(s'.kernel[fd].mask)
    {
      MarkAllKeeps(s, reports, s.fd2chan[fd]);
    }
  }

  lemma AddAgrees<C>(s: Table<C>, c: C, ok: bool)
    requires Agrees(s) && c in s.chans
    ensures Agrees(AddOp(s, c, ok))
  {}

  lemma ModAgrees<C>(s: Table<C>, c: C, ok: bool)
    requires Agrees(s) && OpOk(s, Mod(c, ok))
    ensures Agrees(ModOp(s, c, ok))
  {}

  lemma DelAgrees<C>(s: Table<C>, c: C, ok: bool)
    requires Agrees(s) && c in s.chans
    ensures Agrees(DelOp(s, c, ok))
  {}

  lemma StepAgrees<C>(s: Table<C>, op: Op<C>)
    requires Agrees(s) && OpOk(s, op)
    ensures Agrees(Apply(s, op))
  {
    match op
    case Add(c, ok) => AddAgrees(s, c, ok);
    case Mod(c, ok) => ModAgrees(s, c, ok);
    case Del(c, ok) => DelAgrees(s, c, ok);
    case Dispatch(reports) => DispatchAgrees(s, reports);
    case _ =>
  }

  /** Over every run, including failed system calls and any number of dispatches, the table agrees with
      the kernel. */
  lemma {:induction false} RunAgrees<C(!new)>(s: Table<C>, ops: seq<Op<C>>)
    requires Agrees(s) && Run(s, ops)
    ensures Agrees(After(s, ops))
    decreases ops
  {
    if ops != [] {
      StepAgrees(s, ops[0]);
      RunAgrees(Apply(s, ops[0]), ops[1..]);
    }
  }

  /** The rule about epoll_mod is exactly what is needed: when the descriptor belongs to another channel
      d, agreement survives if and only if the call is skipped, or fails, or happens to set d's mask. */
  lemma RivalModExactly<C>(s: Table<C>, c: C, ok: bool)
    requires Agrees(s) && c in s.chans && s.chans[c].fd in s.fd2chan && !Mapped(s, c)
    ensures Agrees(ModOp(s, c, ok)) <==>
            (s.chans[c].last == s.chans[c].events
             || !ok
             || s.chans[c].events == s.chans[s.fd2chan[s.chans[c].fd]].last)
  {
    var fd := s.chans[c].fd;
    var s' := ModOp(s, c, ok);
    var d := s.fd2chan[fd];
    assert d != c && fd in s.kernel;
    if s.chans[c].last != s.chans[c].events && ok {
      assert s'.fd2chan[fd] == d && s'.kernel[fd].mask == s.chans[c].events && s'.chans[d] == s.chans[d];
    }
  }

  /** Adding a channel that is already in the table takes it out of the table: the kernel keeps
      reporting its descriptor, and every report is thrown away. */
  lemma AddTwiceUnmaps<C>(s: Table<C>, c: C, ok: bool)
    requires Agrees(s) && Mapped(s, c)
    ensures !Mapped(AddOp(s, c, ok), c) && s.chans[c].fd in AddOp(s, c, ok).kernel
    ensures AddOp(s, c, ok).kernel == s.kernel
  {}

  // ---------- The shortcut in epoll_mod ----------

  /** A call that leaves the channel in the table leaves the kernel with the mask the channel asks for. */
  lemma ModDelivers<C>(s: Table<C>, c: C, ok: bool)
    requires Agrees(s) && OpOk(s, Mod(c, ok)) && Mapped(ModOp(s, c, ok), c)
    ensures var s' := ModOp(s, c, ok);
            s'.kernel[s'.chans[c].fd].mask == s'.chans[c].events == s.chans[c].events
  {}

  /** The system call would change nothing: for a channel in the table, it would succeed on a registration
      that is still armed; for one outside the table, it would fail, or find the registration as it would
      set it. */
  predicate CallIsIdle<C(==)>(s: Table<C>, c: C, ok: bool)
    requires c in s.chans
  {
    var ch := s.chans[c];
    if Mapped(s, c) then ok && ch.fd in s.kernel && s.kernel[ch.fd].armed
    else CanChange(s.kernel, ch.fd, ok) ==> s.kernel[ch.fd] == Reg(ch.events, true)
  }

  /** Skipping makes no difference exactly when something changed, or the call would change nothing. */
  lemma SkipExactly<C>(s: Table<C>, c: C, ok: bool)
    requires Agrees(s) && OpOk(s, Mod(c, ok))
    ensures ModOp(s, c, ok) == ModAlways(s, c, ok) <==>
            (s.chans[c].last != s.chans[c].events || CallIsIdle(s, c, ok))
  {
    var ch := s.chans[c];
    if ch.last == ch.events && !Mapped(s, c) {
      assert ch.fd !in s.fd2chan && s.fd2chan - {ch.fd} == s.fd2chan;
      assert CanChange(s.kernel, ch.fd, ok) ==> ModAlways(s, c, ok).kernel[ch.fd] == Reg(ch.events, true);
    }
  }

  /** Outside the table it does make one: when an epoll_mod with a new mask fails, the cache already holds
      the new mask, so that trying again is skipped, while the kernel keeps the old one for ever. */
  lemma RetryIsSkipped<C>(s: Table<C>, c: C)
    requires Agrees(s) && Mapped(s, c) && s.chans[c].last != s.chans[c].events
    ensures
      var fd := s.chans[c].fd;
      var failed := ModOp(s, c, false);
      && !Mapped(failed, c) && OpOk(failed, Mod(c, true))
      && ModOp(failed, c, true) == failed && failed.kernel[fd].mask == s.chans[c].last
      && ModAlways(failed, c, true).kernel[fd] == Reg(s.chans[c].events, true)
  {}

  function ApplyAlways<C(==)>(s: Table<C>, op: Op<C>): Table<C>
    requires Closed(s) && OpOk(s, op)
  {
    if op.Mod? then ModAlways(s, op.c, op.ok) else Apply(s, op)
  }

  /** The unconditional version of epoll_mod driven by the same operations. */
  ghost predicate SameRun<C(!new)>(s: Table<C>, t: Table<C>, ops: seq<Op<C>>)
    requires Agrees(s)
    decreases ops
  {
    && s == t
    && (ops == [] ||
        (&& OpOk(s, ops[0]) && Closed(t) && OpOk(t, ops[0])
         && (StepAgrees(s, ops[0]); SameRun(Apply(s, ops[0]), ApplyAlways(t, ops[0]), ops[1..]))))
  }

  /** No operation of the run skips the system call where it would have changed something. */
  ghost predicate SkipsSafely<C(!new)>(s: Table<C>, ops: seq<Op<C>>)
    requires Agrees(s) && Run(s, ops)
    decreases ops
  {
    ops == [] ||
    (var op := ops[0];
     && (op.Mod? && s.chans[op.c].last == s.chans[op.c].events ==>
           CallIsIdle(s, op.c, op.ok))
     && (StepAgrees(s, op); SkipsSafely(Apply(s, op), ops[1..])))
  }

  /** The shortcut refines the unconditional version over exactly such runs: both go through the same
      tables, the same caches and the same kernel states. */
  lemma {:induction false} SkippingRefines<C(!new)>(s: Table<C>, ops: seq<Op<C>>)
    requires Agrees(s) && Run(s, ops)
    ensures SameRun(s, s, ops) <==> SkipsSafely(s, ops)
    decreases ops
  {
    if ops != [] {
      var op := ops[0];
      var s1 := Apply(s, op);
      StepAgrees(s, op);
      if op.Mod? {
        SkipExactly(s, op.c, op.ok);
      }
      if s1 == ApplyAlways(s, op) {
        SkippingRefines(s1, ops[1..]);
      }
    }
  }

  /** Without one-shot masks every registration in the table stays armed, so that the only premise left
      of the refinement for channels in the table is that a MOD which changes nothing would not fail. One
      that changes the mask may well fail. */
  ghost predicate NoOneShot<C(!new)>(s: Table<C>) {
    forall c :: c in s.chans ==> !OneShot(s.chans[c].last) && !OneShot(s.chans[c].events)
  }

  lemma StepNoOneShot<C(!new)>(s: Table<C>, op: Op<C>)
    requires Agrees(s) && OpOk(s, op) && NoOneShot(s) && (op.SetEvents? ==> !OneShot(op.events))
    ensures NoOneShot(Apply(s, op))
  {
    match op
    case Dispatch(reports) => MarkAllNoOneShot(s, reports);
    case Add(c, ok) => assert AddOp(s, c, ok).chans == s.chans[c := s.chans[c].(last := s.chans[c].events)];
    case Mod(c, ok) => assert ModOp(s, c, ok).chans == s.chans[c := s.chans[c].(last := s.chans[c].events)];
    case _ =>
  }

  lemma {:induction false} NoOneShotSkipsSafely<C(!new)>(s: Table<C>, ops: seq<Op<C>>)
    requires Agrees(s) && Run(s, ops) && NoOneShot(s)
    requires forall op :: op in ops && op.SetEvents? ==> !OneShot(op.events)
    requires UnchangedModsAccepted(s, ops)
    ensures SkipsSafely(s, ops)
    decreases ops
  {
    if ops != [] {
      var op := ops[0];
      StepAgrees(s, op);
      assert op in ops;
      var s' := Apply(s, op);
      StepNoOneShot(s, op);
      assert forall o :: o in ops[1..] ==> o in ops;
      NoOneShotSkipsSafely(s', ops[1..]);
    }
  }

  /** Every epoll_mod of the run that would change nothing would be accepted by the kernel, if it is of a
      channel in the table, and is otherwise not a retry. */
  ghost predicate UnchangedModsAccepted<C(!new)>(s: Table<C>, ops: seq<Op<C>>)
    requires Agrees(s) && Run(s, ops)
    decreases ops
  {
    ops == [] ||
    (&& (ops[0].Mod? && s.chans[ops[0].c].last == s.chans[ops[0].c].events ==>
           if Mapped(s, ops[0].c) then ops[0].ok else CallIsIdle(s, ops[0].c, ops[0].ok))
     && (StepAgrees(s, ops[0]); UnchangedModsAccepted(Apply(s, ops[0]), ops[1..])))
  }

  lemma {:induction false} MarkAllNoOneShot<C(!new)>(s: Table<C>, reports: seq<Report>)
    requires Closed(s) && NoOneShot(s)
    ensures NoOneShot(MarkAll(s, reports))
    decreases reports
  {
    if reports != [] {
      assert !OneShot(0);
      MarkAllNoOneShot(Mark(s, reports[0]), reports[1..]);
    }
  }

  /** With a one-shot mask the shortcut does lose something: a channel that is reported once and then
      asks for the same mask again is skipped, stays disarmed, and cannot be reported any more. */
  lemma OneShotGoesDeaf<C>(s: Table<C>, c: C, m: Mask, r: Mask)
    requires Agrees(s) && Mapped(s, c) && OneShot(m) && s.chans[c].last == m
    requires s.kernel[s.chans[c].fd].armed
    ensures
      var fd := s.chans[c].fd;
      var s1 := DispatchOp(s, [Report(fd, r)]);
      Closed(s1) && c in s1.chans &&
      var s2 := Assign(s1, c, s1.chans[c].(events := m));
      var s3 := ModOp(s2, c, true);
      && Mapped(s3, c) && s3.chans[c].events == m
      && !Deliverable(s3.kernel, [Report(fd, r)])
      && Deliverable(ModAlways(s2, c, true).kernel, [Report(fd, r)])
  {
    var fd := s.chans[c].fd;
    var reports := [Report(fd, r)];
    MarkAllKeeps(s, reports, c);
    assert reports[0] in reports;
    assert fd in Reported(reports);
    var s1 := DispatchOp(s, reports);
    assert s1.kernel[fd] == Reg(m, false);
  }

  // ---------- What poll returns ----------

  /** What happened to a descriptor's table entry. */
  datatype Entry<!C(==)> = Added(fd: nat, c: C) | Dropped(fd: nat)

  function Log<C(==)>(s: Table<C>, op: Op<C>): seq<Entry<C>>
    requires Closed(s) && OpOk(s, op)
  {
    match op
    case Add(c, ok) =>
      if CanAdd(s.kernel, s.chans[c].fd, ok) then [Added(s.chans[c].fd, c)] else [Dropped(s.chans[c].fd)]
    case Mod(c, ok) =>
      if s.chans[c].last != s.chans[c].events && !CanChange(s.kernel, s.chans[c].fd, ok)
      then [Dropped(s.chans[c].fd)] else []
    case Del(c, _) => [Dropped(s.chans[c].fd)]
    case _ => []
  }

  ghost function LogOf<C(!new)>(s: Table<C>, ops: seq<Op<C>>): seq<Entry<C>>
    requires Agrees(s) && Run(s, ops)
    decreases ops
  {
    if ops == [] then [] else StepAgrees(s, ops[0]); Log(s, ops[0]) + LogOf(Apply(s, ops[0]), ops[1..])
  }

  /** The last thing that happened to fd is that c was added successfully. */
  ghost predicate LatestAdd<C(!new)>(log: seq<Entry<C>>, fd: nat, c: C) {
    exists i :: 0 <= i < |log| && log[i] == Added(fd, c) && forall j :: i < j < |log| ==> log[j].fd != fd
  }

  /** Nothing happened to fd. */
  ghost predicate Untouched<C>(log: seq<Entry<C>>, fd: nat) {
    forall i :: 0 <= i < |log| ==> log[i].fd != fd
  }

  lemma LogConsUp<C(!new)>(x: Entry<C>, rest: seq<Entry<C>>, fd: nat, c: C)
    requires LatestAdd(rest, fd, c) || (Untouched(rest, fd) && x == Added(fd, c))
    ensures LatestAdd([x] + rest, fd, c)
  {
    var log := [x] + rest;
    if LatestAdd(rest, fd, c) {
      var i :| 0 <= i < |rest| && rest[i] == Added(fd, c) && forall j :: i < j < |rest| ==> rest[j].fd != fd;
      assert log[i + 1] == Added(fd, c);
      assert forall j :: i + 1 < j < |log| ==> log[j] == rest[j - 1];
    } else {
      assert log[0] == x;
      assert forall j :: 0 < j < |log| ==> log[j] == rest[j - 1];
    }
  }

  lemma LogConsDown<C(!new)>(x: Entry<C>, rest: seq<Entry<C>>, fd: nat, c: C)
    requires LatestAdd([x] + rest, fd, c)
    ensures LatestAdd(rest, fd, c) || (Untouched(rest, fd) && x == Added(fd, c))
  {
    var log := [x] + rest;
    var i :| 0 <= i < |log| && log[i] == Added(fd, c) && forall j :: i < j < |log| ==> log[j].fd != fd;
    assert forall j :: 0 <= j < |rest| ==> rest[j] == log[j + 1];
    if i > 0 {
      assert rest[i - 1] == Added(fd, c);
    }
  }

  lemma LogConsUntouched<C>(x: Entry<C>, rest: seq<Entry<C>>, fd: nat)
    ensures Untouched([x] + rest, fd) <==> x.fd != fd && Untouched(rest, fd)
  {
    var log := [x] + rest;
    assert log[0] == x;
    if Untouched(log, fd) {
      assert forall j :: 0 <= j < |rest| ==> rest[j] == log[j + 1];
    }
  }

  lemma LogCons<C(!new)>(x: Entry<C>, rest: seq<Entry<C>>, fd: nat, c: C)
    ensures LatestAdd([x] + rest, fd, c) <==> LatestAdd(rest, fd, c) || (Untouched(rest, fd) && x == Added(fd, c))
    ensures Untouched([x] + rest, fd) <==> x.fd != fd && Untouched(rest, fd)
  {
    if LatestAdd([x] + rest, fd, c) {
      LogConsDown(x, rest, fd, c);
    }
    if LatestAdd(rest, fd, c) || (Untouched(rest, fd) && x == Added(fd, c)) {
      LogConsUp(x, rest, fd, c);
    }
    LogConsUntouched(x, rest, fd);
  }

  predicate Holds<C(==)>(s: Table<C>, fd: nat, c: C) {
    fd in s.fd2chan && s.fd2chan[fd] == c
  }

  /** The entry an operation logs is what it does to the table. */
  lemma LogIsEffect<C>(s: Table<C>, op: Op<C>, fd: nat, c: C)
    requires Agrees(s) && OpOk(s, op)
    ensures |Log(s, op)| <= 1
    ensures Log(s, op) == [] || Log(s, op)[0].fd != fd ==> (Holds(Apply(s, op), fd, c) <==> Holds(s, fd, c))
    ensures Log(s, op) != [] && Log(s, op)[0].fd == fd ==>
              (Holds(Apply(s, op), fd, c) <==> Log(s, op)[0] == Added(fd, c))
  {}

  /** The table holds c for fd exactly when the latest thing that happened to fd's entry is that c was
      added: no later epoll_del, no later failed epoll_mod, no later epoll_add of anything. */
  lemma {:induction false} TableIsHistory<C(!new)>(s: Table<C>, ops: seq<Op<C>>, fd: nat, c: C)
    requires Agrees(s) && Run(s, ops)
    ensures Holds(After(s, ops), fd, c) <==>
            (LatestAdd(LogOf(s, ops), fd, c) || (Untouched(LogOf(s, ops), fd) && Holds(s, fd, c)))
    decreases ops
  {
    if ops != [] {
      var s1 := Apply(s, ops[0]);
      StepAgrees(s, ops[0]);
      TableIsHistory(s1, ops[1..], fd, c);
      LogIsEffect(s, ops[0], fd, c);
      var e, rest := Log(s, ops[0]), LogOf(s1, ops[1..]);
      if e == [] {
        assert e + rest == rest;
      } else {
        assert e == [e[0]];
        LogCons(e[0], rest, fd, c);
      }
    }
  }

  // ---------- What the kernel holds ----------

  /** What an operation does to the kernel's interest set: a system call counts if it was willing and the
      descriptor was in the right state for it; closing a descriptor removes it. */
  function KernelLog<C(==)>(s: Table<C>, op: Op<C>): seq<Entry<C>>
    requires Closed(s) && OpOk(s, op)
  {
    match op
    case Add(c, ok) => if ok && s.chans[c].fd !in s.kernel then [Added(s.chans[c].fd, c)] else []
    case Del(c, ok) => if ok && s.chans[c].fd in s.kernel then [Dropped(s.chans[c].fd)] else []
    case Close(fd) => [Dropped(fd)]
    case _ => []
  }

  ghost function KernelLogOf<C(!new)>(s: Table<C>, ops: seq<Op<C>>): seq<Entry<C>>
    requires Agrees(s) && Run(s, ops)
    decreases ops
  {
    if ops == [] then []
    else StepAgrees(s, ops[0]); KernelLog(s, ops[0]) + KernelLogOf(Apply(s, ops[0]), ops[1..])
  }

  lemma KernelLogIsEffect<C>(s: Table<C>, op: Op<C>, fd: nat)
    requires Agrees(s) && OpOk(s, op)
    ensures |KernelLog(s, op)| <= 1
    ensures KernelLog(s, op) == [] || KernelLog(s, op)[0].fd != fd ==>
              (fd in Apply(s, op).kernel <==> fd in s.kernel)
    ensures KernelLog(s, op) != [] && KernelLog(s, op)[0].fd == fd ==>
              (fd in Apply(s, op).kernel <==> KernelLog(s, op)[0].Added?)
  {}

  /** The latest thing that happened to fd is an addition. */
  ghost predicate LatestIsAdd<C(!new)>(log: seq<Entry<C>>, fd: nat) {
    exists c :: LatestAdd(log, fd, c)
  }

  lemma LatestIsAddCons<C(!new)>(x: Entry<C>, rest: seq<Entry<C>>, fd: nat)
    ensures LatestIsAdd([x] + rest, fd) <==> LatestIsAdd(rest, fd) || (Untouched(rest, fd) && x.Added? && x.fd == fd)
    ensures Untouched([x] + rest, fd) <==> x.fd != fd && Untouched(rest, fd)
  {
    LogConsUntouched(x, rest, fd);
    forall c
      ensures LatestAdd([x] + rest, fd, c) <==> LatestAdd(rest, fd, c) || (Untouched(rest, fd) && x == Added(fd, c))
    {
      LogCons(x, rest, fd, c);
    }
    if Untouched(rest, fd) && x.Added? && x.fd == fd {
      assert x == Added(fd, x.c);
      assert LatestAdd([x] + rest, fd, x.c);
    }
  }

  /** The kernel watches fd exactly when the latest accepted ADD, accepted DEL or close of fd is an ADD. */
  lemma {:induction false} KernelIsHistory<C(!new)>(s: Table<C>, ops: seq<Op<C>>, fd: nat)
    requires Agrees(s) && Run(s, ops)
    ensures fd in After(s, ops).kernel <==>
            (LatestIsAdd(KernelLogOf(s, ops), fd) || (Untouched(KernelLogOf(s, ops), fd) && fd in s.kernel))
    decreases ops
  {
    if ops != [] {
      var s1 := Apply(s, ops[0]);
      StepAgrees(s, ops[0]);
      KernelIsHistory(s1, ops[1..], fd);
      KernelLogIsEffect(s, ops[0], fd);
      var e, rest := KernelLog(s, ops[0]), KernelLogOf(s1, ops[1..]);
      if e == [] {
        assert e + rest == rest;
      } else {
        assert e == [e[0]];
        LatestIsAddCons(e[0], rest, fd);
      }
    }
  }

  /** After an accepted epoll_del the descriptor is free: no report of it is possible, and any channel on
      it can be added again. */
  lemma DeletedCanBeAdded<C>(s: Table<C>, c: C, d: C, r: Mask)
    requires Agrees(s) && c in s.chans && d in s.chans && s.chans[d].fd == s.chans[c].fd && s.chans[c].fd in s.kernel
    ensures var fd, s1 := s.chans[c].fd, DelOp(s, c, true);
            var s2 := AddOp(s1, d, true);
            && !Deliverable(s1.kernel, [Report(fd, r)])
            && Mapped(s2, d) && s2.kernel == s.kernel[fd := Reg(s.chans[d].events, true)]
  {
    var fd, s1 := s.chans[c].fd, DelOp(s, c, true);
    assert [Report(fd, r)][0].fd !in s1.kernel;
    assert (s.kernel - {fd})[fd := Reg(s.chans[d].events, true)] == s.kernel[fd := Reg(s.chans[d].events, true)];
  }

  /** A new interest takes effect: after setEvents and an accepted epoll_mod of a channel in the table the
      kernel watches for exactly that, whatever it watched for before; and it can fire. */
  lemma SetThenModDelivers<C>(s: Table<C>, c: C, m: Mask)
    requires Agrees(s) && Mapped(s, c) && s.chans[c].last != m
    ensures var s' := ModOp(Apply(s, SetEvents(c, m)), c, true);
            && Mapped(s', c) && s'.kernel == s.kernel[s.chans[c].fd := Reg(m, true)]
            && s'.fd2chan == s.fd2chan
  {}

  /** A channel outside the table can be moved to a descriptor that has been closed, and added there. */
  lemma CloseSetFdThenAdd<C>(s: Table<C>, c: C, fd: nat)
    requires Agrees(s) && c in s.chans && !Mapped(s, c) && fd !in s.fd2chan
    ensures OpOk(s, Close(fd)) && OpOk(Apply(s, Close(fd)), SetFd(c, fd))
    ensures var s' := AddOp(Apply(Apply(s, Close(fd)), SetFd(c, fd)), c, true);
            Holds(s', fd, c) && Mapped(s', c) && s'.kernel[fd] == Reg(s.chans[c].events, true)
  {}

  /** What a dispatch does to the kernel: it disarms exactly the one-shot registrations it reports. */
  lemma DispatchDisarmsExactly<C>(s: Table<C>, reports: seq<Report>, fd: nat)
    requires Closed(s)
    ensures fd in DispatchOp(s, reports).kernel <==> fd in s.kernel
    ensures fd in s.kernel ==>
              var before, after := s.kernel[fd], DispatchOp(s, reports).kernel[fd];
              && after.mask == before.mask
              && (after.armed <==>
                  before.armed && (before.mask & EPOLLONESHOT == 0 || forall r :: r in reports ==> r.fd != fd))
  {}

  // ---------- A registration that is left alone ----------

  /** No operation of the run adds or deletes a channel of fd, or changes its mask in the kernel. */
  ghost predicate LeavesAlone<C(!new)>(s: Table<C>, ops: seq<Op<C>>, fd: nat)
    requires Agrees(s) && Run(s, ops)
    decreases ops
  {
    ops == [] ||
    (var op := ops[0];
     && (op.Add? || op.Del? ==> s.chans[op.c].fd != fd)
     && (op.Mod? ==> s.chans[op.c].fd != fd || s.chans[op.c].last == s.chans[op.c].events)
     && (StepAgrees(s, op); LeavesAlone(Apply(s, op), ops[1..], fd)))
  }

  lemma StepLeavesAlone<C(!new)>(s: Table<C>, op: Op<C>, fd: nat, c: C)
    requires Agrees(s) && OpOk(s, op) && Holds(s, fd, c) && !OneShot(s.kernel[fd].mask)
    requires op.Add? || op.Del? ==> s.chans[op.c].fd != fd
    requires op.Mod? ==> s.chans[op.c].fd != fd || s.chans[op.c].last == s.chans[op.c].events
    ensures Holds(Apply(s, op), fd, c) && Apply(s, op).kernel[fd] == s.kernel[fd]
  {}

  lemma {:induction false} StaysRegistered<C(!new)>(s: Table<C>, ops: seq<Op<C>>, fd: nat, c: C)
    requires Agrees(s) && Run(s, ops) && LeavesAlone(s, ops, fd)
    requires Holds(s, fd, c) && !OneShot(s.kernel[fd].mask)
    ensures Holds(After(s, ops), fd, c) && fd in After(s, ops).kernel && After(s, ops).kernel[fd] == s.kernel[fd]
    decreases ops
  {
    if ops != [] {
      StepAgrees(s, ops[0]);
      StepLeavesAlone(s, ops[0], fd, c);
      StaysRegistered(Apply(s, ops[0]), ops[1..], fd, c);
    }
  }

  /** The wakeup channel, once epoll_add has succeeded, stays in the table and in the kernel's interest set,
      armed, over every run that leaves its descriptor alone, whatever fires and whatever else is added,
      changed and deleted: a report of its descriptor is possible at any time, and poll returns it. */
  lemma WakeupStaysRegistered<C(!new)>(s: Table<C>, c: C, ops: seq<Op<C>>, r: Mask)
    requires Agrees(s) && c in s.chans && s.chans[c].events == EPOLLIN | EPOLLET
    requires CanAdd(s.kernel, s.chans[c].fd, true)
    requires Agrees(AddOp(s, c, true)) && Run(AddOp(s, c, true), ops)
    requires LeavesAlone(AddOp(s, c, true), ops, s.chans[c].fd)
    ensures var s', fd := After(AddOp(s, c, true), ops), s.chans[c].fd;
            && Mapped(s', c) && fd in s'.kernel && s'.kernel[fd] == Reg(EPOLLIN | EPOLLET, true)
            && Deliverable(s'.kernel, [Report(fd, r)]) && Active(s'.fd2chan, [Report(fd, r)]) == [c]
  {
    var s1, fd := AddOp(s, c, true), s.chans[c].fd;
    assert !OneShot(EPOLLIN | EPOLLET);
    StaysRegistered(s1, ops, fd, c);
    RunAgrees(s1, ops);
    assert [Report(fd, r)][1..] == [];
  }

  /** Poll's answer is the order-preserving filter of the reports: the channels of the mapped
      descriptors. */
  lemma {:induction false} ActiveIsFilter<C>(fd2chan: map<nat, C>, reports: seq<Report>, c: C)
    ensures c in Active(fd2chan, reports) <==>
            exists i :: 0 <= i < |reports| && reports[i].fd in fd2chan && fd2chan[reports[i].fd] == c
    ensures |Active(fd2chan, reports)| <= |reports|
    ensures (forall r :: r in reports ==> r.fd in fd2chan) ==>
              |Active(fd2chan, reports)| == |reports|
              && forall i :: 0 <= i < |reports| ==> Active(fd2chan, reports)[i] == fd2chan[reports[i].fd]
  {
    if reports != [] {
      ActiveIsFilter(fd2chan, reports[1..], c);
      assert forall r :: r in reports[1..] ==> r in reports;
      assert reports[0] in reports;
      if exists i :: 0 <= i < |reports| && reports[i].fd in fd2chan && fd2chan[reports[i].fd] == c {
        var i :| 0 <= i < |reports| && reports[i].fd in fd2chan && fd2chan[reports[i].fd] == c;
        if i > 0 {
          assert reports[1..][i - 1] == reports[i];
        }
      }
    }
  }

  lemma {:induction false} ActiveSnoc<C>(fd2chan: map<nat, C>, reports: seq<Report>, i: nat)
    requires i < |reports|
    ensures Active(fd2chan, reports[..i + 1])
            == Active(fd2chan, reports[..i]) + if reports[i].fd in fd2chan then [fd2chan[reports[i].fd]] else []
    decreases i
  {
    assert reports[..i + 1][1..] == reports[1..][..i];
    if i > 0 {
      assert reports[..i][1..] == reports[1..][..i - 1];
      ActiveSnoc(fd2chan, reports[1..], i - 1);
    } else {
      assert reports[1..][..0] == [] && reports[..0] == [];
    }
  }

  /** The positions of the reports of mapped descriptors among the first n. */
  function MappedAt<C>(fd2chan: map<nat, C>, reports: seq<Report>, n: nat): (at: seq<nat>)
    requires n <= |reports|
    ensures forall k :: 0 <= k < |at| ==> at[k] < n && reports[at[k]].fd in fd2chan
    ensures forall j, k :: 0 <= j < k < |at| ==> at[j] < at[k]
    ensures forall i :: 0 <= i < n && reports[i].fd in fd2chan ==> i in at
  {
    if n == 0 then []
    else if reports[n - 1].fd in fd2chan then MappedAt(fd2chan, reports, n - 1) + [n - 1]
    else MappedAt(fd2chan, reports, n - 1)
  }

  /** And the order is that of the reports: the k-th channel returned is that of the k-th report of a
      mapped descriptor. */
  lemma {:induction false} ActiveInOrder<C>(fd2chan: map<nat, C>, reports: seq<Report>, n: nat)
    requires n <= |reports|
    ensures var at := MappedAt(fd2chan, reports, n);
            && |Active(fd2chan, reports[..n])| == |at|
            && forall k :: 0 <= k < |at| ==> Active(fd2chan, reports[..n])[k] == fd2chan[reports[at[k]].fd]
  {
    if n > 0 {
      ActiveInOrder(fd2chan, reports, n - 1);
      ActiveSnoc(fd2chan, reports, n - 1);
    }
  }

  /** Every channel poll returns carries exactly the mask that was reported for its descriptor and no
      interest of its own; every other channel is untouched. */
  lemma DispatchMarks<C>(s: Table<C>, reports: seq<Report>, i: nat)
    requires Agrees(s) && Deliverable(s.kernel, reports) && i < |reports| && reports[i].fd in s.fd2chan
    ensures var ch := DispatchOp(s, reports).chans[s.fd2chan[reports[i].fd]];
            ch.revents == reports[i].mask && ch.events == 0
  {
    MarksOne(s, reports, i);
  }

  lemma {:induction false} MarksOne<C>(s: Table<C>, reports: seq<Report>, i: nat)
    requires Closed(s) && i < |reports| && reports[i].fd in s.fd2chan
    requires forall fd :: fd in s.fd2chan ==> s.chans[s.fd2chan[fd]].fd == fd
    requires forall i, j :: 0 <= i < j < |reports| ==> reports[i].fd != reports[j].fd
    ensures var ch := MarkAll(s, reports).chans[s.fd2chan[reports[i].fd]];
            ch.revents == reports[i].mask && ch.events == 0
    decreases reports
  {
    var s1 := Mark(s, reports[0]);
    if i == 0 {
      var c := s.fd2chan[reports[0].fd];
      forall r | r in reports[1..]
        ensures r.fd !in s1.fd2chan || s1.fd2chan[r.fd] != c
      {
        var j :| 0 <= j < |reports[1..]| && reports[1..][j] == r;
        assert reports[j + 1] == r && reports[0].fd != reports[j + 1].fd;
      }
      MarkAllKeeps(s1, reports[1..], c);
    } else {
      assert reports[1..][i - 1] == reports[i];
      MarksOne(s1, reports[1..], i - 1);
    }
  }

  lemma DispatchLeavesOthers<C>(s: Table<C>, reports: seq<Report>, c: C)
    requires Closed(s) && c in s.chans && c !in Active(s.fd2chan, reports)
    ensures DispatchOp(s, reports).chans[c] == s.chans[c]
  {
    forall r | r in reports
      ensures r.fd !in s.fd2chan || s.fd2chan[r.fd] != c
    {
      var i :| 0 <= i < |reports| && reports[i] == r;
      ActiveIsFilter(s.fd2chan, reports, c);
    }
    MarkAllKeeps(s, reports, c);
  }

  /** From a fresh table, over every run: a channel is among those poll returns exactly when it is the
      one whose successful epoll_add is the latest thing that happened to a reported descriptor. */
  lemma PollHistory<C(!new)>(s: Table<C>, ops: seq<Op<C>>, reports: seq<Report>, c: C)
    requires s.fd2chan == map[] && Run(s, ops)
    ensures c in Active(After(s, ops).fd2chan, reports) <==>
            exists i :: 0 <= i < |reports| && LatestAdd(LogOf(s, ops), reports[i].fd, c)
  {
    var s' := After(s, ops);
    ActiveIsFilter(s'.fd2chan, reports, c);
    forall i | 0 <= i < |reports|
      ensures Holds(s', reports[i].fd, c) <==> LatestAdd(LogOf(s, ops), reports[i].fd, c)
    {
      TableIsHistory(s, ops, reports[i].fd, c);
    }
  }
}
