/**
 The file-locked inbox (src/messaging/mod.rs, src/util/file_lock.rs).

 Model assumptions: the lock file gives exclusive access and is released when its holder dies, and the write of the
 inbox file is a single atomic replacement.
 */
module Inbox {
  import opened Wrappers
  import opened Text

  type MsgId = string
  type Agent = string

  datatype Message = Message(id: MsgId, sender: Agent, recipient: Agent, content: string, read: bool)

  // ---------------------------------------------------------------------------
  // The abstract inbox
  // ---------------------------------------------------------------------------

  datatype Op = Send(msg: Message) | MarkRead(id: MsgId) | Clear | Read

  /** The index of the first message with this id, or the length. */
  function FirstWithId(box: seq<Message>, id: MsgId): (i: nat)
    ensures i <= |box| && (forall j | 0 <= j < i :: box[j].id != id) && (i < |box| ==> box[i].id == id)
  {
    if box == [] || box[0].id == id then 0 else 1 + FirstWithId(box[1..], id)
  }

  function Effect(box: seq<Message>, op: Op): seq<Message> {
    match op
    case Send(msg) => box + [msg]
    case MarkRead(id) =>
      var i := FirstWithId(box, id);
      if i < |box| then box[i := box[i].(read := true)] else box
    case Clear => []
    case Read => box
  }

  function Replay(ops: seq<Op>): seq<Message> {
    if ops == [] then [] else Effect(Replay(ops[..|ops| - 1]), ops[|ops| - 1])
  }

  lemma ReplayGrows(ops: seq<Op>, op: Op)
    ensures Replay(ops + [op]) == Effect(Replay(ops), op)
  {
    assert (ops + [op])[..|ops|] == ops;
  }

  /** The messages sent since the last clear, as they were sent. */
  function SentSinceClear(ops: seq<Op>): seq<Message> {
    if ops == [] then []
    else match ops[|ops| - 1]
      case Send(msg) => SentSinceClear(ops[..|ops| - 1]) + [msg]
      case Clear => []
      case _ => SentSinceClear(ops[..|ops| - 1])
  }

  /** A mark for this id was made once message `i` was there, and no clear followed. */
  ghost predicate MarkedSince(ops: seq<Op>, i: nat, id: MsgId) {
    exists t :: MarkedAt(ops, t, i, id)
  }

  ghost predicate MarkedAt(ops: seq<Op>, t: int, i: nat, id: MsgId) {
    0 <= t < |ops| && ops[t] == MarkRead(id) && i < |SentSinceClear(ops[..t])| && Clear !in ops[t..]
  }

  /** Message `i` reads as read when it was sent so, or it is the first with its id and was marked since. */
  ghost predicate ShouldBeRead(ops: seq<Op>, i: nat)
    requires i < |SentSinceClear(ops)|
  {
    var sent := SentSinceClear(ops);
    sent[i].read || (FirstWithId(sent, sent[i].id) == i && MarkedSince(ops, i, sent[i].id))
  }

  lemma MarkedAtGrows(ops: seq<Op>, op: Op, t: int, i: nat, id: MsgId)
    requires i < |SentSinceClear(ops)| && op != Clear
    ensures MarkedAt(ops + [op], t, i, id) <==> MarkedAt(ops, t, i, id) || (t == |ops| && op == MarkRead(id))
  {
    hide SentSinceClear;
    var all := ops + [op];
    if 0 <= t <= |ops| {
      assert all[..t] == ops[..t] && all[t..] == ops[t..] + [op];
      if t == |ops| {
        assert ops[..t] == ops;
      }
    }
  }

  lemma MarkedSinceGrows(ops: seq<Op>, op: Op, i: nat, id: MsgId)
    requires i < |SentSinceClear(ops)| && op != Clear
    ensures MarkedSince(ops + [op], i, id) <==> MarkedSince(ops, i, id) || op == MarkRead(id)
  {
    hide SentSinceClear, MarkedAt;
    forall t ensures MarkedAt(ops + [op], t, i, id) <==> MarkedAt(ops, t, i, id) || (t == |ops| && op == MarkRead(id)) {
      MarkedAtGrows(ops, op, t, i, id);
    }
    assert op == MarkRead(id) ==> MarkedAt(ops + [op], |ops|, i, id);
    assert forall t | MarkedAt(ops, t, i, id) :: MarkedAt(ops + [op], t, i, id);
  }

  /** A mark can only speak of messages that were there. */
  lemma NotMarkedYet(ops: seq<Op>, op: Op, i: nat, id: MsgId)
    requires |SentSinceClear(ops)| <= i && op.Send?
    ensures !MarkedSince(ops + [op], i, id)
  {
    var all := ops + [op];
    forall t ensures !MarkedAt(all, t, i, id) {
      if 0 <= t < |ops| && Clear !in all[t..] {
        assert all[..t] == ops[..t] && all[t..] == ops[t..] + [op];
        SentGrows(ops, t);
      }
    }
  }

  lemma {:induction false} SentGrows(ops: seq<Op>, t: nat)
    requires t <= |ops| && Clear !in ops[t..]
    ensures |SentSinceClear(ops[..t])| <= |SentSinceClear(ops)|
    decreases |ops|
  {
    if t == |ops| {
      assert ops[..t] == ops;
    } else {
      var n := |ops| - 1;
      assert ops[n] in ops[t..];
      assert ops[..n][..t] == ops[..t] && ops[t..] == ops[..n][t..] + [ops[n]];
      SentGrows(ops[..n], t);
    }
  }

  lemma FirstWithIdSnoc(box: seq<Message>, msg: Message, id: MsgId)
    ensures FirstWithId(box + [msg], id)
            == if FirstWithId(box, id) < |box| then FirstWithId(box, id) else if msg.id == id then |box| else |box| + 1
  {
    FirstIsUnique(box + [msg], id,
                  if FirstWithId(box, id) < |box| then FirstWithId(box, id) else if msg.id == id then |box| else |box| + 1);
  }

  lemma FirstIsUnique(box: seq<Message>, id: MsgId, i: nat)
    requires i <= |box| && (forall j | 0 <= j < i :: box[j].id != id) && (i < |box| ==> box[i].id == id)
    ensures FirstWithId(box, id) == i
  {
  }

  ghost predicate Agrees(box: seq<Message>, ops: seq<Op>) {
    var sent := SentSinceClear(ops);
    && |box| == |sent|
    && forall i | 0 <= i < |box| :: box[i] == sent[i].(read := ShouldBeRead(ops, i))
  }

  lemma AgreesGrows(box: seq<Message>, ops: seq<Op>, op: Op)
    requires Agrees(box, ops)
    ensures Agrees(Effect(box, op), ops + [op])
  {
    var all := ops + [op];
    var sent, sent' := SentSinceClear(ops), SentSinceClear(all);
    assert all[..|ops|] == ops;
    var box' := Effect(box, op);
    forall i | 0 <= i < |box'| ensures box'[i] == sent'[i].(read := ShouldBeRead(all, i)) {
      var id := sent'[i].id;
      match op
      case Clear =>
      case Read =>
        MarkedSinceGrows(ops, op, i, id);
      case MarkRead(target) =>
        MarkedSinceGrows(ops, op, i, id);
        FirstIsUnique(sent, target, FirstWithId(box, target));
      case Send(msg) =>
        FirstWithIdSnoc(sent, msg, id);
        if i < |box| {
          MarkedSinceGrows(ops, op, i, id);
        } else {
          NotMarkedYet(ops, op, i, id);
        }
    }
  }

  /** An inbox holds the messages sent since the last clear, and exactly the first of each marked id is flagged. */
  lemma {:induction false} ReplayMeaning(ops: seq<Op>)
    ensures Agrees(Replay(ops), ops)
  {
    if ops != [] {
      var n := |ops| - 1;
      ReplayMeaning(ops[..n]);
      AgreesGrows(Replay(ops[..n]), ops[..n], ops[n]);
      assert ops == ops[..n] + [ops[n]];
    }
  }

  /** Read flags only go from false to true while no clear intervenes, and no message moves or changes otherwise. */
  lemma FlagsOnlyRise(box: seq<Message>, op: Op, i: nat)
    requires i < |box| && op != Clear
    ensures i < |Effect(box, op)|
    ensures Effect(box, op)[i] == box[i] || Effect(box, op)[i] == box[i].(read := true)
    ensures Effect(box, op)[i] != box[i] ==> op == MarkRead(box[i].id) && forall j | 0 <= j < i :: box[j].id != box[i].id
  {
  }

  // ---------------------------------------------------------------------------
  // Many processes, one inbox file
  // ---------------------------------------------------------------------------

  type Proc = nat

  datatype Phase =
    | Waiting(op: Op)                                         // blocked in FileLock::acquire
    | Locked(op: Op, ticket: nat)                             // holds the lock, has read nothing
    | Loaded(op: Op, ticket: nat, box: seq<Message>)          // has parsed the file
    | Storing(op: Op, ticket: nat, box: seq<Message>)         // about to replace the file by `box`
    | Unlocking(op: Op, ticket: nat, ok: bool, answer: Option<seq<Message>>)   // done, with what it will return

  /** What a caller was told. */
  datatype Report = Report(ticket: nat, op: Op, ok: bool, answer: Option<seq<Message>>)

  /**
   `tickets` counts lock acquisitions; `log` records each operation that took effect with its ticket, `reports` each
   one that returned.
   */
  datatype State = State(
    file: Option<seq<Message>>,
    lock: Option<Proc>,
    procs: map<Proc, Phase>,
    tickets: nat,
    log: seq<(nat, Op)>,
    reports: seq<Report>)

  predicate Initial(s: State) {
    s == State(None, None, map[], 0, [], [])
  }

  datatype Act =
    | Begin(op: Op)
    | Acquire
    | Load(ok: bool)      // a read or parse error leaves the file alone
    | Modify
    | Store(ok: bool)
    | Unlock
    | Crash

  datatype Step = Step(proc: Proc, act: Act)

  /** A missing file reads as an empty inbox. */
  function Contents(file: Option<seq<Message>>): seq<Message> {
    if file.Some? then file.value else []
  }

  predicate Enabled(s: State, st: Step) {
    var p := st.proc;
    if st.act.Begin? then p !in s.procs
    else p in s.procs && match st.act
      case Acquire => s.procs[p].Waiting? && s.lock.None?
      case Load(_) => s.procs[p].Locked? && !s.procs[p].op.Clear?
      case Modify => s.procs[p].Loaded? || (s.procs[p].Locked? && s.procs[p].op.Clear?)
      case Store(_) => s.procs[p].Storing?
      case Unlock => s.procs[p].Unlocking?
      case _ => true
  }

  function Ops(log: seq<(nat, Op)>): seq<Op> {
    if log == [] then [] else Ops(log[..|log| - 1]) + [log[|log| - 1].1]
  }

  lemma OpsGrow(log: seq<(nat, Op)>, ticket: nat, op: Op)
    ensures Ops(log + [(ticket, op)]) == Ops(log) + [op]
  {
    assert (log + [(ticket, op)])[..|log|] == log;
  }

  function Next(s: State, st: Step): State
    requires Enabled(s, st)
  {
    var p := st.proc;
    match st.act
    case Begin(op) => s.(procs := s.procs[p := Waiting(op)])
    case Acquire =>
      s.(lock := Some(p), procs := s.procs[p := Locked(s.procs[p].op, s.tickets)], tickets := s.tickets + 1)
    case Load(ok) =>
      var x := s.procs[p];
      s.(procs := s.procs[p := if ok then Loaded(x.op, x.ticket, Contents(s.file)) else Unlocking(x.op, x.ticket, false, None)])
    case Modify =>
      var x := s.procs[p];
      if x.op.Clear? then s.(procs := s.procs[p := Storing(x.op, x.ticket, [])])
      else if x.op.Read? then
        s.(procs := s.procs[p := Unlocking(x.op, x.ticket, true, Some(x.box))], log := s.log + [(x.ticket, x.op)])
      else if x.op.MarkRead? && FirstWithId(x.box, x.op.id) == |x.box| then
        s.(procs := s.procs[p := Unlocking(x.op, x.ticket, true, None)], log := s.log + [(x.ticket, x.op)])
      else s.(procs := s.procs[p := Storing(x.op, x.ticket, Effect(x.box, x.op))])
    case Store(ok) =>
      var x := s.procs[p];
      var t := s.(procs := s.procs[p := Unlocking(x.op, x.ticket, ok, None)]);
      if ok then t.(file := Some(x.box), log := s.log + [(x.ticket, x.op)]) else t
    case Unlock =>
      var x := s.procs[p];
      s.(lock := None, procs := s.procs - {p}, reports := s.reports + [Report(x.ticket, x.op, x.ok, x.answer)])
    case Crash => s.(lock := if s.lock == Some(p) then None else s.lock, procs := s.procs - {p})
  }

  ghost predicate Runs(s: State, steps: seq<Step>)
    decreases |steps|
  {
    steps == [] || (Enabled(s, steps[0]) && Runs(Next(s, steps[0]), steps[1..]))
  }

  ghost function After(s: State, steps: seq<Step>): State
    requires Runs(s, steps)
    decreases |steps|
  {
    if steps == [] then s else After(Next(s, steps[0]), steps[1..])
  }

  /** What a process inside the critical section may rely on. */
  predicate PhaseOk(s: State, ph: Phase) {
    match ph
    case Waiting(_) => true
    case Locked(_, _) => true
    case Loaded(op, _, box) => box == Contents(s.file) && !op.Clear?
    case Storing(op, _, box) => box == Effect(Contents(s.file), op) && !op.Read?
    case Unlocking(op, _, ok, answer) => answer == if op.Read? && ok then Some(Contents(s.file)) else None
  }

  predicate Inside(s: State, p: Proc) { p in s.procs && !s.procs[p].Waiting? }

  /** Whoever is past the lock owns it and sees the current file. */
  ghost predicate OwnerInv(s: State) {
    forall p | Inside(s, p) :: s.lock == Some(p) && PhaseOk(s, s.procs[p])
  }

  /** Operations take effect in the order of their tickets, which is the order they acquired the lock. */
  ghost predicate TicketInv(s: State) {
    && (forall p | Inside(s, p) && !s.procs[p].Unlocking? ::
          s.procs[p].ticket < s.tickets && forall i | 0 <= i < |s.log| :: s.log[i].0 < s.procs[p].ticket)
    && (forall i | 0 <= i < |s.log| :: s.log[i].0 < s.tickets)
    && (forall i, j | 0 <= i < j < |s.log| :: s.log[i].0 < s.log[j].0)
  }

  ghost predicate LockInv(s: State) {
    OwnerInv(s) && TicketInv(s) && Contents(s.file) == Replay(Ops(s.log))
  }

  lemma StepKeepsOwner(s: State, st: Step)
    requires OwnerInv(s) && Enabled(s, st)
    ensures OwnerInv(Next(s, st))
  {
    hide Effect;
    ClearEmpties(Contents(s.file));
    var t := Next(s, st);
    forall p | Inside(t, p) ensures t.lock == Some(p) && PhaseOk(t, t.procs[p]) {
      assert p != st.proc ==> Inside(s, p) && t.procs[p] == s.procs[p];
    }
  }

  lemma StepKeepsTickets(s: State, st: Step)
    requires OwnerInv(s) && TicketInv(s) && Enabled(s, st)
    ensures TicketInv(Next(s, st))
  {
    hide Effect, PhaseOk, Contents, FirstWithId;
    var t := Next(s, st);
    forall p | Inside(t, p) && !t.procs[p].Unlocking?
      ensures t.procs[p].ticket < t.tickets && forall i | 0 <= i < |t.log| :: t.log[i].0 < t.procs[p].ticket
    {
      assert p != st.proc ==> Inside(s, p) && t.procs[p] == s.procs[p];
    }
  }

  lemma StepKeepsLockInv(s: State, st: Step)
    requires LockInv(s) && Enabled(s, st)
    ensures LockInv(Next(s, st))
  {
    hide Ops, Replay, Effect, TicketInv;
    StepKeepsOwner(s, st);
    StepKeepsTickets(s, st);
    if Next(s, st).log != s.log {
      var x := s.procs[st.proc];
      assert Inside(s, st.proc);
      OpsGrow(s.log, x.ticket, x.op);
      ReplayGrows(Ops(s.log), x.op);
      NoEffect(Contents(s.file), x.op);
    }
  }

  lemma NoEffect(box: seq<Message>, op: Op)
    ensures op.Read? || (op.MarkRead? && FirstWithId(box, op.id) == |box|) ==> Effect(box, op) == box
  {
  }

  lemma ClearEmpties(box: seq<Message>)
    ensures Effect(box, Clear) == []
  {
  }

  lemma {:induction false} RunKeepsLockInv(s: State, steps: seq<Step>)
    requires LockInv(s) && Runs(s, steps)
    ensures LockInv(After(s, steps))
    decreases |steps|
  {
    if steps != [] {
      StepKeepsLockInv(s, steps[0]);
      RunKeepsLockInv(Next(s, steps[0]), steps[1..]);
    }
  }

  /**
   In every interleaving, crashes and failed writes included, the file holds what the operations that took effect
   leave when run one after another in the order they acquired the lock; no update is lost, a read that succeeds
   returns that same inbox, and nothing else returns any.
   */
  lemma InboxIsLinearizable(s: State, steps: seq<Step>)
    requires Initial(s) && Runs(s, steps)
    ensures var t := After(s, steps);
            && Contents(t.file) == Replay(Ops(t.log))
            && Agrees(Contents(t.file), Ops(t.log))
            && (forall i, j | 0 <= i < j < |t.log| :: t.log[i].0 < t.log[j].0)
            && (forall p | p in t.procs && t.procs[p].Unlocking? ::
                  t.procs[p].answer == if t.procs[p].op.Read? && t.procs[p].ok then Some(Replay(Ops(t.log))) else None)
  {
    RunKeepsLockInv(s, steps);
    ReplayMeaning(Ops(After(s, steps).log));
  }

  ghost predicate Logged(s: State, ticket: nat, op: Op) {
    (ticket, op) in s.log
  }

  /** Reports and finished operations tell whether they took effect, and their tickets are behind the current one. */
  ghost predicate ReportInv(s: State) {
    && (forall i | 0 <= i < |s.reports| ::
          s.reports[i].ticket < s.tickets && (s.reports[i].ok <==> Logged(s, s.reports[i].ticket, s.reports[i].op)))
    && (forall p, i | Inside(s, p) && 0 <= i < |s.reports| :: s.reports[i].ticket < s.procs[p].ticket)
    && (forall p | Inside(s, p) ::
          s.procs[p].ticket < s.tickets
          && (s.procs[p].Unlocking? ==> (s.procs[p].ok <==> Logged(s, s.procs[p].ticket, s.procs[p].op))))
  }

  lemma NotLoggedYet(s: State, p: Proc)
    requires TicketInv(s) && Inside(s, p) && !s.procs[p].Unlocking?
    ensures forall op :: !Logged(s, s.procs[p].ticket, op)
  {
  }

  /** A step logs the operation of its own ticket, or nothing. */
  lemma LoggedAfter(s: State, st: Step, ticket: nat, op: Op)
    requires Enabled(s, st)
    ensures Logged(Next(s, st), ticket, op) <==>
            Logged(s, ticket, op)
            || (Next(s, st).log != s.log && (ticket, op) == (s.procs[st.proc].ticket, s.procs[st.proc].op))
    ensures Next(s, st).log != s.log ==>
              !s.procs[st.proc].Waiting? && !s.procs[st.proc].Unlocking? && Next(s, st).log == s.log + [(s.procs[st.proc].ticket, s.procs[st.proc].op)]
  {
    hide Effect, Contents;
  }

  lemma StepKeepsReports(s: State, st: Step)
    requires OwnerInv(s) && TicketInv(s) && ReportInv(s) && Enabled(s, st)
    ensures ReportInv(Next(s, st))
  {
    hide Effect, PhaseOk, Contents, TicketInv;
    var t := Next(s, st);
    if Inside(s, st.proc) && !s.procs[st.proc].Unlocking? {
      NotLoggedYet(s, st.proc);
    }
    forall i | 0 <= i < |t.reports|
      ensures t.reports[i].ticket < t.tickets && (t.reports[i].ok <==> Logged(t, t.reports[i].ticket, t.reports[i].op))
    {
      LoggedAfter(s, st, t.reports[i].ticket, t.reports[i].op);
      hide Logged;
      assert i < |s.reports| ==> t.reports[i] == s.reports[i];
    }
    forall p | Inside(t, p)
      ensures t.procs[p].ticket < t.tickets
      ensures t.procs[p].Unlocking? ==> (t.procs[p].ok <==> Logged(t, t.procs[p].ticket, t.procs[p].op))
      ensures forall i | 0 <= i < |t.reports| :: t.reports[i].ticket < t.procs[p].ticket
    {
      assert p != st.proc ==> Inside(s, p) && t.procs[p] == s.procs[p];
      if t.procs[p].Unlocking? {
        LoggedAfter(s, st, t.procs[p].ticket, t.procs[p].op);
      }
    }
  }

  lemma {:induction false} RunKeepsReports(s: State, steps: seq<Step>)
    requires LockInv(s) && ReportInv(s) && Runs(s, steps)
    ensures ReportInv(After(s, steps))
    decreases |steps|
  {
    if steps != [] {
      StepKeepsLockInv(s, steps[0]);
      StepKeepsReports(s, steps[0]);
      hide LockInv, ReportInv;
      RunKeepsReports(Next(s, steps[0]), steps[1..]);
    }
  }

  /** A caller that is told of success has its operation in the log, under its ticket; one told of failure has not. */
  lemma ReportsAreTrue(s: State, steps: seq<Step>)
    requires Initial(s) && Runs(s, steps)
    ensures var t := After(s, steps);
            forall i | 0 <= i < |t.reports| ::
              t.reports[i].ok <==> Logged(t, t.reports[i].ticket, t.reports[i].op)
  {
    RunKeepsReports(s, steps);
  }

  /** A read that succeeded returned what the operations before its own entry in the log leave; nothing else returned any. */
  ghost predicate Answered(log: seq<(nat, Op)>, ticket: nat, op: Op, ok: bool, answer: Option<seq<Message>>) {
    if op.Read? && ok then exists k: nat :: AnsweredAt(log, ticket, answer, k)
    else answer == None
  }

  ghost predicate AnsweredAt(log: seq<(nat, Op)>, ticket: nat, answer: Option<seq<Message>>, k: nat) {
    k < |log| && log[k] == (ticket, Read) && answer == Some(Replay(Ops(log[..k])))
  }

  ghost predicate AnswerInv(s: State) {
    && (forall i | 0 <= i < |s.reports| ::
          Answered(s.log, s.reports[i].ticket, s.reports[i].op, s.reports[i].ok, s.reports[i].answer))
    && (forall p | p in s.procs && s.procs[p].Unlocking? ::
          Answered(s.log, s.procs[p].ticket, s.procs[p].op, s.procs[p].ok, s.procs[p].answer))
  }

  lemma AnsweredStays(log: seq<(nat, Op)>, more: seq<(nat, Op)>, ticket: nat, op: Op, ok: bool, answer: Option<seq<Message>>)
    requires log <= more && Answered(log, ticket, op, ok, answer)
    ensures Answered(more, ticket, op, ok, answer)
  {
    hide Replay, Ops;
    if op.Read? && ok {
      var k: nat :| AnsweredAt(log, ticket, answer, k);
      assert more[..k] == log[..k];
      assert AnsweredAt(more, ticket, answer, k);
    }
  }

  /** A process that finishes an operation answers it from the current file. */
  lemma FinishAnswers(s: State, st: Step)
    requires LockInv(s) && Enabled(s, st) && st.proc in Next(s, st).procs && Next(s, st).procs[st.proc].Unlocking?
    requires !s.procs[st.proc].Unlocking?
    ensures var x, t := Next(s, st).procs[st.proc], Next(s, st); Answered(t.log, x.ticket, x.op, x.ok, x.answer)
  {
    hide Replay, Ops, Effect, TicketInv;
    var x, t := Next(s, st).procs[st.proc], Next(s, st);
    assert Inside(s, st.proc);
    if x.op.Read? && x.ok {
      var k := |s.log|;
      assert t.log[..k] == s.log;
      assert AnsweredAt(t.log, x.ticket, x.answer, k);
    }
  }

  lemma StepKeepsAnswers(s: State, st: Step)
    requires LockInv(s) && AnswerInv(s) && Enabled(s, st)
    ensures AnswerInv(Next(s, st))
  {
    var t := Next(s, st);
    LogOnlyGrows(s, st);
    hide Replay, Ops, Effect, Answered, LockInv;
    forall i | 0 <= i < |t.reports|
      ensures Answered(t.log, t.reports[i].ticket, t.reports[i].op, t.reports[i].ok, t.reports[i].answer)
    {
      if i < |s.reports| {
        var r := s.reports[i];
        assert t.reports[i] == r;
        AnsweredStays(s.log, t.log, r.ticket, r.op, r.ok, r.answer);
      }
    }
    forall p | p in t.procs && t.procs[p].Unlocking?
      ensures Answered(t.log, t.procs[p].ticket, t.procs[p].op, t.procs[p].ok, t.procs[p].answer)
    {
      if p == st.proc {
        FinishAnswers(s, st);
      } else {
        var x := s.procs[p];
        AnsweredStays(s.log, t.log, x.ticket, x.op, x.ok, x.answer);
      }
    }
  }

  lemma LogOnlyGrows(s: State, st: Step)
    requires Enabled(s, st)
    ensures s.log <= Next(s, st).log
    ensures st.act.Unlock? ==> Next(s, st).log == s.log
  {
    hide Effect, Contents;
  }

  lemma {:induction false} RunKeepsAnswers(s: State, steps: seq<Step>)
    requires LockInv(s) && AnswerInv(s) && Runs(s, steps)
    ensures AnswerInv(After(s, steps))
    decreases |steps|
  {
    if steps != [] {
      StepKeepsLockInv(s, steps[0]);
      StepKeepsAnswers(s, steps[0]);
      hide LockInv, AnswerInv, Next, Enabled;
      RunKeepsAnswers(Next(s, steps[0]), steps[1..]);
    }
  }

  /**
   In every run, a caller of a read that is told of success is given the replay of the log up to its own entry, which
   is that of the operations with smaller tickets; no other caller is given anything.
   */
  lemma ReadsReturnTheInbox(s: State, steps: seq<Step>)
    requires Initial(s) && Runs(s, steps)
    ensures var t := After(s, steps);
            && (forall i | 0 <= i < |t.reports| ::
                  Answered(t.log, t.reports[i].ticket, t.reports[i].op, t.reports[i].ok, t.reports[i].answer))
            && (forall i, j | 0 <= i < j < |t.log| :: t.log[i].0 < t.log[j].0)
  {
    RunKeepsAnswers(s, steps);
    RunKeepsLockInv(s, steps);
  }

  /** No read, parse or write of the file fails. */
  predicate Healthy(st: Step) {
    st.act != Load(false) && st.act != Store(false)
  }

  ghost predicate AllOk(s: State) {
    && (forall i | 0 <= i < |s.reports| :: s.reports[i].ok)
    && (forall p | p in s.procs && s.procs[p].Unlocking? :: s.procs[p].ok)
  }

  lemma StepKeepsAllOk(s: State, st: Step)
    requires Enabled(s, st) && Healthy(st) && AllOk(s)
    ensures AllOk(Next(s, st))
  {
    hide Effect, Contents, FirstWithId;
  }

  /** In every run without a failing read or write of the file, every caller is told of success. */
  lemma {:induction false} HealthyRunsSucceed(s: State, steps: seq<Step>)
    requires AllOk(s) && Runs(s, steps) && forall st | st in steps :: Healthy(st)
    ensures AllOk(After(s, steps))
    decreases |steps|
  {
    if steps != [] {
      assert steps[0] in steps;
      StepKeepsAllOk(s, steps[0]);
      hide Next, Enabled, AllOk, Healthy;
      HealthyRunsSucceed(Next(s, steps[0]), steps[1..]);
    }
  }

  /** At most one process is past the lock. */
  lemma MutualExclusion(s: State, steps: seq<Step>, p: Proc, q: Proc)
    requires Initial(s) && Runs(s, steps)
    requires var t := After(s, steps); p in t.procs && q in t.procs && !t.procs[p].Waiting? && !t.procs[q].Waiting?
    ensures p == q
  {
    RunKeepsLockInv(s, steps);
  }

  // ---------------------------------------------------------------------------
  // The manager
  // ---------------------------------------------------------------------------

  datatype Fault = InvalidName

  /** `validate_name` */
  predicate ValidName(name: string) {
    && name != "" && ByteLen(name) <= 255
    && '/' !in name && '\\' !in name && '\0' !in name
    && name != "." && name != ".."
  }

  predicate PlainChar(c: char) {
    'a' <= c <= 'z' || 'A' <= c <= 'Z' || '0' <= c <= '9' || c == '-' || c == '_'
  }

  lemma {:induction false} PlainBytes(name: string)
    requires forall i | 0 <= i < |name| :: PlainChar(name[i])
    ensures ByteLen(name) == |name|
  {
    if name != "" {
      PlainBytes(name[1..]);
    }
  }

  /** Names that cannot leave the inbox directory: separators, NUL and the dot directories are refused, plain names are not. */
  lemma NamesStayInTheirDirectory(name: string, before: string, after: string)
    ensures !ValidName("") && !ValidName(".") && !ValidName("..")
    ensures !ValidName(before + "/" + after) && !ValidName(before + "\\" + after) && !ValidName(before + "\0" + after)
    ensures (forall i | 0 <= i < |name| :: PlainChar(name[i])) ==> (ValidName(name) <==> 1 <= |name| <= 255)
  {
    assert (before + "/" + after)[|before|] == '/' && (before + "\\" + after)[|before|] == '\\';
    assert (before + "\0" + after)[|before|] == '\0';
    if forall i | 0 <= i < |name| :: PlainChar(name[i]) {
      PlainBytes(name);
    }
  }

  type Boxes = map<Agent, seq<Message>>

  function BoxOf(boxes: Boxes, agent: Agent): seq<Message> {
    if agent in boxes then boxes[agent] else []
  }

  /** The first member a broadcast cannot address, or the number of members. */
  function StopsAt(from: Agent, members: seq<Agent>): (n: nat)
    ensures n <= |members|
    ensures forall i | 0 <= i < n :: members[i] == from || ValidName(members[i])
    ensures n < |members| ==> members[n] != from && !ValidName(members[n])
  {
    if members == [] || (members[0] != from && !ValidName(members[0])) then 0 else 1 + StopsAt(from, members[1..])
  }

  /** What a broadcast to the first `n` members sends to `agent`: one message for each time it is listed, none to the sender. */
  function MessagesFor(agent: Agent, from: Agent, content: string, members: seq<Agent>, uuids: seq<MsgId>, n: nat): seq<Message>
    requires n <= |members| == |uuids|
  {
    if n == 0 then []
    else
      MessagesFor(agent, from, content, members, uuids, n - 1)
      + if members[n - 1] == agent && agent != from then [Message(uuids[n - 1], from, agent, content, false)] else []
  }

  function Sent(boxes: Boxes, msg: Message): Boxes {
    boxes[msg.recipient := Effect(BoxOf(boxes, msg.recipient), Send(msg))]
  }

  /** The inboxes after the first `n` members of a broadcast have been handled. */
  function Broadcasted(boxes: Boxes, from: Agent, content: string, members: seq<Agent>, uuids: seq<MsgId>, n: nat): Boxes
    requires n <= |members| == |uuids|
  {
    if n == 0 then boxes
    else
      var b := Broadcasted(boxes, from, content, members, uuids, n - 1);
      if members[n - 1] == from then b else Sent(b, Message(uuids[n - 1], from, members[n - 1], content, false))
  }

  /** Each listed agent but the sender gets its own copies after what it had, and nobody else gets anything. */
  lemma {:induction false} BroadcastReachesTheListed(
      boxes: Boxes, agent: Agent, from: Agent, content: string, members: seq<Agent>, uuids: seq<MsgId>, n: nat)
    requires n <= |members| == |uuids|
    ensures BoxOf(Broadcasted(boxes, from, content, members, uuids, n), agent)
            == BoxOf(boxes, agent) + MessagesFor(agent, from, content, members, uuids, n)
  {
    if n != 0 {
      BroadcastReachesTheListed(boxes, agent, from, content, members, uuids, n - 1);
    }
  }

  type Logs = map<Agent, seq<Op>>

  function OpsOf(log: Logs, agent: Agent): seq<Op> {
    if agent in log then log[agent] else []
  }

  function WithOp(log: Logs, agent: Agent, op: Op): Logs {
    log[agent := OpsOf(log, agent) + [op]]
  }

  /** Every inbox is the replay of the operations made on it, as in the lock protocol. */
  ghost predicate Replayed(boxes: Boxes, log: Logs) {
    forall agent :: BoxOf(boxes, agent) == Replay(OpsOf(log, agent))
  }

  lemma OneMoreOp(boxes: Boxes, log: Logs, agent: Agent, op: Op)
    requires Replayed(boxes, log)
    ensures Replayed(boxes[agent := Effect(BoxOf(boxes, agent), op)], WithOp(log, agent, op))
  {
    hide Replay, Effect;
    ReplayGrows(OpsOf(log, agent), op);
    var after, more := boxes[agent := Effect(BoxOf(boxes, agent), op)], WithOp(log, agent, op);
    forall a ensures BoxOf(after, a) == Replay(OpsOf(more, a)) {
      assert BoxOf(boxes, a) == Replay(OpsOf(log, a));
    }
  }

  lemma SameBoxes(boxes: Boxes, same: Boxes, log: Logs)
    requires Replayed(boxes, log) && forall agent :: BoxOf(boxes, agent) == BoxOf(same, agent)
    ensures Replayed(same, log)
  {
    hide Replay;
  }

  class FileInboxManager {
    var boxes: Boxes
    /** The operations that took effect, inbox by inbox. */
    ghost var log: Logs

    ghost predicate Valid()
      reads this
    {
      Replayed(boxes, log)
    }

    constructor ()
      ensures Valid() && boxes == map[] && log == map[]
    {
      boxes, log := map[], map[];
    }

    method SendMessage(msg: Message) returns (r: Option<Fault>)
      requires Valid()
      modifies this
      ensures Valid() && log == if r.None? then WithOp(old(log), msg.recipient, Send(msg)) else old(log)
      ensures r.None? <==> ValidName(msg.recipient)
      ensures boxes == if r.None? then Sent(old(boxes), msg) else old(boxes)
    {
      hide ValidName, Replayed;
      if !ValidName(msg.recipient) {
        return Some(InvalidName);
      }
      OneMoreOp(boxes, log, msg.recipient, Send(msg));
      log := WithOp(log, msg.recipient, Send(msg));
      var messages := BoxOf(boxes, msg.recipient);
      messages := messages + [msg];
      boxes := boxes[msg.recipient := messages];
      r := None;
    }

    /** The ids of a broadcast's messages are fresh uuids, given here as a parameter. */
    method Broadcast(from: Agent, content: string, members: seq<Agent>, uuids: seq<MsgId>) returns (r: Option<Fault>)
      requires Valid() && |uuids| == |members|
      modifies this
      ensures Valid()
      ensures r.None? <==> StopsAt(from, members) == |members|
      ensures boxes == Broadcasted(old(boxes), from, content, members, uuids, StopsAt(from, members))
    {
      hide ValidName, Sent, Replayed;
      var i := 0;
      while i < |members|
        invariant Valid() && i <= StopsAt(from, members)
        invariant boxes == Broadcasted(old(boxes), from, content, members, uuids, i)
      {
        if members[i] != from {
          r := SendMessage(Message(uuids[i], from, members[i], content, false));
          if r.Some? {
            return;
          }
        }
        i := i + 1;
      }
      r := None;
    }

    method MarkMessageRead(agent: Agent, id: MsgId) returns (r: Option<Fault>)
      requires Valid()
      modifies this
      ensures Valid() && log == if r.None? then WithOp(old(log), agent, MarkRead(id)) else old(log)
      ensures r.None? <==> ValidName(agent)
      ensures r.Some? ==> boxes == old(boxes)
      ensures forall a :: BoxOf(boxes, a) == if r.None? && a == agent then Effect(BoxOf(old(boxes), a), MarkRead(id))
                                             else BoxOf(old(boxes), a)
    {
      hide ValidName, Replayed;
      if !ValidName(agent) {
        return Some(InvalidName);
      }
      OneMoreOp(boxes, log, agent, MarkRead(id));
      log := WithOp(log, agent, MarkRead(id));
      ghost var marked := boxes[agent := Effect(BoxOf(boxes, agent), MarkRead(id))];
      var messages := BoxOf(boxes, agent);
      var i := 0;
      while i < |messages| && messages[i].id != id
        invariant i <= FirstWithId(messages, id)
      {
        i := i + 1;
      }
      if i < |messages| {
        messages := messages[i := messages[i].(read := true)];
        boxes := boxes[agent := messages];
      }
      SameBoxes(marked, boxes, log);
      r := None;
    }

    method ClearInbox(agent: Agent) returns (r: Option<Fault>)
      requires Valid()
      modifies this
      ensures Valid() && log == if r.None? then WithOp(old(log), agent, Clear) else old(log)
      ensures r.None? <==> ValidName(agent)
      ensures boxes == if r.None? then old(boxes)[agent := Effect(BoxOf(old(boxes), agent), Clear)] else old(boxes)
    {
      hide ValidName, Replayed;
      if !ValidName(agent) {
        return Some(InvalidName);
      }
      OneMoreOp(boxes, log, agent, Clear);
      log := WithOp(log, agent, Clear);
      boxes := boxes[agent := []];
      r := None;
    }
  }
}
