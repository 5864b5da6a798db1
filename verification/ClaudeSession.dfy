/**
 The turn gate and the output channel of a Claude session (src/backend/claude_code.rs, src/backend/mod.rs).

 `send_input` calls, the background reader, the child process and the consumer of the output channel interleave;
 each atomic load, store or notification is one step.  A `Notified` future is modelled by the number of
 `notify_waiters` calls at its creation: it is ready as soon as that number has grown.
 */
module ClaudeSession {
  import opened Wrappers

  const OUTPUT_CHANNEL_SIZE: nat := 256

  datatype Output =
    | Message(text: string) | Delta(text: string) | ToolOutput(text: string)
    | TurnComplete | Idle | Error(reason: string)

  predicate IsControl(o: Output) { o.TurnComplete? || o.Error? || o.Idle? }

  // ---------------------------------------------------------------------------
  // Stream events
  // ---------------------------------------------------------------------------

  datatype Block = Block(isText: bool, text: string)

  /** The `type` field of a stream-json event. */
  datatype Kind = Assistant | Result | ToolUse | System | Other

  datatype Event = Event(kind: Kind, blocks: seq<Block>, result: Option<string>, isError: bool, sessionId: Option<string>)

  datatype Line = Blank | Malformed | Parsed(event: Event)

  predicate IsResult(e: Event) { e.kind.Result? }

  function JoinText(blocks: seq<Block>): string {
    if blocks == [] then ""
    else (if blocks[0].isText then blocks[0].text else "") + JoinText(blocks[1..])
  }

  /** `map_event_to_output` */
  function MapEvent(e: Event): Option<Output> {
    match e.kind
    case Assistant =>
      var text := JoinText(e.blocks);
      if text == "" then None else Some(Delta(text))
    case Result =>
      if e.isError then Some(Error(if e.result.Some? then e.result.value else "unknown error"))
      else Some(TurnComplete)
    case _ => None
  }

  // ---------------------------------------------------------------------------
  // Steps
  // ---------------------------------------------------------------------------

  /** Where a `send_input` call is. `permit` is the notification count when its future was created. */
  datatype Sender =
    | Entering
    | Looping
    | Permitted(permit: nat)
    | Declined(permit: nat)    // has read idle == false
    | Parked(permit: nat)
    | Claiming                 // has read idle == true
    | Writing

  datatype Reader =
    | Top
    | Reading
    | Capturing(event: Event)
    | Opening(event: Event)       // a result: about to store idle
    | Notifying(event: Event)
    | Mapping(event: Event)
    | Sending(output: Output)     // awaiting room for a control event
    | Releasing(reason: string)   // alive is false; about to store idle
    | ReleaseNotifying(reason: string)
    | LastWords(reason: string)   // awaiting the final error
    | Stopped

  /** The flags `alive` and `idle`, the count of `notify_waiters` calls, the calls in progress, and whether the session object is gone. */
  datatype Gate = Gate(alive: bool, idle: bool, notifies: nat, senders: map<nat, Sender>, dropped: bool)

  /** The child has `owed` user messages it has not answered, and lines the reader has not read. */
  datatype Child = Child(owed: nat, stdout: seq<Line>)

  /** The bounded channel; `closed` once the receiver is gone. */
  datatype Channel = Channel(queue: seq<Output>, closed: bool, consumed: seq<Output>)

  /** What the reader has done so far. */
  datatype History = History(
    emitted: seq<Output>,      // outputs offered to the channel
    handled: seq<Event>,       // events whose session-id capture succeeded and that were mapped
    farewell: seq<Output>,     // the reader's closing error
    lost: seq<Output>,         // control events whose delivery failed
    released: bool)            // idle was forced open by EOF, a read error or a poisoned lock

  datatype State = State(gate: Gate, reader: Reader, child: Child, chan: Channel, past: History)

  /** A new session is idle, and its channel already holds the synthetic readiness event. */
  predicate Initial(s: State) {
    s == State(Gate(true, true, 0, map[], false), Top, Child(0, []), Channel([TurnComplete], false, []),
               History([TurnComplete], [], [], [], false))
  }

  // `send_input`, one call per id

  datatype SenderAct =
    | Call | CheckAlive | TakePermit | LoadIdle | RecheckAlive | Wake | GiveUp | Claim | Write(delivered: bool)

  predicate SenderEnabled(g: Gate, id: nat, act: SenderAct) {
    if act.Call? then id !in g.senders && !g.dropped
    else id in g.senders && match act
      case CheckAlive => g.senders[id].Entering?
      case TakePermit => g.senders[id].Looping?
      case LoadIdle => g.senders[id].Permitted?
      case RecheckAlive => g.senders[id].Declined?
      case Wake => g.senders[id].Parked? && g.senders[id].permit < g.notifies
      case GiveUp => g.senders[id].Parked?
      case Claim => g.senders[id].Claiming?
      case Write(_) => g.senders[id].Writing?
      case Call => false
  }

  /** Where the call is after the act; None once it has returned. */
  function SenderMove(g: Gate, id: nat, act: SenderAct): Option<Sender>
    requires SenderEnabled(g, id, act)
  {
    match act
    case Call => Some(Entering)
    case CheckAlive => if g.alive then Some(Looping) else None
    case TakePermit => Some(Permitted(g.notifies))
    case LoadIdle => Some(if g.idle then Claiming else Declined(g.senders[id].permit))
    case RecheckAlive => if g.alive then Some(Parked(g.senders[id].permit)) else None
    case Wake => Some(Looping)
    case GiveUp => None
    case Claim => Some(Writing)
    case Write(_) => None
  }

  function NextSender(s: State, id: nat, act: SenderAct): State
    requires SenderEnabled(s.gate, id, act)
  {
    var g := s.gate;
    var m := SenderMove(g, id, act);
    s.(gate := Gate(g.alive, g.idle && !act.Claim?, g.notifies,
                    if m.Some? then g.senders[id := m.value] else g.senders - {id}, g.dropped),
       child := if act == Write(true) then s.child.(owed := s.child.owed + 1) else s.child)
  }

  // `background_reader`

  datatype SendOutcome = Delivered | TimedOut | ChannelClosed

  datatype ReaderAct =
    | LoadAlive
    | ReadLine
    | ReadEnd(reason: string)       // EOF or a read error
    | Capture(poisoned: bool)
    | StoreIdle
    | Notify
    | EmitMapped
    | FinishSend(outcome: SendOutcome)
    | Release
    | ReleaseNotify
    | FinishLastWords
    | Abort                         // a shutdown, a kill or a drop of the session aborts the reader at an await

  const POISONED := "poisoned mutex: claude session_id_slot"

  predicate HasSessionId(e: Event) { e.sessionId.Some? && e.sessionId.value != "" }

  predicate ReaderEnabled(s: State, act: ReaderAct) {
    match act
    case LoadAlive => s.reader.Top?
    case ReadLine => s.reader.Reading? && s.child.stdout != []
    case ReadEnd(_) => s.reader.Reading?
    case Capture(poisoned) => s.reader.Capturing? && (poisoned ==> HasSessionId(s.reader.event))
    case StoreIdle => s.reader.Opening?
    case Notify => s.reader.Notifying?
    case EmitMapped => s.reader.Mapping?
    case FinishSend(outcome) =>
      && s.reader.Sending?
      && (outcome.Delivered? ==> !s.chan.closed && |s.chan.queue| < OUTPUT_CHANNEL_SIZE)
      && (outcome.ChannelClosed? ==> s.chan.closed)
    case Release => s.reader.Releasing?
    case ReleaseNotify => s.reader.ReleaseNotifying?
    case FinishLastWords => s.reader.LastWords? && (s.chan.closed || |s.chan.queue| < OUTPUT_CHANNEL_SIZE)
    case Abort => (!s.gate.alive || s.gate.dropped) && (s.reader.Reading? || s.reader.Sending? || s.reader.LastWords?)
  }

  /** The control event whose delivery the reader is waiting for. */
  function InDoubt(r: Reader): seq<Output> {
    match r
    case Sending(o) => [o]
    case LastWords(reason) => [Error(reason)]
    case _ => []
  }

  function Push(c: Channel, o: Output): Channel {
    c.(queue := c.queue + [o])
  }

  /** `send_agent_output` up to its first suspension: data is queued, dropped or refused; control must wait. */
  function OfferOutput(s: State, o: Output): State {
    var t := s.(past := s.past.(emitted := s.past.emitted + [o]));
    if IsControl(o) then t.(reader := Sending(o))
    else if s.chan.closed then t.(gate := s.gate.(alive := false), reader := Stopped)
    else if |s.chan.queue| < OUTPUT_CHANNEL_SIZE then t.(chan := Push(s.chan, o), reader := Top)
    else t.(reader := Top)
  }

  function NextReader(s: State, act: ReaderAct): State
    requires ReaderEnabled(s, act)
  {
    match act
    case LoadAlive => s.(reader := if s.gate.alive then Reading else Stopped)
    case ReadLine =>
      var line := s.child.stdout[0];
      s.(child := s.child.(stdout := s.child.stdout[1..]),
         reader := if line.Parsed? then Capturing(line.event) else Top)
    case ReadEnd(reason) => s.(gate := s.gate.(alive := false), reader := Releasing(reason))
    case Capture(poisoned) =>
      if poisoned then s.(gate := s.gate.(alive := false), reader := Releasing(POISONED))
      else s.(reader := if IsResult(s.reader.event) then Opening(s.reader.event) else Mapping(s.reader.event))
    case StoreIdle => s.(gate := s.gate.(idle := true), reader := Notifying(s.reader.event))
    case Notify => s.(gate := s.gate.(notifies := s.gate.notifies + 1), reader := Mapping(s.reader.event))
    case EmitMapped =>
      var out := MapEvent(s.reader.event);
      var t := s.(past := s.past.(handled := s.past.handled + [s.reader.event]));
      if out.None? then t.(reader := Top) else OfferOutput(t, out.value)
    case FinishSend(outcome) =>
      if outcome.Delivered? then s.(chan := Push(s.chan, s.reader.output), reader := Top)
      else s.(gate := s.gate.(alive := false), reader := Stopped, past := s.past.(lost := s.past.lost + InDoubt(s.reader)))
    case Release =>
      s.(gate := s.gate.(idle := true), reader := ReleaseNotifying(s.reader.reason), past := s.past.(released := true))
    case ReleaseNotify =>
      var err := Error(s.reader.reason);
      s.(gate := s.gate.(notifies := s.gate.notifies + 1), reader := LastWords(s.reader.reason),
         past := s.past.(emitted := s.past.emitted + [err], farewell := s.past.farewell + [err]))
    case FinishLastWords =>
      if s.chan.closed then s.(reader := Stopped, past := s.past.(lost := s.past.lost + InDoubt(s.reader)))
      else s.(chan := Push(s.chan, Error(s.reader.reason)), reader := Stopped)
    case Abort => s.(reader := Stopped, past := s.past.(lost := s.past.lost + InDoubt(s.reader)))
  }

  // The child, the consumer, `shutdown` and the owner of the session, who drops it when nobody borrows it

  datatype WorldAct = ChildWrites(line: Line) | Receive | CloseReceiver | ClearAlive | DropSession

  predicate WorldEnabled(s: State, act: WorldAct) {
    match act
    case ChildWrites(line) => line.Parsed? && IsResult(line.event) ==> 0 < s.child.owed
    case Receive => !s.chan.closed && s.chan.queue != []
    case DropSession => s.gate.senders == map[]
    case _ => true
  }

  function NextWorld(s: State, act: WorldAct): State
    requires WorldEnabled(s, act)
  {
    match act
    case ChildWrites(line) =>
      s.(child := Child(if line.Parsed? && IsResult(line.event) then s.child.owed - 1 else s.child.owed,
                        s.child.stdout + [line]))
    case Receive =>
      s.(chan := s.chan.(consumed := s.chan.consumed + [s.chan.queue[0]], queue := s.chan.queue[1..]))
    case CloseReceiver => s.(chan := s.chan.(closed := true))
    case ClearAlive => s.(gate := s.gate.(alive := false))
    case DropSession => s.(gate := s.gate.(dropped := true))
  }

  datatype Step = OfSender(id: nat, send: SenderAct) | OfReader(read: ReaderAct) | OfWorld(other: WorldAct)

  predicate Enabled(s: State, st: Step) {
    match st
    case OfSender(id, act) => SenderEnabled(s.gate, id, act)
    case OfReader(act) => ReaderEnabled(s, act)
    case OfWorld(act) => WorldEnabled(s, act)
  }

  function Next(s: State, st: Step): State
    requires Enabled(s, st)
  {
    match st
    case OfSender(id, act) => NextSender(s, id, act)
    case OfReader(act) => NextReader(s, act)
    case OfWorld(act) => NextWorld(s, act)
  }

  ghost predicate Runs(s: State, steps: seq<Step>)
    decreases |steps|
  {
    steps == [] || (Enabled(s, steps[0]) && Runs(Next(s, steps[0]), steps[1..]))
  }

  ghost function After(s: State, steps: seq<Step>): State
    requires Runs(s, steps)
    decreases |steps|
  {
    if steps == [] then s else After(Next(s, steps[0]), steps[1..])
  }

  // ---------------------------------------------------------------------------
  // No lost wakeup
  // ---------------------------------------------------------------------------

  predicate Unnotified(g: Gate, id: nat) {
    id in g.senders && (g.senders[id].Declined? || g.senders[id].Parked?) && g.notifies <= g.senders[id].permit
  }

  predicate AboutToNotify(r: Reader) { r.Notifying? || r.ReleaseNotifying? }

  ghost predicate WakeInv(s: State) {
    var g := s.gate;
    && (forall id | id in g.senders && (g.senders[id].Permitted? || g.senders[id].Declined? || g.senders[id].Parked?) ::
          g.senders[id].permit <= g.notifies)
    && (g.idle && !AboutToNotify(s.reader) ==> forall id :: !Unnotified(g, id))
  }

  lemma SenderKeepsWakeInv(s: State, id: nat, act: SenderAct)
    requires WakeInv(s) && SenderEnabled(s.gate, id, act)
    ensures WakeInv(NextSender(s, id, act))
  {
    var g := NextSender(s, id, act).gate;
    forall other | g.idle && Unnotified(g, other) ensures AboutToNotify(s.reader) {
      assert Unnotified(s.gate, other) || (other == id && act.LoadIdle?);
    }
  }

  lemma ReaderKeepsWakeInv(s: State, act: ReaderAct)
    requires WakeInv(s) && ReaderEnabled(s, act)
    ensures WakeInv(NextReader(s, act))
  {
    var t := NextReader(s, act);
    assert t.gate.senders == s.gate.senders;
    assert forall id | Unnotified(t.gate, id) :: Unnotified(s.gate, id);
  }

  lemma StepKeepsWakeInv(s: State, st: Step)
    requires WakeInv(s) && Enabled(s, st)
    ensures WakeInv(Next(s, st))
  {
    match st
    case OfSender(id, act) => SenderKeepsWakeInv(s, id, act);
    case OfReader(act) => ReaderKeepsWakeInv(s, act);
    case OfWorld(act) =>
      assert forall id | Unnotified(Next(s, st).gate, id) :: Unnotified(s.gate, id);
  }

  lemma {:induction false} RunKeepsWakeInv(s: State, steps: seq<Step>)
    requires WakeInv(s) && Runs(s, steps)
    ensures WakeInv(After(s, steps))
    decreases |steps|
  {
    if steps != [] {
      StepKeepsWakeInv(s, steps[0]);
      RunKeepsWakeInv(Next(s, steps[0]), steps[1..]);
    }
  }

  /**
   No interleaving of any number of senders leaves one parked and un-notified while the gate is open, except
   between the reader's store and its notification, and that notification wakes every parked sender.
   */
  lemma NoLostWakeup(s: State, steps: seq<Step>, id: nat)
    requires Initial(s) && Runs(s, steps)
    requires var t := After(s, steps); id in t.gate.senders && t.gate.senders[id].Parked? && t.gate.idle
    ensures var t := After(s, steps);
            || Enabled(t, OfSender(id, Wake))
            || (Enabled(t, OfReader(Notify)) && Enabled(Next(t, OfReader(Notify)), OfSender(id, Wake)))
            || (Enabled(t, OfReader(ReleaseNotify)) && Enabled(Next(t, OfReader(ReleaseNotify)), OfSender(id, Wake)))
  {
    RunKeepsWakeInv(s, steps);
    assert !Unnotified(After(s, steps).gate, id) || AboutToNotify(After(s, steps).reader);
  }

  // ---------------------------------------------------------------------------
  // Turn serialisation
  // ---------------------------------------------------------------------------

  function Results(lines: seq<Line>): nat {
    if lines == [] then 0
    else (if lines[0].Parsed? && IsResult(lines[0].event) then 1 else 0) + Results(lines[1..])
  }

  lemma {:induction false} ResultsAppend(lines: seq<Line>, line: Line)
    ensures Results(lines + [line]) == Results(lines) + if line.Parsed? && IsResult(line.event) then 1 else 0
  {
    if lines == [] {
      assert [] + [line] == [line] && [line][1..] == [];
    } else {
      ResultsAppend(lines[1..], line);
      assert (lines + [line])[1..] == lines[1..] + [line];
    }
  }

  /** 1 while the reader holds a result it has not applied to the gate yet. */
  function InHand(r: Reader): nat {
    if (r.Capturing? || r.Opening?) && IsResult(r.event) then 1 else 0
  }

  /** User turns delivered to the child whose result has not yet reopened the gate. */
  function Outstanding(s: State): nat {
    s.child.owed + Results(s.child.stdout) + InHand(s.reader)
  }

  /** `send_input` borrows the session mutably: a call starts only when no other is running. */
  ghost predicate Exclusive(s: State, steps: seq<Step>)
    requires Runs(s, steps)
    decreases |steps|
  {
    steps == [] ||
    ((steps[0].OfSender? && steps[0].send.Call? ==> s.gate.senders == map[])
     && Exclusive(Next(s, steps[0]), steps[1..]))
  }

  ghost predicate TurnShape(s: State, turns: nat) {
    var g := s.gate;
    && (forall id, id' | id in g.senders && id' in g.senders :: id == id')
    && (s.past.released ==> !g.alive)
    && (s.reader.Releasing? ==> !g.alive)
    && (s.reader.Opening? ==> IsResult(s.reader.event))
    && (!s.past.released ==>
          && turns <= 1
          && (g.idle ==> turns == 0)
          && (forall id | id in g.senders && g.senders[id].Claiming? :: g.idle)
          && (forall id | id in g.senders && g.senders[id].Writing? :: !g.idle && turns == 0))
  }

  ghost predicate TurnInv(s: State) {
    TurnShape(s, Outstanding(s))
  }

  lemma SenderKeepsTurnInv(s: State, id: nat, act: SenderAct)
    requires TurnInv(s) && SenderEnabled(s.gate, id, act) && (act.Call? ==> s.gate.senders == map[])
    ensures TurnInv(NextSender(s, id, act))
  {
    var t := NextSender(s, id, act);
    assert forall other | other in t.gate.senders :: other == id;
  }

  lemma ReaderMovesTurns(s: State, act: ReaderAct)
    requires ReaderEnabled(s, act) && (s.reader.Opening? ==> IsResult(s.reader.event))
    ensures Outstanding(NextReader(s, act)) <= Outstanding(s)
    ensures act.StoreIdle? ==> Outstanding(NextReader(s, act)) == Outstanding(s) - 1
  {
    if !act.ReadLine? {
      assert NextReader(s, act).child == s.child;
    }
  }

  lemma ReaderKeepsTurnInv(s: State, act: ReaderAct)
    requires TurnInv(s) && ReaderEnabled(s, act)
    ensures TurnInv(NextReader(s, act))
  {
    ReaderMovesTurns(s, act);
    assert NextReader(s, act).gate.senders == s.gate.senders;
  }

  lemma StepKeepsTurnInv(s: State, st: Step)
    requires TurnInv(s) && Enabled(s, st) && (st.OfSender? && st.send.Call? ==> s.gate.senders == map[])
    ensures TurnInv(Next(s, st))
  {
    match st
    case OfSender(id, act) => SenderKeepsTurnInv(s, id, act);
    case OfReader(act) => ReaderKeepsTurnInv(s, act);
    case OfWorld(act) =>
      if act.ChildWrites? {
        ResultsAppend(s.child.stdout, act.line);
      }
  }

  lemma {:induction false} RunKeepsTurnInv(s: State, steps: seq<Step>)
    requires TurnInv(s) && Runs(s, steps) && Exclusive(s, steps)
    ensures TurnInv(After(s, steps))
    decreases |steps|
  {
    if steps != [] {
      StepKeepsTurnInv(s, steps[0]);
      RunKeepsTurnInv(Next(s, steps[0]), steps[1..]);
    }
  }

  /** With exclusive callers at most one turn is outstanding until the gate is forced open, and an open live gate means none. */
  lemma TurnsAreSerial(s: State, steps: seq<Step>)
    requires Initial(s) && Runs(s, steps) && Exclusive(s, steps)
    ensures var t := After(s, steps); !t.past.released ==> Outstanding(t) <= 1
    ensures var t := After(s, steps); t.gate.alive && t.gate.idle ==> Outstanding(t) == 0
  {
    RunKeepsTurnInv(s, steps);
  }

  lemma Prepend(s: State, st: Step, rest: seq<Step>)
    requires Enabled(s, st) && Runs(Next(s, st), rest)
    ensures Runs(s, [st] + rest) && After(s, [st] + rest) == After(Next(s, st), rest)
  {
    assert ([st] + rest)[1..] == rest;
  }

  predicate BothAt(s: State, a: nat, b: nat, ph: Sender) {
    a != b && a in s.gate.senders && b in s.gate.senders && s.gate.senders[a] == s.gate.senders[b] == ph
  }

  /** Two senders that have both seen the open gate both write. */
  lemma BothWrite(s: State, a: nat, b: nat) returns (steps: seq<Step>)
    requires BothAt(s, a, b, Claiming)
    ensures Runs(s, steps) && Outstanding(After(s, steps)) == Outstanding(s) + 2
    ensures !After(s, steps).gate.idle
  {
    var s1 := Next(s, OfSender(a, Claim));
    var s2 := Next(s1, OfSender(b, Claim));
    var s3 := Next(s2, OfSender(a, Write(true)));
    var s4 := Next(s3, OfSender(b, Write(true)));
    assert Runs(s4, []) && Outstanding(s4) == Outstanding(s) + 2;
    steps := [OfSender(b, Write(true))] + [];
    Prepend(s3, OfSender(b, Write(true)), []);
    Prepend(s2, OfSender(a, Write(true)), steps);
    steps := [OfSender(a, Write(true))] + steps;
    Prepend(s1, OfSender(b, Claim), steps);
    steps := [OfSender(b, Claim)] + steps;
    Prepend(s, OfSender(a, Claim), steps);
    steps := [OfSender(a, Claim)] + steps;
  }

  /**
   Exclusive access is needed: the load and the store of `idle` are separate, so whenever the gate is open and two
   calls are about to look at it, both of their turns can become outstanding.
   */
  lemma ConcurrentCallsOverlap(s: State, a: nat, b: nat) returns (steps: seq<Step>)
    requires s.gate.idle && BothAt(s, a, b, Looping)
    ensures Runs(s, steps) && Outstanding(After(s, steps)) == Outstanding(s) + 2
  {
    var s1 := Next(s, OfSender(a, TakePermit));
    var s2 := Next(s1, OfSender(a, LoadIdle));
    var s3 := Next(s2, OfSender(b, TakePermit));
    var s4 := Next(s3, OfSender(b, LoadIdle));
    steps := BothWrite(s4, a, b);
    Prepend(s3, OfSender(b, LoadIdle), steps);
    steps := [OfSender(b, LoadIdle)] + steps;
    Prepend(s2, OfSender(b, TakePermit), steps);
    steps := [OfSender(b, TakePermit)] + steps;
    Prepend(s1, OfSender(a, LoadIdle), steps);
    steps := [OfSender(a, LoadIdle)] + steps;
    Prepend(s, OfSender(a, TakePermit), steps);
    steps := [OfSender(a, TakePermit)] + steps;
  }

  /** From a new session, two calls that are not exclusive reach such a state, and two turns are outstanding. */
  lemma TwoCallsOverlap(s: State) returns (steps: seq<Step>)
    requires Initial(s)
    ensures Runs(s, steps) && !Exclusive(s, steps) && Outstanding(After(s, steps)) == 2
  {
    var s1 := Next(s, OfSender(0, Call));
    var s2 := Next(s1, OfSender(0, CheckAlive));
    var s3 := Next(s2, OfSender(1, Call));
    var s4 := Next(s3, OfSender(1, CheckAlive));
    steps := ConcurrentCallsOverlap(s4, 0, 1);
    Prepend(s3, OfSender(1, CheckAlive), steps);
    steps := [OfSender(1, CheckAlive)] + steps;
    Prepend(s2, OfSender(1, Call), steps);
    steps := [OfSender(1, Call)] + steps;
    assert !Exclusive(s2, steps);
    Prepend(s1, OfSender(0, CheckAlive), steps);
    NotExclusive(s1, OfSender(0, CheckAlive), steps);
    steps := [OfSender(0, CheckAlive)] + steps;
    Prepend(s, OfSender(0, Call), steps);
    NotExclusive(s, OfSender(0, Call), steps);
    steps := [OfSender(0, Call)] + steps;
  }

  lemma NotExclusive(s: State, st: Step, rest: seq<Step>)
    requires Enabled(s, st) && Runs(Next(s, st), rest) && Runs(s, [st] + rest) && !Exclusive(Next(s, st), rest)
    ensures !Exclusive(s, [st] + rest)
  {
    assert ([st] + rest)[1..] == rest;
  }

  // ---------------------------------------------------------------------------
  // A gate that stays shut
  // ---------------------------------------------------------------------------

  /** The gate is closed, no turn is outstanding that could reopen it, and nobody is past it. */
  ghost predicate Shut(s: State) {
    && !s.gate.idle && Outstanding(s) == 0
    && (s.reader.Opening? ==> IsResult(s.reader.event))
    && (forall id | id in s.gate.senders :: !s.gate.senders[id].Claiming? && !s.gate.senders[id].Writing?)
  }

  lemma StepKeepsShut(s: State, st: Step)
    requires Shut(s) && Enabled(s, st)
    ensures Shut(Next(s, st)) || Next(s, st).past.released
  {
    match st
    case OfSender(id, act) => assert Outstanding(Next(s, st)) == 0;
    case OfReader(act) => ReaderMovesTurns(s, act);
    case OfWorld(act) =>
      if act.ChildWrites? {
        ResultsAppend(s.child.stdout, act.line);
      }
  }

  lemma ReleasedStays(s: State, st: Step)
    requires Enabled(s, st) && s.past.released
    ensures Next(s, st).past.released
  {
  }

  lemma {:induction false} ReleasedIsForGood(s: State, steps: seq<Step>)
    requires Runs(s, steps) && s.past.released
    ensures After(s, steps).past.released
    decreases |steps|
  {
    if steps != [] {
      hide Next, Enabled;
      ReleasedStays(s, steps[0]);
      ReleasedIsForGood(Next(s, steps[0]), steps[1..]);
    }
  }

  /** Nothing but EOF, a read error or a poisoned lock reopens such a gate, and no call gets past it. */
  lemma {:induction false} ShutStays(s: State, steps: seq<Step>)
    requires Shut(s) && Runs(s, steps) && !After(s, steps).past.released
    ensures Shut(After(s, steps))
    decreases |steps|
  {
    if steps != [] {
      hide Next, Enabled, Shut;
      StepKeepsShut(s, steps[0]);
      if Next(s, steps[0]).past.released {
        ReleasedIsForGood(Next(s, steps[0]), steps[1..]);
      }
      ShutStays(Next(s, steps[0]), steps[1..]);
    }
  }

  ghost predicate Reopens(s: State, steps: seq<Step>) {
    Runs(s, steps) && !After(s, steps).past.released && After(s, steps).gate.idle
  }

  lemma PrependReopens(s: State, st: Step, rest: seq<Step>)
    requires Enabled(s, st) && Reopens(Next(s, st), rest)
    ensures Reopens(s, [st] + rest)
  {
    hide Next, Enabled;
    Prepend(s, st, rest);
  }

  /** A reader that is free to work, before a closed gate. */
  predicate ReaderIsFree(s: State) {
    s.gate.alive && s.reader.Top? && !s.chan.closed && !s.past.released
  }

  /** One line that is no result leaves the reader free and the turns as they were. */
  lemma ReadPast(s: State, more: seq<Step>) returns (steps: seq<Step>)
    requires ReaderIsFree(s) && s.child.stdout != [] && !(s.child.stdout[0].Parsed? && IsResult(s.child.stdout[0].event))
    ensures var t := AfterLine(s);
            ReaderIsFree(t) && t.child == s.child.(stdout := s.child.stdout[1..]) && (Reopens(t, more) ==> Reopens(s, steps))
  {
    hide Outstanding, Results;
    var s1 := Next(s, OfReader(LoadAlive));
    var s2 := Next(s1, OfReader(ReadLine));
    if s.child.stdout[0].Parsed? {
      var s3 := Next(s2, OfReader(Capture(false)));
      steps := [OfReader(EmitMapped)] + more;
      if Reopens(AfterLine(s), more) {
        PrependReopens(s3, OfReader(EmitMapped), more);
        PrependReopens(s2, OfReader(Capture(false)), steps);
      }
      steps := [OfReader(Capture(false))] + steps;
    } else {
      steps := more;
    }
    if Reopens(AfterLine(s), more) {
      PrependReopens(s1, OfReader(ReadLine), steps);
      PrependReopens(s, OfReader(LoadAlive), [OfReader(ReadLine)] + steps);
    }
    steps := [OfReader(LoadAlive)] + ([OfReader(ReadLine)] + steps);
  }

  /** The state after the reader has dealt with a line that is no result. */
  function AfterLine(s: State): State
    requires ReaderIsFree(s) && s.child.stdout != [] && !(s.child.stdout[0].Parsed? && IsResult(s.child.stdout[0].event))
  {
    var s2 := NextReader(NextReader(s, LoadAlive), ReadLine);
    if s.child.stdout[0].Parsed? then NextReader(NextReader(s2, Capture(false)), EmitMapped) else s2
  }

  /** A result reopens the gate. */
  lemma ReadResult(s: State) returns (steps: seq<Step>)
    requires ReaderIsFree(s) && s.child.stdout != [] && s.child.stdout[0].Parsed? && IsResult(s.child.stdout[0].event)
    ensures Reopens(s, steps)
  {
    var s1 := Next(s, OfReader(LoadAlive));
    var s2 := Next(s1, OfReader(ReadLine));
    var s3 := Next(s2, OfReader(Capture(false)));
    var s4 := Next(s3, OfReader(StoreIdle));
    assert Reopens(s4, []);
    PrependReopens(s3, OfReader(StoreIdle), []);
    PrependReopens(s2, OfReader(Capture(false)), [OfReader(StoreIdle)] + []);
    steps := [OfReader(Capture(false))] + ([OfReader(StoreIdle)] + []);
    PrependReopens(s1, OfReader(ReadLine), steps);
    steps := [OfReader(ReadLine)] + steps;
    PrependReopens(s, OfReader(LoadAlive), steps);
    steps := [OfReader(LoadAlive)] + steps;
  }

  lemma {:induction false} OwedResultReopens(s: State) returns (steps: seq<Step>)
    requires ReaderIsFree(s) && Outstanding(s) > 0
    ensures Reopens(s, steps)
    decreases Results(s.child.stdout) == 0, |s.child.stdout|
  {
    if Results(s.child.stdout) == 0 {
      var line := Parsed(Event(Result, [], None, false, None));
      var t := Next(s, OfWorld(ChildWrites(line)));
      ResultsAppend(s.child.stdout, line);
      steps := OwedResultReopens(t);
      PrependReopens(s, OfWorld(ChildWrites(line)), steps);
      steps := [OfWorld(ChildWrites(line))] + steps;
    } else if s.child.stdout[0].Parsed? && IsResult(s.child.stdout[0].event) {
      steps := ReadResult(s);
    } else {
      var nothing := ReadPast(s, []);
      var rest := OwedResultReopens(AfterLine(s));
      steps := ReadPast(s, rest);
    }
  }

  /**
   A live session whose reader is free and whose gate is closed, with no call under way, can have its gate reopened
   by something other than its end if and only if a turn is outstanding.  A write that failed leaves none.
   */
  lemma ReopensExactlyWhenOwed(s: State)
    requires ReaderIsFree(s) && !s.gate.idle && s.gate.senders == map[]
    ensures (exists steps :: Reopens(s, steps)) <==> Outstanding(s) > 0
  {
    if Outstanding(s) > 0 {
      var steps := OwedResultReopens(s);
    } else {
      forall steps ensures !Reopens(s, steps) {
        if Reopens(s, steps) {
          ShutStays(s, steps);
        }
      }
    }
  }

  /** A call that finds the gate open and cannot write leaves everything but the gate as it was. */
  lemma CallThatFails(s: State, id: nat) returns (steps: seq<Step>)
    requires s.gate.senders == map[id := Looping] && s.gate.idle
    ensures Runs(s, steps) && Exclusive(s, steps)
    ensures After(s, steps) == s.(gate := s.gate.(idle := false, senders := map[]))
  {
    var s1 := Next(s, OfSender(id, TakePermit));
    var s2 := Next(s1, OfSender(id, LoadIdle));
    var s3 := Next(s2, OfSender(id, Claim));
    var s4 := Next(s3, OfSender(id, Write(false)));
    assert s4.gate.senders == map[];
    assert Runs(s4, []) && Exclusive(s4, []) && After(s4, []) == s4;
    steps := [OfSender(id, Write(false))] + [];
    PrependExclusive(s3, OfSender(id, Write(false)), []);
    PrependExclusive(s2, OfSender(id, Claim), steps);
    steps := [OfSender(id, Claim)] + steps;
    PrependExclusive(s1, OfSender(id, LoadIdle), steps);
    steps := [OfSender(id, LoadIdle)] + steps;
    PrependExclusive(s, OfSender(id, TakePermit), steps);
    steps := [OfSender(id, TakePermit)] + steps;
  }

  /** From a new session, one write that fails leaves it alive behind a gate that nothing but its end reopens. */
  lemma FailedWriteShutsTheGate(s: State) returns (steps: seq<Step>)
    requires Initial(s)
    ensures Runs(s, steps) && Exclusive(s, steps)
    ensures var t := After(s, steps);
            t.gate.alive && t.gate.senders == map[] && ReaderIsFree(t) && Shut(t) && forall more :: !Reopens(t, more)
  {
    var s1 := Next(s, OfSender(0, Call));
    var s2 := Next(s1, OfSender(0, CheckAlive));
    steps := CallThatFails(s2, 0);
    PrependExclusive(s1, OfSender(0, CheckAlive), steps);
    steps := [OfSender(0, CheckAlive)] + steps;
    PrependExclusive(s, OfSender(0, Call), steps);
    steps := [OfSender(0, Call)] + steps;
    ReopensExactlyWhenOwed(After(s, steps));
  }

  lemma PrependExclusive(s: State, st: Step, rest: seq<Step>)
    requires Enabled(s, st) && Runs(Next(s, st), rest) && Exclusive(Next(s, st), rest)
    requires st.OfSender? && st.send.Call? ==> s.gate.senders == map[]
    ensures Runs(s, [st] + rest) && Exclusive(s, [st] + rest) && After(s, [st] + rest) == After(Next(s, st), rest)
  {
    hide Next, Enabled;
    assert ([st] + rest)[1..] == rest;
  }

  /** From `a` to `b` a shut gate has not been opened, unless the session has ended. */
  ghost predicate StaysShut(a: State, b: State) {
    (a.past.released ==> b.past.released) && (Shut(a) ==> Shut(b) || b.past.released)
  }

  lemma ShutTwice(a: State, b: State, c: State)
    requires StaysShut(a, b) && StaysShut(b, c)
    ensures StaysShut(a, c)
  {
    hide Shut;
  }

  lemma SameStaysShut(s: State)
    ensures StaysShut(s, s)
  {
  }

  lemma StepStaysShut(s: State, st: Step)
    requires Enabled(s, st)
    ensures StaysShut(s, Next(s, st))
  {
    if s.past.released {
      ReleasedStays(s, st);
    }
    if Shut(s) {
      StepKeepsShut(s, st);
    }
  }

  // ---------------------------------------------------------------------------
  // The lossy channel
  // ---------------------------------------------------------------------------

  /** `a` is `b` with some elements left out. */
  predicate Subsequence<T(==)>(a: seq<T>, b: seq<T>)
    decreases |b|
  {
    if a == [] then true
    else if b == [] then false
    else
      || (a[|a| - 1] == b[|b| - 1] && Subsequence(a[..|a| - 1], b[..|b| - 1]))
      || Subsequence(a, b[..|b| - 1])
  }

  lemma SubsequenceGrows<T>(a: seq<T>, b: seq<T>, x: T)
    requires Subsequence(a, b)
    ensures Subsequence(a, b + [x]) && Subsequence(a + [x], b + [x])
  {
    assert (a + [x])[..|a|] == a && (b + [x])[..|b|] == b;
  }

  function Controls(os: seq<Output>): seq<Output> {
    if os == [] then []
    else Controls(os[..|os| - 1]) + if IsControl(os[|os| - 1]) then [os[|os| - 1]] else []
  }

  lemma ControlsGrow(os: seq<Output>, o: Output)
    ensures Controls(os + [o]) == Controls(os) + if IsControl(o) then [o] else []
  {
    assert (os + [o])[..|os|] == os;
  }

  /** The outputs of a series of events, in order. */
  function Outputs(es: seq<Event>): seq<Output> {
    if es == [] then []
    else
      var out := MapEvent(es[|es| - 1]);
      Outputs(es[..|es| - 1]) + if out.Some? then [out.value] else []
  }

  function ResultEvents(es: seq<Event>): nat {
    if es == [] then 0 else ResultEvents(es[..|es| - 1]) + if IsResult(es[|es| - 1]) then 1 else 0
  }

  /** One control event per result event, and none for any other. */
  lemma {:induction false} OneControlPerResult(es: seq<Event>)
    ensures |Controls(Outputs(es))| == ResultEvents(es)
  {
    if es != [] {
      OneControlPerResult(es[..|es| - 1]);
      var out := MapEvent(es[|es| - 1]);
      if out.Some? {
        ControlsGrow(Outputs(es[..|es| - 1]), out.value);
      } else {
        assert Outputs(es) == Outputs(es[..|es| - 1]);
      }
    }
  }

  function Received(s: State): seq<Output> {
    s.chan.consumed + s.chan.queue
  }

  /** `settled` is what was offered before the event the reader is now waiting to deliver. */
  ghost predicate ChannelShape(s: State, settled: seq<Output>) {
    && |s.chan.queue| <= OUTPUT_CHANNEL_SIZE
    && s.past.emitted == settled + InDoubt(s.reader)
    && Subsequence(Received(s), settled)
    && Controls(Received(s)) + s.past.lost == Controls(settled)
    && (s.past.lost != [] ==> |s.past.lost| == 1 && s.reader.Stopped? && (!s.gate.alive || s.gate.dropped))
    && (s.reader.Sending? ==> IsControl(s.reader.output))
    && (s.reader.Releasing? || s.reader.ReleaseNotifying? || s.reader.LastWords? ==> !s.gate.alive)
  }

  ghost predicate ChannelInv(s: State) {
    exists settled :: ChannelShape(s, settled)
  }

  lemma OfferKeepsChannelInv(s: State, o: Output)
    requires ChannelShape(s, s.past.emitted) && s.reader.Mapping?
    ensures ChannelInv(OfferOutput(s, o))
  {
    hide Controls, Subsequence;
    if IsControl(o) {
      assert ChannelShape(OfferOutput(s, o), s.past.emitted);
    } else {
      DataKeepsChannelInv(s, o);
    }
  }

  lemma DataKeepsChannelInv(s: State, o: Output)
    requires ChannelShape(s, s.past.emitted) && s.reader.Mapping? && !IsControl(o)
    ensures ChannelShape(OfferOutput(s, o), s.past.emitted + [o])
  {
    hide Controls, Subsequence;
    var emitted, received := s.past.emitted, Received(s);
    ControlsGrow(emitted, o);
    ControlsGrow(received, o);
    SubsequenceGrows(received, emitted, o);
    var t := OfferOutput(s, o);
    assert Controls(emitted + [o]) == Controls(emitted) + [] == Controls(emitted);
    if t.chan == s.chan {
      assert Received(t) == received;
    } else {
      assert Received(t) == received + [o];
      assert Controls(received + [o]) == Controls(received) + [] == Controls(received);
    }
  }

  /** Nothing is in doubt, and the reader is not on its way to a closing error. */
  predicate AtRest(r: Reader) { r.Top? || r.Stopped? }

  /** The awaited control event found room. */
  lemma DeliveryKeepsChannelInv(s: State, settled: seq<Output>, o: Output, t: State)
    requires ChannelShape(s, settled) && InDoubt(s.reader) == [o] && IsControl(o) && AtRest(t.reader)
    requires t.past == s.past && t.chan == Push(s.chan, o) && |s.chan.queue| < OUTPUT_CHANNEL_SIZE
    ensures ChannelInv(t)
  {
    hide Controls, Subsequence;
    ControlsGrow(settled, o);
    ControlsGrow(Received(s), o);
    SubsequenceGrows(Received(s), settled, o);
    assert Received(t) == Received(s) + [o] && s.past.lost == [];
    assert ChannelShape(t, settled + [o]);
  }

  /** The awaited control event timed out or met a closed channel. */
  lemma FailureKeepsChannelInv(s: State, settled: seq<Output>, o: Output, t: State)
    requires ChannelShape(s, settled) && InDoubt(s.reader) == [o] && IsControl(o) && t.reader.Stopped? && (!t.gate.alive || t.gate.dropped)
    requires t.past == s.past.(lost := s.past.lost + [o]) && t.chan == s.chan
    ensures ChannelInv(t)
  {
    hide Controls, Subsequence;
    ControlsGrow(settled, o);
    SubsequenceGrows(Received(s), settled, o);
    assert Received(t) == Received(s) && s.past.lost == [];
    assert ChannelShape(t, settled + [o]);
  }

  lemma ReaderKeepsChannelInv(s: State, act: ReaderAct)
    requires ChannelInv(s) && ReaderEnabled(s, act)
    ensures ChannelInv(NextReader(s, act))
  {
    hide Controls, Subsequence, MapEvent, OfferOutput;
    var settled :| ChannelShape(s, settled);
    var t := NextReader(s, act);
    match act
    case EmitMapped =>
      assert settled == s.past.emitted;
      var out := MapEvent(s.reader.event);
      var u := s.(past := s.past.(handled := s.past.handled + [s.reader.event]));
      if out.Some? {
        OfferKeepsChannelInv(u, out.value);
      } else {
        assert ChannelShape(t, settled);
      }
    case ReleaseNotify =>
      assert ChannelShape(t, settled);
    case FinishSend(outcome) =>
      if outcome.Delivered? {
        DeliveryKeepsChannelInv(s, settled, s.reader.output, t);
      } else {
        FailureKeepsChannelInv(s, settled, s.reader.output, t);
      }
    case FinishLastWords =>
      if s.chan.closed {
        FailureKeepsChannelInv(s, settled, Error(s.reader.reason), t);
      } else {
        DeliveryKeepsChannelInv(s, settled, Error(s.reader.reason), t);
      }
    case Abort =>
      if s.reader.Reading? {
        assert ChannelShape(t, settled);
      } else {
        FailureKeepsChannelInv(s, settled, InDoubt(s.reader)[0], t);
      }
    case _ => assert ChannelShape(t, settled);
  }

  lemma StepKeepsChannelInv(s: State, st: Step)
    requires ChannelInv(s) && Enabled(s, st)
    ensures ChannelInv(Next(s, st))
  {
    hide Controls, Subsequence, MapEvent, OfferOutput;
    match st
    case OfReader(act) => ReaderKeepsChannelInv(s, act);
    case _ =>
      var settled :| ChannelShape(s, settled);
      assert Received(Next(s, st)) == Received(s);
      assert ChannelShape(Next(s, st), settled);
  }

  lemma {:induction false} RunKeepsChannelInv(s: State, steps: seq<Step>)
    requires ChannelInv(s) && Runs(s, steps)
    ensures ChannelInv(After(s, steps))
    decreases |steps|
  {
    if steps != [] {
      StepKeepsChannelInv(s, steps[0]);
      RunKeepsChannelInv(Next(s, steps[0]), steps[1..]);
    }
  }

  lemma ShapeMeans(s: State, settled: seq<Output>)
    requires ChannelShape(s, settled)
    ensures Subsequence(Received(s), s.past.emitted)
    ensures Controls(Received(s)) + s.past.lost + InDoubt(s.reader) == Controls(s.past.emitted)
  {
    if s.reader.Sending? || s.reader.LastWords? {
      var o := InDoubt(s.reader)[0];
      assert s.past.emitted == settled + [o] && s.past.lost == [];
      ControlsGrow(settled, o);
      SubsequenceGrows(Received(s), settled, o);
    } else {
      assert s.past.emitted == settled;
    }
  }

  /**
   What was received or is queued is what was emitted with some data left out: every control event is there, in
   order, except the one still being delivered or the one whose delivery failed, after which the session is dead or gone.
   */
  lemma ChannelDropsOnlyData(s: State, steps: seq<Step>)
    requires Initial(s) && Runs(s, steps)
    ensures var t := After(s, steps);
            && Subsequence(Received(t), t.past.emitted)
            && Controls(Received(t)) + t.past.lost + InDoubt(t.reader) == Controls(t.past.emitted)
            && (t.past.lost != [] ==> |t.past.lost| == 1 && t.reader.Stopped? && (!t.gate.alive || t.gate.dropped))
  {
    ControlsGrow([], TurnComplete);
    SubsequenceGrows([], [], TurnComplete);
    assert [] + [TurnComplete] == [TurnComplete];
    assert ChannelShape(s, [TurnComplete]);
    RunKeepsChannelInv(s, steps);
    var t := After(s, steps);
    var settled :| ChannelShape(t, settled);
    ShapeMeans(t, settled);
  }

  ghost predicate EmissionInv(s: State) {
    && s.past.emitted == [TurnComplete] + Outputs(s.past.handled) + s.past.farewell
    && (s.past.farewell != [] ==> |s.past.farewell| == 1 && (s.reader.LastWords? || s.reader.Stopped?))
  }

  lemma OutputsGrow(es: seq<Event>, e: Event)
    ensures var out := MapEvent(e);
            Outputs(es + [e]) == Outputs(es) + if out.Some? then [out.value] else []
  {
    assert (es + [e])[..|es|] == es;
  }

  lemma StepKeepsEmissionInv(s: State, st: Step)
    requires EmissionInv(s) && Enabled(s, st)
    ensures EmissionInv(Next(s, st))
  {
    hide Outputs;
    var t := Next(s, st);
    if st == OfReader(EmitMapped) {
      OutputsGrow(s.past.handled, s.reader.event);
      assert t.past.farewell == s.past.farewell == [];
    } else if st == OfReader(ReleaseNotify) {
      assert s.past.farewell == [] && t.past.handled == s.past.handled;
    } else {
      assert t.past.(lost := [], released := true) == s.past.(lost := [], released := true);
      assert s.reader.LastWords? || s.reader.Stopped? ==> t.reader.LastWords? || t.reader.Stopped?;
    }
  }

  lemma {:induction false} RunKeepsEmissionInv(s: State, steps: seq<Step>)
    requires EmissionInv(s) && Runs(s, steps)
    ensures EmissionInv(After(s, steps))
    decreases |steps|
  {
    if steps != [] {
      StepKeepsEmissionInv(s, steps[0]);
      RunKeepsEmissionInv(Next(s, steps[0]), steps[1..]);
    }
  }

  // From the lines the child wrote to the outputs

  function EventsIn(lines: seq<Line>): seq<Event> {
    if lines == [] then []
    else (if lines[0].Parsed? then [lines[0].event] else []) + EventsIn(lines[1..])
  }

  function WrittenBy(st: Step): seq<Event> {
    match st
    case OfWorld(ChildWrites(line)) => EventsIn([line])
    case _ => []
  }

  function CapturedBy(s: State, st: Step, poisoned: bool): seq<Event>
    requires Enabled(s, st)
  {
    if st == OfReader(Capture(poisoned)) then [s.reader.event] else []
  }

  /** The events of the lines the child wrote in a run. */
  ghost function WrittenEvents(s: State, steps: seq<Step>): seq<Event>
    requires Runs(s, steps)
    decreases |steps|
  {
    if steps == [] then []
    else WrittenBy(steps[0]) + WrittenEvents(Next(s, steps[0]), steps[1..])
  }

  /** The events whose session-id capture succeeded in a run, or whose capture failed. */
  ghost function CapturedEvents(s: State, steps: seq<Step>, poisoned: bool): seq<Event>
    requires Runs(s, steps)
    decreases |steps|
  {
    if steps == [] then []
    else CapturedBy(s, steps[0], poisoned) + CapturedEvents(Next(s, steps[0]), steps[1..], poisoned)
  }

  /** The event that was captured and not mapped yet. */
  function Held(r: Reader): seq<Event> {
    if r.Opening? || r.Notifying? || r.Mapping? then [r.event] else []
  }

  /** The event that was read and not captured yet. */
  function ToCapture(r: Reader): seq<Event> {
    if r.Capturing? then [r.event] else []
  }

  /** After a failed capture the reader takes no further event. */
  predicate Leaving(r: Reader) {
    r.Releasing? || r.ReleaseNotifying? || r.LastWords? || r.Stopped?
  }

  lemma StepMapsCaptured(s: State, st: Step)
    requires Enabled(s, st)
    ensures Next(s, st).past.handled + Held(Next(s, st).reader)
            == s.past.handled + Held(s.reader) + CapturedBy(s, st, false)
  {
  }

  /** In any run, what was mapped and what is held are the events that were captured, in order. */
  lemma {:induction false} CapturedAreMapped(s: State, steps: seq<Step>)
    requires Runs(s, steps)
    ensures var t := After(s, steps);
            t.past.handled + Held(t.reader) == s.past.handled + Held(s.reader) + CapturedEvents(s, steps, false)
    decreases |steps|
  {
    if steps != [] {
      hide Next, Enabled, CapturedBy, Held;
      StepMapsCaptured(s, steps[0]);
      CapturedAreMapped(Next(s, steps[0]), steps[1..]);
    }
  }

  lemma {:induction false} EventsInConcat(a: seq<Line>, b: seq<Line>)
    ensures EventsIn(a + b) == EventsIn(a) + EventsIn(b)
  {
    if a == [] {
      assert a + b == b;
    } else {
      hide EventsIn;
      EventsInFirst(a);
      EventsInFirst(a + b);
      EventsInConcat(a[1..], b);
      assert (a + b)[1..] == a[1..] + b;
      Regroup(if a[0].Parsed? then [a[0].event] else [], EventsIn(a[1..]), EventsIn(b));
    }
  }

  lemma Regroup<T>(a: seq<T>, b: seq<T>, c: seq<T>)
    ensures a + (b + c) == (a + b) + c
  {
  }

  lemma LeavingStays(s: State, st: Step)
    requires Enabled(s, st) && Leaving(s.reader)
    ensures Leaving(Next(s, st).reader) && !(st.OfReader? && (st.read.Capture? || st.read.ReadLine?))
  {
  }

  lemma {:induction false} LeavingCapturesNothing(s: State, steps: seq<Step>)
    requires Runs(s, steps) && Leaving(s.reader)
    ensures CapturedEvents(s, steps, false) == CapturedEvents(s, steps, true) == []
    decreases |steps|
  {
    if steps != [] {
      hide Next, Enabled, Leaving;
      LeavingStays(s, steps[0]);
      LeavingCapturesNothing(Next(s, steps[0]), steps[1..]);
    }
  }

  /** What stands between the child's output and the captures. */
  function Unread(s: State): seq<Event> {
    ToCapture(s.reader) + EventsIn(s.child.stdout)
  }

  lemma StepReads(s: State, st: Step)
    requires Enabled(s, st)
    ensures Unread(s) + WrittenBy(st) == CapturedBy(s, st, false) + CapturedBy(s, st, true) + Unread(Next(s, st))
  {
    match st
    case OfSender(id, act) => assert Next(s, st).child.stdout == s.child.stdout;
    case OfReader(act) => ReaderReads(s, act);
    case OfWorld(act) =>
      if act.ChildWrites? {
        EventsInConcat(s.child.stdout, [act.line]);
      }
  }

  lemma ReaderReads(s: State, act: ReaderAct)
    requires ReaderEnabled(s, act)
    ensures var c := if act.Capture? then [s.reader.event] else [];
            Unread(s) == c + Unread(NextReader(s, act))
  {
    hide EventsIn;
    if act.ReadLine? {
      EventsInFirst(s.child.stdout);
    } else {
      assert NextReader(s, act).child == s.child;
    }
  }

  lemma EventsInFirst(lines: seq<Line>)
    requires lines != []
    ensures EventsIn(lines) == (if lines[0].Parsed? then [lines[0].event] else []) + EventsIn(lines[1..])
  {
  }

  /**
   In any run, the events of the lines that were there and that the child writes are, in order: those whose capture
   succeeds, at most one whose capture fails, and those not read or captured yet.
   */
  lemma {:induction false} LinesAreCaptured(s: State, steps: seq<Step>)
    requires Runs(s, steps)
    ensures Unread(s) + WrittenEvents(s, steps)
            == CapturedEvents(s, steps, false) + CapturedEvents(s, steps, true) + Unread(After(s, steps))
    ensures |CapturedEvents(s, steps, true)| <= 1
    decreases |steps|
  {
    if steps != [] {
      var st, rest, t := steps[0], steps[1..], Next(s, steps[0]);
      hide Next, Enabled, Unread, WrittenBy, Leaving;
      StepReads(s, st);
      LinesAreCaptured(t, rest);
      if st == OfReader(Capture(true)) {
        PoisonedLeaves(s);
        LeavingCapturesNothing(t, rest);
      }
      Rotate(Unread(s), WrittenBy(st), WrittenEvents(t, rest), CapturedBy(s, st, false), CapturedBy(s, st, true), Unread(t),
             CapturedEvents(t, rest, false), CapturedEvents(t, rest, true), Unread(After(t, rest)));
    }
  }

  lemma PoisonedLeaves(s: State)
    requires Enabled(s, OfReader(Capture(true)))
    ensures Leaving(Next(s, OfReader(Capture(true))).reader)
  {
  }

  lemma Rotate<T>(u: seq<T>, w: seq<T>, ws: seq<T>, c: seq<T>, p: seq<T>, u': seq<T>, cs: seq<T>, ps: seq<T>, end: seq<T>)
    requires u + w == c + p + u' && u' + ws == cs + ps + end && (p == [] || (c == [] && cs == [] && ps == []))
    ensures u + (w + ws) == (c + cs) + (p + ps) + end
  {
    calc {
      u + (w + ws);
      (u + w) + ws;
      c + p + (u' + ws);
      c + p + (cs + ps + end);
      (c + cs) + (p + ps) + end;
    }
  }

  lemma ControlsConcat(a: seq<Output>, b: seq<Output>)
    ensures Controls(a + b) == Controls(a) + Controls(b)
  {
    if b == [] {
      assert a + b == a;
    } else {
      var n := |b| - 1;
      ControlsConcat(a, b[..n]);
      assert (a + b)[..|a + b| - 1] == a + b[..n];
    }
  }

  lemma ResultEventsGrow(es: seq<Event>, e: Event)
    ensures ResultEvents(es + [e]) == ResultEvents(es) + if IsResult(e) then 1 else 0
  {
    assert (es + [e])[..|es|] == es;
  }

  /**
   The emitted sequence is the readiness event, the outputs of the captured events in order, the last of which may
   still be held, and at most one closing error; so it has exactly one control event for each captured result that
   is not held, besides the first and the closing one.
   */
  lemma EmittedPerEvent(s: State, steps: seq<Step>)
    requires Initial(s) && Runs(s, steps)
    ensures var t := After(s, steps);
            var captured := CapturedEvents(s, steps, false);
            && t.past.handled + Held(t.reader) == captured
            && t.past.emitted == [TurnComplete] + Outputs(t.past.handled) + t.past.farewell
            && |t.past.farewell| <= 1
            && |Controls(t.past.emitted)| == 1 + ResultEvents(captured) - ResultEvents(Held(t.reader)) + |t.past.farewell|
            && WrittenEvents(s, steps) == captured + CapturedEvents(s, steps, true) + Unread(t)
  {
    RunKeepsEmissionInv(s, steps);
    CapturedAreMapped(s, steps);
    LinesAreCaptured(s, steps);
    var t := After(s, steps);
    FarewellIsControl(s, steps);
    hide Runs, After, Outputs, Controls, ResultEvents, CapturedEvents, WrittenEvents, Unread, EmissionInv, IsControl, MapEvent;
    ControlsEmitted(t.past.handled, t.past.farewell);
    HeldResults(t.past.handled, t.reader);
  }

  lemma ControlsEmitted(handled: seq<Event>, farewell: seq<Output>)
    requires |farewell| <= 1 && forall o | o in farewell :: IsControl(o)
    ensures |Controls([TurnComplete] + Outputs(handled) + farewell)| == 1 + ResultEvents(handled) + |farewell|
  {
    hide Outputs, Controls, ResultEvents;
    OneControlPerResult(handled);
    ControlsConcat([TurnComplete] + Outputs(handled), farewell);
    ControlsConcat([TurnComplete], Outputs(handled));
    OneControl(TurnComplete);
    if farewell == [] {
      NoControl();
    } else {
      OneControl(farewell[0]);
      assert farewell == [farewell[0]];
    }
  }

  lemma HeldResults(handled: seq<Event>, r: Reader)
    ensures ResultEvents(handled + Held(r)) == ResultEvents(handled) + ResultEvents(Held(r))
  {
    if Held(r) == [] {
      assert handled + [] == handled;
    } else {
      ResultEventsGrow(handled, r.event);
      ResultEventsGrow([], r.event);
      assert [] + [r.event] == [r.event];
    }
  }

  lemma OneControl(o: Output)
    ensures Controls([o]) == if IsControl(o) then [o] else []
  {
    assert [o][..0] == [];
  }

  lemma NoControl()
    ensures Controls([]) == []
  {
  }

  lemma {:induction false} FarewellIsControl(s: State, steps: seq<Step>)
    requires Runs(s, steps) && forall o | o in s.past.farewell :: IsControl(o)
    ensures forall o | o in After(s, steps).past.farewell :: IsControl(o)
    decreases |steps|
  {
    if steps != [] {
      FarewellStep(s, steps[0]);
      hide Next, Enabled, IsControl;
      FarewellIsControl(Next(s, steps[0]), steps[1..]);
    }
  }

  lemma FarewellStep(s: State, st: Step)
    requires Enabled(s, st) && forall o | o in s.past.farewell :: IsControl(o)
    ensures forall o | o in Next(s, st).past.farewell :: IsControl(o)
  {
  }

  /** Between a successful capture and its emission the reader cannot be stopped or lose the event. */
  lemma CapturedEventIsEmitted(s: State, act: ReaderAct)
    requires (s.reader.Opening? || s.reader.Notifying? || s.reader.Mapping?) && ReaderEnabled(s, act)
    ensures var t := NextReader(s, act);
            if s.reader.Mapping? then t.past.handled == s.past.handled + [s.reader.event]
            else (t.reader.Notifying? || t.reader.Mapping?) && t.reader.event == s.reader.event
  {
  }

  // ---------------------------------------------------------------------------
  // What the outputs say
  // ---------------------------------------------------------------------------

  // Read off the outputs

  function Completions(os: seq<Output>): nat {
    if os == [] then 0 else Completions(os[..|os| - 1]) + if os[|os| - 1] == TurnComplete then 1 else 0
  }

  function ErrorTexts(os: seq<Output>): seq<string> {
    if os == [] then []
    else ErrorTexts(os[..|os| - 1]) + if os[|os| - 1].Error? then [os[|os| - 1].reason] else []
  }

  function DeltaText(os: seq<Output>): string {
    if os == [] then "" else DeltaText(os[..|os| - 1]) + if os[|os| - 1].Delta? then os[|os| - 1].text else ""
  }

  // Read off the events

  function Successes(es: seq<Event>): nat {
    if es == [] then 0
    else Successes(es[..|es| - 1]) + if es[|es| - 1].kind == Result && !es[|es| - 1].isError then 1 else 0
  }

  /** The messages of the results that are flagged as errors. */
  function FailureTexts(es: seq<Event>): seq<string> {
    if es == [] then []
    else
      var e := es[|es| - 1];
      FailureTexts(es[..|es| - 1])
      + if e.kind == Result && e.isError then [if e.result == None then "unknown error" else e.result.value] else []
  }

  function TextBlocks(blocks: seq<Block>): string {
    if blocks == [] then ""
    else TextBlocks(blocks[..|blocks| - 1]) + if blocks[|blocks| - 1].isText then blocks[|blocks| - 1].text else ""
  }

  /** The text blocks of all assistant messages. */
  function AssistantText(es: seq<Event>): string {
    if es == [] then ""
    else AssistantText(es[..|es| - 1]) + if es[|es| - 1].kind == Assistant then TextBlocks(es[|es| - 1].blocks) else ""
  }

  /** Only completions, errors and non-empty deltas. */
  predicate PlainOutputs(os: seq<Output>) {
    forall o | o in os :: o == TurnComplete || o.Error? || (o.Delta? && o.text != "")
  }

  lemma {:induction false} JoinSnoc(blocks: seq<Block>, b: Block)
    ensures JoinText(blocks + [b]) == JoinText(blocks) + if b.isText then b.text else ""
  {
    if blocks == [] {
      assert [] + [b] == [b] && [b][1..] == [];
    } else {
      JoinSnoc(blocks[1..], b);
      assert (blocks + [b])[1..] == blocks[1..] + [b];
    }
  }

  lemma {:induction false} JoinIsText(blocks: seq<Block>)
    ensures JoinText(blocks) == TextBlocks(blocks)
  {
    if blocks != [] {
      var n := |blocks| - 1;
      JoinIsText(blocks[..n]);
      JoinSnoc(blocks[..n], blocks[n]);
      assert blocks == blocks[..n] + [blocks[n]];
    }
  }

  lemma SaysGrow(os: seq<Output>, o: Output)
    ensures Completions(os + [o]) == Completions(os) + if o == TurnComplete then 1 else 0
    ensures ErrorTexts(os + [o]) == ErrorTexts(os) + if o.Error? then [o.reason] else []
    ensures DeltaText(os + [o]) == DeltaText(os) + if o.Delta? then o.text else ""
  {
    assert (os + [o])[..|os|] == os;
  }

  /** The outputs of any events say what the events' kinds and flags say. */
  lemma {:induction false} OutputsSayTheEvents(es: seq<Event>)
    ensures Completions(Outputs(es)) == Successes(es)
    ensures ErrorTexts(Outputs(es)) == FailureTexts(es)
    ensures DeltaText(Outputs(es)) == AssistantText(es)
    ensures PlainOutputs(Outputs(es))
  {
    if es != [] {
      var n := |es| - 1;
      OutputsSayTheEvents(es[..n]);
      JoinIsText(es[n].blocks);
      var out := MapEvent(es[n]);
      if out.Some? {
        SaysGrow(Outputs(es[..n]), out.value);
        assert Outputs(es) == Outputs(es[..n]) + [out.value];
      } else {
        assert Outputs(es) == Outputs(es[..n]);
      }
    }
  }

  lemma {:induction false} SaysConcat(a: seq<Output>, b: seq<Output>)
    ensures Completions(a + b) == Completions(a) + Completions(b)
    ensures ErrorTexts(a + b) == ErrorTexts(a) + ErrorTexts(b)
    ensures DeltaText(a + b) == DeltaText(a) + DeltaText(b)
  {
    hide Completions, ErrorTexts, DeltaText;
    if b == [] {
      SaysNothing();
      assert a + b == a;
    } else {
      var n := |b| - 1;
      SaysConcat(a, b[..n]);
      SaysGrow(a + b[..n], b[n]);
      SaysGrow(b[..n], b[n]);
      assert b == b[..n] + [b[n]];
      assert a + b == a + b[..n] + [b[n]];
    }
  }

  /** The reasons for which the reader gives up in a run. */
  ghost function Reasons(s: State, steps: seq<Step>): seq<string>
    requires Runs(s, steps)
    decreases |steps|
  {
    if steps == [] then []
    else ReasonOf(steps[0]) + Reasons(Next(s, steps[0]), steps[1..])
  }

  function ReasonOf(st: Step): seq<string> {
    match st
    case OfReader(ReadEnd(reason)) => [reason]
    case OfReader(Capture(true)) => [POISONED]
    case _ => []
  }

  /** The reason that the reader has not told yet. */
  function Untold(r: Reader): seq<string> {
    if r.Releasing? || r.ReleaseNotifying? then [r.reason] else []
  }

  ghost predicate FarewellShape(s: State) {
    && (s.past.farewell != [] ==> s.reader.LastWords? || s.reader.Stopped?)
    && (forall o | o in s.past.farewell :: o.Error?)
  }

  lemma StepTells(s: State, st: Step)
    requires Enabled(s, st) && FarewellShape(s)
    ensures FarewellShape(Next(s, st))
    ensures ErrorTexts(Next(s, st).past.farewell) + Untold(Next(s, st).reader)
            == ErrorTexts(s.past.farewell) + Untold(s.reader) + ReasonOf(st)
  {
    hide ErrorTexts;
    match st
    case OfReader(act) => ReaderTells(s, act);
    case _ => assert Next(s, st).reader == s.reader && Next(s, st).past == s.past;
  }

  lemma ReaderTells(s: State, act: ReaderAct)
    requires ReaderEnabled(s, act) && FarewellShape(s)
    ensures FarewellShape(NextReader(s, act))
    ensures ErrorTexts(NextReader(s, act).past.farewell) + Untold(NextReader(s, act).reader)
            == ErrorTexts(s.past.farewell) + Untold(s.reader) + ReasonOf(OfReader(act))
  {
    hide ErrorTexts, MapEvent, OfferOutput;
    if act == ReleaseNotify {
      SaysGrow(s.past.farewell, Error(s.reader.reason));
    } else if act == EmitMapped {
      var mapped := s.(past := s.past.(handled := s.past.handled + [s.reader.event]));
      if MapEvent(s.reader.event).Some? {
        OfferTellsNothing(mapped, MapEvent(s.reader.event).value);
      }
    } else {
      assert NextReader(s, act).past.farewell == s.past.farewell;
    }
  }

  lemma OfferTellsNothing(s: State, o: Output)
    ensures OfferOutput(s, o).past.farewell == s.past.farewell && Untold(OfferOutput(s, o).reader) == []
  {
  }

  /** The closing errors are, in order, the reasons for which the reader gave up. */
  lemma {:induction false} FarewellTellsTheReason(s: State, steps: seq<Step>)
    requires Runs(s, steps) && FarewellShape(s)
    ensures FarewellShape(After(s, steps))
    ensures ErrorTexts(After(s, steps).past.farewell) + Untold(After(s, steps).reader)
            == ErrorTexts(s.past.farewell) + Untold(s.reader) + Reasons(s, steps)
    decreases |steps|
  {
    if steps != [] {
      hide Next, Enabled, FarewellShape, ErrorTexts, Untold, ReasonOf;
      StepTells(s, steps[0]);
      FarewellTellsTheReason(Next(s, steps[0]), steps[1..]);
    }
  }

  /**
   In every run from the start: one completion for the readiness event and one for each handled result without error;
   the errors are the messages of the handled results with error, and then the reason the reader gave up; the deltas
   spell the text blocks of the handled assistant messages.
   */
  lemma SessionSaysTheEvents(s: State, steps: seq<Step>)
    requires Initial(s) && Runs(s, steps)
    ensures var t := After(s, steps);
            var handled := t.past.handled;
            && handled + Held(t.reader) == CapturedEvents(s, steps, false)
            && Completions(t.past.emitted) == 1 + Successes(handled)
            && ErrorTexts(t.past.emitted) + Untold(t.reader) == FailureTexts(handled) + Reasons(s, steps)
            && DeltaText(t.past.emitted) == AssistantText(handled)
            && PlainOutputs(t.past.emitted)
  {
    hide Completions, ErrorTexts, DeltaText, PlainOutputs, Successes, FailureTexts, AssistantText, Reasons, CapturedEvents,
      WrittenEvents, Outputs, Unread, Controls, ResultEvents, Runs, After;
    EmittedPerEvent(s, steps);
    SaysNothing();
    FarewellTellsTheReason(s, steps);
    var t := After(s, steps);
    EmittedSays(t.past.handled, t.past.farewell);
    Regroup(FailureTexts(t.past.handled), ErrorTexts(t.past.farewell), Untold(t.reader));
    assert [] + [] + Reasons(s, steps) == Reasons(s, steps);
  }

  lemma EmittedSays(handled: seq<Event>, farewell: seq<Output>)
    requires |farewell| <= 1 && forall o | o in farewell :: o.Error?
    ensures var emitted := [TurnComplete] + Outputs(handled) + farewell;
            && Completions(emitted) == 1 + Successes(handled)
            && ErrorTexts(emitted) == FailureTexts(handled) + ErrorTexts(farewell)
            && DeltaText(emitted) == AssistantText(handled)
            && PlainOutputs(emitted)
  {
    hide Completions, ErrorTexts, DeltaText, Outputs, Successes, FailureTexts, AssistantText;
    OutputsSayTheEvents(handled);
    ReadinessSays();
    FarewellSays(farewell);
    SaysConcat([TurnComplete], Outputs(handled));
    SaysConcat([TurnComplete] + Outputs(handled), farewell);
  }

  lemma ReadinessSays()
    ensures Completions([TurnComplete]) == 1 && ErrorTexts([TurnComplete]) == [] && DeltaText([TurnComplete]) == ""
  {
    hide Completions, ErrorTexts, DeltaText;
    SaysNothing();
    SaysGrow([], TurnComplete);
    assert [] + [TurnComplete] == [TurnComplete];
  }

  lemma FarewellSays(farewell: seq<Output>)
    requires |farewell| <= 1 && forall o | o in farewell :: o.Error?
    ensures Completions(farewell) == 0 && DeltaText(farewell) == ""
  {
    hide Completions, ErrorTexts, DeltaText;
    SaysNothing();
    if farewell != [] {
      SaysGrow([], farewell[0]);
      assert farewell == [] + [farewell[0]];
    }
  }

  lemma SaysNothing()
    ensures Completions([]) == 0 && ErrorTexts([]) == [] && DeltaText([]) == ""
  {
  }

  // ---------------------------------------------------------------------------
  // Only a full channel drops, and only an end stops the reader
  // ---------------------------------------------------------------------------

  /** Whenever the reader maps an event, the receiver is there and its channel has room. */
  ghost predicate Roomy(s: State, steps: seq<Step>)
    requires Runs(s, steps)
    decreases |steps|
  {
    steps == []
    || ((steps[0] == OfReader(EmitMapped) ==> !s.chan.closed && |s.chan.queue| < 256) && Roomy(Next(s, steps[0]), steps[1..]))
  }

  ghost predicate NothingDropped(s: State) {
    && Received(s) + s.past.lost + InDoubt(s.reader) == s.past.emitted
    && (s.past.lost != [] ==> s.reader.Stopped?)
  }

  lemma StepDropsNothing(s: State, st: Step)
    requires Enabled(s, st) && NothingDropped(s)
    requires st == OfReader(EmitMapped) ==> !s.chan.closed && |s.chan.queue| < 256
    ensures NothingDropped(Next(s, st))
  {
    hide MapEvent;
    var t := Next(s, st);
    if st.OfReader? {
      ReaderDropsNothing(s, st.read);
    } else {
      assert Received(t) == Received(s);
    }
  }

  lemma ReaderDropsNothing(s: State, act: ReaderAct)
    requires ReaderEnabled(s, act) && NothingDropped(s)
    requires act == EmitMapped ==> !s.chan.closed && |s.chan.queue| < 256
    ensures NothingDropped(NextReader(s, act))
  {
    hide MapEvent, Received;
    var t := NextReader(s, act);
    match act
    case EmitMapped => EmitDropsNothing(s);
    case FinishSend(outcome) =>
      if outcome.Delivered? { PushReceives(s, s.reader.output, t); } else { SameReceived(s, t); }
    case FinishLastWords =>
      if s.chan.closed { SameReceived(s, t); } else { PushReceives(s, Error(s.reader.reason), t); }
    case _ => SameReceived(s, t);
  }

  lemma EmitDropsNothing(s: State)
    requires s.reader.Mapping? && NothingDropped(s) && !s.chan.closed && |s.chan.queue| < 256
    ensures NothingDropped(NextReader(s, EmitMapped))
  {
    hide MapEvent, Received;
    var t := NextReader(s, EmitMapped);
    var out := MapEvent(s.reader.event);
    if out.Some? && !IsControl(out.value) {
      PushReceives(s, out.value, t);
    } else {
      SameReceived(s, t);
    }
  }

  lemma PushReceives(s: State, o: Output, t: State)
    requires t.chan == Push(s.chan, o)
    ensures Received(t) == Received(s) + [o]
  {
  }

  lemma SameReceived(s: State, t: State)
    requires t.chan == s.chan
    ensures Received(t) == Received(s)
  {
  }

  /** In every run in which there is room at each event, all that is emitted arrives, but for one failed control event. */
  lemma {:induction false} RoomDropsNothing(s: State, steps: seq<Step>)
    requires Runs(s, steps) && Roomy(s, steps) && NothingDropped(s)
    ensures NothingDropped(After(s, steps))
    decreases |steps|
  {
    if steps != [] {
      StepDropsNothing(s, steps[0]);
      hide Next, Enabled, NothingDropped;
      RoomDropsNothing(Next(s, steps[0]), steps[1..]);
    }
  }

  /** Steps that are no end of the session, of its child or of its receiver. */
  predicate Calm(st: Step) {
    match st
    case OfReader(ReadEnd(_)) => false
    case OfReader(Capture(poisoned)) => !poisoned
    case OfReader(FinishSend(outcome)) => outcome == Delivered
    case OfWorld(CloseReceiver) => false
    case OfWorld(ClearAlive) => false
    case OfWorld(DropSession) => false
    case _ => true
  }

  predicate Working(s: State) {
    s.gate.alive && !s.gate.dropped && !s.chan.closed && !Leaving(s.reader) && !s.past.released && s.past.farewell == []
  }

  lemma StepKeepsWorking(s: State, st: Step)
    requires Enabled(s, st) && Calm(st) && Working(s)
    ensures Working(Next(s, st))
  {
  }

  lemma NewSessionIsWorking(s: State)
    requires Initial(s)
    ensures NothingDropped(s) && Working(s)
  {
  }

  /** What the reader can do next short of an end; None while it waits for a line or for room. */
  function NextMove(s: State): Option<ReaderAct> {
    match s.reader
    case Top => Some(LoadAlive)
    case Reading => if s.child.stdout == [] then None else Some(ReadLine)
    case Capturing(_) => Some(Capture(false))
    case Opening(_) => Some(StoreIdle)
    case Notifying(_) => Some(Notify)
    case Mapping(_) => Some(EmitMapped)
    case Sending(_) => if |s.chan.queue| < 256 then Some(FinishSend(Delivered)) else None
    case _ => None
  }

  /** Short of an end, the session is alive and its reader works on, or waits for a line or for room in the channel. */
  lemma {:induction false} ReaderWorksOn(s: State, steps: seq<Step>)
    requires Working(s) && Runs(s, steps) && forall st | st in steps :: Calm(st)
    ensures var t := After(s, steps);
            && Working(t)
            && (if NextMove(t).Some? then ReaderEnabled(t, NextMove(t).value)
                else (t.reader.Reading? && t.child.stdout == []) || (t.reader.Sending? && |t.chan.queue| >= 256))
    decreases |steps|
  {
    if steps != [] {
      assert steps[0] in steps;
      StepKeepsWorking(s, steps[0]);
      hide Next, Enabled, Working, Calm;
      ReaderWorksOn(Next(s, steps[0]), steps[1..]);
    }
  }

  // ---------------------------------------------------------------------------
  // The session object
  // ---------------------------------------------------------------------------

  ghost predicate SessionInv(s: State) {
    WakeInv(s) && TurnInv(s) && ChannelInv(s) && EmissionInv(s)
  }

  lemma StepKeepsSessionInv(s: State, st: Step)
    requires SessionInv(s) && Enabled(s, st) && (st.OfSender? && st.send.Call? ==> s.gate.senders == map[])
    ensures SessionInv(Next(s, st))
  {
    hide WakeInv, TurnInv, ChannelInv, EmissionInv;
    StepKeepsWakeInv(s, st);
    StepKeepsTurnInv(s, st);
    StepKeepsChannelInv(s, st);
    StepKeepsEmissionInv(s, st);
  }

  lemma StartKeepsSessionInv(s: State)
    requires Initial(s)
    ensures SessionInv(s)
  {
    ControlsGrow([], TurnComplete);
    SubsequenceGrows([], [], TurnComplete);
    assert [] + [TurnComplete] == [TurnComplete];
    assert ChannelShape(s, [TurnComplete]);
  }

  datatype SendResult = Sent | NotAlive | WaitedTooLong | WriteFailed

  /** What others do in one round of the wait: after the permit is taken, after the gate was seen closed, while parked. */
  datatype Interference = Interference(permitted: seq<Step>, declined: seq<Step>, parked: seq<Step>)

  lemma OthersSpareCalls(s: State, st: Step)
    requires Enabled(s, st) && !st.OfSender?
    ensures Next(s, st).gate.senders == s.gate.senders
  {
  }

  /** A call that got past the gate did not find it shut. */
  lemma PastTheGate(a: State, b: State, id: nat)
    requires StaysShut(a, b) && id in b.gate.senders && b.gate.senders[id].Claiming?
    ensures Shut(a) ==> b.past.released
  {
  }

  /** A call that is about to write has the session to itself. */
  lemma DeliveryIsAlone(s: State, id: nat, delivered: bool)
    requires SessionInv(s) && id in s.gate.senders && s.gate.senders[id] == Writing
    ensures var t := NextSender(s, id, Write(delivered));
            !t.past.released ==> !t.gate.idle && (Outstanding(t) == if delivered then 1 else 0) && (!delivered ==> Shut(t))
  {
  }

  /** The cells shared by `send_input` and the reader; each method runs one of them up to its next suspension. */
  class ClaudeCodeSession {
    var alive: bool
    var idle: bool
    var notifies: nat
    var calls: map<nat, Sender>
    var dropped: bool
    var reader: Reader
    var child: Child
    var queue: seq<Output>
    var closed: bool
    var consumed: seq<Output>
    var past: History   // read only by the specification

    function Snapshot(): State
      reads this
    {
      State(Gate(alive, idle, notifies, calls, dropped), reader, child, Channel(queue, closed, consumed), past)
    }

    /** No wakeup is lost, turns are serial, the channel drops only data, and emissions match the events. */
    ghost predicate Valid()
      reads this
    {
      SessionInv(Snapshot())
    }

    constructor ()
      ensures Initial(Snapshot()) && Valid()
    {
      alive, idle, notifies, calls, dropped := true, true, 0, map[], false;
      reader, child := Top, Child(0, []);
      queue, closed, consumed := [TurnComplete], false, [];
      past := History([TurnComplete], [], [], [], false);
      new;
      StartKeepsSessionInv(Snapshot());
    }

    /** The mutable borrow of the session shows as the condition on `Call`. */
    method SendInput(id: nat, act: SenderAct)
      requires Valid() && SenderEnabled(Snapshot().gate, id, act) && (act.Call? ==> calls == map[])
      modifies this`idle, this`calls, this`child
      ensures Valid() && Snapshot() == NextSender(old(Snapshot()), id, act) && StaysShut(old(Snapshot()), Snapshot())
    {
      StepStaysShut(Snapshot(), OfSender(id, act));
      hide StaysShut;
      hide SessionInv, OfferOutput, MapEvent;
      StepKeepsSessionInv(Snapshot(), OfSender(id, act));
      match act
      case Call => calls := calls[id := Entering];
      case CheckAlive =>
        if !alive { calls := calls - {id}; } else { calls := calls[id := Looping]; }
      case TakePermit => calls := calls[id := Permitted(notifies)];
      case LoadIdle =>
        if idle { calls := calls[id := Claiming]; } else { calls := calls[id := Declined(calls[id].permit)]; }
      case RecheckAlive =>
        if !alive { calls := calls - {id}; } else { calls := calls[id := Parked(calls[id].permit)]; }
      case Wake => calls := calls[id := Looping];
      case GiveUp => calls := calls - {id};
      case Claim =>
        idle := false;
        calls := calls[id := Writing];
      case Write(delivered) =>
        if delivered { child := child.(owed := child.owed + 1); }
        calls := calls - {id};
    }

    /** The reader from one line to the event it yields, and its three ways out. */
    method ApplyEvent(act: ReaderAct)
      requires Valid() && ReaderEnabled(Snapshot(), act)
      requires act.LoadAlive? || act.ReadLine? || act.ReadEnd? || act.Capture? || act.StoreIdle? || act.Notify? || act.Release?
      modifies this
      ensures Valid() && Snapshot() == NextReader(old(Snapshot()), act)
    {
      hide SessionInv, OfferOutput, MapEvent;
      StepKeepsSessionInv(Snapshot(), OfReader(act));
      match act
      case LoadAlive => reader := if alive then Reading else Stopped;
      case ReadLine =>
        var line := child.stdout[0];
        child := child.(stdout := child.stdout[1..]);
        reader := if line.Parsed? then Capturing(line.event) else Top;
      case ReadEnd(reason) =>
        alive := false;
        reader := Releasing(reason);
      case Capture(poisoned) =>
        if poisoned {
          alive := false;
          reader := Releasing(POISONED);
        } else if IsResult(reader.event) {
          reader := Opening(reader.event);
        } else {
          reader := Mapping(reader.event);
        }
      case StoreIdle =>
        idle := true;
        reader := Notifying(reader.event);
      case Notify =>
        notifies := notifies + 1;
        reader := Mapping(reader.event);
      case Release =>
        idle := true;
        past := past.(released := true);
        reader := ReleaseNotifying(reader.reason);
    }

    /** `send_agent_output` as far as it runs without waiting. */
    method SendAgentOutput(output: Output)
      requires ChannelShape(Snapshot(), past.emitted) && reader.Mapping?
      modifies this`alive, this`reader, this`queue, this`past
      ensures ChannelInv(Snapshot()) && Snapshot() == OfferOutput(old(Snapshot()), output)
    {
      OfferKeepsChannelInv(Snapshot(), output);
      hide ChannelInv, ChannelShape;
      past := past.(emitted := past.emitted + [output]);
      if IsControl(output) {
        reader := Sending(output);
      } else if closed {
        alive := false;
        reader := Stopped;
      } else {
        if |queue| < OUTPUT_CHANNEL_SIZE {
          queue := queue + [output];
        }
        reader := Top;
      }
    }

    /** The reader from an event to its output. */
    method EmitEvent()
      requires Valid() && reader.Mapping?
      modifies this
      ensures Valid() && Snapshot() == NextReader(old(Snapshot()), EmitMapped)
    {
      hide SessionInv, ChannelInv, ChannelShape, OfferOutput, MapEvent;
      StepKeepsSessionInv(Snapshot(), OfReader(EmitMapped));
      MappingIsSettled(Snapshot());
      var out := MapEvent(reader.event);
      past := past.(handled := past.handled + [reader.event]);
      if out.Some? {
        SendAgentOutput(out.value);
      } else {
        reader := Top;
      }
    }

    /** The reader where it waits for room, and where it ends. */
    method FinishDelivery(act: ReaderAct)
      requires Valid() && ReaderEnabled(Snapshot(), act)
      requires act.FinishSend? || act.ReleaseNotify? || act.FinishLastWords? || act.Abort?
      modifies this
      ensures Valid() && Snapshot() == NextReader(old(Snapshot()), act)
    {
      hide SessionInv, OfferOutput, MapEvent;
      StepKeepsSessionInv(Snapshot(), OfReader(act));
      match act
      case FinishSend(outcome) =>
        if outcome.Delivered? {
          queue := queue + [reader.output];
          reader := Top;
        } else {
          past := past.(lost := past.lost + InDoubt(reader));
          alive := false;
          reader := Stopped;
        }
      case ReleaseNotify =>
        var message := Error(reader.reason);
        notifies := notifies + 1;
        past := past.(emitted := past.emitted + [message], farewell := past.farewell + [message]);
        reader := LastWords(reader.reason);
      case FinishLastWords =>
        if closed {
          past := past.(lost := past.lost + InDoubt(reader));
        } else {
          queue := queue + [Error(reader.reason)];
        }
        reader := Stopped;
      case Abort =>
        past := past.(lost := past.lost + InDoubt(reader));
        reader := Stopped;
    }

    /** The child, the consumer and the owner of the session. */
    method Meet(act: WorldAct)
      requires Valid() && WorldEnabled(Snapshot(), act)
      modifies this
      ensures Valid() && Snapshot() == NextWorld(old(Snapshot()), act)
    {
      hide SessionInv, OfferOutput, MapEvent;
      StepKeepsSessionInv(Snapshot(), OfWorld(act));
      match act
      case ChildWrites(line) =>
        if line.Parsed? && IsResult(line.event) {
          child := child.(owed := child.owed - 1);
        }
        child := child.(stdout := child.stdout + [line]);
      case Receive =>
        consumed := consumed + [queue[0]];
        queue := queue[1..];
      case CloseReceiver => closed := true;
      case ClearAlive => alive := false;
      case DropSession => dropped := true;
    }

    /** Any interleaving of calls, reader and world, with exclusive callers. */
    method Interleave(steps: seq<Step>)
      requires Valid() && Runs(Snapshot(), steps) && Exclusive(Snapshot(), steps)
      modifies this
      ensures Valid() && Snapshot() == After(old(Snapshot()), steps)
    {
      hide SessionInv, Enabled, Next, SenderEnabled, ReaderEnabled, WorldEnabled;
      for i := 0 to |steps|
        invariant Valid() && Runs(Snapshot(), steps[i..]) && Exclusive(Snapshot(), steps[i..])
        invariant After(Snapshot(), steps[i..]) == After(old(Snapshot()), steps)
      {
        assert steps[i..][1..] == steps[i + 1..];
        Perform(steps[i]);
      }
    }

    /** What the rest of the program does between two steps of a call: those of `steps` that can be taken. */
    method Meanwhile(steps: seq<Step>)
      requires Valid()
      modifies this
      ensures Valid() && calls == old(calls) && StaysShut(old(Snapshot()), Snapshot())
      ensures steps == [] ==> Snapshot() == old(Snapshot())
    {
      hide StaysShut, SessionInv, SenderEnabled, ReaderEnabled, WorldEnabled, OfferOutput, NextSender, NextReader, NextWorld;
      SameStaysShut(Snapshot());
      for i := 0 to |steps|
        invariant Valid() && calls == old(calls) && StaysShut(old(Snapshot()), Snapshot())
        invariant i == 0 ==> Snapshot() == old(Snapshot())
      {
        if !steps[i].OfSender? && Enabled(Snapshot(), steps[i]) {
          OthersSpareCalls(Snapshot(), steps[i]);
          StepStaysShut(Snapshot(), steps[i]);
          ShutTwice(old(Snapshot()), Snapshot(), Next(Snapshot(), steps[i]));
          Perform(steps[i]);
        }
      }
    }

    /** Takes a permit and then looks at the gate. */
    method LookAtGate(id: nat, permitted: seq<Step>) returns (open: bool)
      requires Valid() && calls == map[id := Looping]
      modifies this
      ensures Valid() && id in calls && calls == map[id := calls[id]]
      ensures if open then calls[id] == Claiming else calls[id].Declined?
      ensures permitted == [] ==> open == idle == old(idle)
      ensures StaysShut(old(Snapshot()), Snapshot())
    {
      hide SessionInv, StaysShut;
      SendInput(id, TakePermit);
      ghost var a := Snapshot();
      Meanwhile(permitted);
      ghost var b := Snapshot();
      open := idle;
      SendInput(id, LoadIdle);
      ShutTwice(old(Snapshot()), a, b);
      ShutTwice(old(Snapshot()), b, Snapshot());
    }

    /** Waits behind a closed gate; None when woken to go round again. */
    method WaitAtGate(id: nat, declined: seq<Step>, parked: seq<Step>, patient: bool) returns (result: Option<SendResult>)
      requires Valid() && id in calls && calls == map[id := calls[id]] && calls[id].Declined?
      modifies this
      ensures Valid()
      ensures result == None ==> patient && calls == map[id := Looping]
      ensures result.Some? ==> calls == map[]
      ensures result.None? || result == Some(WaitedTooLong) || (result == Some(NotAlive) && !alive)
      ensures StaysShut(old(Snapshot()), Snapshot())
    {
      hide SessionInv, StaysShut;
      Meanwhile(declined);
      ghost var a := Snapshot();
      var living := alive;
      SendInput(id, RecheckAlive);
      ghost var b := Snapshot();
      ShutTwice(old(Snapshot()), a, b);
      if !living {
        return Some(NotAlive);
      }
      Meanwhile(parked);
      ghost var c := Snapshot();
      ShutTwice(old(Snapshot()), b, c);
      if !patient || notifies <= calls[id].permit {
        SendInput(id, GiveUp);
        ShutTwice(old(Snapshot()), c, Snapshot());
        return Some(WaitedTooLong);
      }
      SendInput(id, Wake);
      ShutTwice(old(Snapshot()), c, Snapshot());
      result := None;
    }

    /** The start of a call. */
    method Enter(id: nat, entering: seq<Step>) returns (living: bool)
      requires Valid() && calls == map[] && !dropped
      modifies this
      ensures Valid() && if living then calls == map[id := Looping] else calls == map[] && !alive
      ensures entering == [] ==> living == alive == old(alive) && idle == old(idle)
      ensures StaysShut(old(Snapshot()), Snapshot())
    {
      hide SessionInv, StaysShut;
      SendInput(id, Call);
      ghost var a := Snapshot();
      Meanwhile(entering);
      ghost var b := Snapshot();
      living := alive;
      SendInput(id, CheckAlive);
      ShutTwice(old(Snapshot()), a, b);
      ShutTwice(old(Snapshot()), b, Snapshot());
    }

    /** Closes the gate and writes the line. */
    method Deliver(id: nat, writing: seq<Step>, delivered: bool)
      requires Valid() && calls == map[id := Claiming]
      modifies this
      ensures Valid() && calls == map[] && (old(past).released ==> past.released)
      ensures !past.released ==> !idle && Outstanding(Snapshot()) == if delivered then 1 else 0
      ensures !past.released && !delivered ==> Shut(Snapshot())
    {
      hide SessionInv, Outstanding, Shut;
      SendInput(id, Claim);
      Meanwhile(writing);
      DeliveryIsAlone(Snapshot(), id, delivered);
      SendInput(id, Write(delivered));
    }

    /**
     `send_input` from call to return, with the rest of the program at work between any two of its steps.  No call is
     left in progress; when the line was delivered, the turn it starts is the only one outstanding and the gate is
     closed.  A write that fails leaves the gate closed as well, and then every later call fails until the session
     ends.
     */
    method Send(id: nat, rounds: seq<Interference>, entering: seq<Step>, writing: seq<Step>, delivered: bool)
        returns (sent: SendResult)
      requires Valid() && calls == map[] && !dropped && rounds != []
      modifies this
      ensures Valid() && calls == map[]
      ensures sent.Sent? && !past.released ==> Outstanding(Snapshot()) == 1 && !idle
      ensures sent.WriteFailed? && !past.released ==> Shut(Snapshot())
      ensures sent.NotAlive? ==> !alive
      ensures sent.Sent? ==> delivered
      ensures old(alive && idle) && entering == rounds[0].permitted == [] ==> sent == if delivered then Sent else WriteFailed
      ensures old(Shut(Snapshot())) && !past.released ==> sent == WaitedTooLong || sent == NotAlive
    {
      hide SessionInv, Outstanding, StaysShut, Shut;
      var living := Enter(id, entering);
      if !living {
        return NotAlive;
      }
      var n := 0;
      var open := false;
      while !open
        invariant Valid() && n <= |rounds| && (!open ==> n < |rounds|)
        invariant calls == map[id := if open then Claiming else Looping]
        invariant old(alive && idle) && entering == rounds[0].permitted == [] ==> if n == 0 then idle else open
        invariant StaysShut(old(Snapshot()), Snapshot())
        decreases |rounds| - n
      {
        ghost var before := Snapshot();
        open := LookAtGate(id, rounds[n].permitted);
        ShutTwice(old(Snapshot()), before, Snapshot());
        if !open {
          ghost var looked := Snapshot();
          var result := WaitAtGate(id, rounds[n].declined, rounds[n].parked, n + 1 < |rounds|);
          ShutTwice(old(Snapshot()), looked, Snapshot());
          if result.Some? {
            return result.value;
          }
        }
        n := n + 1;
      }
      PastTheGate(old(Snapshot()), Snapshot(), id);
      Deliver(id, writing, delivered);
      sent := if delivered then Sent else WriteFailed;
    }

    method Perform(st: Step)
      requires Valid() && Enabled(Snapshot(), st) && (st.OfSender? && st.send.Call? ==> calls == map[])
      modifies this
      ensures Valid() && Snapshot() == Next(old(Snapshot()), st)
    {
      hide SessionInv;
      match st
      case OfSender(id, act) => SendInput(id, act);
      case OfWorld(act) => Meet(act);
      case OfReader(act) =>
        if act.EmitMapped? {
          EmitEvent();
        } else if act.FinishSend? || act.ReleaseNotify? || act.FinishLastWords? || act.Abort? {
          FinishDelivery(act);
        } else {
          ApplyEvent(act);
        }
    }
  }

  /** Before an event is mapped, nothing is in doubt. */
  lemma MappingIsSettled(s: State)
    requires SessionInv(s) && s.reader.Mapping?
    ensures ChannelShape(s.(past := s.past.(handled := s.past.handled + [s.reader.event])), s.past.emitted)
  {
    var settled :| ChannelShape(s, settled);
    assert settled == s.past.emitted;
  }
}
