/**
 Session ownership in `TeamOrchestrator` (src/orchestrator/mod.rs).

 Every lock acquisition is one atomic step, and so is every await between two of
 them; an operation suspended at such a point is a `Phase`.  The two maps have
 separate locks, so a phase may be entered with one map read and the other stale.
 */
module TeamSessions {
  import opened Wrappers

  type Key = string
  type Sid = nat
  type Op = nat

  /** Seconds after which a spawn sweeps a pending mark. */
  const PENDING_SHUTDOWN_TTL: nat := 60

  datatype Cause = Shutdown | Killed | Dropped

  datatype End = End(sid: Sid, cause: Cause)

  datatype Phase =
    | SpawnSetup(key: Key, sid: Sid)          // child started; member and inbox not yet registered
    | SpawnAborting(sid: Sid)                 // registration failed; session.shutdown() pending
    | SpawnClearing(key: Key, replaced: Option<Sid>) // stored in the map; pending map not yet cleaned
    | SpawnReplacing(sid: Sid)                // shutting the replaced session down
    | StopMarking(key: Key)                   // found no session; about to record the mark
    | StopHolding(sid: Sid, kill: bool)       // took the session out; shutting down or killing it
    | SendTalking(key: Key, sid: Sid)         // awaiting session.send_input
    | SendChecking(key: Key, sid: Sid)        // about to look at the pending map
    | SendEnding(sid: Sid)                    // honouring a deferred shutdown
    | SendReturning(key: Key, sid: Sid)       // no mark seen; about to re-insert

  datatype State = State(
    sessions: map<Key, Sid>,
    pending: map<Key, nat>,
    ops: map<Op, Phase>,
    ended: seq<End>,
    nextSid: Sid,
    nextOp: Op,
    now: nat)

  datatype Step =
    | SpawnBegin(key: Key)
    | SpawnFail(op: Op)
    | SpawnStore(op: Op)
    | SpawnClear(op: Op)
    | StopBegin(key: Key, kill: bool)
    | StopMark(op: Op)
    | SendBegin(key: Key)
    | SendDone(op: Op)
    | SendCheck(op: Op)
    | SendReturn(op: Op)
    | Finish(op: Op)          // the shutdown or kill awaited by the operation returns
    | Abandon(op: Op)         // the caller drops the future; a session it holds is dropped
    | Tick(seconds: nat)

  const INIT := State(map[], map[], map[], [], 0, 0, 0)

  function Holds(ph: Phase): Option<Sid> {
    match ph
    case SpawnClearing(_, replaced) => replaced
    case SpawnReplacing(sid) => Some(sid)
    case StopMarking(_) => None
    case _ => Some(ph.sid)
  }

  function Lookup(m: map<Key, Sid>, key: Key): Option<Sid> {
    if key in m then Some(m[key]) else None
  }

  /** What a spawn leaves of the pending map: its own key gone, stale marks swept. */
  function Swept(pending: map<Key, nat>, key: Key, now: nat): map<Key, nat> {
    map k | k in pending && k != key && now - pending[k] < PENDING_SHUTDOWN_TTL :: pending[k]
  }

  /** The cause recorded when the shutdown or kill an operation awaits returns. */
  function FinishCause(ph: Phase): Option<Cause> {
    match ph
    case SpawnAborting(_) => Some(Shutdown)
    case SpawnReplacing(_) => Some(Shutdown)
    case SendEnding(_) => Some(Shutdown)
    case StopHolding(_, kill) => Some(if kill then Killed else Shutdown)
    case _ => None
  }

  predicate Enabled(s: State, st: Step) {
    match st
    case SpawnBegin(_) => true
    case SpawnFail(op) => op in s.ops && s.ops[op].SpawnSetup?
    case SpawnStore(op) => op in s.ops && s.ops[op].SpawnSetup?
    case SpawnClear(op) => op in s.ops && s.ops[op].SpawnClearing?
    case StopBegin(_, _) => true
    case StopMark(op) => op in s.ops && s.ops[op].StopMarking?
    case SendBegin(key) => key in s.sessions
    case SendDone(op) => op in s.ops && s.ops[op].SendTalking?
    case SendCheck(op) => op in s.ops && s.ops[op].SendChecking?
    case SendReturn(op) => op in s.ops && s.ops[op].SendReturning?
    case Finish(op) => op in s.ops && FinishCause(s.ops[op]).Some?
    case Abandon(op) => op in s.ops
    case Tick(_) => true
  }

  function Next(s: State, st: Step): State
    requires Enabled(s, st)
  {
    match st
    case SpawnBegin(key) =>
      s.(ops := s.ops[s.nextOp := SpawnSetup(key, s.nextSid)], nextOp := s.nextOp + 1, nextSid := s.nextSid + 1)
    case SpawnFail(op) =>
      s.(ops := s.ops[op := SpawnAborting(s.ops[op].sid)])
    case SpawnStore(op) =>
      var SpawnSetup(key, sid) := s.ops[op];
      s.(sessions := s.sessions[key := sid], ops := s.ops[op := SpawnClearing(key, Lookup(s.sessions, key))])
    case SpawnClear(op) =>
      var SpawnClearing(key, replaced) := s.ops[op];
      s.(pending := Swept(s.pending, key, s.now),
         ops := if replaced.Some? then s.ops[op := SpawnReplacing(replaced.value)] else s.ops - {op})
    case StopBegin(key, kill) =>
      if key in s.sessions then
        s.(sessions := s.sessions - {key},
           ops := s.ops[s.nextOp := StopHolding(s.sessions[key], kill)], nextOp := s.nextOp + 1)
      else
        s.(ops := s.ops[s.nextOp := StopMarking(key)], nextOp := s.nextOp + 1)
    case StopMark(op) =>
      s.(pending := s.pending[s.ops[op].key := s.now], ops := s.ops - {op})
    case SendBegin(key) =>
      s.(sessions := s.sessions - {key},
         ops := s.ops[s.nextOp := SendTalking(key, s.sessions[key])], nextOp := s.nextOp + 1)
    case SendDone(op) =>
      s.(ops := s.ops[op := SendChecking(s.ops[op].key, s.ops[op].sid)])
    case SendCheck(op) =>
      var SendChecking(key, sid) := s.ops[op];
      s.(pending := s.pending - {key},
         ops := s.ops[op := if key in s.pending then SendEnding(sid) else SendReturning(key, sid)])
    case SendReturn(op) =>
      var SendReturning(key, sid) := s.ops[op];
      s.(sessions := s.sessions[key := sid], ops := s.ops - {op},
         ended := s.ended + if key in s.sessions then [End(s.sessions[key], Dropped)] else [])
    case Finish(op) =>
      s.(ops := s.ops - {op}, ended := s.ended + [End(Holds(s.ops[op]).value, FinishCause(s.ops[op]).value)])
    case Abandon(op) =>
      var h := Holds(s.ops[op]);
      s.(ops := s.ops - {op}, ended := s.ended + if h.Some? then [End(h.value, Dropped)] else [])
    case Tick(seconds) =>
      s.(now := s.now + seconds)
  }

  ghost predicate Runs(s: State, steps: seq<Step>)
    decreases |steps|
  {
    steps == [] || (Enabled(s, steps[0]) && Runs(Next(s, steps[0]), steps[1..]))
  }

  ghost function After(s: State, steps: seq<Step>): State
    requires Runs(s, steps)
    decreases |steps|
  {
    if steps == [] then s else After(Next(s, steps[0]), steps[1..])
  }

  // ---------------------------------------------------------------------------
  // Unique ownership
  // ---------------------------------------------------------------------------

  /** The three places a session can be: the map, a suspended operation, the record of ended sessions. */
  datatype Place = InMap(key: Key) | InFlight(op: Op) | Over(index: nat)

  ghost predicate At(s: State, sid: Sid, p: Place) {
    match p
    case InMap(key) => key in s.sessions && s.sessions[key] == sid
    case InFlight(op) => op in s.ops && Holds(s.ops[op]) == Some(sid)
    case Over(i) => i < |s.ended| && s.ended[i].sid == sid
  }

  ghost predicate Somewhere(s: State, sid: Sid) {
    exists p :: At(s, sid, p)
  }

  /** Every session ever spawned is in exactly one place. */
  ghost predicate UniquelyOwned(s: State) {
    && (forall sid: Sid | sid < s.nextSid :: Somewhere(s, sid))
    && (forall sid: Sid, p, q | At(s, sid, p) && At(s, sid, q) :: p == q)
  }

  ghost predicate Inv(s: State) {
    && UniquelyOwned(s)
    && (forall sid: Sid, p | At(s, sid, p) :: sid < s.nextSid)
    && (forall op | op in s.ops :: op < s.nextOp)
    && (forall key | key in s.pending :: s.pending[key] <= s.now)
  }

  /** Where the session found at `p` before the step is after it. */
  ghost function Moved(s: State, st: Step, p: Place): Place
    requires Enabled(s, st)
  {
    match st
    case SpawnStore(op) =>
      if p == InFlight(op) then InMap(s.ops[op].key)
      else if p == InMap(s.ops[op].key) then InFlight(op) else p
    case StopBegin(key, _) => if p == InMap(key) then InFlight(s.nextOp) else p
    case SendBegin(key) => if p == InMap(key) then InFlight(s.nextOp) else p
    case SendReturn(op) =>
      if p == InFlight(op) then InMap(s.ops[op].key)
      else if p == InMap(s.ops[op].key) then Over(|s.ended|) else p
    case Finish(op) => if p == InFlight(op) then Over(|s.ended|) else p
    case Abandon(op) => if p == InFlight(op) then Over(|s.ended|) else p
    case _ => p
  }

  lemma MovedIsAt(s: State, st: Step, sid: Sid, p: Place)
    requires Inv(s) && Enabled(s, st) && At(s, sid, p)
    ensures At(Next(s, st), sid, Moved(s, st, p))
  {
  }

  /** Every place occupied after a step was reached by moving a session or by spawning one. */
  lemma CameFrom(s: State, st: Step, sid: Sid, q: Place) returns (p: Place)
    requires Inv(s) && Enabled(s, st) && At(Next(s, st), sid, q)
    ensures if st.SpawnBegin? && sid == s.nextSid then q == InFlight(s.nextOp)
            else At(s, sid, p) && Moved(s, st, p) == q
  {
    p := q;
    match st
    case SpawnBegin(key) =>
      if q != InFlight(s.nextOp) { assert At(s, sid, q); }
    case SpawnFail(op) =>
    case SpawnClear(op) =>
    case StopMark(op) =>
    case SendDone(op) =>
    case SendCheck(op) =>
    case Tick(seconds) =>
    case SpawnStore(op) =>
      if q == InFlight(op) { p := InMap(s.ops[op].key); }
      else if q == InMap(s.ops[op].key) { p := InFlight(op); }
    case StopBegin(key, kill) =>
      if q == InFlight(s.nextOp) { p := InMap(key); }
    case SendBegin(key) =>
      if q == InFlight(s.nextOp) { p := InMap(key); }
    case SendReturn(op) =>
      if q == InMap(s.ops[op].key) { p := InFlight(op); }
      else if q == Over(|s.ended|) { p := InMap(s.ops[op].key); }
    case Finish(op) =>
      if q == Over(|s.ended|) { p := InFlight(op); }
    case Abandon(op) =>
      if q == Over(|s.ended|) { p := InFlight(op); }
  }

  lemma StepKeepsInv(s: State, st: Step)
    requires Inv(s) && Enabled(s, st)
    ensures Inv(Next(s, st))
  {
    var t := Next(s, st);
    forall sid: Sid | sid < t.nextSid ensures Somewhere(t, sid) {
      if st.SpawnBegin? && sid == s.nextSid {
        assert At(t, sid, InFlight(s.nextOp));
      } else {
        assert Somewhere(s, sid);
        var p :| At(s, sid, p);
        MovedIsAt(s, st, sid, p);
      }
    }
    forall sid: Sid, q, q' | At(t, sid, q) && At(t, sid, q') ensures q == q' {
      var p := CameFrom(s, st, sid, q);
      var p' := CameFrom(s, st, sid, q');
    }
    forall sid: Sid, q | At(t, sid, q) ensures sid < t.nextSid {
      var p := CameFrom(s, st, sid, q);
    }
  }

  lemma {:induction false} RunKeepsInv(s: State, steps: seq<Step>)
    requires Inv(s) && Runs(s, steps)
    ensures Inv(After(s, steps))
    decreases |steps|
  {
    if steps != [] {
      StepKeepsInv(s, steps[0]);
      RunKeepsInv(Next(s, steps[0]), steps[1..]);
    }
  }

  /** In every interleaving each spawned session is in exactly one place, and no two operations drive one session. */
  lemma UniqueOwnership(steps: seq<Step>)
    requires Runs(INIT, steps)
    ensures UniquelyOwned(After(INIT, steps))
    ensures var s := After(INIT, steps);
            forall op, op' | op in s.ops && op' in s.ops && op != op' && Holds(s.ops[op]).Some? ::
              Holds(s.ops[op]) != Holds(s.ops[op'])
  {
    RunKeepsInv(INIT, steps);
    var s := After(INIT, steps);
    forall op, op' | op in s.ops && op' in s.ops && op != op' && Holds(s.ops[op]).Some?
      ensures Holds(s.ops[op]) != Holds(s.ops[op'])
    {
      assert At(s, Holds(s.ops[op]).value, InFlight(op));
      if Holds(s.ops[op]) == Holds(s.ops[op']) {
        assert At(s, Holds(s.ops[op]).value, InFlight(op'));
      }
    }
  }

  // ---------------------------------------------------------------------------
  // Deferred shutdown
  // ---------------------------------------------------------------------------

  ghost predicate Live(s: State, sid: Sid) {
    exists key :: key in s.sessions && s.sessions[key] == sid
  }

  /** The session is over, or held by an operation that can only end it. */
  ghost predicate DoomedAt(s: State, sid: Sid, p: Place) {
    && At(s, sid, p)
    && (p.Over? || (p.InFlight? && (FinishCause(s.ops[p.op]).Some? || s.ops[p.op].SpawnClearing?)))
  }

  ghost predicate Doomed(s: State, sid: Sid) {
    exists p :: DoomedAt(s, sid, p)
  }

  lemma DoomedStays(s: State, st: Step, sid: Sid)
    requires Inv(s) && Enabled(s, st) && Doomed(s, sid)
    ensures Doomed(Next(s, st), sid)
  {
    var p :| DoomedAt(s, sid, p);
    MovedIsAt(s, st, sid, p);
    assert DoomedAt(Next(s, st), sid, Moved(s, st, p));
  }

  lemma DoomedIsNotLive(s: State, sid: Sid)
    requires Inv(s) && Doomed(s, sid)
    ensures !Live(s, sid)
  {
    var p :| DoomedAt(s, sid, p);
    if Live(s, sid) {
      var key :| key in s.sessions && s.sessions[key] == sid;
      assert At(s, sid, InMap(key));
    }
  }

  /** A mark disappears only through a send that must now end its own session, or through a spawn's cleaning. */
  lemma MarkRemoval(s: State, st: Step, key: Key)
    requires Inv(s) && Enabled(s, st)
    requires key in s.pending && key !in Next(s, st).pending
    ensures st.SendCheck? || st.SpawnClear?
    ensures st.SendCheck? ==> s.ops[st.op].key == key && Doomed(Next(s, st), s.ops[st.op].sid)
    ensures st.SpawnClear? ==> s.ops[st.op].key == key || PENDING_SHUTDOWN_TTL <= s.now - s.pending[key]
  {
    if st.SendCheck? {
      assert DoomedAt(Next(s, st), s.ops[st.op].sid, InFlight(st.op));
    }
  }

  /** `op` sends on `key`, owns `sid`, and has not yet looked for a mark. */
  predicate Unchecked(s: State, op: Op, key: Key, sid: Sid) {
    op in s.ops && (s.ops[op] == SendTalking(key, sid) || s.ops[op] == SendChecking(key, sid))
  }

  /** Phases from which an operation other than the sender can take the mark on `key` away. */
  predicate CanTakeMark(ph: Phase, key: Key) {
    match ph
    case SpawnSetup(_, _) => true
    case SpawnClearing(_, _) => true
    case SendTalking(k, _) => k == key
    case SendChecking(k, _) => k == key
    case SendReturning(k, _) => k == key
    case _ => false
  }

  /** A second session for the key, or a spawn that has not cleaned the pending map yet. */
  ghost predicate Rival(s: State, op: Op, key: Key) {
    || key in s.sessions
    || exists other :: other in s.ops && other != op && CanTakeMark(s.ops[other], key)
  }

  ghost predicate NoSpawn(steps: seq<Step>) {
    forall st | st in steps :: !st.SpawnBegin?
  }

  /** The marked session cannot come back: it is doomed, or its sender is alone with the mark. */
  ghost predicate Contained(s: State, op: Op, key: Key, sid: Sid) {
    Doomed(s, sid) || (Unchecked(s, op, key, sid) && key in s.pending && !Rival(s, op, key))
  }

  lemma ContainedStays(s: State, st: Step, op: Op, key: Key, sid: Sid)
    requires Inv(s) && Enabled(s, st) && !st.SpawnBegin? && Contained(s, op, key, sid)
    ensures Contained(Next(s, st), op, key, sid)
  {
    var t := Next(s, st);
    if Doomed(s, sid) {
      DoomedStays(s, st, sid);
    } else if st == SendCheck(op) {
      assert DoomedAt(t, sid, InFlight(op));
    } else if st == Abandon(op) {
      assert DoomedAt(t, sid, Over(|s.ended|));
    } else {
      forall other | other in t.ops && other != op ensures !CanTakeMark(t.ops[other], key) {
        assert other in s.ops ==> !CanTakeMark(s.ops[other], key);
      }
    }
  }

  lemma {:induction false} ContainedRun(s: State, steps: seq<Step>, op: Op, key: Key, sid: Sid)
    requires Inv(s) && Runs(s, steps) && NoSpawn(steps) && Contained(s, op, key, sid)
    ensures !Live(After(s, steps), sid)
    decreases |steps|
  {
    if steps == [] {
      if Doomed(s, sid) {
        DoomedIsNotLive(s, sid);
      } else if Live(s, sid) {
        var k :| k in s.sessions && s.sessions[k] == sid;
        assert At(s, sid, InMap(k)) && At(s, sid, InFlight(op));
      }
    } else {
      assert steps[0] in steps;
      StepKeepsInv(s, steps[0]);
      ContainedStays(s, steps[0], op, key, sid);
      ContainedRun(Next(s, steps[0]), steps[1..], op, key, sid);
    }
  }

  ghost predicate Revives(s: State, steps: seq<Step>, sid: Sid) {
    Runs(s, steps) && NoSpawn(steps) && Live(After(s, steps), sid)
  }

  lemma Prepend(s: State, st: Step, rest: seq<Step>, sid: Sid)
    requires Enabled(s, st) && !st.SpawnBegin? && Revives(Next(s, st), rest, sid)
    ensures Revives(s, [st] + rest, sid)
  {
    assert ([st] + rest)[1..] == rest;
  }

  /** Without a mark the sender puts its session back. */
  lemma UnmarkedRevives(s: State, op: Op, key: Key, sid: Sid) returns (steps: seq<Step>)
    requires Unchecked(s, op, key, sid) && key !in s.pending
    ensures Revives(s, steps, sid)
    decreases s.ops[op].SendTalking?
  {
    if s.ops[op].SendChecking? {
      var t := Next(s, SendCheck(op));
      var u := Next(t, SendReturn(op));
      assert u.sessions[key] == sid;
      assert Revives(u, [], sid);
      Prepend(t, SendReturn(op), [], sid);
      Prepend(s, SendCheck(op), [SendReturn(op)] + [], sid);
      steps := [SendCheck(op)] + ([SendReturn(op)] + []);
    } else {
      var rest := UnmarkedRevives(Next(s, SendDone(op)), op, key, sid);
      Prepend(s, SendDone(op), rest, sid);
      steps := [SendDone(op)] + rest;
    }
  }

  /** Another operation takes the mark first, and then the sender puts its session back. */
  lemma RivalRevives(s: State, op: Op, key: Key, sid: Sid, other: Op) returns (steps: seq<Step>)
    requires Inv(s) && Unchecked(s, op, key, sid) && other in s.ops && other != op && CanTakeMark(s.ops[other], key)
    ensures Revives(s, steps, sid)
    decreases if s.ops[other].SendReturning? then 3 else if s.ops[other].SpawnSetup? || s.ops[other].SendTalking? then 1 else 0
  {
    var st := match s.ops[other]
              case SpawnSetup(_, _) => SpawnStore(other)
              case SpawnClearing(_, _) => Tick(PENDING_SHUTDOWN_TTL)
              case SendTalking(_, _) => SendDone(other)
              case SendChecking(_, _) => SendCheck(other)
              case _ => SendReturn(other);
    var t := Next(s, st);
    var rest: seq<Step>;
    StepKeepsInv(s, st);
    match s.ops[other] {
      case SendReturning(_, _) =>
        rest := MappedRevives(t, op, key, sid);
      case SendChecking(_, _) =>
        rest := UnmarkedRevives(t, op, key, sid);
      case SpawnClearing(_, _) =>
        var u := Next(t, SpawnClear(other));
        rest := UnmarkedRevives(u, op, key, sid);
        Prepend(t, SpawnClear(other), rest, sid);
        rest := [SpawnClear(other)] + rest;
      case SpawnSetup(_, _) =>
        rest := RivalRevives(t, op, key, sid, other);
      case SendTalking(_, _) =>
        rest := RivalRevives(t, op, key, sid, other);
    }
    Prepend(s, st, rest, sid);
    steps := [st] + rest;
  }

  lemma MappedRevives(s: State, op: Op, key: Key, sid: Sid) returns (steps: seq<Step>)
    requires Inv(s) && Unchecked(s, op, key, sid) && key in s.sessions
    ensures Revives(s, steps, sid)
    decreases 2
  {
    var st := SendBegin(key);
    StepKeepsInv(s, st);
    var rest := RivalRevives(Next(s, st), op, key, sid, s.nextOp);
    Prepend(s, st, rest, sid);
    steps := [st] + rest;
  }

  /**
   A mark recorded while `op` has the session out keeps that session from ever returning to the map, in every
   continuation that starts no spawn, exactly when no rival exists at that moment.
   */
  lemma DeferredShutdown(s: State, op: Op, key: Key, sid: Sid)
    requires Inv(s) && Unchecked(s, op, key, sid) && key in s.pending
    ensures (forall steps | Runs(s, steps) && NoSpawn(steps) :: !Live(After(s, steps), sid)) <==> !Rival(s, op, key)
  {
    if Rival(s, op, key) {
      var steps: seq<Step>;
      if key in s.sessions {
        steps := MappedRevives(s, op, key, sid);
      } else {
        var other :| other in s.ops && other != op && CanTakeMark(s.ops[other], key);
        steps := RivalRevives(s, op, key, sid, other);
      }
      assert Runs(s, steps) && NoSpawn(steps);
    } else {
      forall steps | Runs(s, steps) && NoSpawn(steps) ensures !Live(After(s, steps), sid) {
        ContainedRun(s, steps, op, key, sid);
      }
    }
  }

  lemma {:induction false} Join(s: State, a: seq<Step>, b: seq<Step>)
    requires Runs(s, a) && Runs(After(s, a), b)
    ensures Runs(s, a + b) && After(s, a + b) == After(After(s, a), b)
    decreases |a|
  {
    if a == [] {
      assert a + b == b;
    } else {
      Join(Next(s, a[0]), a[1..], b);
      assert (a + b)[1..] == a[1..] + b;
    }
  }

  lemma Extend(steps: seq<Step>, st: Step)
    requires Runs(INIT, steps) && Enabled(After(INIT, steps), st)
    ensures Runs(INIT, steps + [st]) && After(INIT, steps + [st]) == Next(After(INIT, steps), st)
  {
    assert Runs(Next(After(INIT, steps), st), [st][1..]);
    Join(INIT, steps, [st]);
  }

  /** A spawn immediately followed by a send leaves the new session in flight. */
  lemma SpawnThenSend(steps: seq<Step>, key: Key) returns (more: seq<Step>)
    requires Runs(INIT, steps)
    requires var s := After(INIT, steps); key !in s.sessions && s.pending == map[] && s.nextOp !in s.ops
    ensures Runs(INIT, more)
    ensures var s := After(INIT, steps);
            After(INIT, more) == s.(ops := s.ops[s.nextOp + 1 := SendTalking(key, s.nextSid)],
                                    nextSid := s.nextSid + 1, nextOp := s.nextOp + 2)
  {
    var s := After(INIT, steps);
    Extend(steps, SpawnBegin(key));
    more := steps + [SpawnBegin(key)];
    Extend(more, SpawnStore(s.nextOp));
    more := more + [SpawnStore(s.nextOp)];
    Extend(more, SpawnClear(s.nextOp));
    more := more + [SpawnClear(s.nextOp)];
    assert After(INIT, more).ops == s.ops;
    Extend(more, SendBegin(key));
    more := more + [SendBegin(key)];
    assert After(INIT, more).sessions == s.sessions;
  }

  /** Rivals do occur: a reachable state has two sends in flight on one key. */
  lemma TwoSendsInFlight(key: Key) returns (steps: seq<Step>)
    ensures Runs(INIT, steps)
    ensures var s := After(INIT, steps);
            Inv(s) && key !in s.sessions && Unchecked(s, 1, key, 0) && Unchecked(s, 3, key, 1)
  {
    steps := SpawnThenSend([], key);
    steps := SpawnThenSend(steps, key);
    RunKeepsInv(INIT, steps);
  }

  /**
   Whenever two sends are in flight on one key, a shutdown requested now can be lost: the other send takes the mark
   and this session returns to the map, although no spawn runs in between.
   */
  lemma ConcurrentSendsLoseTheMark(s: State, op: Op, other: Op, key: Key, sid: Sid, sid': Sid, kill: bool)
      returns (window: seq<Step>)
    requires Inv(s) && key !in s.sessions && op != other
    requires Unchecked(s, op, key, sid) && Unchecked(s, other, key, sid')
    ensures [StopBegin(key, kill), StopMark(s.nextOp)] <= window && Revives(s, window, sid)
  {
    var t := Next(s, StopBegin(key, kill));
    var u := Next(t, StopMark(s.nextOp));
    StepKeepsInv(s, StopBegin(key, kill));
    StepKeepsInv(t, StopMark(s.nextOp));
    var rest := RivalRevives(u, op, key, sid, other);
    Prepend(t, StopMark(s.nextOp), rest, sid);
    Prepend(s, StopBegin(key, kill), [StopMark(s.nextOp)] + rest, sid);
    window := [StopBegin(key, kill)] + ([StopMark(s.nextOp)] + rest);
  }

  /** The check and the re-insert are two steps: a mark recorded between them leaves the session in the map. */
  lemma MarkAfterTheCheckIsIgnored(s: State, op: Op, key: Key, sid: Sid, kill: bool)
    requires Inv(s) && key !in s.sessions && op in s.ops && s.ops[op] == SendReturning(key, sid)
    ensures var window := [StopBegin(key, kill), StopMark(s.nextOp), SendReturn(op)];
            Runs(s, window) && Live(After(s, window), sid) && key in After(s, window).pending
  {
    var t := Next(s, StopBegin(key, kill));
    var u := Next(t, StopMark(s.nextOp));
    var v := Next(u, SendReturn(op));
    var window := [StopBegin(key, kill), StopMark(s.nextOp), SendReturn(op)];
    assert window[1..] == [StopMark(s.nextOp), SendReturn(op)] && window[1..][1..] == [SendReturn(op)];
    assert Runs(v, []) && Runs(u, [SendReturn(op)]) && Runs(t, window[1..]);
    assert After(u, [SendReturn(op)]) == v && After(t, window[1..]) == v && After(s, window) == v;
    assert v.sessions[key] == sid;
  }

  // ---------------------------------------------------------------------------
  // How long a mark lives
  // ---------------------------------------------------------------------------

  /** The seconds that pass in a run. */
  function Elapsed(steps: seq<Step>): nat {
    if steps == [] then 0 else Seconds(steps[0]) + Elapsed(steps[1..])
  }

  function Seconds(st: Step): nat {
    if st.Tick? then st.seconds else 0
  }

  /** The step is a send on `key` looking for a mark, a spawn of `key` cleaning, or another mark on `key`. */
  predicate Concerns(s: State, st: Step, key: Key)
    requires Enabled(s, st)
  {
    (st.SendCheck? || st.SpawnClear? || st.StopMark?) && s.ops[st.op].key == key
  }

  ghost predicate Unconcerned(s: State, steps: seq<Step>, key: Key)
    requires Runs(s, steps)
    decreases |steps|
  {
    steps == [] || (!Concerns(s, steps[0], key) && Unconcerned(Next(s, steps[0]), steps[1..], key))
  }

  /** The mark on `key` was made `age` seconds ago, or it was swept when it was 60 seconds old. */
  predicate MarkOfAge(s: State, key: Key, age: nat) {
    if key in s.pending then s.now == s.pending[key] + age else 60 <= age
  }

  lemma StepAgesMark(s: State, st: Step, key: Key, age: nat)
    requires Enabled(s, st) && !Concerns(s, st, key) && MarkOfAge(s, key, age)
    ensures MarkOfAge(Next(s, st), key, age + Seconds(st))
    ensures st.SpawnClear? ==> (key in Next(s, st).pending <==> age < 60)
  {
  }

  lemma {:induction false} RunAgesMark(s: State, steps: seq<Step>, key: Key, age: nat)
    requires Runs(s, steps) && Unconcerned(s, steps, key) && MarkOfAge(s, key, age)
    ensures MarkOfAge(After(s, steps), key, age + Elapsed(steps))
    decreases |steps|
  {
    if steps != [] {
      StepAgesMark(s, steps[0], key, age);
      hide Next, Enabled, MarkOfAge, Concerns;
      RunAgesMark(Next(s, steps[0]), steps[1..], key, age + Seconds(steps[0]));
    }
  }

  /**
   A mark lives for sixty seconds from the step that records it: whatever other keys are spawned, stopped and sent to
   meanwhile, it is there as long as less time has passed; and a spawn of another key keeps it exactly if less than
   that has passed by then.
   */
  lemma MarkLivesSixtySeconds(s: State, op: Op, steps: seq<Step>, clear: Op)
    requires Enabled(s, StopMark(op)) && Runs(Next(s, StopMark(op)), steps)
    requires Unconcerned(Next(s, StopMark(op)), steps, s.ops[op].key)
    ensures var key, t := s.ops[op].key, After(Next(s, StopMark(op)), steps);
            && (Elapsed(steps) < 60 ==> key in t.pending)
            && (Enabled(t, SpawnClear(clear)) && t.ops[clear].key != key ==>
                  (key in Next(t, SpawnClear(clear)).pending <==> Elapsed(steps) < 60))
  {
    var key, marked := s.ops[op].key, Next(s, StopMark(op));
    assert MarkOfAge(marked, key, 0);
    RunAgesMark(marked, steps, key, 0);
    var t := After(marked, steps);
    if Enabled(t, SpawnClear(clear)) && t.ops[clear].key != key {
      StepAgesMark(t, SpawnClear(clear), key, Elapsed(steps));
    }
  }

  /** A spawn of the key itself takes the mark, however fresh. */
  lemma OwnSpawnTakesTheMark(s: State, clear: Op)
    requires Enabled(s, SpawnClear(clear))
    ensures s.ops[clear].key !in Next(s, SpawnClear(clear)).pending
  {
  }

  // ---------------------------------------------------------------------------
  // What became of a session
  // ---------------------------------------------------------------------------

  /** The operation whose phase a step changes. */
  function Mover(s: State, st: Step): Option<Op> {
    match st
    case SpawnBegin(_) => Some(s.nextOp)
    case StopBegin(_, _) => Some(s.nextOp)
    case SendBegin(_) => Some(s.nextOp)
    case Tick(_) => None
    case _ => Some(st.op)
  }

  ghost predicate Sits(s: State, steps: seq<Step>, op: Op)
    requires Runs(s, steps)
    decreases |steps|
  {
    steps == [] || (Mover(s, steps[0]) != Some(op) && Sits(Next(s, steps[0]), steps[1..], op))
  }

  /** An operation stays as it is while others move. */
  lemma {:induction false} OthersLeaveIt(s: State, steps: seq<Step>, op: Op)
    requires op in s.ops && Runs(s, steps) && Sits(s, steps, op)
    ensures op in After(s, steps).ops && After(s, steps).ops[op] == s.ops[op]
    decreases |steps|
  {
    if steps != [] {
      OtherLeavesIt(s, steps[0], op);
      hide Next, Enabled;
      OthersLeaveIt(Next(s, steps[0]), steps[1..], op);
    }
  }

  lemma OtherLeavesIt(s: State, st: Step, op: Op)
    requires op in s.ops && Enabled(s, st) && Mover(s, st) != Some(op)
    ensures op in Next(s, st).ops && Next(s, st).ops[op] == s.ops[op]
  {
  }

  /** A stop that finds the session ends it, and in the way that was asked for, whatever runs until it is done. */
  lemma StopEndsAsAsked(s: State, key: Key, kill: bool, steps: seq<Step>)
    requires Inv(s) && key in s.sessions
    requires Runs(Next(s, StopBegin(key, kill)), steps) && Sits(Next(s, StopBegin(key, kill)), steps, s.nextOp)
    ensures var t := After(Next(s, StopBegin(key, kill)), steps);
            && Enabled(t, Finish(s.nextOp))
            && Next(t, Finish(s.nextOp)).ended == t.ended + [End(s.sessions[key], if kill then Killed else Shutdown)]
  {
    OthersLeaveIt(Next(s, StopBegin(key, kill)), steps, s.nextOp);
  }

  /** A stored spawn puts its own session under its key, and shuts down the one it found there. */
  lemma SpawnInstalls(s: State, key: Key, found: Sid, op: Op, steps: seq<Step>)
    requires Inv(s) && op in s.ops && s.ops[op].SpawnSetup? && s.ops[op].key == key
    requires key in s.sessions && s.sessions[key] == found
    requires Runs(Next(s, SpawnStore(op)), [SpawnClear(op)] + steps)
    requires Sits(Next(Next(s, SpawnStore(op)), SpawnClear(op)), steps, op)
    ensures Next(s, SpawnStore(op)).sessions == s.sessions[key := s.ops[op].sid]
    ensures var t := After(Next(s, SpawnStore(op)), [SpawnClear(op)] + steps);
            && Enabled(t, Finish(op)) && Next(t, Finish(op)).ended == t.ended + [End(found, Shutdown)]
  {
    var t := Next(s, SpawnStore(op));
    assert ([SpawnClear(op)] + steps)[1..] == steps;
    OthersLeaveIt(Next(t, SpawnClear(op)), steps, op);
  }

  /** A spawn whose registration fails changes neither map, and its session is shut down. */
  lemma FailedSpawnEndsItsOwn(s: State, op: Op, steps: seq<Step>)
    requires op in s.ops && s.ops[op].SpawnSetup?
    requires Runs(Next(s, SpawnFail(op)), steps) && Sits(Next(s, SpawnFail(op)), steps, op)
    ensures Next(s, SpawnFail(op)).sessions == s.sessions && Next(s, SpawnFail(op)).pending == s.pending
    ensures var t := After(Next(s, SpawnFail(op)), steps);
            && Enabled(t, Finish(op)) && Next(t, Finish(op)).ended == t.ended + [End(s.ops[op].sid, Shutdown)]
            && Next(t, Finish(op)).sessions == t.sessions && Next(t, Finish(op)).pending == t.pending
  {
    OthersLeaveIt(Next(s, SpawnFail(op)), steps, op);
  }

  /** A send that finds the mark uses it up and shuts its session down, whatever runs until it is done. */
  lemma MarkIsHonoured(s: State, op: Op, steps: seq<Step>)
    requires op in s.ops && s.ops[op].SendChecking? && s.ops[op].key in s.pending
    requires Runs(Next(s, SendCheck(op)), steps) && Sits(Next(s, SendCheck(op)), steps, op)
    ensures Next(s, SendCheck(op)).pending == s.pending - {s.ops[op].key}
    ensures var t := After(Next(s, SendCheck(op)), steps);
            Enabled(t, Finish(op)) && Next(t, Finish(op)).ended == t.ended + [End(s.ops[op].sid, Shutdown)]
  {
    OthersLeaveIt(Next(s, SendCheck(op)), steps, op);
  }

  // ---------------------------------------------------------------------------
  // What a new session supersedes
  // ---------------------------------------------------------------------------

  /** Phases of earlier operations on `key` that can still end the session now in the map. */
  predicate Threatens(ph: Phase, key: Key) {
    match ph
    case SpawnSetup(k, _) => k == key
    case StopMarking(k) => k == key
    case SendTalking(k, _) => k == key
    case SendChecking(k, _) => k == key
    case SendReturning(k, _) => k == key
    case _ => false
  }

  ghost predicate Threatened(s: State, key: Key) {
    exists op :: op in s.ops && Threatens(s.ops[op], key)
  }

  /** Nobody starts a stop or a spawn on `key`, and no operation is dropped. */
  ghost predicate Undisturbed(steps: seq<Step>, key: Key) {
    forall st | st in steps :: st != SpawnBegin(key) && !(st.StopBegin? && st.key == key) && !st.Abandon?
  }

  predicate SendsIt(ph: Phase, key: Key, sid: Sid) {
    ph == SendTalking(key, sid) || ph == SendChecking(key, sid) || ph == SendReturning(key, sid)
  }

  /** The session is in the map, or out with the one send on its key. */
  ghost predicate SafeAt(s: State, key: Key, sid: Sid, p: Place) {
    && At(s, sid, p)
    && (p == InMap(key) || (key !in s.sessions && p.InFlight? && p.op in s.ops && SendsIt(s.ops[p.op], key, sid)))
    && forall op | op in s.ops && Threatens(s.ops[op], key) :: p == InFlight(op)
  }

  ghost predicate Safe(s: State, key: Key, sid: Sid) {
    key !in s.pending && exists p :: SafeAt(s, key, sid, p)
  }

  lemma StepKeepsSafe(s: State, st: Step, key: Key, sid: Sid)
    requires Inv(s) && Enabled(s, st) && Safe(s, key, sid)
    requires st != SpawnBegin(key) && !(st.StopBegin? && st.key == key) && !st.Abandon?
    ensures Safe(Next(s, st), key, sid)
  {
    var p :| SafeAt(s, key, sid, p);
    var t, q := Next(s, st), Moved(s, st, p);
    MovedIsAt(s, st, sid, p);
    NoMarkComes(s, st, key, sid, p);
    assert SafeAt(t, key, sid, q);
  }

  /** No operation that threatens the key is about to mark it. */
  lemma NoMarkComes(s: State, st: Step, key: Key, sid: Sid, p: Place)
    requires Inv(s) && Enabled(s, st) && key !in s.pending && SafeAt(s, key, sid, p)
    ensures key !in Next(s, st).pending
  {
  }

  lemma SafeIsNotDoomed(s: State, key: Key, sid: Sid)
    requires Inv(s) && Safe(s, key, sid)
    ensures !Doomed(s, sid)
  {
    var p :| SafeAt(s, key, sid, p);
    assert forall q | At(s, sid, q) :: q == p;
  }

  lemma {:induction false} SafeRun(s: State, steps: seq<Step>, key: Key, sid: Sid)
    requires Inv(s) && Runs(s, steps) && Undisturbed(steps, key) && Safe(s, key, sid)
    ensures !Doomed(After(s, steps), sid)
    decreases |steps|
  {
    if steps == [] {
      SafeIsNotDoomed(s, key, sid);
    } else {
      assert steps[0] in steps;
      StepKeepsInv(s, steps[0]);
      StepKeepsSafe(s, steps[0], key, sid);
      hide Inv, Safe, Doomed, Next, Enabled;
      SafeRun(Next(s, steps[0]), steps[1..], key, sid);
    }
  }

  /** An undisturbed run after which the session is over or can only be ended. */
  ghost predicate Ends(s: State, steps: seq<Step>, key: Key, sid: Sid) {
    Runs(s, steps) && Undisturbed(steps, key) && Doomed(After(s, steps), sid)
  }

  lemma PrependEnds(s: State, st: Step, rest: seq<Step>, key: Key, sid: Sid)
    requires Enabled(s, st) && Ends(Next(s, st), rest, key, sid)
    requires st != SpawnBegin(key) && !(st.StopBegin? && st.key == key) && !st.Abandon?
    ensures Ends(s, [st] + rest, key, sid)
  {
    hide Doomed, Next, Enabled;
    assert ([st] + rest)[1..] == rest;
  }

  /** A send that finds a mark ends its session. */
  lemma MarkedSendEnds(s: State, key: Key, sid: Sid) returns (steps: seq<Step>)
    requires Inv(s) && key in s.sessions && s.sessions[key] == sid && key in s.pending
    ensures Ends(s, steps, key, sid)
  {
    var op := s.nextOp;
    var s1 := Next(s, SendBegin(key));
    var s2 := Next(s1, SendDone(op));
    var s3 := Next(s2, SendCheck(op));
    assert DoomedAt(s3, sid, InFlight(op));
    assert Ends(s3, [], key, sid);
    PrependEnds(s2, SendCheck(op), [], key, sid);
    steps := [SendCheck(op)] + [];
    PrependEnds(s1, SendDone(op), steps, key, sid);
    steps := [SendDone(op)] + steps;
    PrependEnds(s, SendBegin(key), steps, key, sid);
    steps := [SendBegin(key)] + steps;
  }

  /** Each such operation has a run in which it ends the session. */
  lemma ThreatEnds(s: State, op: Op, key: Key, sid: Sid) returns (steps: seq<Step>)
    requires Inv(s) && key in s.sessions && s.sessions[key] == sid && key !in s.pending
    requires op in s.ops && Threatens(s.ops[op], key)
    ensures Ends(s, steps, key, sid)
    decreases if s.ops[op].SendTalking? then 2 else if s.ops[op].SendChecking? then 1 else 0
  {
    var st := match s.ops[op]
              case SpawnSetup(_, _) => SpawnStore(op)
              case StopMarking(_) => StopMark(op)
              case SendTalking(_, _) => SendDone(op)
              case SendChecking(_, _) => SendCheck(op)
              case _ => SendReturn(op);
    var t := Next(s, st);
    StepKeepsInv(s, st);
    var rest: seq<Step> := [];
    if s.ops[op].SpawnSetup? {
      assert DoomedAt(t, sid, InFlight(op));
    } else if s.ops[op].SendReturning? {
      assert DoomedAt(t, sid, Over(|s.ended|));
    } else if s.ops[op].StopMarking? {
      rest := MarkedSendEnds(t, key, sid);
    } else {
      rest := ThreatEnds(t, op, key, sid);
    }
    assert Ends(t, rest, key, sid);
    PrependEnds(s, st, rest, key, sid);
    steps := [st] + rest;
  }

  /**
   A session that a spawn has just put in the map, its pending mark cleared, outlives every run in which nobody
   starts another stop or spawn on its key, exactly when no earlier operation on the key is still under way that
   can mark it, replace it or insert over it.
   */
  lemma SpawnSupersedes(s: State, key: Key, sid: Sid)
    requires Inv(s) && key in s.sessions && s.sessions[key] == sid && key !in s.pending
    ensures (forall steps | Runs(s, steps) && Undisturbed(steps, key) :: !Doomed(After(s, steps), sid))
            <==> !Threatened(s, key)
  {
    if Threatened(s, key) {
      var op :| op in s.ops && Threatens(s.ops[op], key);
      var steps := ThreatEnds(s, op, key, sid);
      assert Runs(s, steps) && Undisturbed(steps, key);
    } else {
      assert SafeAt(s, key, sid, InMap(key));
      forall steps | Runs(s, steps) && Undisturbed(steps, key) ensures !Doomed(After(s, steps), sid) {
        SafeRun(s, steps, key, sid);
      }
    }
  }

  /** A stop that has found nothing and not marked it yet, and a whole spawn. */
  lemma StopThenSpawn(key: Key, kill: bool) returns (steps: seq<Step>)
    ensures steps == [StopBegin(key, kill), SpawnBegin(key), SpawnStore(1), SpawnClear(1)]
    ensures Runs(INIT, steps)
    ensures After(INIT, steps) == State(map[key := 0], map[], map[0 := StopMarking(key)], [], 1, 2, 0)
  {
    Extend([], StopBegin(key, kill));
    steps := [] + [StopBegin(key, kill)];
    assert After(INIT, steps) == State(map[], map[], map[0 := StopMarking(key)], [], 0, 1, 0);
    Extend(steps, SpawnBegin(key));
    steps := steps + [SpawnBegin(key)];
    Extend(steps, SpawnStore(1));
    steps := steps + [SpawnStore(1)];
    Extend(steps, SpawnClear(1));
    steps := steps + [SpawnClear(1)];
    assert map[0 := StopMarking(key)][1 := SpawnClearing(key, None)] - {1} == map[0 := StopMarking(key)];
  }

  /** The mark of that stop was meant for an earlier session and ends the new one. */
  lemma StaleStopEndsTheNewSession(key: Key, kill: bool) returns (spawned: seq<Step>, more: seq<Step>)
    ensures spawned == [StopBegin(key, kill), SpawnBegin(key), SpawnStore(1), SpawnClear(1)]
    ensures Runs(INIT, spawned)
    ensures var s := After(INIT, spawned);
            Inv(s) && s.sessions == map[key := 0] && s.pending == map[] && Ends(s, more, key, 0)
  {
    spawned := StopThenSpawn(key, kill);
    RunKeepsInv(INIT, spawned);
    hide After, Runs, Next, Inv, Ends;
    more := ThreatEnds(After(INIT, spawned), 0, key, 0);
  }

  // ---------------------------------------------------------------------------
  // The orchestrator object
  // ---------------------------------------------------------------------------

  /**
   The two locked maps, together with the suspended operations that share them.  Each method is the code between
   two suspension points, and takes the whole program through the step it is named after.
   */
  class TeamOrchestrator {
    var sessions: map<Key, Sid>
    var pendingShutdowns: map<Key, nat>
    var suspended: map<Op, Phase>
    var ended: seq<End>
    var nextSid: Sid
    var nextOp: Op
    var clock: nat

    ghost function Snapshot(): State
      reads this
    {
      State(sessions, pendingShutdowns, suspended, ended, nextSid, nextOp, clock)
    }

    constructor ()
      ensures Snapshot() == INIT && Inv(Snapshot())
    {
      sessions, pendingShutdowns, suspended := map[], map[], map[];
      ended, nextSid, nextOp, clock := [], 0, 0, 0;
    }

    method Suspend(ph: Phase) returns (op: Op)
      modifies this`suspended, this`nextOp
      ensures op == old(nextOp) && nextOp == old(nextOp) + 1 && suspended == old(suspended)[op := ph]
    {
      op := nextOp;
      nextOp := nextOp + 1;
      suspended := suspended[op := ph];
    }

    /** `backend.spawn` has returned a running session. */
    method SpawnBackend(key: Key)
      requires Inv(Snapshot())
      modifies this
      ensures Snapshot() == Next(old(Snapshot()), SpawnBegin(key)) && Inv(Snapshot())
    {
      var sid := nextSid;
      nextSid := nextSid + 1;
      var op := Suspend(SpawnSetup(key, sid));
      StepKeepsInv(old(Snapshot()), SpawnBegin(key));
    }

    /** First lock of `spawn_teammate`: take any old session out, insert the new one. */
    method StoreSession(op: Op)
      requires Inv(Snapshot()) && Enabled(Snapshot(), SpawnStore(op))
      modifies this
      ensures Snapshot() == Next(old(Snapshot()), SpawnStore(op)) && Inv(Snapshot())
    {
      var SpawnSetup(key, sid) := suspended[op];
      var oldSession := Lookup(sessions, key);
      sessions := sessions - {key};
      sessions := sessions[key := sid];
      suspended := suspended[op := SpawnClearing(key, oldSession)];
      StepKeepsInv(old(Snapshot()), SpawnStore(op));
    }

    /** Second lock of `spawn_teammate`: drop the mark for this key and sweep the stale ones. */
    method ClearPending(op: Op)
      requires Inv(Snapshot()) && Enabled(Snapshot(), SpawnClear(op))
      modifies this
      ensures Snapshot() == Next(old(Snapshot()), SpawnClear(op)) && Inv(Snapshot())
    {
      var SpawnClearing(key, oldSession) := suspended[op];
      pendingShutdowns := pendingShutdowns - {key};
      pendingShutdowns := map k | k in pendingShutdowns && clock - pendingShutdowns[k] < PENDING_SHUTDOWN_TTL ::
        pendingShutdowns[k];
      if oldSession.Some? {
        suspended := suspended[op := SpawnReplacing(oldSession.value)];
      } else {
        suspended := suspended - {op};
      }
      StepKeepsInv(old(Snapshot()), SpawnClear(op));
    }

    /** First lock of `shutdown_teammate` and `force_kill_teammate`. */
    method TakeForStop(key: Key, kill: bool)
      requires Inv(Snapshot())
      modifies this
      ensures Snapshot() == Next(old(Snapshot()), StopBegin(key, kill)) && Inv(Snapshot())
    {
      var session := Lookup(sessions, key);
      sessions := sessions - {key};
      if session.Some? {
        var op := Suspend(StopHolding(session.value, kill));
      } else {
        var op := Suspend(StopMarking(key));
      }
      StepKeepsInv(old(Snapshot()), StopBegin(key, kill));
    }

    /** Second lock of `shutdown_teammate` and `force_kill_teammate`, when no session was found. */
    method MarkPending(op: Op)
      requires Inv(Snapshot()) && Enabled(Snapshot(), StopMark(op))
      modifies this
      ensures Snapshot() == Next(old(Snapshot()), StopMark(op)) && Inv(Snapshot())
    {
      pendingShutdowns := pendingShutdowns[suspended[op].key := clock];
      suspended := suspended - {op};
      StepKeepsInv(old(Snapshot()), StopMark(op));
    }

    /** First sessions lock of `send_input`; false is the `AgentNotAlive` error, which changes nothing. */
    method TakeForSend(key: Key) returns (found: bool)
      requires Inv(Snapshot())
      modifies this
      ensures found == (key in old(sessions)) && Inv(Snapshot())
      ensures Snapshot() == if found then Next(old(Snapshot()), SendBegin(key)) else old(Snapshot())
    {
      var session := Lookup(sessions, key);
      sessions := sessions - {key};
      found := session.Some?;
      if found {
        var op := Suspend(SendTalking(key, session.value));
        StepKeepsInv(old(Snapshot()), SendBegin(key));
      } else {
        assert sessions == old(sessions);
      }
    }

    /** The pending lock of `send_input`. */
    method CheckPending(op: Op)
      requires Inv(Snapshot()) && Enabled(Snapshot(), SendCheck(op))
      modifies this
      ensures Snapshot() == Next(old(Snapshot()), SendCheck(op)) && Inv(Snapshot())
    {
      var SendChecking(key, sid) := suspended[op];
      var requested := key in pendingShutdowns;
      pendingShutdowns := pendingShutdowns - {key};
      suspended := suspended[op := if requested then SendEnding(sid) else SendReturning(key, sid)];
      StepKeepsInv(old(Snapshot()), SendCheck(op));
    }

    /** Second sessions lock of `send_input`: inserting over another session drops that one. */
    method PutBack(op: Op)
      requires Inv(Snapshot()) && Enabled(Snapshot(), SendReturn(op))
      modifies this
      ensures Snapshot() == Next(old(Snapshot()), SendReturn(op)) && Inv(Snapshot())
    {
      var SendReturning(key, sid) := suspended[op];
      if key in sessions {
        ended := ended + [End(sessions[key], Dropped)];
      }
      sessions := sessions[key := sid];
      suspended := suspended - {op};
      StepKeepsInv(old(Snapshot()), SendReturn(op));
    }

    /** Registering the member or its inbox has failed: the new session is shut down. */
    method AbortSpawn(op: Op)
      requires Inv(Snapshot()) && Enabled(Snapshot(), SpawnFail(op))
      modifies this
      ensures Snapshot() == Next(old(Snapshot()), SpawnFail(op)) && Inv(Snapshot())
    {
      StepKeepsInv(Snapshot(), SpawnFail(op));
      suspended := suspended[op := SpawnAborting(suspended[op].sid)];
    }

    /** `session.send_input` has returned. */
    method FinishTalking(op: Op)
      requires Inv(Snapshot()) && Enabled(Snapshot(), SendDone(op))
      modifies this
      ensures Snapshot() == Next(old(Snapshot()), SendDone(op)) && Inv(Snapshot())
    {
      StepKeepsInv(Snapshot(), SendDone(op));
      suspended := suspended[op := SendChecking(suspended[op].key, suspended[op].sid)];
    }

    /** The awaited shutdown or kill has returned, or the caller has dropped the operation. */
    method EndOperation(op: Op, abandoned: bool)
      requires Inv(Snapshot()) && Enabled(Snapshot(), if abandoned then Abandon(op) else Finish(op))
      modifies this
      ensures Snapshot() == Next(old(Snapshot()), if abandoned then Abandon(op) else Finish(op)) && Inv(Snapshot())
    {
      StepKeepsInv(Snapshot(), if abandoned then Abandon(op) else Finish(op));
      hide Inv;
      var held := Holds(suspended[op]);
      if held.Some? {
        ended := ended + [End(held.value, if abandoned then Dropped else FinishCause(suspended[op]).value)];
      }
      suspended := suspended - {op};
    }

    method PassTime(seconds: nat)
      requires Inv(Snapshot())
      modifies this
      ensures Snapshot() == Next(old(Snapshot()), Tick(seconds)) && Inv(Snapshot())
    {
      StepKeepsInv(Snapshot(), Tick(seconds));
      clock := clock + seconds;
    }

    method Perform(st: Step)
      requires Inv(Snapshot()) && Enabled(Snapshot(), st)
      modifies this
      ensures Snapshot() == Next(old(Snapshot()), st) && Inv(Snapshot())
    {
      hide Inv, Next;
      match st
      case SpawnBegin(key) => SpawnBackend(key);
      case SpawnFail(op) => AbortSpawn(op);
      case SpawnStore(op) => StoreSession(op);
      case SpawnClear(op) => ClearPending(op);
      case StopBegin(key, kill) => TakeForStop(key, kill);
      case StopMark(op) => MarkPending(op);
      case SendBegin(key) => var found := TakeForSend(key);
      case SendDone(op) => FinishTalking(op);
      case SendCheck(op) => CheckPending(op);
      case SendReturn(op) => PutBack(op);
      case Finish(op) => EndOperation(op, false);
      case Abandon(op) => EndOperation(op, true);
      case Tick(seconds) => PassTime(seconds);
    }

    /** Any interleaving of spawns, sends, shutdowns, kills and dropped operations. */
    method Interleave(steps: seq<Step>)
      requires Inv(Snapshot()) && Runs(Snapshot(), steps)
      modifies this
      ensures Snapshot() == After(old(Snapshot()), steps) && Inv(Snapshot())
    {
      hide Inv, Next, Enabled;
      for i := 0 to |steps|
        invariant Inv(Snapshot()) && Runs(Snapshot(), steps[i..])
        invariant After(Snapshot(), steps[i..]) == After(old(Snapshot()), steps)
      {
        assert steps[i..][1..] == steps[i + 1..];
        Perform(steps[i]);
      }
    }
  }
}
