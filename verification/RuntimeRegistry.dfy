/**
 `RuntimeOrchestrator` (src/runtime/orchestrator.rs) and the registry of handles it keeps beside its session table
 (src/runtime/session_registry.rs).

 The outcome of every call into a backend or a session is a parameter: None is success, Some(e) the error text.
 */
module RuntimeRegistry {
  import opened Wrappers

  type MemberId = string

  datatype ExecutionState = Unknown | Starting | Running | Paused | Stopped | Failed

  function Label(st: ExecutionState): string {
    match st
    case Unknown => "unknown"
    case Starting => "starting"
    case Running => "running"
    case Paused => "paused"
    case Stopped => "stopped"
    case Failed => "failed"
  }

  datatype Backend = ClaudeCode | Codex | GeminiCli

  /** `SessionState::from_config`, reduced to the fields the orchestrator touches. */
  datatype Persisted = Persisted(name: string, backend: Backend, metadata: map<string, string>)

  datatype Managed = Managed(
    sessionKey: string,
    persisted: Persisted,
    state: ExecutionState,
    receiver: bool,              // the output receiver has not been taken
    lastError: Option<string>)

  datatype Handle = Handle(
    memberId: MemberId,
    memberName: string,
    sessionKey: Option<string>,
    state: ExecutionState,
    lastError: Option<string>)

  datatype Fault =
    | AlreadyRegistered | BackendNotConfigured | InvalidBackendType | NoSession
    | SpawnFailed(reason: string) | SessionError(reason: string)

  /** `ManagedSession::handle` with the name stored in the session. */
  function HandleOf(id: MemberId, m: Managed): Handle {
    Handle(id, m.persisted.name, Some(m.sessionKey), m.state, m.lastError)
  }

  /** `set_runtime_state` */
  function WithState(m: Managed, st: ExecutionState): Managed {
    m.(state := st, persisted := m.persisted.(metadata := m.persisted.metadata["runtime_state" := Label(st)]))
  }

  lemma LastStateWins(m: Managed, a: ExecutionState, b: ExecutionState)
    ensures WithState(WithState(m, a), b) == WithState(m, b)
  {
    var d := m.persisted.metadata;
    assert d["runtime_state" := Label(a)]["runtime_state" := Label(b)] == d["runtime_state" := Label(b)];
  }

  lemma WithStateKeepsRest(m: Managed, st: ExecutionState, lastError: Option<string>)
    ensures WithState(m, st).(lastError := lastError) == WithState(m.(lastError := lastError), st)
  {
  }

  datatype Tables = Tables(backends: set<Backend>, sessions: map<MemberId, Managed>, registry: map<MemberId, Handle>)

  // ---------------------------------------------------------------------------
  // The mirror
  // ---------------------------------------------------------------------------

  /** A stored session is Running without an error or Failed with one, and its metadata says the same. */
  predicate Settled(m: Managed) {
    && (m.state == Running || m.state == Failed)
    && (m.state == Failed <==> m.lastError.Some?)
    && "runtime_state" in m.persisted.metadata
    && m.persisted.metadata["runtime_state"] == Label(m.state)
    && "session_key" in m.persisted.metadata
    && m.persisted.metadata["session_key"] == m.sessionKey
  }

  /** The registry is exactly the session table seen through `HandleOf`. */
  ghost predicate Mirrors(t: Tables) {
    && t.registry.Keys == t.sessions.Keys
    && (forall id | id in t.sessions :: t.registry[id] == HandleOf(id, t.sessions[id]))
    && (forall id | id in t.sessions :: Settled(t.sessions[id]))
  }

  // ---------------------------------------------------------------------------
  // Calls
  // ---------------------------------------------------------------------------

  datatype Call =
    | Spawn(id: MemberId, name: string, backend: Backend, uuid: string, spawned: Option<string>, receiver: bool)
    | Resume(id: MemberId, name: string, stored: Option<Backend>, uuid: string, spawned: Option<string>, receiver: bool)
    | Send(id: MemberId, sent: Option<string>)
    | TakeReceiver(id: MemberId)
    | RemoveDead(id: MemberId, alive: bool)
    | ShutDown(id: MemberId, stopped: Option<string>)

  function FreshSession(name: string, backend: Backend, uuid: string, receiver: bool): Managed {
    WithState(Managed(uuid, Persisted(name, backend, map["session_key" := uuid, "runtime_state" := Label(Starting)]),
                      Running, receiver, None),
              Running)
  }

  function Keep(t: Tables, id: MemberId, m: Managed): Tables {
    t.(sessions := t.sessions[id := m], registry := t.registry[id := HandleOf(id, m)])
  }

  function Drop(t: Tables, id: MemberId): Tables {
    t.(sessions := t.sessions - {id}, registry := t.registry - {id})
  }

  /** The tables after a call, and the error it reports. */
  function Apply(t: Tables, c: Call): (r: (Tables, Option<Fault>))
    decreases c.Resume?
  {
    match c
    case Spawn(id, name, backend, uuid, spawned, receiver) =>
      if id in t.sessions then (t, Some(AlreadyRegistered))
      else if backend !in t.backends then (t, Some(BackendNotConfigured))
      else if spawned.Some? then (t, Some(SpawnFailed(spawned.value)))
      else (Keep(t, id, FreshSession(name, backend, uuid, receiver)), None)
    case Resume(id, name, stored, uuid, spawned, receiver) =>
      if stored.None? then (t, Some(InvalidBackendType))
      else Apply(t, Spawn(id, name, stored.value, uuid, spawned, receiver))
    case Send(id, sent) =>
      if id !in t.sessions then (t, Some(NoSession))
      else
        var m := t.sessions[id];
        if sent.Some? then
          (Keep(t, id, WithState(m.(lastError := sent), Failed)), Some(SessionError(sent.value)))
        else (Keep(t, id, WithState(m.(lastError := None), Running)), None)
    case TakeReceiver(id) =>
      if id !in t.sessions then (t, Some(NoSession))
      else (t.(sessions := t.sessions[id := t.sessions[id].(receiver := false)]), None)
    case RemoveDead(id, alive) =>
      if id in t.sessions && !alive then (Drop(t, id), None) else (t, None)
    case ShutDown(id, stopped) =>
      if id !in t.sessions then (t, Some(NoSession))
      else if stopped.Some? then
        (Keep(t, id, WithState(t.sessions[id].(lastError := stopped), Failed)), Some(SessionError(stopped.value)))
      else (Drop(t, id), None)
  }

  lemma KeepMirrors(t: Tables, id: MemberId, m: Managed)
    requires Mirrors(t) && Settled(m)
    ensures Mirrors(Keep(t, id, m))
  {
  }

  lemma CallMirrors(t: Tables, c: Call)
    requires Mirrors(t)
    ensures Mirrors(Apply(t, c).0)
    decreases c.Resume?
  {
    match c
    case Spawn(id, name, backend, uuid, spawned, receiver) =>
      FreshIsSettled(name, backend, uuid, receiver);
      KeepMirrors(t, id, FreshSession(name, backend, uuid, receiver));
    case Resume(id, name, stored, uuid, spawned, receiver) =>
      if stored.Some? {
        CallMirrors(t, Spawn(id, name, stored.value, uuid, spawned, receiver));
      }
    case Send(id, sent) =>
      if id in t.sessions {
        SettlesWith(t.sessions[id], sent);
        KeepMirrors(t, id, WithState(t.sessions[id].(lastError := sent), if sent.Some? then Failed else Running));
      }
    case TakeReceiver(id) =>
      if id in t.sessions {
        assert HandleOf(id, t.sessions[id].(receiver := false)) == HandleOf(id, t.sessions[id]);
      }
    case RemoveDead(id, alive) =>
    case ShutDown(id, stopped) =>
      if id in t.sessions && stopped.Some? {
        SettlesWith(t.sessions[id], stopped);
        KeepMirrors(t, id, WithState(t.sessions[id].(lastError := stopped), Failed));
      }
  }

  function Run(t: Tables, calls: seq<Call>): Tables
    decreases |calls|
  {
    if calls == [] then t else Run(Apply(t, calls[0]).0, calls[1..])
  }

  /** After any history of calls, failed ones included, the registry is the session table seen through its handles. */
  lemma {:induction false} RegistryMirrors(t: Tables, calls: seq<Call>)
    requires Mirrors(t)
    ensures Mirrors(Run(t, calls))
    decreases |calls|
  {
    if calls != [] {
      CallMirrors(t, calls[0]);
      RegistryMirrors(Apply(t, calls[0]).0, calls[1..]);
    }
  }

  /** A call touches no other member, and one that reports an error never changes which members are registered. */
  lemma CallIsLocal(t: Tables, c: Call, other: MemberId)
    requires other != c.id
    ensures var u := Apply(t, c).0;
            && (other in u.sessions <==> other in t.sessions) && (other in u.registry <==> other in t.registry)
            && (other in t.sessions ==> u.sessions[other] == t.sessions[other])
            && (other in t.registry ==> u.registry[other] == t.registry[other])
    ensures Mirrors(t) && Apply(t, c).1.Some? ==> Apply(t, c).0.sessions.Keys == t.sessions.Keys
                                                  && Apply(t, c).0.registry.Keys == t.registry.Keys
    decreases c.Resume?
  {
    if c.Resume? && c.stored.Some? {
      CallIsLocal(t, Spawn(c.id, c.name, c.stored.value, c.uuid, c.spawned, c.receiver), other);
    }
  }

  /** A member can be spawned again exactly when its session is gone: shut down cleanly, or removed after it died. */
  lemma RespawnNeedsRemoval(t: Tables, c: Call, name: string, backend: Backend, uuid: string, receiver: bool)
    requires Mirrors(t) && c.id in t.sessions && backend in t.backends
    ensures var u := Apply(t, c).0;
            Apply(u, Spawn(c.id, name, backend, uuid, None, receiver)).1.None?
            <==> (c.ShutDown? && c.stopped.None?) || (c.RemoveDead? && !c.alive)
  {
  }

  // ---------------------------------------------------------------------------
  // What the caller was told
  // ---------------------------------------------------------------------------

  /** A call and the error it reported. */
  datatype Report = Report(call: Call, fault: Option<Fault>)

  function Reports(t: Tables, calls: seq<Call>): seq<Report>
    decreases |calls|
  {
    if calls == [] then [] else [Report(calls[0], Apply(t, calls[0]).1)] + Reports(Apply(t, calls[0]).0, calls[1..])
  }

  /** A member as the reports describe it. */
  datatype Told = Told(name: string, backend: Backend, sessionKey: string, receiver: bool, lastError: Option<string>)

  /**
   What one report adds: a spawn or resume that reports no error makes the member, a shutdown that reports none and
   the removal of a dead session end it, a send or a shutdown that reports an error of the session leaves that error,
   and a send that reports none clears it.
   */
  function Hear(m: Option<Told>, r: Report, id: MemberId): Option<Told> {
    if r.call.id != id then m
    else match r.call
      case Spawn(_, name, backend, uuid, _, receiver) =>
        if r.fault == None then Some(Told(name, backend, uuid, receiver, None)) else m
      case Resume(_, name, stored, uuid, _, receiver) =>
        if r.fault == None && stored.Some? then Some(Told(name, stored.value, uuid, receiver, None)) else m
      case Send(_, _) => HearOutcome(m, r.fault)
      case TakeReceiver(_) => if m.Some? && r.fault == None then Some(m.value.(receiver := false)) else m
      case RemoveDead(_, alive) => if alive then m else None
      case ShutDown(_, _) => if r.fault == None then None else HearOutcome(m, r.fault)
  }

  function HearOutcome(m: Option<Told>, fault: Option<Fault>): Option<Told> {
    if m.None? then None
    else if fault == None then Some(m.value.(lastError := None))
    else if fault.value.SessionError? then Some(m.value.(lastError := Some(fault.value.reason)))
    else m
  }

  function Story(m: Option<Told>, reports: seq<Report>, id: MemberId): Option<Told>
    decreases |reports|
  {
    if reports == [] then m else Story(Hear(m, reports[0], id), reports[1..], id)
  }

  /** A member as the session table shows it. */
  function Shown(t: Tables, id: MemberId): Option<Told> {
    if id in t.sessions then
      var m := t.sessions[id];
      Some(Told(m.persisted.name, m.persisted.backend, m.sessionKey, m.receiver, m.lastError))
    else None
  }

  lemma CallIsHeard(t: Tables, c: Call, id: MemberId)
    ensures Shown(Apply(t, c).0, id) == Hear(Shown(t, id), Report(c, Apply(t, c).1), id)
    ensures Apply(t, c).0.backends == t.backends
    decreases c.Resume?
  {
    if c.Resume? && c.stored.Some? {
      CallIsHeard(t, Spawn(c.id, c.name, c.stored.value, c.uuid, c.spawned, c.receiver), id);
    }
  }

  lemma {:induction false} RunIsHeard(t: Tables, calls: seq<Call>, id: MemberId)
    ensures Shown(Run(t, calls), id) == Story(Shown(t, id), Reports(t, calls), id)
    ensures Run(t, calls).backends == t.backends
    decreases |calls|
  {
    if calls != [] {
      CallIsHeard(t, calls[0], id);
      hide Apply, Hear, Shown;
      RunIsHeard(Apply(t, calls[0]).0, calls[1..], id);
      assert Reports(t, calls)[1..] == Reports(Apply(t, calls[0]).0, calls[1..]);
    }
  }

  /** The handle that a story calls for: Failed with the last reported error of the session, Running without one. */
  function HandleFor(id: MemberId, m: Told): Handle {
    Handle(id, m.name, Some(m.sessionKey), if m.lastError == None then Running else Failed, m.lastError)
  }

  /**
   From empty tables and after any calls: who has a session and a handle, and what they say, is told by the calls and
   the errors they reported.  A member is Failed with an error exactly when that is the error that the last send or
   shutdown to touch its session reported.
   */
  lemma ReportsTellTheTables(backends: set<Backend>, calls: seq<Call>, id: MemberId)
    ensures var t0 := Tables(backends, map[], map[]);
            var t, told := Run(t0, calls), Story(None, Reports(t0, calls), id);
            && Shown(t, id) == told
            && (id in t.registry <==> told.Some?)
            && (told.Some? ==> t.registry[id] == HandleFor(id, told.value))
            && (told.Some? ==>
                  var m := t.sessions[id];
                  && m.state == HandleFor(id, told.value).state
                  && "runtime_state" in m.persisted.metadata
                  && m.persisted.metadata["runtime_state"] == if told.value.lastError == None then "running" else "failed")
  {
    var t0 := Tables(backends, map[], map[]);
    RunIsHeard(t0, calls, id);
    RegistryMirrors(t0, calls);
    hide Run, Story, Reports;
  }

  /** The error a call owes its caller, given what earlier reports have said of the member. */
  function Due(backends: set<Backend>, m: Option<Told>, c: Call): Option<Fault>
    decreases c.Resume?
  {
    match c
    case Spawn(_, _, backend, _, spawned, _) =>
      if m.Some? then Some(AlreadyRegistered)
      else if backend !in backends then Some(BackendNotConfigured)
      else if spawned.Some? then Some(SpawnFailed(spawned.value)) else None
    case Resume(_, name, stored, uuid, spawned, receiver) =>
      if stored == None then Some(InvalidBackendType)
      else Due(backends, m, Spawn(c.id, name, stored.value, uuid, spawned, receiver))
    case Send(_, sent) =>
      if m.None? then Some(NoSession) else if sent.Some? then Some(SessionError(sent.value)) else None
    case TakeReceiver(_) => if m.None? then Some(NoSession) else None
    case RemoveDead(_, _) => None
    case ShutDown(_, stopped) =>
      if m.None? then Some(NoSession) else if stopped.Some? then Some(SessionError(stopped.value)) else None
  }

  /** After any calls from empty tables, the next call reports the error that the earlier reports make due. */
  lemma NextReportIsDue(backends: set<Backend>, calls: seq<Call>, c: Call)
    ensures var t0 := Tables(backends, map[], map[]);
            Apply(Run(t0, calls), c).1 == Due(backends, Story(None, Reports(t0, calls), c.id), c)
  {
    var t0 := Tables(backends, map[], map[]);
    RunIsHeard(t0, calls, c.id);
    hide Run, Story, Reports;
    FaultIsDue(Run(t0, calls), c);
  }

  lemma FaultIsDue(t: Tables, c: Call)
    ensures Apply(t, c).1 == Due(t.backends, Shown(t, c.id), c)
    decreases c.Resume?
  {
    if c.Resume? && c.stored.Some? {
      FaultIsDue(t, Spawn(c.id, c.name, c.stored.value, c.uuid, c.spawned, c.receiver));
    }
  }

  // ---------------------------------------------------------------------------
  // Dropped calls
  // ---------------------------------------------------------------------------

  /** What a call leaves behind when its future is dropped at the await on the backend or the session. */
  function Abandoned(t: Tables, c: Call): Tables {
    match c
    case Send(id, _) =>
      if id in t.sessions then t.(sessions := t.sessions[id := WithState(t.sessions[id], Running)]) else t
    case ShutDown(id, _) => t.(sessions := t.sessions - {id})
    case _ => t
  }

  /** The mirror, for one member. */
  predicate SoundAt(t: Tables, id: MemberId) {
    && (id in t.sessions <==> id in t.registry)
    && (id in t.sessions ==> id in t.registry && t.registry[id] == HandleOf(id, t.sessions[id]) && Settled(t.sessions[id]))
  }

  /** A handle without a session: a shutdown was dropped. */
  predicate OrphanAt(t: Tables, id: MemberId) {
    id !in t.sessions && id in t.registry
  }

  /** A session that runs with an old error, while its handle still says Failed: a send was dropped. */
  predicate StaleAt(t: Tables, id: MemberId) {
    && id in t.sessions && id in t.registry
    && var m := t.sessions[id];
       && m.state == Running && m.lastError.Some? && t.registry[id] == HandleOf(id, m.(state := Failed))
       && Settled(WithState(m, Failed)) && WithState(m, Running) == m
  }

  lemma MirrorsMeansSound(t: Tables)
    ensures Mirrors(t) <==> forall id :: SoundAt(t, id)
  {
    if Mirrors(t) {
      forall id ensures SoundAt(t, id) {
        assert id in t.sessions.Keys <==> id in t.registry.Keys;
      }
    }
    if forall id :: SoundAt(t, id) {
      forall id ensures id in t.sessions.Keys <==> id in t.registry.Keys {
        assert SoundAt(t, id);
      }
      forall id | id in t.sessions ensures id in t.registry && t.registry[id] == HandleOf(id, t.sessions[id]) && Settled(t.sessions[id]) {
        assert SoundAt(t, id);
      }
    }
  }

  /** The calls that must not be dropped: a shutdown of a session, and a send to a failed one. */
  predicate Harms(t: Tables, c: Call) {
    c.id in t.sessions && (c.ShutDown? || (c.Send? && t.sessions[c.id].state == Failed))
  }

  /** A dropped call breaks the mirror exactly when it is one of those. */
  lemma DropBreaksTheMirror(t: Tables, c: Call)
    requires Mirrors(t)
    ensures Mirrors(Abandoned(t, c)) <==> !Harms(t, c)
  {
    MirrorsMeansSound(t);
    MirrorsMeansSound(Abandoned(t, c));
    hide Mirrors, WithState;
    forall id ensures SoundAt(Abandoned(t, c), id) <==> id != c.id || !Harms(t, c) {
      assert SoundAt(t, id);
      AbandonedAt(t, c, id);
    }
    assert SoundAt(Abandoned(t, c), c.id) <==> !Harms(t, c);
  }

  /** One of the three. */
  predicate LooseAt(t: Tables, id: MemberId) {
    SoundAt(t, id) || OrphanAt(t, id) || StaleAt(t, id)
  }

  lemma RestoreState(m: Managed)
    requires Settled(m)
    ensures WithState(m, m.state) == m
    ensures Settled(WithState(WithState(m, Running), m.state)) && WithState(WithState(m, Running), Running) == WithState(m, Running)
  {
    LastStateWins(m, Running, m.state);
    LastStateWins(m, Running, Running);
    var d := m.persisted.metadata;
    assert d["runtime_state" := Label(m.state)] == d;
  }

  lemma AbandonedAt(t: Tables, c: Call, id: MemberId)
    requires LooseAt(t, id)
    ensures LooseAt(Abandoned(t, c), id)
    ensures SoundAt(Abandoned(t, c), id) <==> SoundAt(t, id) && (id != c.id || !Harms(t, c))
  {
    if c.Send? && id == c.id && id in t.sessions && SoundAt(t, id) {
      RestoreState(t.sessions[id]);
    }
  }

  /** The call, run to its end, writes or removes its member's session and handle together. */
  predicate Heals(t: Tables, c: Call) {
    var fault := Apply(t, c).1;
    || ((c.Spawn? || c.Resume? || c.Send? || c.ShutDown?) && (fault.None? || fault.value.SessionError?))
    || (c.RemoveDead? && c.id in t.sessions && !c.alive)
  }

  lemma CompletedAt(t: Tables, c: Call, id: MemberId)
    requires LooseAt(t, id)
    ensures LooseAt(Apply(t, c).0, id)
    ensures SoundAt(Apply(t, c).0, id) <==> SoundAt(t, id) || (id == c.id && Heals(t, c))
    decreases c.Resume?
  {
    if id != c.id {
      CallIsLocal(t, c, id);
    } else {
      match c
      case Spawn(_, name, backend, uuid, spawned, receiver) =>
        FreshIsSettled(name, backend, uuid, receiver);
        KeptIsSound(t, id, FreshSession(name, backend, uuid, receiver));
      case Resume(_, name, stored, uuid, spawned, receiver) =>
        if stored.Some? {
          CompletedAt(t, Spawn(id, name, stored.value, uuid, spawned, receiver), id);
        }
      case Send(_, sent) =>
        if id in t.sessions {
          SettlesWith(t.sessions[id], sent);
          KeptIsSound(t, id, WithState(t.sessions[id].(lastError := sent), if sent.Some? then Failed else Running));
        }
      case ShutDown(_, stopped) =>
        if id in t.sessions && stopped.Some? {
          SettlesWith(t.sessions[id], stopped);
          KeptIsSound(t, id, WithState(t.sessions[id].(lastError := stopped), Failed));
        }
      case _ =>
    }
  }

  lemma KeptIsSound(t: Tables, id: MemberId, m: Managed)
    requires Settled(m)
    ensures SoundAt(Keep(t, id, m), id)
  {
    hide Settled;
  }

  lemma FreshIsSettled(name: string, backend: Backend, uuid: string, receiver: bool)
    ensures Settled(FreshSession(name, backend, uuid, receiver))
  {
    assert "session_key" != "runtime_state";
  }

  /** An outcome leaves a session Running or Failed, whatever it was before. */
  lemma SettlesWith(m: Managed, outcome: Option<string>)
    requires "session_key" in m.persisted.metadata && m.persisted.metadata["session_key"] == m.sessionKey
    ensures Settled(WithState(m.(lastError := outcome), if outcome.Some? then Failed else Running))
  {
    assert "session_key" != "runtime_state";
  }

  datatype Event = Completed(call: Call) | Dropped(call: Call)

  function Happen(t: Tables, e: Event): Tables {
    match e
    case Completed(c) => Apply(t, c).0
    case Dropped(c) => Abandoned(t, c)
  }

  function History(t: Tables, events: seq<Event>): Tables
    decreases |events|
  {
    if events == [] then t else History(Happen(t, events[0]), events[1..])
  }

  /** Whether a member is mirrored after a history, told event by event from what each one harms and heals. */
  predicate Intact(t: Tables, events: seq<Event>, id: MemberId, intact: bool)
    decreases |events|
  {
    if events == [] then intact
    else
      var e := events[0];
      var now := if e.call.id != id then intact else if e.Completed? then intact || Heals(t, e.call) else intact && !Harms(t, e.call);
      Intact(Happen(t, e), events[1..], id, now)
  }

  /**
   After any history of calls, some run to their end and some dropped, each member is mirrored, or has a handle
   without a session, or a session running with its old error; and it is mirrored exactly when every drop that
   harmed it was followed by a call that wrote or removed both its entries.
   */
  lemma {:induction false} DropsAndRepairs(t: Tables, events: seq<Event>, id: MemberId)
    requires LooseAt(t, id)
    ensures LooseAt(History(t, events), id)
    ensures SoundAt(History(t, events), id) <==> Intact(t, events, id, SoundAt(t, id))
    decreases |events|
  {
    if events != [] {
      var e := events[0];
      match e {
        case Completed(c) => CompletedAt(t, c, id);
        case Dropped(c) => AbandonedAt(t, c, id);
      }
      hide SoundAt, LooseAt, Apply, Abandoned, Heals, Harms;
      DropsAndRepairs(Happen(t, e), events[1..], id);
    }
  }

  /** From an empty table: a member is spawned, its shutdown is dropped, and its handle stays without a session. */
  lemma DroppedShutdownLeavesAnOrphan(id: MemberId, name: string, backend: Backend, uuid: string, receiver: bool)
    ensures var t := Tables({backend}, map[], map[]);
            var events := [Completed(Spawn(id, name, backend, uuid, None, receiver)), Dropped(ShutDown(id, None))];
            Mirrors(t) && OrphanAt(History(t, events), id)
  {
    var t := Tables({backend}, map[], map[]);
    var spawn, stop := Completed(Spawn(id, name, backend, uuid, None, receiver)), Dropped(ShutDown(id, None));
    hide FreshSession;
    var u := Happen(t, spawn);
    var v := Happen(u, stop);
    assert id in u.sessions && OrphanAt(v, id);
    assert [spawn, stop][1..] == [stop] && [stop][1..] == [];
    assert History(v, []) == v && History(u, [stop]) == v && History(t, [spawn, stop]) == v;
  }

  // ---------------------------------------------------------------------------
  // The orchestrator object
  // ---------------------------------------------------------------------------

  class SessionRegistry {
    var sessions: map<MemberId, Handle>

    constructor ()
      ensures sessions == map[]
    {
      sessions := map[];
    }

    method RegisterHandle(handle: Handle) returns (previous: Option<Handle>)
      modifies this
      ensures sessions == old(sessions)[handle.memberId := handle]
      ensures previous == if handle.memberId in old(sessions) then Some(old(sessions)[handle.memberId]) else None
    {
      previous := if handle.memberId in sessions then Some(sessions[handle.memberId]) else None;
      sessions := sessions[handle.memberId := handle];
    }

    method RemoveHandle(id: MemberId) returns (previous: Option<Handle>)
      modifies this
      ensures sessions == old(sessions) - {id}
      ensures previous == if id in old(sessions) then Some(old(sessions)[id]) else None
    {
      previous := if id in sessions then Some(sessions[id]) else None;
      sessions := sessions - {id};
    }
  }

  class RuntimeOrchestrator {
    var backends: set<Backend>
    var sessions: map<MemberId, Managed>
    const registry: SessionRegistry

    ghost function Snapshot(): Tables
      reads this, registry
    {
      Tables(backends, sessions, registry.sessions)
    }

    ghost predicate Valid()
      reads this, registry
    {
      Mirrors(Snapshot())
    }

    constructor (backends: set<Backend>)
      ensures Valid() && fresh(registry) && Snapshot() == Tables(backends, map[], map[])
    {
      this.backends, sessions := backends, map[];
      registry := new SessionRegistry();
    }

    method SpawnManagedMember(id: MemberId, name: string, backend: Backend, uuid: string, spawned: Option<string>, receiver: bool)
        returns (r: Result<Handle, Fault>)
      requires Valid()
      modifies this`sessions, registry
      ensures Valid()
      ensures (Snapshot(), if r.Ok? then None else Some(r.error))
              == Apply(old(Snapshot()), Spawn(id, name, backend, uuid, spawned, receiver))
      ensures r.Ok? ==> id in registry.sessions && r.value == registry.sessions[id]
    {
      ghost var call := Spawn(id, name, backend, uuid, spawned, receiver);
      CallMirrors(Snapshot(), call);
      if id in sessions {
        return Err(AlreadyRegistered);
      }
      if backend !in backends {
        return Err(BackendNotConfigured);
      }
      var metadata := map["session_key" := uuid];
      metadata := metadata["runtime_state" := Label(Starting)];
      if spawned.Some? {
        return Err(SpawnFailed(spawned.value));
      }
      var managed := WithState(Managed(uuid, Persisted(name, backend, metadata), Running, receiver, None), Running);
      var handle := Handle(id, name, Some(uuid), managed.state, managed.lastError);
      var _ := registry.RegisterHandle(handle);
      sessions := sessions[id := managed];
      r := Ok(handle);
    }

    method ResumeManagedMember(id: MemberId, name: string, stored: Option<Backend>, uuid: string, spawned: Option<string>, receiver: bool)
        returns (r: Result<Handle, Fault>)
      requires Valid()
      modifies this`sessions, registry
      ensures Valid()
      ensures (Snapshot(), if r.Ok? then None else Some(r.error))
              == Apply(old(Snapshot()), Resume(id, name, stored, uuid, spawned, receiver))
    {
      if stored.None? {
        return Err(InvalidBackendType);
      }
      r := SpawnManagedMember(id, name, stored.value, uuid, spawned, receiver);
    }

    method SendInput(id: MemberId, sent: Option<string>) returns (r: Option<Fault>)
      requires Valid()
      modifies this`sessions, registry
      ensures Valid() && (Snapshot(), r) == Apply(old(Snapshot()), Send(id, sent))
    {
      CallMirrors(Snapshot(), Send(id, sent));
      hide Mirrors, WithState;
      if id !in sessions {
        return Some(NoSession);
      }
      var managed := WithState(sessions[id], Running);
      if sent.Some? {
        LastStateWins(sessions[id].(lastError := sent), Running, Failed);
        WithStateKeepsRest(sessions[id], Running, sent);
        managed := WithState(managed.(lastError := sent), Failed);
        r := Some(SessionError(sent.value));
      } else {
        WithStateKeepsRest(sessions[id], Running, None);
        managed := managed.(lastError := None);
        r := None;
      }
      MirrorSession(id, managed);
    }

    /** Stores a session under its member and registers its handle. */
    method MirrorSession(id: MemberId, managed: Managed)
      modifies this`sessions, registry
      ensures Snapshot() == Keep(old(Snapshot()), id, managed)
    {
      hide Mirrors, WithState, Settled;
      var _ := registry.RegisterHandle(Handle(id, managed.persisted.name, Some(managed.sessionKey), managed.state, managed.lastError));
      sessions := sessions[id := managed];
    }

    method TakeOutputReceiver(id: MemberId) returns (r: Result<bool, Fault>)
      requires Valid()
      modifies this`sessions
      ensures Valid()
      ensures (Snapshot(), if r.Ok? then None else Some(r.error)) == Apply(old(Snapshot()), TakeReceiver(id))
      ensures r.Ok? ==> r.value == old(sessions)[id].receiver
    {
      CallMirrors(Snapshot(), TakeReceiver(id));
      hide Mirrors, WithState;
      if id !in sessions {
        return Err(NoSession);
      }
      r := Ok(sessions[id].receiver);
      sessions := sessions[id := sessions[id].(receiver := false)];
    }

    method RemoveDeadSessionIfAny(id: MemberId, alive: bool) returns (removed: bool)
      requires Valid()
      modifies this`sessions, registry
      ensures Valid() && Snapshot() == Apply(old(Snapshot()), RemoveDead(id, alive)).0
      ensures removed <==> id in old(sessions) && id !in sessions
    {
      CallMirrors(Snapshot(), RemoveDead(id, alive));
      hide Mirrors, WithState;
      if id !in sessions || alive {
        return false;
      }
      sessions := sessions - {id};
      var _ := registry.RemoveHandle(id);
      removed := true;
    }

    method ShutdownManagedMember(id: MemberId, stopped: Option<string>) returns (r: Option<Fault>)
      requires Valid()
      modifies this`sessions, registry
      ensures Valid() && (Snapshot(), r) == Apply(old(Snapshot()), ShutDown(id, stopped))
    {
      hide Mirrors, WithState, Settled;
      CallMirrors(Snapshot(), ShutDown(id, stopped));
      if id !in sessions {
        return Some(NoSession);
      }
      ghost var before := Snapshot();
      var managed := WithState(sessions[id], Stopped);
      sessions := sessions - {id};
      if stopped.None? {
        var _ := registry.RemoveHandle(id);
        return None;
      }
      LastStateWins(before.sessions[id].(lastError := stopped), Stopped, Failed);
      WithStateKeepsRest(before.sessions[id], Stopped, stopped);
      managed := WithState(managed.(lastError := stopped), Failed);
      MirrorSession(id, managed);
      assert Snapshot().sessions == before.sessions[id := managed];
      r := Some(SessionError(stopped.value));
    }
  }
}
