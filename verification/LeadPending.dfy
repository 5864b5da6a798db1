/**
 The lead-pending queue file: a service appends to it while any number of hook processes drain it
 (scripts/hooks/lead-pending-async-wake.js, scripts/hooks/lead-pending-mid-turn.js,
 src/team_mode/service/lead_pending.rs).

 One file-system call is one step.  A rename moves the name, not the content: a writer that opened the file before
 the rename still writes to the same inode afterwards.  Inodes are numbered in order of creation.
 */
module LeadPending {
  import opened Wrappers

  /** One JSON line. */
  type Entry = string
  type HookId = nat
  type Ino = nat

  /** The async-wake hook polls, then scans once more after a grace period; the mid-turn hook scans once. */
  datatype Mode = Polling | Grace | OneShot

  datatype Hook =
    | Scanning(mode: Mode, found: seq<Entry>)
    | Renaming(mode: Mode, found: seq<Entry>)
    | Draining(mode: Mode, found: seq<Entry>, ino: Ino)   // owns the renamed file
    | Unlinking(mode: Mode, found: seq<Entry>)
    | Scanned(mode: Mode, found: seq<Entry>)
    | Injected(found: seq<Entry>)

  datatype State = State(
    inodes: seq<seq<Entry>>,
    path: Option<Ino>,                  // what the pending path names
    writer: Option<Ino>,                // the inode opened by the holder of the append lock
    hooks: map<HookId, Hook>,
    owner: seq<HookId>,                 // history: the hook whose rename took inode i
    batch: seq<Option<seq<Entry>>>,     // history: what that hook read from it
    appended: seq<Entry>)               // history: entries in the order written

  predicate Initial(s: State) {
    s == State([], None, None, map[], [], [], [])
  }

  datatype WriterAct = OpenAppend | WriteEntry(entry: Entry) | CloseUnwritten

  datatype HookAct =
    | Start(oneShot: bool)
    | ExistsSync
    | RenameSync(ok: bool)
    | ReadFileSync(ok: bool)
    | UnlinkSync
    | Decide
    | Kill

  datatype Step = ByWriter(write: WriterAct) | ByHook(hook: HookId, act: HookAct)

  predicate Enabled(s: State, st: Step) {
    match st
    case ByWriter(act) => if act.OpenAppend? then s.writer.None? else s.writer.Some? && s.writer.value < |s.inodes|
    case ByHook(h, act) =>
      if act.Start? then h !in s.hooks && h !in s.owner
      else h in s.hooks && match act
        case ExistsSync => s.hooks[h].Scanning?
        case RenameSync(_) => s.hooks[h].Renaming?
        case ReadFileSync(_) => s.hooks[h].Draining? && s.hooks[h].ino < |s.inodes| && s.hooks[h].ino < |s.batch|
        case UnlinkSync => s.hooks[h].Unlinking?
        case Decide => s.hooks[h].Scanned?
        case _ => !s.hooks[h].Injected?
  }

  function NextWriter(s: State, act: WriterAct): State
    requires Enabled(s, ByWriter(act))
  {
    match act
    case OpenAppend =>
      if s.path.Some? then s.(writer := s.path)
      else s.(writer := Some(|s.inodes|), path := Some(|s.inodes|), inodes := s.inodes + [[]])
    case WriteEntry(entry) =>
      var w := s.writer.value;
      s.(inodes := s.inodes[w := s.inodes[w] + [entry]], appended := s.appended + [entry], writer := None)
    case CloseUnwritten => s.(writer := None)
  }

  function Become(s: State, h: HookId, hook: Hook): State {
    s.(hooks := s.hooks[h := hook])
  }

  function NextHook(s: State, h: HookId, act: HookAct): State
    requires Enabled(s, ByHook(h, act))
  {
    match act
    case Start(oneShot) => Become(s, h, Scanning(if oneShot then OneShot else Polling, []))
    case ExistsSync =>
      var x := s.hooks[h];
      Become(s, h, if s.path.Some? then Renaming(x.mode, x.found) else Scanned(x.mode, x.found))
    case RenameSync(ok) =>
      var x := s.hooks[h];
      if ok && s.path.Some? then
        Become(s, h, Draining(x.mode, x.found, s.path.value)).(path := None, owner := s.owner + [h], batch := s.batch + [None])
      else Become(s, h, Scanned(x.mode, x.found))
    case ReadFileSync(ok) =>
      var x := s.hooks[h];
      var entries := if ok then s.inodes[x.ino] else [];
      Become(s, h, Unlinking(x.mode, x.found + entries)).(batch := s.batch[x.ino := Some(entries)])
    case UnlinkSync =>
      Become(s, h, Scanned(s.hooks[h].mode, s.hooks[h].found))
    case Decide =>
      var x := s.hooks[h];
      if x.mode.Grace? then Become(s, h, Injected(x.found))
      else if x.mode.OneShot? then
        (if x.found != [] then Become(s, h, Injected(x.found)) else s.(hooks := s.hooks - {h}))
      else Become(s, h, Scanning(if x.found != [] then Grace else Polling, x.found))
    case Kill => s.(hooks := s.hooks - {h})
  }

  function Next(s: State, st: Step): State
    requires Enabled(s, st)
  {
    match st
    case ByWriter(act) => NextWriter(s, act)
    case ByHook(h, act) => NextHook(s, h, act)
  }

  ghost predicate Runs(s: State, steps: seq<Step>)
    decreases |steps|
  {
    steps == [] || (Enabled(s, steps[0]) && Runs(Next(s, steps[0]), steps[1..]))
  }

  ghost function After(s: State, steps: seq<Step>): State
    requires Runs(s, steps)
    decreases |steps|
  {
    if steps == [] then s else After(Next(s, steps[0]), steps[1..])
  }

  // ---------------------------------------------------------------------------
  // The queue
  // ---------------------------------------------------------------------------

  function Flatten(parts: seq<seq<Entry>>): seq<Entry> {
    if parts == [] then [] else Flatten(parts[..|parts| - 1]) + parts[|parts| - 1]
  }

  lemma FlattenGrows(parts: seq<seq<Entry>>, part: seq<Entry>)
    ensures Flatten(parts + [part]) == Flatten(parts) + part
  {
    assert (parts + [part])[..|parts|] == parts;
  }

  /**
   Inodes are renamed in the order of their creation: the pending path names the newest one or nothing, and every
   older one was renamed by its owner.  All content is what was appended, and a batch is what its inode held when read.
   */
  ghost predicate FilesInv(s: State) {
    && |s.owner| == |s.batch|
    && |s.inodes| == |s.owner| + (if s.path.Some? then 1 else 0)
    && (s.path.Some? ==> s.path.value == |s.owner|)
    && (s.writer.Some? ==> s.writer.value + 1 == |s.inodes|)
    && Flatten(s.inodes) == s.appended
    && (forall i | 0 <= i < |s.batch| && s.batch[i].Some? :: s.batch[i].value <= s.inodes[i])
  }

  lemma WriterKeepsFilesInv(s: State, act: WriterAct)
    requires FilesInv(s) && Enabled(s, ByWriter(act))
    ensures FilesInv(NextWriter(s, act))
  {
    match act
    case OpenAppend =>
      if s.path.None? {
        FlattenGrows(s.inodes, []);
      }
    case WriteEntry(entry) =>
      var w := s.writer.value;
      assert s.inodes == s.inodes[..w] + [s.inodes[w]];
      assert s.inodes[w := s.inodes[w] + [entry]] == s.inodes[..w] + [s.inodes[w] + [entry]];
      FlattenGrows(s.inodes[..w], s.inodes[w]);
      FlattenGrows(s.inodes[..w], s.inodes[w] + [entry]);
    case CloseUnwritten =>
  }

  lemma StepKeepsFilesInv(s: State, st: Step)
    requires FilesInv(s) && Enabled(s, st)
    ensures FilesInv(Next(s, st))
  {
    hide Flatten;
    if st.ByWriter? {
      WriterKeepsFilesInv(s, st.write);
    }
  }

  // ---------------------------------------------------------------------------
  // First in, first out
  // ---------------------------------------------------------------------------

  /** What was read from each renamed file, in rename order; nothing from one that was not read. */
  function Batches(batch: seq<Option<seq<Entry>>>): seq<seq<Entry>> {
    seq(|batch|, i requires 0 <= i < |batch| => if batch[i].Some? then batch[i].value else [])
  }

  function Taken(batch: seq<Option<seq<Entry>>>): seq<Entry> {
    Flatten(Batches(batch))
  }

  function Pending(s: State): seq<Entry> {
    if s.path.Some? && s.path.value < |s.inodes| then s.inodes[s.path.value] else []
  }

  /** A renamed file that nobody has read holds nothing. */
  ghost predicate UnreadAreEmpty(s: State)
    requires FilesInv(s)
  {
    forall i | 0 <= i < |s.batch| && s.batch[i].None? :: s.inodes[i] == []
  }

  /** No batch misses anything its file holds. */
  ghost predicate Complete(s: State)
    requires FilesInv(s)
  {
    forall i | 0 <= i < |s.batch| && s.batch[i].Some? :: s.batch[i].value == s.inodes[i]
  }

  /** A write to a file that was already read, or a failed read of a file that holds something. */
  ghost predicate Loses(s: State, st: Step)
    requires Enabled(s, st)
  {
    match st
    case ByWriter(WriteEntry(_)) =>
      var w := s.writer.value;
      w < |s.batch| && s.batch[w].Some?
    case ByHook(h, ReadFileSync(false)) => s.inodes[s.hooks[h].ino] != []
    case _ => false
  }

  ghost predicate Lossless(s: State, steps: seq<Step>)
    requires Runs(s, steps)
    decreases |steps|
  {
    steps == [] || (!Loses(s, steps[0]) && Lossless(Next(s, steps[0]), steps[1..]))
  }

  lemma StepCompletes(s: State, st: Step)
    requires FilesInv(s) && Enabled(s, st) && OwnedOnce(s)
    ensures FilesInv(Next(s, st))
    ensures Complete(Next(s, st)) <==> Complete(s) && !Loses(s, st)
  {
    hide Flatten;
    StepKeepsFilesInv(s, st);
    var t := Next(s, st);
    match st
    case ByWriter(act) =>
      if act.WriteEntry? {
        var w := s.writer.value;
        if w < |s.batch| && s.batch[w].Some? {
          assert t.batch[w].value != t.inodes[w];
        }
      }
    case ByHook(h, act) =>
      if act.ReadFileSync? {
        var i := s.hooks[h].ino;
        assert t.batch[i] == Some(if act.ok then s.inodes[i] else []);
        assert forall j | 0 <= j < |s.batch| && j != i :: t.batch[j] == s.batch[j];
      } else {
        assert t.batch == s.batch || (|t.batch| == |s.batch| + 1 && t.batch[..|s.batch|] == s.batch && t.batch[|s.batch|].None?);
      }
  }

  /** A hook that is draining owns the inode it drains, and has not read it. */
  ghost predicate OwnedOnce(s: State) {
    forall h | h in s.hooks && s.hooks[h].Draining? ::
      var i := s.hooks[h].ino;
      i < |s.owner| && i < |s.batch| && s.owner[i] == h && s.batch[i].None?
  }

  predicate OwnsWhatItDrains(s: State, h: HookId) {
    h in s.hooks && s.hooks[h].Draining? ==>
      var i := s.hooks[h].ino;
      i < |s.owner| && i < |s.batch| && s.owner[i] == h && s.batch[i].None?
  }

  lemma StepKeepsOwnedOnce(s: State, st: Step)
    requires FilesInv(s) && OwnedOnce(s) && Enabled(s, st)
    ensures OwnedOnce(Next(s, st))
  {
    hide Flatten, FilesInv, OwnedOnce, Next;
    forall h ensures OwnsWhatItDrains(Next(s, st), h) {
      OwnedMeans(s, h);
      HookStillOwns(s, st, h);
    }
    AllOwned(Next(s, st));
  }

  lemma OwnedMeans(s: State, h: HookId)
    requires OwnedOnce(s)
    ensures OwnsWhatItDrains(s, h)
  {
  }

  lemma AllOwned(s: State)
    requires forall h :: OwnsWhatItDrains(s, h)
    ensures OwnedOnce(s)
  {
    forall h | h in s.hooks && s.hooks[h].Draining?
      ensures var i := s.hooks[h].ino; i < |s.owner| && i < |s.batch| && s.owner[i] == h && s.batch[i].None?
    {
      assert OwnsWhatItDrains(s, h);
    }
  }

  lemma HookStillOwns(s: State, st: Step, h: HookId)
    requires FilesInv(s) && OwnedOnce(s) && Enabled(s, st)
    ensures OwnsWhatItDrains(Next(s, st), h)
  {
    hide Flatten;
    OwnedMeans(s, h);
    var t := Next(s, st);
    if h in t.hooks && t.hooks[h].Draining? {
      if st.ByHook? && st.hook == h {
        assert st.act.RenameSync?;
      } else {
        assert h in s.hooks && t.hooks[h] == s.hooks[h];
        if st.ByHook? && st.act.ReadFileSync? {
          OwnedMeans(s, st.hook);
        }
      }
    }
  }

  lemma {:induction false} RunCompletes(s: State, steps: seq<Step>)
    requires FilesInv(s) && OwnedOnce(s) && Runs(s, steps)
    ensures FilesInv(After(s, steps)) && OwnedOnce(After(s, steps))
    ensures Complete(After(s, steps)) <==> Complete(s) && Lossless(s, steps)
    decreases |steps|
  {
    if steps != [] {
      StepCompletes(s, steps[0]);
      StepKeepsOwnedOnce(s, steps[0]);
      RunCompletes(Next(s, steps[0]), steps[1..]);
    }
  }

  /** Beginnings of files make up all the content exactly when each is its whole file. */
  lemma {:induction false} PrefixesFlatten(parts: seq<seq<Entry>>, files: seq<seq<Entry>>)
    requires |parts| == |files| && forall i | 0 <= i < |parts| :: parts[i] <= files[i]
    ensures |Flatten(parts)| <= |Flatten(files)|
    ensures Flatten(parts) == Flatten(files) <==> parts == files
  {
    var n := |parts| - 1;
    if 0 <= n {
      PrefixesFlatten(parts[..n], files[..n]);
      var b, f := Flatten(parts[..n]), Flatten(files[..n]);
      assert Flatten(parts) == b + parts[n] && Flatten(files) == f + files[n];
      if Flatten(parts) == Flatten(files) {
        assert |b| == |f| && |parts[n]| == |files[n]|;
        assert b == Flatten(parts)[..|b|] && f == Flatten(files)[..|b|];
        assert parts == parts[..n] + [parts[n]] && files == files[..n] + [files[n]];
      }
    }
  }

  /** Beginnings of the renamed files, followed by what is pending, are all that was appended exactly when each is whole. */
  lemma PartsAndPending(s: State, parts: seq<seq<Entry>>)
    requires FilesInv(s) && |parts| == |s.batch| <= |s.inodes| && forall i | 0 <= i < |parts| :: parts[i] <= s.inodes[i]
    ensures Flatten(parts) + Pending(s) == s.appended <==> forall i | 0 <= i < |parts| :: parts[i] == s.inodes[i]
  {
    hide Flatten, Pending, FilesInv;
    AppendedSplits(s);
    var files := s.inodes[..|parts|];
    PrefixesFlatten(parts, files);
    SameEnd(Flatten(parts), Flatten(files), Pending(s));
  }

  lemma AppendedSplits(s: State)
    requires FilesInv(s)
    ensures |s.batch| <= |s.inodes| && s.appended == Flatten(s.inodes[..|s.batch|]) + Pending(s)
  {
    var n := |s.batch|;
    if s.path.Some? {
      assert s.inodes == s.inodes[..n] + [s.inodes[n]];
      FlattenGrows(s.inodes[..n], s.inodes[n]);
    } else {
      assert s.inodes == s.inodes[..n];
    }
  }

  lemma SameEnd(a: seq<Entry>, b: seq<Entry>, c: seq<Entry>)
    ensures a + c == b + c <==> a == b
  {
    if a + c == b + c {
      assert |a| == |b| && a == (a + c)[..|a|] && b == (b + c)[..|a|];
    }
  }

  /**
   In every run, the batches in rename order followed by the pending content are exactly the appended entries in
   order, if and only if no entry was written to a file after it was read, no read of a non-empty file failed, and
   no hook leaves a non-empty file behind that it renamed and did not read.
   */
  lemma DrainIsFifo(s: State, steps: seq<Step>)
    requires Initial(s) && Runs(s, steps)
    ensures var t := After(s, steps);
            FilesInv(t) && (Taken(t.batch) + Pending(t) == t.appended <==> Lossless(s, steps) && UnreadAreEmpty(t))
  {
    RunCompletes(s, steps);
    var t := After(s, steps);
    var parts := Batches(t.batch);
    PartsAndPending(t, parts);
    hide Flatten;
    if forall i | 0 <= i < |parts| :: parts[i] == t.inodes[i] {
      assert forall i | 0 <= i < |t.batch| && t.batch[i].Some? :: parts[i] == t.batch[i].value;
      assert forall i | 0 <= i < |t.batch| && t.batch[i].None? :: parts[i] == [];
    }
  }

  /** Appends are atomic when no rename falls between opening the file and writing to it. */
  ghost predicate AtomicAppends(s: State, steps: seq<Step>)
    requires Runs(s, steps)
    decreases |steps|
  {
    steps == [] ||
    ((steps[0].ByWriter? && steps[0].write.WriteEntry? ==> s.path == s.writer)
     && (steps[0].ByHook? && steps[0].act.ReadFileSync? ==> steps[0].act.ok)
     && AtomicAppends(Next(s, steps[0]), steps[1..]))
  }

  lemma {:induction false} AtomicAppendsLoseNothing(s: State, steps: seq<Step>)
    requires FilesInv(s) && OwnedOnce(s) && Runs(s, steps) && AtomicAppends(s, steps)
    ensures Lossless(s, steps)
    decreases |steps|
  {
    if steps != [] {
      StepKeepsFilesInv(s, steps[0]);
      StepKeepsOwnedOnce(s, steps[0]);
      AtomicAppendsLoseNothing(Next(s, steps[0]), steps[1..]);
    }
  }

  /** The append is not atomic: opened before a hook's rename and written after its read, an entry is lost. */
  lemma LateWriteIsLost(s: State, h: HookId, entry: Entry) returns (steps: seq<Step>)
    requires Initial(s)
    ensures Runs(s, steps)
    ensures var t := After(s, steps);
            t.appended == [entry] && t.batch == [Some([])] && Taken(t.batch) + Pending(t) == []
  {
    var acts := [ByWriter(OpenAppend), ByHook(h, Start(true)), ByHook(h, ExistsSync), ByHook(h, RenameSync(true)),
                 ByHook(h, ReadFileSync(true)), ByWriter(WriteEntry(entry))];
    var s1 := Next(s, acts[0]);
    var s2 := Next(s1, acts[1]);
    var s3 := Next(s2, acts[2]);
    var s4 := Next(s3, acts[3]);
    var s5 := Next(s4, acts[4]);
    var s6 := Next(s5, acts[5]);
    assert Runs(s6, []) && s6.batch == [Some([])];
    FlattenOne(Batches(s6.batch));
    steps := [acts[5]] + [];
    Prepend(s5, acts[5], []);
    Prepend(s4, acts[4], steps);
    steps := [acts[4]] + steps;
    Prepend(s3, acts[3], steps);
    steps := [acts[3]] + steps;
    Prepend(s2, acts[2], steps);
    steps := [acts[2]] + steps;
    Prepend(s1, acts[1], steps);
    steps := [acts[1]] + steps;
    Prepend(s, acts[0], steps);
    steps := [acts[0]] + steps;
  }

  lemma FlattenOne(parts: seq<seq<Entry>>)
    requires |parts| == 1
    ensures Flatten(parts) == parts[0]
  {
    assert Flatten(parts[..0]) == [];
  }

  lemma Prepend(s: State, st: Step, rest: seq<Step>)
    requires Enabled(s, st) && Runs(Next(s, st), rest)
    ensures Runs(s, [st] + rest) && After(s, [st] + rest) == After(Next(s, st), rest)
  {
    assert ([st] + rest)[1..] == rest;
  }

  // ---------------------------------------------------------------------------
  // Injection
  // ---------------------------------------------------------------------------

  /** What hook `h` has read, in rename order. */
  function ReadBy(owner: seq<HookId>, batch: seq<Option<seq<Entry>>>, h: HookId): seq<Entry>
    requires |owner| == |batch|
  {
    if batch == [] then []
    else
      var n := |batch| - 1;
      ReadBy(owner[..n], batch[..n], h) + if owner[n] == h && batch[n].Some? then batch[n].value else []
  }

  lemma {:induction false} ReadByFill(owner: seq<HookId>, batch: seq<Option<seq<Entry>>>, h: HookId, i: nat, b: seq<Entry>)
    requires |owner| == |batch| && i < |owner| && owner[i] == h && batch[i].None?
    requires forall j | i < j < |owner| :: owner[j] != h
    ensures ReadBy(owner, batch[i := Some(b)], h) == ReadBy(owner, batch, h) + b
  {
    var n := |batch| - 1;
    if i < n {
      ReadByFill(owner[..n], batch[..n], h, i, b);
      assert batch[i := Some(b)][..n] == batch[..n][i := Some(b)];
    } else {
      assert batch[i := Some(b)][..n] == batch[..n];
    }
  }

  lemma {:induction false} ReadByOther(owner: seq<HookId>, batch: seq<Option<seq<Entry>>>, h: HookId, i: nat, b: seq<Entry>)
    requires |owner| == |batch| && i < |owner| && owner[i] != h
    ensures ReadBy(owner, batch[i := Some(b)], h) == ReadBy(owner, batch, h)
  {
    var n := |batch| - 1;
    if i < n {
      ReadByOther(owner[..n], batch[..n], h, i, b);
      assert batch[i := Some(b)][..n] == batch[..n][i := Some(b)];
    } else {
      assert batch[i := Some(b)][..n] == batch[..n];
    }
  }

  /** A hook carries exactly what it has read, and reads its files in the order it renamed them. */
  ghost predicate InjectInv(s: State) {
    && |s.owner| == |s.batch|
    && (forall h | h in s.hooks :: s.hooks[h].found == ReadBy(s.owner, s.batch, h))
    && (forall h, j | h in s.hooks && 0 <= j < |s.owner| && s.owner[j] == h ::
          if s.hooks[h].Draining? then j <= s.hooks[h].ino else true)
  }

  lemma StepKeepsInjectInv(s: State, st: Step)
    requires FilesInv(s) && OwnedOnce(s) && InjectInv(s) && Enabled(s, st)
    ensures InjectInv(Next(s, st))
  {
    if st.ByHook? {
      HookKeepsInjectInv(s, st.hook, st.act);
    }
  }

  lemma ReadByRenamed(owner: seq<HookId>, batch: seq<Option<seq<Entry>>>, newcomer: HookId, h: HookId)
    requires |owner| == |batch|
    ensures ReadBy(owner + [newcomer], batch + [None], h) == ReadBy(owner, batch, h)
  {
    assert (owner + [newcomer])[..|owner|] == owner && (batch + [None])[..|batch|] == batch;
  }

  lemma {:induction false} ReadByNobody(owner: seq<HookId>, batch: seq<Option<seq<Entry>>>, h: HookId)
    requires |owner| == |batch| && h !in owner
    ensures ReadBy(owner, batch, h) == []
  {
    if batch != [] {
      ReadByNobody(owner[..|batch| - 1], batch[..|batch| - 1], h);
    }
  }

  lemma HookKeepsFound(s: State, h: HookId, act: HookAct, g: HookId)
    requires FilesInv(s) && OwnedOnce(s) && InjectInv(s) && Enabled(s, ByHook(h, act))
    requires g in NextHook(s, h, act).hooks
    ensures var t := NextHook(s, h, act);
            |t.owner| == |t.batch| && t.hooks[g].found == ReadBy(t.owner, t.batch, g)
  {
    hide ReadBy, Flatten;
    match act
    case Start(_) =>
      if g == h { ReadByNobody(s.owner, s.batch, h); }
    case RenameSync(ok) =>
      ReadByRenamed(s.owner, s.batch, h, g);
    case ReadFileSync(ok) =>
      var i := s.hooks[h].ino;
      var entries := if ok then s.inodes[i] else [];
      if g == h {
        ReadByFill(s.owner, s.batch, h, i, entries);
      } else {
        ReadByOther(s.owner, s.batch, g, i, entries);
      }
    case _ =>
  }

  lemma HookKeepsOrder(s: State, h: HookId, act: HookAct, g: HookId, j: nat)
    requires FilesInv(s) && InjectInv(s) && Enabled(s, ByHook(h, act))
    requires var t := NextHook(s, h, act);
             g in t.hooks && t.hooks[g].Draining? && j < |t.owner| && t.owner[j] == g
    ensures j <= NextHook(s, h, act).hooks[g].ino
  {
    hide ReadBy, Flatten;
    if g != h {
      assert NextHook(s, h, act).hooks[g] == s.hooks[g];
    }
  }

  lemma HookKeepsInjectInv(s: State, h: HookId, act: HookAct)
    requires FilesInv(s) && OwnedOnce(s) && InjectInv(s) && Enabled(s, ByHook(h, act))
    ensures InjectInv(NextHook(s, h, act))
  {
    hide ReadBy, FilesInv, OwnedOnce, NextHook;
    BatchPerOwner(s, h, act);
    var t := NextHook(s, h, act);
    forall g | g in t.hooks ensures t.hooks[g].found == ReadBy(t.owner, t.batch, g) {
      HookKeepsFound(s, h, act, g);
    }
    forall g, j | g in t.hooks && 0 <= j < |t.owner| && t.owner[j] == g
      ensures if t.hooks[g].Draining? then j <= t.hooks[g].ino else true
    {
      if t.hooks[g].Draining? {
        HookKeepsOrder(s, h, act, g, j);
      }
    }
  }

  lemma BatchPerOwner(s: State, h: HookId, act: HookAct)
    requires FilesInv(s) && Enabled(s, ByHook(h, act))
    ensures |NextHook(s, h, act).owner| == |NextHook(s, h, act).batch|
  {
  }

  lemma {:induction false} RunKeepsInjectInv(s: State, steps: seq<Step>)
    requires FilesInv(s) && OwnedOnce(s) && InjectInv(s) && Runs(s, steps)
    ensures InjectInv(After(s, steps))
    decreases |steps|
  {
    if steps != [] {
      StepKeepsFilesInv(s, steps[0]);
      StepKeepsOwnedOnce(s, steps[0]);
      StepKeepsInjectInv(s, steps[0]);
      RunKeepsInjectInv(Next(s, steps[0]), steps[1..]);
    }
  }

  /** A hook that injects, injects exactly what it read from the files it renamed, in the order it renamed them. */
  lemma InjectsWhatItTook(s: State, steps: seq<Step>, h: HookId)
    requires Initial(s) && Runs(s, steps)
    requires var t := After(s, steps); h in t.hooks && t.hooks[h].Injected?
    ensures var t := After(s, steps);
            |t.owner| == |t.batch| && t.hooks[h].found == ReadBy(t.owner, t.batch, h)
  {
    RunKeepsInjectInv(s, steps);
  }

  // ---------------------------------------------------------------------------
  // Delivery
  // ---------------------------------------------------------------------------

  /**
   What is left of file `i`, renamed by its owner: what the owner read, or the file it is about to read; nothing once
   the owner is gone.  An owner that has injected stays in `hooks`.
   */
  function Delivered(s: State, i: nat): seq<Entry> {
    if i < |s.owner| && i < |s.batch| && i < |s.inodes| && s.owner[i] in s.hooks then
      if s.batch[i].Some? then s.batch[i].value else s.inodes[i]
    else []
  }

  /** What live hooks have injected, carry or are about to read, in rename order. */
  function AllDelivered(s: State): seq<seq<Entry>> {
    seq(|s.batch|, i requires 0 <= i < |s.batch| => Delivered(s, i))
  }

  /** Every file renamed by a live hook is delivered whole, and no other holds anything. */
  ghost predicate Whole(s: State)
    requires FilesInv(s)
  {
    forall i | 0 <= i < |s.batch| :: Delivered(s, i) == s.inodes[i]
  }

  /** A live hook that has not read a file it renamed is about to. */
  ghost predicate AtWork(s: State) {
    |s.owner| == |s.batch| && forall i | 0 <= i < |s.batch| && s.batch[i].None? && s.owner[i] in s.hooks ::
      s.hooks[s.owner[i]].Draining? && s.hooks[s.owner[i]].ino == i
  }

  /**
   The steps that lose entries for good: a write to a file that was read or whose owner is gone, a failed read of a
   file that holds something, and the death of a hook that carries something or is about to read it.
   */
  ghost predicate Wastes(s: State, st: Step)
    requires Enabled(s, st)
  {
    match st
    case ByWriter(WriteEntry(_)) =>
      var w := s.writer.value;
      w < |s.batch| && w < |s.owner| && (s.batch[w].Some? || s.owner[w] !in s.hooks)
    case ByHook(h, ReadFileSync(false)) => s.inodes[s.hooks[h].ino] != []
    case ByHook(h, Kill) =>
      var hook := s.hooks[h];
      hook.found != [] || (hook.Draining? && hook.ino < |s.inodes| && s.inodes[hook.ino] != [])
    case _ => false
  }

  ghost predicate Wasteless(s: State, steps: seq<Step>)
    requires Runs(s, steps)
    decreases |steps|
  {
    steps == [] || (!Wastes(s, steps[0]) && Wasteless(Next(s, steps[0]), steps[1..]))
  }

  lemma StepKeepsAtWork(s: State, st: Step)
    requires FilesInv(s) && AtWork(s) && Enabled(s, st)
    ensures AtWork(Next(s, st))
  {
    hide Flatten;
  }

  lemma {:induction false} ReadByIsEmpty(owner: seq<HookId>, batch: seq<Option<seq<Entry>>>, h: HookId)
    requires |owner| == |batch|
    ensures ReadBy(owner, batch, h) == [] <==>
            forall i | 0 <= i < |batch| && owner[i] == h && batch[i].Some? :: batch[i].value == []
  {
    if batch != [] {
      var n := |batch| - 1;
      ReadByIsEmpty(owner[..n], batch[..n], h);
      assert forall i | 0 <= i < n :: owner[..n][i] == owner[i] && batch[..n][i] == batch[i];
    }
  }

  /** A hook that goes leaves its files behind. */
  lemma GoneHook(s: State, t: State, h: HookId)
    requires DirectoryInv(s) && AtWork(s) && FilesInv(t) && h in s.hooks && t == s.(hooks := s.hooks - {h})
    ensures var empty := s.hooks[h].found == [] && (s.hooks[h].Draining? ==> s.hooks[h].ino < |s.inodes| && s.inodes[s.hooks[h].ino] == []);
            Whole(t) <==> Whole(s) && empty
  {
    hide Flatten, ReadBy;
    ReadByIsEmpty(s.owner, s.batch, h);
    OwnedMeans(s, h);
    assert forall i | 0 <= i < |s.batch| :: Delivered(t, i) == if s.owner[i] == h then [] else Delivered(s, i);
    assert forall i | 0 <= i < |s.batch| :: Delivered(s, i) <= s.inodes[i];
  }

  lemma StepDelivers(s: State, st: Step)
    requires DirectoryInv(s) && AtWork(s) && Enabled(s, st)
    ensures FilesInv(Next(s, st)) && (Whole(Next(s, st)) <==> Whole(s) && !Wastes(s, st))
  {
    hide Flatten, ReadBy;
    StepKeepsFilesInv(s, st);
    var t := Next(s, st);
    match st
    case ByWriter(act) => WriterDelivers(s, act);
    case ByHook(h, act) =>
      if act.Kill? || (act.Decide? && h !in t.hooks) {
        GoneHook(s, t, h);
      } else {
        HookDelivers(s, h, act);
      }
  }

  lemma WriterDelivers(s: State, act: WriterAct)
    requires DirectoryInv(s) && AtWork(s) && Enabled(s, ByWriter(act))
    ensures FilesInv(NextWriter(s, act)) && (Whole(NextWriter(s, act)) <==> Whole(s) && !Wastes(s, ByWriter(act)))
  {
    hide Flatten, ReadBy;
    WriterKeepsFilesInv(s, act);
    var t := NextWriter(s, act);
    if act.WriteEntry? {
      var w := s.writer.value;
      assert forall i | 0 <= i < |s.batch| && i != w :: Delivered(t, i) == Delivered(s, i) && t.inodes[i] == s.inodes[i];
      if w < |s.batch| {
        assert Delivered(s, w) <= s.inodes[w] && t.inodes[w] == s.inodes[w] + [act.entry];
        assert Delivered(t, w) == t.inodes[w] <==> s.batch[w].None? && s.owner[w] in s.hooks;
      }
    } else {
      assert forall i | 0 <= i < |s.batch| :: Delivered(t, i) == Delivered(s, i) && t.inodes[i] == s.inodes[i];
    }
  }

  lemma HookDelivers(s: State, h: HookId, act: HookAct)
    requires DirectoryInv(s) && AtWork(s) && Enabled(s, ByHook(h, act)) && h in NextHook(s, h, act).hooks
    ensures FilesInv(NextHook(s, h, act)) && (Whole(NextHook(s, h, act)) <==> Whole(s) && !Wastes(s, ByHook(h, act)))
  {
    hide Flatten, ReadBy, AtWork, InjectInv;
    StepKeepsFilesInv(s, ByHook(h, act));
    var t := NextHook(s, h, act);
    if act.ReadFileSync? {
      ReadDelivers(s, h, act.ok);
    } else {
      forall j | 0 <= j < |s.batch| ensures Delivered(t, j) == Delivered(s, j) {
        OtherwiseDelivered(s, h, act, j);
      }
      assert |t.batch| > |s.batch| ==> Delivered(t, |s.batch|) == t.inodes[|s.batch|];
    }
  }

  lemma OtherwiseDelivered(s: State, h: HookId, act: HookAct, j: nat)
    requires FilesInv(s) && Enabled(s, ByHook(h, act)) && h in NextHook(s, h, act).hooks && !act.ReadFileSync? && j < |s.batch|
    ensures Delivered(NextHook(s, h, act), j) == Delivered(s, j)
  {
    hide Flatten, ReadBy;
  }

  lemma ReadDelivers(s: State, h: HookId, ok: bool)
    requires DirectoryInv(s) && Enabled(s, ByHook(h, ReadFileSync(ok)))
    ensures var t := NextHook(s, h, ReadFileSync(ok));
            FilesInv(t) && (Whole(t) <==> Whole(s) && !Wastes(s, ByHook(h, ReadFileSync(ok))))
  {
    hide Flatten, ReadBy, InjectInv;
    StepKeepsFilesInv(s, ByHook(h, ReadFileSync(ok)));
    var t := NextHook(s, h, ReadFileSync(ok));
    var i := s.hooks[h].ino;
    OwnedMeans(s, h);
    assert forall j | 0 <= j < |s.batch| && j != i :: Delivered(t, j) == Delivered(s, j);
    assert Delivered(s, i) == s.inodes[i] && Delivered(t, i) == if ok then s.inodes[i] else [];
  }

  lemma {:induction false} RunDelivers(s: State, steps: seq<Step>)
    requires DirectoryInv(s) && AtWork(s) && Runs(s, steps)
    ensures DirectoryInv(After(s, steps)) && AtWork(After(s, steps))
    ensures Whole(After(s, steps)) <==> Whole(s) && Wasteless(s, steps)
    decreases |steps|
  {
    if steps != [] {
      StepKeepsDirectoryInv(s, steps[0]);
      StepKeepsAtWork(s, steps[0]);
      StepDelivers(s, steps[0]);
      RunDelivers(Next(s, steps[0]), steps[1..]);
    }
  }

  /**
   In every run, what live hooks have injected, carry or are about to read, in rename order, followed by what is
   pending, is exactly what was appended in order, if and only if no step of the run was one that loses entries.
   */
  lemma DeliveryIsExact(s: State, steps: seq<Step>)
    requires Initial(s) && Runs(s, steps)
    ensures var t := After(s, steps);
            AtWork(t) && (Flatten(AllDelivered(t)) + Pending(t) == t.appended <==> Wasteless(s, steps))
  {
    RunDelivers(s, steps);
    var t := After(s, steps);
    hide Flatten, Pending, ReadBy;
    PartsAndPending(t, AllDelivered(t));
  }

  lemma {:induction false} Snoc(s: State, steps: seq<Step>, st: Step)
    requires Runs(s, steps) && Enabled(After(s, steps), st)
    ensures Runs(s, steps + [st]) && After(s, steps + [st]) == Next(After(s, steps), st)
    decreases |steps|
  {
    if steps == [] {
      assert [st][1..] == [] && steps + [st] == [st];
    } else {
      Snoc(Next(s, steps[0]), steps[1..], st);
      assert (steps + [st])[1..] == steps[1..] + [st];
    }
  }

  /** A hook has renamed a file that holds one entry. */
  lemma TakenFile(s: State, h: HookId, entry: Entry) returns (steps: seq<Step>)
    requires Initial(s)
    ensures Runs(s, steps)
    ensures After(s, steps) == State([[entry]], None, None, map[h := Draining(OneShot, [], 0)], [h], [None], [entry])
  {
    steps := [];
    Snoc(s, steps, ByWriter(OpenAppend));
    steps := steps + [ByWriter(OpenAppend)];
    Snoc(s, steps, ByWriter(WriteEntry(entry)));
    steps := steps + [ByWriter(WriteEntry(entry))];
    assert [] + [entry] == [entry];
    assert After(s, steps) == State([[entry]], Some(0), None, map[], [], [], [entry]);
    Snoc(s, steps, ByHook(h, Start(true)));
    steps := steps + [ByHook(h, Start(true))];
    Snoc(s, steps, ByHook(h, ExistsSync));
    steps := steps + [ByHook(h, ExistsSync)];
    assert After(s, steps) == State([[entry]], Some(0), None, map[h := Renaming(OneShot, [])], [], [], [entry]);
    Snoc(s, steps, ByHook(h, RenameSync(true)));
    steps := steps + [ByHook(h, RenameSync(true))];
  }

  /** Killed between rename and read, a hook takes the file with it; killed after the read, it takes what it read. */
  lemma KilledHookLosesItsFile(s: State, h: HookId, entry: Entry) returns (unread: seq<Step>, read: seq<Step>)
    requires Initial(s)
    ensures Runs(s, unread) && Runs(s, read)
    ensures var t := After(s, unread);
            t.hooks == map[] && t.appended == [entry] && Taken(t.batch) + Pending(t) == []
    ensures var t := After(s, read);
            t.hooks == map[] && t.appended == [entry] && Taken(t.batch) == [entry] && Flatten(AllDelivered(t)) + Pending(t) == []
  {
    var taken := TakenFile(s, h, entry);
    Snoc(s, taken, ByHook(h, Kill));
    unread := taken + [ByHook(h, Kill)];
    FlattenOne(Batches(After(s, unread).batch));
    Snoc(s, taken, ByHook(h, ReadFileSync(true)));
    read := taken + [ByHook(h, ReadFileSync(true))];
    Snoc(s, read, ByHook(h, Kill));
    read := read + [ByHook(h, Kill)];
    FlattenOne(Batches(After(s, read).batch));
    FlattenOne(AllDelivered(After(s, read)));
  }

  // ---------------------------------------------------------------------------
  // What is found is injected
  // ---------------------------------------------------------------------------

  predicate MidScan(hook: Hook) {
    hook.Scanning? || hook.Renaming? || hook.Draining?
  }

  /** A first scan starts with nothing, a grace rescan and an injection with something. */
  predicate FitsItsMode(hook: Hook) {
    && (MidScan(hook) && hook.mode != Grace ==> hook.found == [])
    && (!hook.Injected? && hook.mode == Grace ==> hook.found != [])
    && (hook.Injected? ==> hook.found != [])
  }

  ghost predicate ModeInv(s: State) {
    forall h | h in s.hooks :: FitsItsMode(s.hooks[h])
  }

  lemma StepKeepsModeInv(s: State, st: Step)
    requires ModeInv(s) && Enabled(s, st)
    ensures ModeInv(Next(s, st))
  {
    var t := Next(s, st);
    forall h | h in t.hooks ensures FitsItsMode(t.hooks[h]) {
      assert h in s.hooks ==> FitsItsMode(s.hooks[h]);
    }
  }

  /** Its own steps that a hook carrying something is away from injecting. */
  function StepsLeft(hook: Hook): nat {
    match hook
    case Unlinking(mode, _) => if mode == Polling then 7 else 2
    case Scanned(mode, _) => if mode == Polling then 6 else 1
    case Scanning(_, _) => 5
    case Renaming(_, _) => 4
    case Draining(_, _, _) => 3
    case Injected(_) => 0
  }

  /** The scans it still starts before that. */
  function ScansLeft(hook: Hook): nat {
    match hook
    case Unlinking(mode, _) => if mode == Polling then 1 else 0
    case Scanned(mode, _) => if mode == Polling then 1 else 0
    case Scanning(_, _) => 1
    case _ => 0
  }

  function OwnSteps(steps: seq<Step>, h: HookId): nat {
    if steps == [] then 0 else (if steps[0].ByHook? && steps[0].hook == h then 1 else 0) + OwnSteps(steps[1..], h)
  }

  function OwnScans(steps: seq<Step>, h: HookId): nat {
    if steps == [] then 0 else (if steps[0] == ByHook(h, ExistsSync) then 1 else 0) + OwnScans(steps[1..], h)
  }

  /** The call a hook makes next, when the file system lets it. */
  function OwnAct(hook: Hook): HookAct {
    match hook
    case Scanning(_, _) => ExistsSync
    case Renaming(_, _) => RenameSync(true)
    case Draining(_, _, _) => ReadFileSync(true)
    case Unlinking(_, _) => UnlinkSync
    case _ => Decide
  }

  lemma HookIsNeverStuck(s: State, h: HookId)
    requires DirectoryInv(s) && h in s.hooks && !s.hooks[h].Injected?
    ensures Enabled(s, ByHook(h, OwnAct(s.hooks[h])))
  {
    if s.hooks[h].Draining? {
      DrainingIsOpen(s, h);
    }
  }

  lemma StepGetsCloser(s: State, st: Step, h: HookId)
    requires ModeInv(s) && Enabled(s, st) && h in s.hooks && s.hooks[h].found != [] && st != ByHook(h, Kill)
    ensures var t := Next(s, st);
            && h in t.hooks && s.hooks[h].found <= t.hooks[h].found
            && StepsLeft(t.hooks[h]) + OwnSteps([st], h) <= StepsLeft(s.hooks[h])
            && ScansLeft(t.hooks[h]) + OwnScans([st], h) == ScansLeft(s.hooks[h])
  {
    assert [st][1..] == [];
    assert FitsItsMode(s.hooks[h]);
    if st.ByHook? && st.hook == h {
      CarrierGetsCloser(s, h, st.act);
    } else {
      assert h in Next(s, st).hooks && Next(s, st).hooks[h] == s.hooks[h];
    }
  }

  lemma CarrierGetsCloser(s: State, h: HookId, act: HookAct)
    requires Enabled(s, ByHook(h, act)) && h in s.hooks && FitsItsMode(s.hooks[h]) && s.hooks[h].found != [] && act != Kill
    ensures var t := NextHook(s, h, act);
            && h in t.hooks && s.hooks[h].found <= t.hooks[h].found
            && StepsLeft(t.hooks[h]) < StepsLeft(s.hooks[h])
            && ScansLeft(t.hooks[h]) + (if act == ExistsSync then 1 else 0) == ScansLeft(s.hooks[h])
  {
  }

  /**
   From any reachable state and among any other steps, a hook that carries something and is not killed keeps it, takes
   at most seven more steps of its own, can always take the next, and ends by injecting all it found; a polling hook
   starts exactly one more scan on the way, a one-shot hook none.
   */
  lemma {:induction false} CarriedIsInjected(s: State, steps: seq<Step>, h: HookId)
    requires DirectoryInv(s) && ModeInv(s) && Runs(s, steps) && ByHook(h, Kill) !in steps
    requires h in s.hooks && s.hooks[h].found != []
    ensures var t := After(s, steps);
            && h in t.hooks && s.hooks[h].found <= t.hooks[h].found
            && StepsLeft(t.hooks[h]) + OwnSteps(steps, h) <= StepsLeft(s.hooks[h]) <= 7
            && ScansLeft(t.hooks[h]) + OwnScans(steps, h) == ScansLeft(s.hooks[h])
            && (t.hooks[h].Injected? || Enabled(t, ByHook(h, OwnAct(t.hooks[h]))))
    decreases |steps|
  {
    if steps == [] {
      if !s.hooks[h].Injected? {
        HookIsNeverStuck(s, h);
      }
    } else {
      var t := Next(s, steps[0]);
      StepKeepsDirectoryInv(s, steps[0]);
      StepKeepsModeInv(s, steps[0]);
      StepGetsCloser(s, steps[0], h);
      OwnUnfolds(steps, h);
      hide Next, Enabled, DirectoryInv, ModeInv, StepsLeft, ScansLeft, OwnSteps, OwnScans, OwnAct;
      CarriedIsInjected(t, steps[1..], h);
      StepsLeftAreFew(s.hooks[h]);
    }
  }

  lemma StepsLeftAreFew(hook: Hook)
    ensures StepsLeft(hook) <= 7
  {
  }

  lemma OwnUnfolds(steps: seq<Step>, h: HookId)
    requires steps != []
    ensures OwnSteps(steps, h) == OwnSteps([steps[0]], h) + OwnSteps(steps[1..], h)
    ensures OwnScans(steps, h) == OwnScans([steps[0]], h) + OwnScans(steps[1..], h)
  {
    assert [steps[0]][1..] == [];
  }

  lemma {:induction false} ReachableIsSound(s: State, steps: seq<Step>)
    requires DirectoryInv(s) && ModeInv(s) && Runs(s, steps)
    ensures DirectoryInv(After(s, steps)) && ModeInv(After(s, steps))
    decreases |steps|
  {
    if steps != [] {
      StepKeepsDirectoryInv(s, steps[0]);
      StepKeepsModeInv(s, steps[0]);
      hide Next, Enabled, DirectoryInv, ModeInv;
      ReachableIsSound(Next(s, steps[0]), steps[1..]);
    }
  }

  /** A polling hook that has scanned and found something scans once more, by its own steps, and injects. */
  lemma PollingHookInjects(s0: State, before: seq<Step>, h: HookId) returns (steps: seq<Step>)
    requires Initial(s0) && Runs(s0, before)
    requires h in After(s0, before).hooks && After(s0, before).hooks[h].Scanned? && After(s0, before).hooks[h].found != []
    ensures var s := After(s0, before);
            && Runs(s, steps) && OwnSteps(steps, h) == |steps|
            && OwnScans(steps, h) == (if s.hooks[h].mode == Polling then 1 else 0)
            && var t := After(s, steps);
               h in t.hooks && t.hooks[h].Injected? && s.hooks[h].found <= t.hooks[h].found
  {
    ReachableIsSound(s0, before);
    var s := After(s0, before);
    hide DirectoryInv, ModeInv;
    ModeOf(s, h);
    steps := OwnWayOut(s, h);
  }

  lemma ModeOf(s: State, h: HookId)
    requires ModeInv(s) && h in s.hooks
    ensures FitsItsMode(s.hooks[h])
  {
  }

  lemma {:induction false} OwnWayOut(s: State, h: HookId) returns (steps: seq<Step>)
    requires DirectoryInv(s) && ModeInv(s) && h in s.hooks && s.hooks[h].found != []
    ensures Runs(s, steps) && OwnSteps(steps, h) == |steps| && OwnScans(steps, h) == ScansLeft(s.hooks[h])
    ensures var t := After(s, steps); h in t.hooks && t.hooks[h].Injected? && s.hooks[h].found <= t.hooks[h].found
    decreases StepsLeft(s.hooks[h])
  {
    if s.hooks[h].Injected? {
      steps := [];
    } else {
      var st := ByHook(h, OwnAct(s.hooks[h]));
      HookIsNeverStuck(s, h);
      StepKeepsDirectoryInv(s, st);
      StepKeepsModeInv(s, st);
      StepGetsCloser(s, st, h);
      OneOwnStep(st, h);
      hide Next, Enabled, DirectoryInv, ModeInv, StepsLeft, ScansLeft, OwnAct;
      var rest := OwnWayOut(Next(s, st), h);
      steps := [st] + rest;
      Prepend(s, st, rest);
      OwnUnfolds(steps, h);
      assert steps[1..] == rest;
    }
  }

  lemma OneOwnStep(st: Step, h: HookId)
    requires st.ByHook? && st.hook == h
    ensures OwnSteps([st], h) == 1
  {
    assert [st][1..] == [];
  }

  /** A hook that has found nothing goes on polling, or gives up if it was to scan only once. */
  lemma EmptyHandedDecision(s: State, h: HookId)
    requires ModeInv(s) && h in s.hooks && s.hooks[h].Scanned? && s.hooks[h].found == []
    ensures Enabled(s, ByHook(h, Decide))
    ensures var t := Next(s, ByHook(h, Decide));
            if s.hooks[h].mode == OneShot then t.hooks == s.hooks - {h}
            else t.hooks == s.hooks[h := Scanning(Polling, [])]
  {
    ModeOf(s, h);
  }

  predicate Persistent(hook: Hook) {
    hook.Injected? || hook.mode != OneShot
  }

  /** A polling hook that is not killed is there until it has injected, and never injects nothing. */
  lemma {:induction false} PollingHookStays(s: State, steps: seq<Step>, h: HookId)
    requires ModeInv(s) && Runs(s, steps) && ByHook(h, Kill) !in steps && h in s.hooks && Persistent(s.hooks[h])
    ensures var t := After(s, steps);
            h in t.hooks && Persistent(t.hooks[h]) && (t.hooks[h].Injected? ==> t.hooks[h].found != [])
    decreases |steps|
  {
    if steps == [] {
      ModeOf(s, h);
    } else {
      StepKeepsModeInv(s, steps[0]);
      PollingHookStaysOne(s, steps[0], h);
      hide Next, Enabled, ModeInv;
      PollingHookStays(Next(s, steps[0]), steps[1..], h);
    }
  }

  lemma PollingHookStaysOne(s: State, st: Step, h: HookId)
    requires Enabled(s, st) && st != ByHook(h, Kill) && h in s.hooks && Persistent(s.hooks[h])
    ensures h in Next(s, st).hooks && Persistent(Next(s, st).hooks[h])
  {
  }

  // ---------------------------------------------------------------------------
  // One hook among the others
  // ---------------------------------------------------------------------------

  /** From `s` to `t` only others have acted: what `h` holds and what it took is as it was. */
  ghost predicate Elsewhere(s: State, t: State, h: HookId) {
    && h in s.hooks && h in t.hooks && t.hooks[h] == s.hooks[h]
    && |s.owner| == |s.batch| && |t.owner| == |t.batch| && s.owner <= t.owner
    && TookNone(s.owner, t.owner, h)
    && (forall j | 0 <= j < |s.owner| && s.owner[j] == h :: t.batch[j] == s.batch[j])
    && Grew(s.inodes, t.inodes)
  }

  /** Files only grow, and new ones come last. */
  predicate Grew(a: seq<seq<Entry>>, b: seq<seq<Entry>>) {
    |a| <= |b| && forall k | 0 <= k < |a| :: a[k] <= b[k]
  }

  lemma GrewTwice(a: seq<seq<Entry>>, b: seq<seq<Entry>>, c: seq<seq<Entry>>)
    requires Grew(a, b) && Grew(b, c)
    ensures Grew(a, c)
  {
  }

  predicate TookNone(before: seq<HookId>, after: seq<HookId>, h: HookId) {
    forall j | |before| <= j < |after| :: after[j] != h
  }

  /** Of the files renamed since, `h` took the one at `i` and no other, and read `entries` from it. */
  predicate TookOnly(
      before: seq<HookId>, after: seq<HookId>, batch: seq<Option<seq<Entry>>>, h: HookId, i: nat, entries: seq<Entry>)
  {
    && |before| <= i < |after| && i < |batch| && batch[i] == Some(entries)
    && forall j | |before| <= j < |after| :: after[j] == h <==> j == i
  }

  lemma NothingElsewhere(s: State, h: HookId)
    requires DirectoryInv(s) && h in s.hooks
    ensures Elsewhere(s, s, h)
  {
  }

  lemma OthersStep(s0: State, s: State, st: Step, h: HookId)
    requires DirectoryInv(s) && Elsewhere(s0, s, h) && Enabled(s, st) && !(st.ByHook? && st.hook == h)
    ensures Elsewhere(s0, Next(s, st), h)
  {
    hide Flatten, ReadBy, FilesInv, OwnedOnce, InjectInv, Next, Grew;
    OtherStep(s, st, h);
    GrewTwice(s0.inodes, s.inodes, Next(s, st).inodes);
  }

  lemma OtherStep(s: State, st: Step, h: HookId)
    requires DirectoryInv(s) && h in s.hooks && Enabled(s, st) && !(st.ByHook? && st.hook == h)
    ensures Elsewhere(s, Next(s, st), h)
  {
    hide Flatten, ReadBy;
    var t := Next(s, st);
    if st.ByHook? && st.act.ReadFileSync? {
      OwnedMeans(s, st.hook);
      assert t.owner == s.owner && forall j | 0 <= j < |s.owner| && s.owner[j] == h :: t.batch[j] == s.batch[j];
    }
  }

  lemma TookNoneTwice(a: seq<HookId>, b: seq<HookId>, c: seq<HookId>, h: HookId)
    requires a <= b <= c && TookNone(a, b, h) && TookNone(b, c, h)
    ensures a <= c && TookNone(a, c, h)
  {
  }

  lemma DrainingIsOpen(s: State, h: HookId)
    requires DirectoryInv(s) && h in s.hooks && s.hooks[h].Draining?
    ensures s.hooks[h].ino < |s.inodes| && s.hooks[h].ino < |s.batch|
  {
    OwnedMeans(s, h);
    hide Flatten, ReadBy;
  }

  lemma RenameTakesTheNext(s: State)
    requires DirectoryInv(s)
    ensures |s.owner| == |s.batch| && (s.path.Some? ==> s.path.value == |s.owner|)
  {
    hide Flatten, ReadBy;
  }

  ghost predicate DirectoryInv(s: State) {
    FilesInv(s) && OwnedOnce(s) && InjectInv(s)
  }

  lemma StepKeepsDirectoryInv(s: State, st: Step)
    requires DirectoryInv(s) && Enabled(s, st)
    ensures DirectoryInv(Next(s, st))
  {
    hide FilesInv, OwnedOnce, InjectInv, Next;
    StepKeepsFilesInv(s, st);
    StepKeepsOwnedOnce(s, st);
    StepKeepsInjectInv(s, st);
  }

  // ---------------------------------------------------------------------------
  // The directory as the processes see it
  // ---------------------------------------------------------------------------

  class PendingDirectory {
    var inodes: seq<seq<Entry>>
    var path: Option<Ino>
    var writer: Option<Ino>
    var hooks: map<HookId, Hook>
    // history, read only by the specification
    var owner: seq<HookId>
    var batch: seq<Option<seq<Entry>>>
    var appended: seq<Entry>

    function Snapshot(): State
      reads this
    {
      State(inodes, path, writer, hooks, owner, batch, appended)
    }

    /** Batches are beginnings of their files, each drained by the hook that renamed it, and hooks carry what they read. */
    ghost predicate Valid()
      reads this
    {
      DirectoryInv(Snapshot())
    }

    constructor ()
      ensures Initial(Snapshot()) && Valid()
    {
      inodes, path, writer, hooks := [], None, None, map[];
      owner, batch, appended := [], [], [];
    }

    /** `maybe_write`, holding the append lock. */
    method Append(act: WriterAct)
      requires Valid() && Enabled(Snapshot(), ByWriter(act))
      modifies this
      ensures Valid() && Snapshot() == NextWriter(old(Snapshot()), act)
    {
      hide DirectoryInv;
      StepKeepsDirectoryInv(Snapshot(), ByWriter(act));
      match act
      case OpenAppend =>
        if path.None? {
          path := Some(|inodes|);
          inodes := inodes + [[]];
        }
        writer := path;
      case WriteEntry(entry) =>
        var w := writer.value;
        inodes := inodes[w := inodes[w] + [entry]];
        appended := appended + [entry];
        writer := None;
      case CloseUnwritten =>
        writer := None;
    }

    /** `drainPendingFile` and the scan loop around it, one call at a time. */
    method Drain(h: HookId, act: HookAct)
      requires Valid() && Enabled(Snapshot(), ByHook(h, act))
      modifies this
      ensures Valid() && Snapshot() == NextHook(old(Snapshot()), h, act)
    {
      hide DirectoryInv;
      StepKeepsDirectoryInv(Snapshot(), ByHook(h, act));
      if act.Start? {
        hooks := hooks[h := Scanning(if act.oneShot then OneShot else Polling, [])];
        return;
      }
      var mode, found := hooks[h].mode, hooks[h].found;
      match act
      case Kill =>
        hooks := hooks - {h};
      case ExistsSync =>
        if path.None? { hooks := hooks[h := Scanned(mode, found)]; }
        else { hooks := hooks[h := Renaming(mode, found)]; }
      case RenameSync(ok) =>
        if !ok || path.None? {
          hooks := hooks[h := Scanned(mode, found)];
        } else {
          hooks := hooks[h := Draining(mode, found, path.value)];
          path := None;
          owner, batch := owner + [h], batch + [None];
        }
      case ReadFileSync(ok) =>
        var raw: seq<Entry> := [];
        if ok { raw := inodes[hooks[h].ino]; }
        batch := batch[hooks[h].ino := Some(raw)];
        hooks := hooks[h := Unlinking(mode, found + raw)];
      case UnlinkSync =>
        hooks := hooks[h := Scanned(mode, found)];
      case Decide =>
        if found != [] && mode.Polling? {
          hooks := hooks[h := Scanning(Grace, found)];
        } else if found != [] || mode.Grace? {
          hooks := hooks[h := Injected(found)];
        } else if mode.OneShot? {
          hooks := hooks - {h};
        } else {
          hooks := hooks[h := Scanning(Polling, found)];
        }
    }

    /** What the writer and the other hooks do between two calls of hook `h`: those of `steps` that can be taken. */
    method Meanwhile(h: HookId, steps: seq<Step>)
      requires Valid() && h in hooks
      modifies this
      ensures Valid() && Elsewhere(old(Snapshot()), Snapshot(), h) && (steps == [] ==> Snapshot() == old(Snapshot()))
    {
      hide DirectoryInv, NextWriter, NextHook, Elsewhere;
      NothingElsewhere(Snapshot(), h);
      for i := 0 to |steps|
        invariant Valid() && Elsewhere(old(Snapshot()), Snapshot(), h) && (i == 0 ==> Snapshot() == old(Snapshot()))
      {
        if Enabled(Snapshot(), steps[i]) && !(steps[i].ByHook? && steps[i].hook == h) {
          OthersStep(old(Snapshot()), Snapshot(), steps[i], h);
          match steps[i]
          case ByWriter(act) => Append(act);
          case ByHook(g, act) => Drain(g, act);
        }
      }
    }

    /** The first half of `drainPendingFile`: the file now belongs to `h`, or `h` has lost. */
    method TakeFile(h: HookId, beforeCheck: seq<Step>, beforeRename: seq<Step>, renameOk: bool) returns (taken: bool)
      requires Valid() && h in hooks && hooks[h].Scanning?
      modifies this
      ensures Valid() && h in hooks && |batch| == |owner| && old(owner) <= owner
      ensures !taken ==> hooks[h] == Scanned(old(hooks[h]).mode, old(hooks[h]).found) && TookNone(old(owner), owner, h)
      ensures taken ==> |old(owner)| < |owner| && TookNone(old(owner), owner[..|owner| - 1], h) && owner[|owner| - 1] == h
      ensures taken ==> hooks[h] == Draining(old(hooks[h]).mode, old(hooks[h]).found, |owner| - 1)
      ensures Grew(old(inodes), inodes)
      ensures renameOk && beforeCheck + beforeRename == [] ==> (taken <==> old(path).Some?)
    {
      hide DirectoryInv, Grew;
      Meanwhile(h, beforeCheck);
      if path.None? {
        Drain(h, ExistsSync);
        return false;
      }
      Drain(h, ExistsSync);
      ghost var checked := inodes;
      Meanwhile(h, beforeRename);
      GrewTwice(old(inodes), checked, inodes);
      RenameTakesTheNext(Snapshot());
      taken := renameOk && path.Some?;
      Drain(h, RenameSync(renameOk));
    }

    /** The second half: read the renamed file, and unlink it. */
    method ReadFile(h: HookId, beforeRead: seq<Step>, beforeUnlink: seq<Step>, readOk: bool) returns (entries: seq<Entry>)
      requires Valid() && h in hooks && hooks[h].Draining? && |owner| == |batch|
      requires hooks[h].ino < |owner| && owner[hooks[h].ino] == h
      modifies this
      ensures Valid() && h in hooks && hooks[h] == Scanned(old(hooks[h]).mode, old(hooks[h]).found + entries)
      ensures |batch| == |owner| && old(owner) <= owner && TookNone(old(owner), owner, h)
      ensures batch[old(hooks[h]).ino] == Some(entries)
      ensures old(hooks[h]).ino < |old(inodes)| && if readOk then old(inodes)[old(hooks[h]).ino] <= entries else entries == []
    {
      hide DirectoryInv, TookNone;
      DrainingIsOpen(Snapshot(), h);
      Meanwhile(h, beforeRead);
      DrainingIsOpen(Snapshot(), h);
      entries := [];
      if readOk {
        entries := inodes[hooks[h].ino];
      }
      Drain(h, ReadFileSync(readOk));
      ghost var read := Snapshot();
      Meanwhile(h, beforeUnlink);
      TookNoneTwice(old(owner), read.owner, owner, h);
      Drain(h, UnlinkSync);
    }

    /**
     `drainPendingFile`, with others at work before each of its calls: it returns the batch of the one file it took
     for itself, with all that was in it before the call, or nothing when it took none or could not read it.  Left
     alone, it takes the file if there is one.
     */
    method DrainPendingFile(h: HookId, others: seq<seq<Step>>, renameOk: bool, readOk: bool) returns (entries: seq<Entry>)
      requires Valid() && h in hooks && hooks[h].Scanning? && |others| == 4
      modifies this
      ensures Valid() && h in hooks && hooks[h] == Scanned(old(hooks[h]).mode, old(hooks[h]).found + entries)
      ensures old(owner) <= owner && |batch| == |owner|
      ensures (entries == [] && TookNone(old(owner), owner, h))
              || exists i: nat :: TookOnly(old(owner), owner, batch, h, i, entries)
                             && (readOk && i < |old(inodes)| ==> old(inodes)[i] <= entries)
      ensures !readOk ==> entries == []
      ensures renameOk && others[0] + others[1] == [] ==> (TookNone(old(owner), owner, h) <==> old(path).None?)
    {
      hide DirectoryInv;
      var taken := TakeFile(h, others[0], others[1], renameOk);
      if !taken {
        return [];
      }
      ghost var i := |owner| - 1;
      entries := ReadFile(h, others[2], others[3], readOk);
      assert TookOnly(old(owner), owner, batch, h, i, entries);
    }

    /** Any interleaving of appends and hooks. */
    method Interleave(steps: seq<Step>)
      requires Valid() && Runs(Snapshot(), steps)
      modifies this
      ensures Valid() && Snapshot() == After(old(Snapshot()), steps)
    {
      hide DirectoryInv, Enabled, NextHook, NextWriter;
      for i := 0 to |steps|
        invariant Valid() && Runs(Snapshot(), steps[i..])
        invariant After(Snapshot(), steps[i..]) == After(old(Snapshot()), steps)
      {
        assert steps[i..][1..] == steps[i + 1..];
        match steps[i]
        case ByWriter(act) => Append(act);
        case ByHook(h, act) => Drain(h, act);
      }
    }
  }
}
