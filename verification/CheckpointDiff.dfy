/**
 The diff between two checkpoints as an edit script (src/checkpoint/query.rs).
 */
module CheckpointDiff {
  import opened Wrappers

  datatype File = File(path: string, contentHash: Option<string>)

  datatype Task = Task(id: string, subject: string, status: string)

  /** `members` is None for a checkpoint without team state. */
  datatype Checkpoint = Checkpoint(commitSha: string, files: seq<File>, tasks: seq<Task>, members: Option<seq<string>>)

  datatype DeltaKind = Added | Removed | Changed

  datatype TaskDelta = TaskDelta(
    taskId: string, subject: string, change: DeltaKind, oldStatus: Option<string>, newStatus: Option<string>)

  datatype MemberDelta = MemberDelta(name: string, change: DeltaKind)

  datatype Diff = Diff(
    fromSha: string, toSha: string, filesAdded: seq<string>, filesRemoved: seq<string>, filesModified: seq<string>,
    tasksChanged: seq<TaskDelta>, membersChanged: seq<MemberDelta>)

  // ---------------------------------------------------------------------------
  // What a checkpoint records
  // ---------------------------------------------------------------------------

  /** Collecting into a hash map: of several entries for a path the last one stays. */
  function Hashes(files: seq<File>): map<string, Option<string>> {
    if files == [] then map[]
    else var last := files[|files| - 1]; Hashes(files[..|files| - 1])[last.path := last.contentHash]
  }

  function Tasks(tasks: seq<Task>): (m: map<string, Task>)
    ensures forall id | id in m :: m[id].id == id
  {
    if tasks == [] then map[]
    else var last := tasks[|tasks| - 1]; Tasks(tasks[..|tasks| - 1])[last.id := last]
  }

  function Paths(c: Checkpoint): set<string> {
    set f | f in c.files :: f.path
  }

  function Members(c: Checkpoint): set<string> {
    if c.members.None? then {} else set name | name in c.members.value
  }

  function Statuses(tasks: map<string, Task>): map<string, string> {
    map id | id in tasks :: tasks[id].status
  }

  /** The entry that counts for a path is the last one that names it. */
  lemma {:induction false} LastHashWins(files: seq<File>, i: nat)
    requires i < |files| && forall j | i < j < |files| :: files[j].path != files[i].path
    ensures files[i].path in Hashes(files) && Hashes(files)[files[i].path] == files[i].contentHash
  {
    if i < |files| - 1 {
      LastHashWins(files[..|files| - 1], i);
    }
  }

  lemma {:induction false} LastTaskWins(tasks: seq<Task>, i: nat)
    requires i < |tasks| && forall j | i < j < |tasks| :: tasks[j].id != tasks[i].id
    ensures tasks[i].id in Tasks(tasks) && Tasks(tasks)[tasks[i].id] == tasks[i]
  {
    if i < |tasks| - 1 {
      LastTaskWins(tasks[..|tasks| - 1], i);
    }
  }

  lemma {:induction false} HashedPaths(files: seq<File>)
    ensures Hashes(files).Keys == set f | f in files :: f.path
  {
    if files != [] {
      var n := |files| - 1;
      HashedPaths(files[..n]);
      assert files == files[..n] + [files[n]];
    }
  }

  // ---------------------------------------------------------------------------
  // The diff
  // ---------------------------------------------------------------------------

  function StatusOf(tasks: map<string, Task>, id: string): Option<string> {
    if id in tasks then Some(tasks[id].status) else None
  }

  function KindOf(before: Option<string>, after: Option<string>): DeltaKind {
    if before.None? then Added else if after.None? then Removed else Changed
  }

  /** What a delta may say: the two statuses, the kind that fits them, and the newest subject. */
  ghost predicate Describes(from: map<string, Task>, to: map<string, Task>, d: TaskDelta) {
    && d.oldStatus == StatusOf(from, d.taskId) && d.newStatus == StatusOf(to, d.taskId)
    && d.oldStatus != d.newStatus && d.change == KindOf(d.oldStatus, d.newStatus)
    && d.subject == (if d.taskId in to then to[d.taskId].subject else from[d.taskId].subject)
  }

  ghost predicate NoDup<T>(s: seq<T>) {
    forall i, j | 0 <= i < j < |s| :: s[i] != s[j]
  }

  ghost function Elements<T>(s: seq<T>): set<T> {
    set x | x in s
  }

  ghost predicate Lists<T>(s: seq<T>, elements: set<T>) {
    NoDup(s) && Elements(s) == elements
  }

  ghost predicate OncePerTask(ds: seq<TaskDelta>) {
    forall i, j | 0 <= i < j < |ds| :: ds[i].taskId != ds[j].taskId
  }

  ghost predicate Mentions(ds: seq<TaskDelta>, id: string) {
    exists d :: d in ds && d.taskId == id
  }

  /** One delta for every task whose status differs, and none for any other. */
  ghost predicate IsTaskDiff(from: map<string, Task>, to: map<string, Task>, ds: seq<TaskDelta>) {
    && OncePerTask(ds)
    && (forall d | d in ds :: Describes(from, to, d))
    && (forall id :: Mentions(ds, id) <==> StatusOf(from, id) != StatusOf(to, id))
  }

  ghost predicate OncePerMember(ds: seq<MemberDelta>) {
    forall i, j | 0 <= i < j < |ds| :: ds[i].name != ds[j].name
  }

  ghost predicate IsMemberDiff(from: set<string>, to: set<string>, ds: seq<MemberDelta>) {
    && OncePerMember(ds)
    && forall d :: d in ds <==> d.change == (if d.name in to then Added else Removed) && (d.name in from) != (d.name in to)
  }

  ghost predicate IsDiff(a: Checkpoint, b: Checkpoint, d: Diff) {
    var x, y := Hashes(a.files), Hashes(b.files);
    && d.fromSha == a.commitSha && d.toSha == b.commitSha
    && Lists(d.filesAdded, Paths(b) - Paths(a))
    && Lists(d.filesRemoved, Paths(a) - Paths(b))
    && Lists(d.filesModified, set p | p in x && p in y && x[p] != y[p])
    && IsTaskDiff(Tasks(a.tasks), Tasks(b.tasks), d.tasksChanged)
    && IsMemberDiff(Members(a), Members(b), d.membersChanged)
  }

  /** The elements of a hash set, in whatever order it iterates. */
  method ListOf<T>(elements: set<T>) returns (s: seq<T>)
    ensures Lists(s, elements)
  {
    s := [];
    var left := elements;
    while left != {}
      invariant left <= elements && Lists(s, elements - left)
      decreases left
    {
      var x :| x in left;
      ListOne(s, elements, left, x);
      s := s + [x];
      left := left - {x};
    }
  }

  lemma ListOne<T>(s: seq<T>, elements: set<T>, left: set<T>, x: T)
    requires left <= elements && x in left && Lists(s, elements - left)
    ensures Lists(s + [x], elements - (left - {x}))
  {
    assert x !in Elements(s);
    assert Elements(s + [x]) == Elements(s) + {x};
    assert elements - (left - {x}) == (elements - left) + {x};
  }

  /** The deltas listed so far are right, and cover exactly the tasks in `done`. */
  ghost predicate Covers(from: map<string, Task>, to: map<string, Task>, ds: seq<TaskDelta>, done: set<string>) {
    && OncePerTask(ds)
    && (forall d | d in ds :: Describes(from, to, d))
    && (forall id :: Mentions(ds, id) <==> id in done && StatusOf(from, id) != StatusOf(to, id))
  }

  lemma CoverOne(
    from: map<string, Task>, to: map<string, Task>, ds: seq<TaskDelta>, done: set<string>, d: TaskDelta)
    requires Covers(from, to, ds, done) && d.taskId !in done && Describes(from, to, d)
    ensures Covers(from, to, ds + [d], done + {d.taskId})
  {
    hide Describes, StatusOf;
    assert !Mentions(ds, d.taskId);
    MentionsOneMore(ds, d);
    hide Mentions;
    assert StatusOf(from, d.taskId) != StatusOf(to, d.taskId) by {
      DescribesChange(from, to, d);
    }
  }

  lemma DescribesChange(from: map<string, Task>, to: map<string, Task>, d: TaskDelta)
    requires Describes(from, to, d)
    ensures StatusOf(from, d.taskId) != StatusOf(to, d.taskId)
  {
  }

  lemma MentionsOneMore(ds: seq<TaskDelta>, d: TaskDelta)
    ensures forall id :: Mentions(ds + [d], id) <==> Mentions(ds, id) || id == d.taskId
    ensures !Mentions(ds, d.taskId) && OncePerTask(ds) ==> OncePerTask(ds + [d])
  {
    forall id ensures Mentions(ds + [d], id) <==> Mentions(ds, id) || id == d.taskId {
      if Mentions(ds, id) {
        var e :| e in ds && e.taskId == id;
        assert e in ds + [d];
      }
      assert d in ds + [d];
    }
    if !Mentions(ds, d.taskId) && OncePerTask(ds) {
      forall i, j | 0 <= i < j < |ds + [d]| ensures (ds + [d])[i].taskId != (ds + [d])[j].taskId {
        assert ds == (ds + [d])[..|ds|];
      }
    }
  }

  /** A task without a change of status gets no delta. */
  lemma CoverNone(from: map<string, Task>, to: map<string, Task>, ds: seq<TaskDelta>, done: set<string>, id: string)
    requires Covers(from, to, ds, done) && StatusOf(from, id) == StatusOf(to, id)
    ensures Covers(from, to, ds, done + {id})
  {
    hide Describes, StatusOf, OncePerTask, Mentions;
  }

  lemma CoverAll(from: map<string, Task>, to: map<string, Task>, ds: seq<TaskDelta>, done: set<string>)
    requires Covers(from, to, ds, done) && from.Keys + to.Keys <= done
    ensures IsTaskDiff(from, to, ds)
  {
    hide Describes, OncePerTask, Mentions;
  }

  method DiffTasks(from: map<string, Task>, to: map<string, Task>) returns (ds: seq<TaskDelta>)
    ensures IsTaskDiff(from, to, ds)
  {
    hide Covers, IsTaskDiff, Mentions, OncePerTask, Describes, StatusOf, KindOf;
    ds := [];
    CoverStarts(from, to);
    ghost var done: set<string> := {};
    var left := to.Keys;
    while left != {}
      invariant left <= to.Keys
      invariant done == (to.Keys - left) - from.Keys
      invariant Covers(from, to, ds, done)
      decreases left
    {
      var id :| id in left;
      left := left - {id};
      if id !in from {
        var d := TaskDelta(id, to[id].subject, Added, None, Some(to[id].status));
        AddedDescribes(from, to, id);
        CoverOne(from, to, ds, done, d);
        ds := ds + [d];
        done := done + {id};
      }
    }
    left := from.Keys;
    while left != {}
      invariant left <= from.Keys
      invariant done == (to.Keys - from.Keys) + (from.Keys - left - to.Keys)
      invariant Covers(from, to, ds, done)
      decreases left
    {
      var id :| id in left;
      left := left - {id};
      if id !in to {
        var d := TaskDelta(id, from[id].subject, Removed, Some(from[id].status), None);
        RemovedDescribes(from, to, id);
        CoverOne(from, to, ds, done, d);
        ds := ds + [d];
        done := done + {id};
      }
    }
    left := from.Keys;
    while left != {}
      invariant left <= from.Keys
      invariant done == (to.Keys - from.Keys) + (from.Keys - to.Keys) + (to.Keys * (from.Keys - left))
      invariant Covers(from, to, ds, done)
      decreases left
    {
      var id :| id in left;
      left := left - {id};
      if id in to {
        if from[id].status != to[id].status {
          var d := TaskDelta(id, to[id].subject, Changed, Some(from[id].status), Some(to[id].status));
          ChangedDescribes(from, to, id);
          CoverOne(from, to, ds, done, d);
          ds := ds + [d];
        } else {
          SameStatus(from, to, id);
          CoverNone(from, to, ds, done, id);
        }
        done := done + {id};
      }
    }
    CoverAll(from, to, ds, done);
  }

  lemma AddedDescribes(from: map<string, Task>, to: map<string, Task>, id: string)
    requires id in to && id !in from
    ensures Describes(from, to, TaskDelta(id, to[id].subject, Added, None, Some(to[id].status)))
  {
  }

  lemma RemovedDescribes(from: map<string, Task>, to: map<string, Task>, id: string)
    requires id in from && id !in to
    ensures Describes(from, to, TaskDelta(id, from[id].subject, Removed, Some(from[id].status), None))
  {
  }

  lemma ChangedDescribes(from: map<string, Task>, to: map<string, Task>, id: string)
    requires id in from && id in to && from[id].status != to[id].status
    ensures Describes(from, to, TaskDelta(id, to[id].subject, Changed, Some(from[id].status), Some(to[id].status)))
  {
  }

  lemma SameStatus(from: map<string, Task>, to: map<string, Task>, id: string)
    requires id in from && id in to && from[id].status == to[id].status
    ensures StatusOf(from, id) == StatusOf(to, id)
  {
  }

  lemma CoverStarts(from: map<string, Task>, to: map<string, Task>)
    ensures Covers(from, to, [], {})
  {
  }

  method DiffMembers(from: set<string>, to: set<string>) returns (ds: seq<MemberDelta>)
    ensures IsMemberDiff(from, to, ds)
  {
    ds := [];
    var left := to - from;
    while left != {}
      invariant left <= to - from && OncePerMember(ds)
      invariant forall d :: d in ds <==> d.change == Added && d.name in to - from - left
      decreases left
    {
      var name :| name in left;
      left := left - {name};
      ds := ds + [MemberDelta(name, Added)];
    }
    left := from - to;
    while left != {}
      invariant left <= from - to && OncePerMember(ds)
      invariant forall d :: d in ds <==>
        (d.change == Added && d.name in to - from) || (d.change == Removed && d.name in from - to - left)
      decreases left
    {
      var name :| name in left;
      left := left - {name};
      ds := ds + [MemberDelta(name, Removed)];
    }
  }

  /** `compute_diff` */
  method ComputeDiff(a: Checkpoint, b: Checkpoint) returns (d: Diff)
    ensures IsDiff(a, b, d)
  {
    hide NoDup, IsTaskDiff, IsMemberDiff, Lists;
    var added := ListOf(Paths(b) - Paths(a));
    var removed := ListOf(Paths(a) - Paths(b));
    var x, y := Hashes(a.files), Hashes(b.files);
    HashedPaths(a.files);
    HashedPaths(b.files);
    var common := Paths(a) * Paths(b);
    var modified := ListOf(set p | p in common && x[p] != y[p]);
    assert (set p | p in common && x[p] != y[p]) == (set p | p in x && p in y && x[p] != y[p]);
    var tasks := DiffTasks(Tasks(a.tasks), Tasks(b.tasks));
    var members := DiffMembers(Members(a), Members(b));
    d := Diff(a.commitSha, b.commitSha, added, removed, modified, tasks, members);
  }

  // ---------------------------------------------------------------------------
  // Applying a diff
  // ---------------------------------------------------------------------------

  function StatusIn(m: map<string, string>, id: string): Option<string> {
    if id in m then Some(m[id]) else None
  }

  /** One edit; it applies only where the old status is what it says. */
  function ApplyTask(m: map<string, string>, d: TaskDelta): Option<map<string, string>> {
    if StatusIn(m, d.taskId) != d.oldStatus then None
    else if d.newStatus.Some? then Some(m[d.taskId := d.newStatus.value])
    else Some(m - {d.taskId})
  }

  function ApplyTasks(m: map<string, string>, ds: seq<TaskDelta>): Option<map<string, string>>
    decreases |ds|
  {
    if ds == [] then Some(m)
    else
      var next := ApplyTask(m, ds[0]);
      if next.None? then None else ApplyTasks(next.value, ds[1..])
  }

  function ApplyMember(m: set<string>, d: MemberDelta): Option<set<string>> {
    if d.change == Added && d.name !in m then Some(m + {d.name})
    else if d.change == Removed && d.name in m then Some(m - {d.name})
    else None
  }

  function ApplyMembers(m: set<string>, ds: seq<MemberDelta>): Option<set<string>>
    decreases |ds|
  {
    if ds == [] then Some(m)
    else
      var next := ApplyMember(m, ds[0]);
      if next.None? then None else ApplyMembers(next.value, ds[1..])
  }

  /** Half-way through: tasks still to be edited are as in `from`, all others as in `to`. */
  ghost predicate HalfWay(from: map<string, Task>, to: map<string, Task>, m: map<string, string>, ds: seq<TaskDelta>) {
    && OncePerTask(ds)
    && (forall d | d in ds :: Describes(from, to, d))
    && forall id :: StatusIn(m, id) == if Mentions(ds, id) then StatusOf(from, id) else StatusOf(to, id)
  }

  lemma HalfWayStep(from: map<string, Task>, to: map<string, Task>, m: map<string, string>, ds: seq<TaskDelta>)
    requires ds != [] && HalfWay(from, to, m, ds)
    ensures ApplyTask(m, ds[0]).Some? && HalfWay(from, to, ApplyTask(m, ds[0]).value, ds[1..])
  {
    var d := ds[0];
    assert d in ds;
    assert Mentions(ds, d.taskId);
    var next := ApplyTask(m, d).value;
    assert !Mentions(ds[1..], d.taskId);
    forall id ensures StatusIn(next, id) == if Mentions(ds[1..], id) then StatusOf(from, id) else StatusOf(to, id) {
      if id != d.taskId {
        MentionsRest(ds, id);
        assert StatusIn(next, id) == StatusIn(m, id);
      }
    }
  }

  lemma MentionsRest(ds: seq<TaskDelta>, id: string)
    requires ds != [] && ds[0].taskId != id
    ensures Mentions(ds, id) <==> Mentions(ds[1..], id)
  {
    assert ds == [ds[0]] + ds[1..];
    if Mentions(ds, id) {
      var e :| e in ds && e.taskId == id;
      assert e in ds[1..];
    }
  }

  lemma {:induction false} ApplyTheRest(
    from: map<string, Task>, to: map<string, Task>, m: map<string, string>, ds: seq<TaskDelta>)
    requires HalfWay(from, to, m, ds)
    ensures ApplyTasks(m, ds) == Some(Statuses(to))
    decreases |ds|
  {
    if ds == [] {
      forall id ensures id in m <==> id in to
      ensures id in m ==> m[id] == to[id].status
      {
        assert !Mentions(ds, id);
        assert StatusIn(m, id) == StatusOf(to, id);
      }
      assert m == Statuses(to);
    } else {
      HalfWayStep(from, to, m, ds);
      hide HalfWay, ApplyTask;
      ApplyTheRest(from, to, ApplyTask(m, ds[0]).value, ds[1..]);
    }
  }

  lemma {:induction false} MembersHalfWay(from: set<string>, to: set<string>, m: set<string>, ds: seq<MemberDelta>)
    requires OncePerMember(ds)
    requires forall d | d in ds :: d.change == (if d.name in to then Added else Removed) && (d.name in m) != (d.name in to)
    requires forall name | (name in m) != (name in to) :: MemberDelta(name, if name in to then Added else Removed) in ds
    ensures ApplyMembers(m, ds) == Some(to)
    decreases |ds|
  {
    if ds == [] {
      assert m == to;
    } else {
      var d := ds[0];
      assert d in ds;
      var next := ApplyMember(m, d).value;
      forall e | e in ds[1..]
        ensures e.change == (if e.name in to then Added else Removed) && (e.name in next) != (e.name in to)
      {
        assert e in ds && e.name != d.name;
      }
      forall name | (name in next) != (name in to)
        ensures MemberDelta(name, if name in to then Added else Removed) in ds[1..]
      {
        assert ds == [d] + ds[1..];
      }
      MembersHalfWay(from, to, next, ds[1..]);
    }
  }

  /**
   Whatever order the hash sets iterate in, a diff is an edit script from `a` to `b`: every edit applies where it
   stands, and all together turn the paths, the statuses and the members of `a` into those of `b`.
   */
  lemma DiffLeadsFromAToB(a: Checkpoint, b: Checkpoint, d: Diff)
    requires IsDiff(a, b, d)
    ensures Elements(d.filesRemoved) <= Paths(a) && Elements(d.filesAdded) !! Paths(a)
    ensures (Paths(a) - Elements(d.filesRemoved)) + Elements(d.filesAdded) == Paths(b)
    ensures ApplyTasks(Statuses(Tasks(a.tasks)), d.tasksChanged) == Some(Statuses(Tasks(b.tasks)))
    ensures ApplyMembers(Members(a), d.membersChanged) == Some(Members(b))
  {
    var from, to := Tasks(a.tasks), Tasks(b.tasks);
    hide Paths, Members, Hashes, Tasks;
    TasksLead(from, to, d.tasksChanged);
    MembersLead(Members(a), Members(b), d.membersChanged);
    hide IsTaskDiff, IsMemberDiff, ApplyTasks, ApplyMembers, NoDup;
  }

  lemma TasksLead(from: map<string, Task>, to: map<string, Task>, ds: seq<TaskDelta>)
    requires IsTaskDiff(from, to, ds)
    ensures ApplyTasks(Statuses(from), ds) == Some(Statuses(to))
  {
    assert HalfWay(from, to, Statuses(from), ds) by {
      hide Describes, OncePerTask, Mentions;
    }
    hide IsTaskDiff, HalfWay;
    ApplyTheRest(from, to, Statuses(from), ds);
  }

  lemma MembersLead(from: set<string>, to: set<string>, ds: seq<MemberDelta>)
    requires IsMemberDiff(from, to, ds)
    ensures ApplyMembers(from, ds) == Some(to)
  {
    hide ApplyMembers;
    MembersHalfWay(from, to, from, ds);
  }

  // ---------------------------------------------------------------------------
  // Inverse and emptiness
  // ---------------------------------------------------------------------------

  function KindBack(kind: DeltaKind): DeltaKind {
    match kind
    case Added => Removed
    case Removed => Added
    case Changed => Changed
  }

  /** The same task, the other way round; the subject is that of the other checkpoint. */
  ghost predicate Undoes(e: TaskDelta, d: TaskDelta) {
    e.taskId == d.taskId && e.change == KindBack(d.change) && e.oldStatus == d.newStatus && e.newStatus == d.oldStatus
  }

  /** The diff the other way round is the inverse edit script, delta by delta. */
  lemma DiffBackIsInverse(a: Checkpoint, b: Checkpoint, d: Diff, e: Diff)
    requires IsDiff(a, b, d) && IsDiff(b, a, e)
    ensures Elements(e.filesAdded) == Elements(d.filesRemoved) && Elements(e.filesRemoved) == Elements(d.filesAdded)
    ensures Elements(e.filesModified) == Elements(d.filesModified)
    ensures forall x | x in d.tasksChanged :: exists y :: y in e.tasksChanged && Undoes(y, x)
    ensures forall x :: x in d.membersChanged <==> MemberDelta(x.name, KindBack(x.change)) in e.membersChanged
  {
    var from, to := Tasks(a.tasks), Tasks(b.tasks);
    hide Paths, Members, Hashes, Tasks;
    TasksUndone(from, to, d.tasksChanged, e.tasksChanged);
    hide IsTaskDiff, NoDup;
  }

  lemma TasksUndone(from: map<string, Task>, to: map<string, Task>, ds: seq<TaskDelta>, es: seq<TaskDelta>)
    requires IsTaskDiff(from, to, ds) && IsTaskDiff(to, from, es)
    ensures forall x | x in ds :: exists y :: y in es && Undoes(y, x)
  {
    forall x | x in ds ensures exists y :: y in es && Undoes(y, x) {
      assert Mentions(ds, x.taskId);
      assert Mentions(es, x.taskId);
      var y :| y in es && y.taskId == x.taskId;
      assert Describes(to, from, y) && Describes(from, to, x);
    }
  }

  /** The diff is empty exactly when both checkpoints record the same hash per path, status per task, and members. */
  lemma EmptyDiffMeansSame(a: Checkpoint, b: Checkpoint, d: Diff)
    requires IsDiff(a, b, d)
    ensures d.filesAdded == d.filesRemoved == d.filesModified == [] && d.tasksChanged == [] && d.membersChanged == []
            <==> Hashes(a.files) == Hashes(b.files) && Statuses(Tasks(a.tasks)) == Statuses(Tasks(b.tasks))
                 && Members(a) == Members(b)
  {
    HashedPaths(a.files);
    HashedPaths(b.files);
    NoFiles(a, b, d);
    NoTasks(Tasks(a.tasks), Tasks(b.tasks), d.tasksChanged);
    NoMembers(Members(a), Members(b), d.membersChanged);
  }

  lemma NothingListed<T>(s: seq<T>, elements: set<T>)
    requires Lists(s, elements)
    ensures s == [] <==> elements == {}
  {
    if s != [] {
      assert s[0] in elements;
    }
  }

  lemma NoFiles(a: Checkpoint, b: Checkpoint, d: Diff)
    requires IsDiff(a, b, d)
    ensures d.filesAdded == d.filesRemoved == d.filesModified == [] <==> Hashes(a.files) == Hashes(b.files)
  {
    var x, y := Hashes(a.files), Hashes(b.files);
    HashedPaths(a.files);
    HashedPaths(b.files);
    hide Hashes, IsTaskDiff, IsMemberDiff;
    NothingListed(d.filesAdded, Paths(b) - Paths(a));
    NothingListed(d.filesRemoved, Paths(a) - Paths(b));
    NothingListed(d.filesModified, set p | p in x && p in y && x[p] != y[p]);
    assert x.Keys == Paths(a) && y.Keys == Paths(b);
    if x.Keys == y.Keys && (set p | p in x && p in y && x[p] != y[p]) == {} {
      assert forall p | p in x :: p !in (set q | q in x && q in y && x[q] != y[q]);
      assert x == y;
    }
  }

  lemma NoTasks(from: map<string, Task>, to: map<string, Task>, ds: seq<TaskDelta>)
    requires IsTaskDiff(from, to, ds)
    ensures ds == [] <==> Statuses(from) == Statuses(to)
  {
    var x, y := Statuses(from), Statuses(to);
    if ds == [] {
      forall id ensures StatusOf(from, id) == StatusOf(to, id) {
        assert !Mentions(ds, id);
      }
      assert forall id :: id in x <==> StatusOf(from, id).Some?;
      assert forall id :: id in y <==> StatusOf(to, id).Some?;
      assert x == y;
    } else {
      var d := ds[0];
      assert Describes(from, to, d);
      DescribesChange(from, to, d);
      StatusInMap(from, d.taskId);
      StatusInMap(to, d.taskId);
    }
  }

  lemma StatusInMap(tasks: map<string, Task>, id: string)
    ensures StatusIn(Statuses(tasks), id) == StatusOf(tasks, id)
  {
  }

  lemma NoMembers(from: set<string>, to: set<string>, ds: seq<MemberDelta>)
    requires IsMemberDiff(from, to, ds)
    ensures ds == [] <==> from == to
  {
    if ds == [] {
      forall name ensures name in from <==> name in to {
        assert MemberDelta(name, if name in to then Added else Removed) !in ds;
      }
    } else {
      assert ds[0] in ds;
    }
  }

  // ---------------------------------------------------------------------------
  // In terms of what was recorded
  // ---------------------------------------------------------------------------

  predicate ListsFile(c: Checkpoint, path: string) {
    exists i :: 0 <= i < |c.files| && c.files[i].path == path
  }

  predicate ListsTask(c: Checkpoint, id: string) {
    exists i :: 0 <= i < |c.tasks| && c.tasks[i].id == id
  }

  predicate ListsMember(c: Checkpoint, name: string) {
    c.members.Some? && exists i :: 0 <= i < |c.members.value| && c.members.value[i] == name
  }

  lemma {:induction false} RecordedTasks(tasks: seq<Task>, id: string)
    ensures id in Tasks(tasks) <==> exists i :: 0 <= i < |tasks| && tasks[i].id == id
  {
    if tasks != [] {
      var n := |tasks| - 1;
      RecordedTasks(tasks[..n], id);
      assert tasks == tasks[..n] + [tasks[n]];
      if id in Tasks(tasks[..n]) {
        var i :| 0 <= i < n && tasks[..n][i].id == id;
        assert tasks[i].id == id;
      }
    }
  }

  /** What a diff lists, read off the entries of the two checkpoints. */
  lemma DiffSaysWhatIsRecorded(a: Checkpoint, b: Checkpoint, d: Diff)
    requires IsDiff(a, b, d)
    ensures forall p :: p in d.filesAdded <==> ListsFile(b, p) && !ListsFile(a, p)
    ensures forall p :: p in d.filesRemoved <==> ListsFile(a, p) && !ListsFile(b, p)
    ensures forall name :: MemberDelta(name, Added) in d.membersChanged <==> ListsMember(b, name) && !ListsMember(a, name)
    ensures forall name :: MemberDelta(name, Removed) in d.membersChanged <==> ListsMember(a, name) && !ListsMember(b, name)
    ensures forall t | t in d.tasksChanged ::
              && (t.change == Added <==> !ListsTask(a, t.taskId)) && (t.change == Removed <==> !ListsTask(b, t.taskId))
              && (ListsTask(a, t.taskId) || ListsTask(b, t.taskId))
  {
    FilesAreRecorded(a, b, d);
    MembersAreRecorded(a, b, d);
    TaskKindsAreRecorded(a, b, d);
    hide IsDiff, ListsFile, ListsMember, ListsTask;
  }

  lemma FilesAreRecorded(a: Checkpoint, b: Checkpoint, d: Diff)
    requires IsDiff(a, b, d)
    ensures forall p :: p in d.filesAdded <==> ListsFile(b, p) && !ListsFile(a, p)
    ensures forall p :: p in d.filesRemoved <==> ListsFile(a, p) && !ListsFile(b, p)
  {
    hide IsTaskDiff, IsMemberDiff, Hashes;
    PathsAreRecorded(a);
    PathsAreRecorded(b);
    hide Paths, ListsFile;
    assert forall p :: p in d.filesAdded <==> p in Elements(d.filesAdded);
    assert forall p :: p in d.filesRemoved <==> p in Elements(d.filesRemoved);
  }

  lemma PathsAreRecorded(c: Checkpoint)
    ensures forall p :: p in Paths(c) <==> ListsFile(c, p)
  {
    forall p ensures p in Paths(c) <==> ListsFile(c, p) {
      if ListsFile(c, p) {
        var i :| 0 <= i < |c.files| && c.files[i].path == p;
        assert c.files[i] in c.files;
      }
    }
  }

  lemma MembersAreListed(c: Checkpoint)
    ensures forall name :: name in Members(c) <==> ListsMember(c, name)
  {
  }

  lemma MembersAreRecorded(a: Checkpoint, b: Checkpoint, d: Diff)
    requires IsDiff(a, b, d)
    ensures forall name :: MemberDelta(name, Added) in d.membersChanged <==> ListsMember(b, name) && !ListsMember(a, name)
    ensures forall name :: MemberDelta(name, Removed) in d.membersChanged <==> ListsMember(a, name) && !ListsMember(b, name)
  {
    hide IsTaskDiff, Hashes, Lists;
    MembersAreListed(a);
    MembersAreListed(b);
    hide Members, ListsMember;
  }

  lemma TaskKindsAreRecorded(a: Checkpoint, b: Checkpoint, d: Diff)
    requires IsDiff(a, b, d)
    ensures forall t | t in d.tasksChanged ::
              && (t.change == Added <==> !ListsTask(a, t.taskId)) && (t.change == Removed <==> !ListsTask(b, t.taskId))
              && (ListsTask(a, t.taskId) || ListsTask(b, t.taskId))
  {
    hide Hashes, Lists, IsMemberDiff;
    forall t | t in d.tasksChanged
      ensures (t.change == Added <==> !ListsTask(a, t.taskId)) && (t.change == Removed <==> !ListsTask(b, t.taskId))
      ensures ListsTask(a, t.taskId) || ListsTask(b, t.taskId)
    {
      RecordedTasks(a.tasks, t.taskId);
      RecordedTasks(b.tasks, t.taskId);
      assert Describes(Tasks(a.tasks), Tasks(b.tasks), t);
    }
  }
}
