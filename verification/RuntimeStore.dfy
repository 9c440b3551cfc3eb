/**
  Hot apply: the runtime state behind a read/write lock, next to the key pool behind its own.  Every
  operation is a task that takes the lock, touches the two shared values one at a time and releases
  the lock; tasks interleave freely, and the pool's own operations run without the store's lock.
 */
module RuntimeStores {
  import opened Prelude
  import opened Durations
  import opened PoolModel
  import opened PoolWorld
  import opened PoolRequests

  datatype RuntimeState = RuntimeState(
    gatewayKeys: seq<string>,
    baseUrl: string,
    maxBodyBytes: nat,
    keyAliases: map<string, string>,
    models: seq<string>)

  // A generation: the pool's keys and the state published with them.
  datatype Config = Config(keys: seq<Key>, state: RuntimeState)

  // What a writer is asked to do: publish a state, replace the model list, or replace keys and state
  // together.
  datatype Operation =
    | Update(state: RuntimeState)
    | UpdateModels(models: seq<string>)
    | UpdateWithKeys(keys: seq<Key>, state: RuntimeState)

  // What the operation is to make of a generation.  A replacement by no keys is refused.
  function Applied(g: Config, op: Operation): Config {
    match op
    case Update(state) => g.(state := state)
    case UpdateModels(models) => g.(state := g.state.(models := models))
    case UpdateWithKeys(keys, state) => if keys == [] then g else Config(keys, state)
  }

  // What an operation changes and what it leaves, field by field.
  lemma AppliedChanges(g: Config, op: Operation)
    ensures op.Update? ==> Applied(g, op) == Config(g.keys, op.state)
    ensures op.UpdateModels? ==>
              var s := g.state;
              Applied(g, op) == Config(g.keys, RuntimeState(s.gatewayKeys, s.baseUrl, s.maxBodyBytes, s.keyAliases,
                                                            op.models))
    ensures op.UpdateWithKeys? && op.keys != [] ==> Applied(g, op) == Config(op.keys, op.state)
    ensures op.UpdateWithKeys? && op.keys == [] ==> Applied(g, op) == g
  {
  }

  // What a task is doing.  A reader takes a snapshot and builds a request in one read section.
  datatype Task =
    | Idle
    | WantSnapshot | HoldsRead | Cloned(state: RuntimeState) | ReadDone
    | Want(op: Operation) | Holds(op: Operation)
    | ClonedModels(models: seq<string>, copy: RuntimeState)
    | ReplacedKeys(keys: seq<Key>, state: RuntimeState)
    | WriteDone(op: Operation)
  {
    predicate Reading() {
      HoldsRead? || Cloned? || ReadDone?
    }

    predicate Writing() {
      Holds? || ClonedModels? || ReplacedKeys? || WriteDone?
    }

    // The operation a writer, waiting or inside, is carrying out.
    function Operation(): Option<Operation> {
      match this
      case ClonedModels(models, _) => Some(UpdateModels(models))
      case ReplacedKeys(keys, state) => Some(UpdateWithKeys(keys, state))
      case _ => if Want? || Holds? || WriteDone? then Some(op) else None
    }
  }

  type Tid = nat

  // A pair handed to a request: the state, the candidate keys, and the number of generations
  // published when it was made.
  datatype Snapshot = Snapshot(state: RuntimeState, candidates: seq<Key>, generation: nat)

  datatype Store = Store(
    published: RuntimeState,
    pool: Pool,
    // the readers-writer lock
    writer: Option<Tid>,
    readers: set<Tid>,
    tasks: map<Tid, Task>,
    // every pair of keys and state that was in force when a writer released the lock
    generations: seq<Config>,
    snapshots: seq<Snapshot>)
  {
    function TaskOf(t: Tid): Task {
      if t in tasks then tasks[t] else Idle
    }

    function At(t: Tid, task: Task): Store {
      this.(tasks := tasks[t := task])
    }

    predicate Free() {
      writer.None? && readers == {}
    }
  }

  datatype Action =
    | Begin(task: Task)
    | Advance
    | PoolActivity(pool: Pool)

  // One step of task `t`.
  predicate Step(s: Store, t: Tid, a: Action, s': Store) {
    match a
    case Begin(task) => s.TaskOf(t).Idle? && (task.WantSnapshot? || task.Want?) && s' == s.At(t, task)
    case PoolActivity(pool) =>
      // selections and reports change the health of keys, not the key list
      Keys(pool) == Keys(s.pool) && pool.cursor < |pool.entries| && s' == s.(pool := pool)
    case Advance => Ready(s, s.TaskOf(t)) && s' == Effect(s, t, s.TaskOf(t)).At(t, NextTask(s, s.TaskOf(t)))
  }

  // A reader waits for the writer, a writer for everyone.
  predicate Ready(s: Store, task: Task) {
    match task
    case Idle => false
    case WantSnapshot => s.writer.None?
    case Want(_) => s.Free()
    case _ => true
  }

  function NextTask(s: Store, task: Task): Task {
    match task
    case WantSnapshot => HoldsRead
    case HoldsRead => Cloned(s.published)
    case Cloned(_) => ReadDone
    case Want(op) => Holds(op)
    case Holds(op) =>
      (match op
       case Update(_) => WriteDone(op)
       case UpdateModels(models) => ClonedModels(models, s.published)
       case UpdateWithKeys(keys, state) => if keys == [] then WriteDone(op) else ReplacedKeys(keys, state))
    case ClonedModels(models, _) => WriteDone(UpdateModels(models))
    case ReplacedKeys(keys, state) => WriteDone(UpdateWithKeys(keys, state))
    case _ => Idle
  }

  function Effect(s: Store, t: Tid, task: Task): Store {
    match task
    case WantSnapshot => s.(readers := s.readers + {t})
    case Cloned(state) =>
      s.(snapshots := s.snapshots + [Snapshot(state, CyclicKeys(s.pool), |s.generations|)])
    case ReadDone => s.(readers := s.readers - {t})
    case Want(_) => s.(writer := Some(t))
    case Holds(op) =>
      (match op
       case Update(state) => s.(published := state)
       case UpdateModels(_) => s
       case UpdateWithKeys(keys, _) => if keys == [] then s else s.(pool := ReplaceKeys(s.pool, keys)))
    case ClonedModels(models, copy) => s.(published := copy.(models := models))
    case ReplacedKeys(_, state) => s.(published := state)
    case WriteDone(_) => s.(writer := None, generations := s.generations + [InForce(s)])
    case _ => s
  }

  // The pair that is there right now.
  function InForce(s: Store): Config {
    Config(Keys(s.pool), s.published)
  }

  function Current(s: Store): Config
    requires s.generations != []
  {
    s.generations[|s.generations| - 1]
  }

  predicate InitialStore(s: Store) {
    s.tasks == map[] && s.Free() && s.snapshots == [] && s.generations == [InForce(s)]
    && s.pool.cursor < |s.pool.entries|
  }

  // ---------------------------------------------------------------------------------------------
  // The invariant

  // Exactly the tasks inside a critical section hold the lock, and a writer is alone.
  ghost predicate LockOk(s: Store) {
    && (forall t: Tid :: s.TaskOf(t).Writing() <==> s.writer == Some(t))
    && (forall t: Tid :: s.TaskOf(t).Reading() <==> t in s.readers)
    && (s.writer.Some? ==> s.readers == {})
  }

  // What a writer may already have changed of the current generation.
  predicate WriterOk(s: Store, task: Task)
    requires s.generations != []
  {
    match task
    case ReplacedKeys(keys, _) => keys != [] && Keys(s.pool) == keys
    case WriteDone(op) => InForce(s) == Applied(Current(s), op)
    case ClonedModels(_, copy) => copy == s.published && Current(s) == InForce(s)
    case _ => Current(s) == InForce(s)
  }

  // Without a writer, what is there is the current generation.
  predicate DataOk(s: Store) {
    && s.generations != [] && s.pool.cursor < |s.pool.entries|
    && if s.writer.None? then Current(s) == InForce(s) else WriterOk(s, s.TaskOf(s.writer.value))
  }

  ghost predicate ReadersOk(s: Store) {
    forall t: Tid :: s.TaskOf(t).Cloned? ==> s.TaskOf(t).state == s.published
  }

  predicate IsRotation(a: seq<Key>, b: seq<Key>) {
    exists c :: 0 <= c <= |b| && a == b[c..] + b[..c]
  }

  // A snapshot is one generation: its state, and its keys rotated to the cursor of that moment.
  predicate OfOneGeneration(snap: Snapshot, generations: seq<Config>) {
    && 0 < snap.generation <= |generations|
    && var g := generations[snap.generation - 1];
       snap.state == g.state && IsRotation(snap.candidates, g.keys)
  }

  predicate SnapshotsOk(s: Store) {
    forall i :: 0 <= i < |s.snapshots| ==> OfOneGeneration(s.snapshots[i], s.generations)
  }

  ghost predicate StoreOk(s: Store) {
    LockOk(s) && DataOk(s) && ReadersOk(s) && SnapshotsOk(s)
  }

  lemma InitialStoreOk(s: Store)
    requires InitialStore(s)
    ensures StoreOk(s)
  {
  }

  lemma EffectKeepsTasks(s: Store, t: Tid, task: Task)
    ensures Effect(s, t, task).tasks == s.tasks
  {
    hide ReplaceKeys, CyclicKeys, InForce;
  }

  lemma OthersKept(s: Store, t: Tid, a: Action, s': Store, u: Tid)
    requires Step(s, t, a, s') && u != t
    ensures s'.TaskOf(u) == s.TaskOf(u)
  {
    hide Effect, NextTask, Ready, Keys;
    EffectKeepsTasks(s, t, s.TaskOf(t));
  }

  lemma LockKept(s: Store, t: Tid, a: Action, s': Store)
    requires LockOk(s) && Step(s, t, a, s')
    ensures LockOk(s')
  {
    hide Keys, ReplaceKeys, CyclicKeys, InForce;
    assert s.TaskOf(t).Writing() <==> s.writer == Some(t);
    assert s.TaskOf(t).Reading() <==> t in s.readers;
    forall u: Tid
      ensures s'.TaskOf(u).Writing() <==> s'.writer == Some(u)
      ensures s'.TaskOf(u).Reading() <==> u in s'.readers
    {
      if u != t { OthersKept(s, t, a, s', u); }
    }
  }

  lemma DataKept(s: Store, t: Tid, a: Action, s': Store)
    requires LockOk(s) && DataOk(s) && Step(s, t, a, s')
    ensures DataOk(s') && s.generations <= s'.generations
  {
    hide ReplaceKeys, CyclicKeys, Keys, LockOk;
    assert s.TaskOf(t).Writing() <==> s.writer == Some(t) by { OwnWriting(s, t); }
    if s.writer.Some? && s.writer.value != t {
      OthersKept(s, t, a, s', s.writer.value);
    }
    if a.Advance? && s.TaskOf(t).Holds? && s.TaskOf(t).op.UpdateWithKeys? && s.TaskOf(t).op.keys != [] {
      ReplacedPool(s.pool, s.TaskOf(t).op.keys);
    }
  }

  lemma OwnWriting(s: Store, t: Tid)
    requires LockOk(s)
    ensures s.TaskOf(t).Writing() <==> s.writer == Some(t)
  {
  }

  lemma ReplacedPool(pool: Pool, keys: seq<Key>)
    requires keys != []
    ensures Keys(ReplaceKeys(pool, keys)) == keys
    ensures ReplaceKeys(pool, keys).cursor < |ReplaceKeys(pool, keys).entries|
  {
  }

  // Only a writer publishes.
  lemma PublishedKept(s: Store, t: Tid, a: Action, s': Store)
    requires Step(s, t, a, s') && s'.published != s.published
    ensures s.TaskOf(t).Writing() && !s'.TaskOf(t).Cloned?
  {
    hide Keys, ReplaceKeys, CyclicKeys, InForce;
  }

  lemma CopyTaken(s: Store, t: Tid, a: Action, s': Store)
    requires Step(s, t, a, s') && s'.TaskOf(t).Cloned?
    ensures s'.TaskOf(t).state == s.published || s'.TaskOf(t) == s.TaskOf(t)
  {
    hide Keys, ReplaceKeys, CyclicKeys, InForce;
  }

  lemma ReadersKept(s: Store, t: Tid, a: Action, s': Store)
    requires LockOk(s) && ReadersOk(s) && Step(s, t, a, s')
    ensures ReadersOk(s')
  {
    hide Step;
    assert s.TaskOf(t).Writing() <==> s.writer == Some(t);
    forall u: Tid | s'.TaskOf(u).Cloned? ensures s'.TaskOf(u).state == s'.published {
      if s'.published != s.published {
        PublishedKept(s, t, a, s');
      }
      if u == t {
        CopyTaken(s, t, a, s');
      } else {
        OthersKept(s, t, a, s', u);
        assert s.TaskOf(u).Reading() <==> u in s.readers;
      }
    }
  }

  // Only a reader that has its copy of the state adds a snapshot.
  lemma SnapshotTaken(s: Store, t: Tid, a: Action, s': Store)
    requires Step(s, t, a, s') && s'.snapshots != s.snapshots
    ensures s.TaskOf(t).Cloned?
    ensures s'.snapshots == s.snapshots + [Snapshot(s.TaskOf(t).state, CyclicKeys(s.pool), |s.generations|)]
  {
    hide CyclicKeys, Keys, ReplaceKeys, InForce;
  }

  lemma NewSnapshotOk(s: Store, t: Tid)
    requires StoreOk(s) && s.TaskOf(t).Cloned?
    ensures OfOneGeneration(Snapshot(s.TaskOf(t).state, CyclicKeys(s.pool), |s.generations|), s.generations)
  {
    hide CyclicKeys, IsRotation, Keys, SnapshotsOk;
    assert t in s.readers && s.writer.None?;
    assert Current(s) == InForce(s);
    SnapshotIsRotation(s.pool);
  }

  lemma OlderGeneration(snap: Snapshot, generations: seq<Config>, generations': seq<Config>)
    requires OfOneGeneration(snap, generations) && generations <= generations'
    ensures OfOneGeneration(snap, generations')
  {
    hide IsRotation;
  }

  lemma SnapshotsKept(s: Store, t: Tid, a: Action, s': Store)
    requires StoreOk(s) && Step(s, t, a, s') && s.generations <= s'.generations
    ensures SnapshotsOk(s')
  {
    hide Step, OfOneGeneration, LockOk, DataOk, ReadersOk, CyclicKeys;
    if s'.snapshots != s.snapshots {
      SnapshotTaken(s, t, a, s');
      NewSnapshotOk(s, t);
    }
    forall i | 0 <= i < |s'.snapshots| ensures OfOneGeneration(s'.snapshots[i], s'.generations) {
      OlderGeneration(s'.snapshots[i], s.generations, s'.generations);
    }
  }

  lemma SnapshotIsRotation(pool: Pool)
    requires pool.cursor < |pool.entries|
    ensures IsRotation(CyclicKeys(pool), Keys(pool))
  {
    CandidatesAreRotation(pool);
  }

  lemma StepKeepsStore(s: Store, t: Tid, a: Action, s': Store)
    requires StoreOk(s) && Step(s, t, a, s')
    ensures StoreOk(s')
  {
    LockKept(s, t, a, s');
    DataKept(s, t, a, s');
    ReadersKept(s, t, a, s');
    SnapshotsKept(s, t, a, s');
  }

  // ---------------------------------------------------------------------------------------------
  // Runs

  // A step and the task that takes it.
  datatype Move = Move(task: Tid, action: Action)

  predicate MoveAt(ss: seq<Store>, ms: seq<Move>, k: nat)
    requires |ss| == |ms| + 1 && k < |ms|
  {
    Step(ss[k], ms[k].task, ms[k].action, ss[k + 1])
  }

  predicate StoreRun(ss: seq<Store>, ms: seq<Move>) {
    |ss| == |ms| + 1 && InitialStore(ss[0]) && forall k :: 0 <= k < |ms| ==> MoveAt(ss, ms, k)
  }

  lemma {:induction false} StoreRunOk(ss: seq<Store>, ms: seq<Move>, k: nat)
    requires StoreRun(ss, ms) && k < |ss|
    ensures StoreOk(ss[k])
  {
    if k == 0 {
      InitialStoreOk(ss[0]);
    } else {
      StoreRunOk(ss, ms, k - 1);
      assert MoveAt(ss, ms, k - 1);
      StepKeepsStore(ss[k - 1], ms[k - 1].task, ms[k - 1].action, ss[k]);
    }
  }

  // No request ever sees the keys of one generation with the state of another.
  lemma SnapshotsNeverMix(ss: seq<Store>, ms: seq<Move>, k: nat, i: nat)
    requires StoreRun(ss, ms) && k < |ss| && i < |ss[k].snapshots|
    ensures OfOneGeneration(ss[k].snapshots[i], ss[k].generations)
  {
    hide LockOk, DataOk, ReadersOk, OfOneGeneration;
    StoreRunOk(ss, ms, k);
  }

  // ---------------------------------------------------------------------------------------------
  // What an operation leaves

  // Task `t` gives the lock back at the end of its operation.
  predicate Releases(s: Store, t: Tid, a: Action) {
    a.Advance? && s.TaskOf(t).WriteDone?
  }

  // Only then is there a new generation: the current one with the operation applied to it.
  lemma ReleaseStep(s: Store, t: Tid, a: Action, s': Store)
    requires StoreOk(s) && Step(s, t, a, s')
    ensures if Releases(s, t, a) then s'.generations == s.generations + [Applied(Current(s), s.TaskOf(t).op)]
            else s'.generations == s.generations
  {
    hide ReplaceKeys, CyclicKeys, Keys, ReadersOk, SnapshotsOk;
    assert s.TaskOf(t).Writing() <==> s.writer == Some(t);
  }

  // The operations completed in the first `k` moves, in order.
  function Completed(ss: seq<Store>, ms: seq<Move>, k: nat): seq<Operation>
    requires |ss| == |ms| + 1 && k <= |ms|
  {
    if k == 0 then []
    else
      var s, m := ss[k - 1], ms[k - 1];
      Completed(ss, ms, k - 1) + if Releases(s, m.task, m.action) then [s.TaskOf(m.task).op] else []
  }

  // The generations of a run are what its completed operations make of the first, one by one.
  predicate Follow(generations: seq<Config>, ops: seq<Operation>) {
    && |generations| == |ops| + 1
    && forall i :: 0 <= i < |ops| ==> generations[i + 1] == Applied(generations[i], ops[i])
  }

  lemma {:induction false} GenerationsFollowOperations(ss: seq<Store>, ms: seq<Move>, k: nat)
    requires StoreRun(ss, ms) && k < |ss|
    ensures Follow(ss[k].generations, Completed(ss, ms, k))
  {
    hide StoreOk, Applied, Step;
    if k > 0 {
      GenerationsFollowOperations(ss, ms, k - 1);
      StoreRunOk(ss, ms, k - 1);
      assert MoveAt(ss, ms, k - 1);
      ReleaseStep(ss[k - 1], ms[k - 1].task, ms[k - 1].action, ss[k]);
    }
  }

  // From its beginning to the release, a task keeps to its operation.
  lemma OperationKept(s: Store, t: Tid, a: Action, s': Store, u: Tid)
    requires Step(s, t, a, s') && s'.TaskOf(u).Operation().Some?
    ensures s.TaskOf(u).Operation() == s'.TaskOf(u).Operation()
         || (u == t && a == Action.Begin(Want(s'.TaskOf(u).Operation().value)))
  {
    hide ReplaceKeys, CyclicKeys, Keys, InForce;
    if u != t {
      OthersKept(s, t, a, s', u);
    }
  }

  // The move with which a task began what it is carrying out.
  predicate Began(ss: seq<Store>, ms: seq<Move>, j: nat, k: nat, t: Tid)
    requires |ss| == |ms| + 1 && j < k < |ss|
  {
    && ms[j].task == t && ms[j].action.Begin? && ms[j].action.task.Want?
    && forall i :: j < i <= k ==> ss[i].TaskOf(t).Operation() == Some(ms[j].action.task.op)
  }

  lemma {:induction false} OperationWasBegun(ss: seq<Store>, ms: seq<Move>, k: nat, t: Tid) returns (j: nat)
    requires StoreRun(ss, ms) && k < |ss| && ss[k].TaskOf(t).Operation().Some?
    ensures j < k && Began(ss, ms, j, k, t)
  {
    hide Step;
    assert k > 0;
    assert MoveAt(ss, ms, k - 1);
    OperationKept(ss[k - 1], ms[k - 1].task, ms[k - 1].action, ss[k], t);
    if ss[k - 1].TaskOf(t).Operation() == ss[k].TaskOf(t).Operation() {
      j := OperationWasBegun(ss, ms, k - 1, t);
    } else {
      j := k - 1;
    }
  }

  // A task that gives the lock back leaves the current generation with exactly the change it was
  // begun for.
  lemma CompletedOperation(ss: seq<Store>, ms: seq<Move>, k: nat) returns (j: nat)
    requires StoreRun(ss, ms) && k < |ms| && Releases(ss[k], ms[k].task, ms[k].action)
    ensures j < k && Began(ss, ms, j, k, ms[k].task)
    ensures ss[k].generations != []
    ensures ss[k + 1].generations == ss[k].generations + [Applied(Current(ss[k]), ms[j].action.task.op)]
    ensures Current(ss[k + 1]) == InForce(ss[k + 1])
  {
    hide LockOk, ReadersOk, SnapshotsOk, Applied, Keys;
    StoreRunOk(ss, ms, k);
    StoreRunOk(ss, ms, k + 1);
    assert MoveAt(ss, ms, k);
    ReleaseStep(ss[k], ms[k].task, ms[k].action, ss[k + 1]);
    j := OperationWasBegun(ss, ms, k, ms[k].task);
  }

  // A refused replacement touches neither pool nor state at any of its steps, and the generation it
  // leaves equals the one before.
  lemma RefusedReplacement(ss: seq<Store>, ms: seq<Move>, k: nat, state: RuntimeState)
    requires StoreRun(ss, ms) && k < |ms| && ms[k].action.Advance?
    requires ss[k].TaskOf(ms[k].task).Operation() == Some(UpdateWithKeys([], state))
    ensures ss[k + 1].pool == ss[k].pool && ss[k + 1].published == ss[k].published
    ensures ss[k].generations != [] && ss[k + 1].generations != [] && Current(ss[k + 1]) == Current(ss[k])
  {
    hide ReplaceKeys, CyclicKeys, Keys, ReadersOk, SnapshotsOk;
    StoreRunOk(ss, ms, k);
    assert MoveAt(ss, ms, k);
    OwnWriting(ss[k], ms[k].task);
    ReleaseStep(ss[k], ms[k].task, ms[k].action, ss[k + 1]);
  }

  // ---------------------------------------------------------------------------------------------
  // A hot reload that carries the model list over

  lemma {:induction false} GenerationsGrow(ss: seq<Store>, ms: seq<Move>, i: nat, k: nat)
    requires StoreRun(ss, ms) && i <= k < |ss|
    ensures ss[i].generations <= ss[k].generations
    decreases k
  {
    hide StoreOk, Applied, Step;
    if i < k {
      GenerationsGrow(ss, ms, i, k - 1);
      StoreRunOk(ss, ms, k - 1);
      assert MoveAt(ss, ms, k - 1);
      ReleaseStep(ss[k - 1], ms[k - 1].task, ms[k - 1].action, ss[k]);
    }
  }

  // A reload copies the published state in move `i`, outside its own write section, and in move `k`
  // completes a replacement of keys and state with the model list of that copy.
  predicate Reloads(ss: seq<Store>, ms: seq<Move>, i: nat, k: nat) {
    && StoreRun(ss, ms) && i < k < |ms|
    && ms[i].action.Advance? && ss[i].TaskOf(ms[i].task).HoldsRead?
    && Releases(ss[k], ms[k].task, ms[k].action)
    && var op := ss[k].TaskOf(ms[k].task).op;
       op.UpdateWithKeys? && op.keys != [] && op.state.models == ss[i].published.models
  }

  function Models(g: Config): seq<string> {
    g.state.models
  }

  lemma ReadsCurrent(s: Store, t: Tid)
    requires StoreOk(s) && s.TaskOf(t).HoldsRead?
    ensures s.generations != [] && Current(s).state == s.published
  {
    hide ReadersOk, SnapshotsOk;
    assert t in s.readers;
  }

  // Some operation completed after generation `a` and up to generation `b` changed the model list.
  predicate ModelsChange(generations: seq<Config>, a: nat, b: nat)
    requires b < |generations|
  {
    exists n :: a <= n < b && Models(generations[n]) != Models(generations[n + 1])
  }

  lemma {:induction false} ModelsStay(generations: seq<Config>, a: nat, b: nat)
    requires a <= b < |generations| && !ModelsChange(generations, a, b)
    ensures Models(generations[a]) == Models(generations[b])
    decreases b
  {
    if a < b {
      ModelsStay(generations, a, b - 1);
      assert Models(generations[b - 1]) == Models(generations[b - 1 + 1]);
    }
  }

  // The reload keeps the model list that is in force when it is applied if and only if that is the one
  // in force when it was copied; otherwise an operation completed in between changed the list, and its
  // change is undone.
  lemma ReloadKeepsModelsIff(ss: seq<Store>, ms: seq<Move>, i: nat, k: nat)
    requires Reloads(ss, ms, i, k)
    ensures 0 < |ss[i].generations| <= |ss[k].generations| < |ss[k + 1].generations|
    ensures var a, b := |ss[i].generations| - 1, |ss[k].generations| - 1;
            var gs := ss[k + 1].generations;
            && (Models(gs[b + 1]) == Models(gs[b]) <==> Models(gs[a]) == Models(gs[b]))
            && Models(gs[b + 1]) == Models(gs[a])
            && (Models(gs[b + 1]) != Models(gs[b]) ==> ModelsChange(gs, a, b))
  {
    hide StoreOk, Step, ModelsChange;
    StoreRunOk(ss, ms, i);
    StoreRunOk(ss, ms, k);
    ReadsCurrent(ss[i], ms[i].task);
    GenerationsGrow(ss, ms, i, k);
    assert MoveAt(ss, ms, k);
    ReleaseStep(ss[k], ms[k].task, ms[k].action, ss[k + 1]);
    var a, b, gs := |ss[i].generations| - 1, |ss[k].generations| - 1, ss[k + 1].generations;
    assert gs[a] == ss[i].generations[a];
    if !ModelsChange(gs, a, b) {
      ModelsStay(gs, a, b);
    }
  }

  // One more move of a run.
  lemma AppendMove(ss: seq<Store>, ms: seq<Move>, t: Tid, a: Action, s: Store)
    returns (ss': seq<Store>, ms': seq<Move>)
    requires StoreRun(ss, ms) && Step(ss[|ms|], t, a, s)
    ensures StoreRun(ss', ms') && ss' == ss + [s] && ms' == ms + [Move(t, a)]
  {
    hide Step;
    ss', ms' := ss + [s], ms + [Move(t, a)];
    forall k | 0 <= k < |ms'| ensures MoveAt(ss', ms', k) {
      if k < |ms| {
        assert MoveAt(ss, ms, k);
      }
    }
  }

  function Advanced(s: Store, t: Tid): Store {
    Effect(s, t, s.TaskOf(t)).At(t, NextTask(s, s.TaskOf(t)))
  }

  lemma AppendAdvance(ss: seq<Store>, ms: seq<Move>, t: Tid) returns (ss': seq<Store>, ms': seq<Move>)
    requires StoreRun(ss, ms) && Ready(ss[|ms|], ss[|ms|].TaskOf(t))
    ensures StoreRun(ss', ms') && ss' == ss + [Advanced(ss[|ms|], t)] && ms' == ms + [Move(t, Advance)]
  {
    hide Effect, NextTask, Ready, MoveAt;
    ss', ms' := AppendMove(ss, ms, t, Advance, Advanced(ss[|ms|], t));
  }

  function Rank(task: Task): nat {
    match task
    case Want(_) => 4
    case Holds(_) => 3
    case ClonedModels(_, _) => 2
    case ReplacedKeys(_, _) => 2
    case WriteDone(_) => 1
    case _ => 0
  }

  // A writer that has the lock, or could have it, and is not at its end can take a step nearer to it.
  lemma WriterAdvances(s: Store, t: Tid)
    requires s.TaskOf(t).Operation().Some? && (s.TaskOf(t).Want? ==> s.Free())
    ensures var s' := Advanced(s, t);
            && Ready(s, s.TaskOf(t)) && s'.readers == s.readers
            && Rank(s'.TaskOf(t)) < Rank(s.TaskOf(t)) && !s'.TaskOf(t).Want?
            && (if s.TaskOf(t).WriteDone? then s'.TaskOf(t).Idle? && s'.writer.None?
                else s'.TaskOf(t).Operation() == s.TaskOf(t).Operation())
  {
    hide ReplaceKeys, CyclicKeys, Keys, InForce;
  }

  // Nothing can stop an operation that has the lock or finds it free from being carried through.
  lemma {:induction false} CarriedThrough(ss: seq<Store>, ms: seq<Move>, t: Tid)
    returns (ss': seq<Store>, ms': seq<Move>)
    requires StoreRun(ss, ms) && ss[|ms|].TaskOf(t).Operation().Some?
    requires ss[|ms|].TaskOf(t).Want? ==> ss[|ms|].Free()
    ensures StoreRun(ss', ms') && ss <= ss' && ms < ms'
    ensures ss'[|ms'|].TaskOf(t).Idle? && ss'[|ms'|].writer.None? && ss'[|ms'|].readers == ss[|ms|].readers
    ensures forall u :: u != t ==> ss'[|ms'|].TaskOf(u) == ss[|ms|].TaskOf(u)
    ensures var last := |ms'| - 1;
            && ms'[last] == Move(t, Advance)
            && ss'[last].TaskOf(t) == WriteDone(ss[|ms|].TaskOf(t).Operation().value)
            && ss'[last].generations == ss[|ms|].generations
    decreases Rank(ss[|ms|].TaskOf(t))
  {
    hide Effect, NextTask, Ready, StoreOk, Applied, Step;
    var s := ss[|ms|];
    WriterAdvances(s, t);
    ss', ms' := AppendAdvance(ss, ms, t);
    StoreRunOk(ss, ms, |ms|);
    assert MoveAt(ss', ms', |ms|);
    ReleaseStep(s, t, Advance, ss'[|ms'|]);
    forall u | u != t ensures ss'[|ms'|].TaskOf(u) == s.TaskOf(u) {
      OthersKept(s, t, Advance, ss'[|ms'|], u);
    }
    if !s.TaskOf(t).WriteDone? {
      ss', ms' := CarriedThrough(ss', ms', t);
    }
  }

  lemma Begun(ss: seq<Store>, ms: seq<Move>, t: Tid, task: Task) returns (ss': seq<Store>, ms': seq<Move>)
    requires StoreRun(ss, ms) && ss[|ms|].TaskOf(t).Idle? && (task.WantSnapshot? || task.Want?)
    ensures StoreRun(ss', ms') && ss' == ss + [ss[|ms|].At(t, task)] && |ms'| == |ms| + 1 && ms <= ms'
  {
    ss', ms' := AppendMove(ss, ms, t, Action.Begin(task), ss[|ms|].At(t, task));
  }

  // Task 0 reads the published state and lets the lock go again.
  lemma ReadOnce(s: Store) returns (ss: seq<Store>, ms: seq<Move>)
    requires InitialStore(s)
    ensures StoreRun(ss, ms) && |ms| == 5 && ms[2] == Move(0, Advance) && ss[2].TaskOf(0).HoldsRead?
    ensures ss[2].published == s.published && ss[2].generations == ss[5].generations == s.generations
    ensures ss[5].Free() && forall t: Tid :: ss[5].TaskOf(t).Idle?
  {
    hide CyclicKeys, Keys;
    ss, ms := [s], [];
    ss, ms := Begun(ss, ms, 0, WantSnapshot);
    ss, ms := AppendAdvance(ss, ms, 0);
    ss, ms := AppendAdvance(ss, ms, 0);
    ss, ms := AppendAdvance(ss, ms, 0);
    ss, ms := AppendAdvance(ss, ms, 0);
  }

  // An operation begun on a free store and carried through.
  lemma Performed(ss: seq<Store>, ms: seq<Move>, t: Tid, op: Operation) returns (ss': seq<Store>, ms': seq<Move>)
    requires StoreRun(ss, ms) && ss[|ms|].Free() && forall u: Tid :: ss[|ms|].TaskOf(u).Idle?
    ensures StoreRun(ss', ms') && ss <= ss' && ms < ms'
    ensures ss'[|ms'|].Free() && forall u: Tid :: ss'[|ms'|].TaskOf(u).Idle?
    ensures var last := |ms'| - 1;
            && ms'[last] == Move(t, Advance) && ss'[last].TaskOf(t) == WriteDone(op)
            && ss'[last].generations == ss[|ms|].generations != []
            && ss'[|ms'|].generations == ss[|ms|].generations + [Applied(Current(ss[|ms|]), op)]
  {
    hide Step, Applied, StoreOk;
    ss', ms' := Begun(ss, ms, t, Want(op));
    var begun := ss'[|ms'|];
    ss', ms' := CarriedThrough(ss', ms', t);
    forall u: Tid ensures ss'[|ms'|].TaskOf(u).Idle? {
      assert u != t ==> begun.TaskOf(u) == ss[|ms|].TaskOf(u);
    }
    var last := |ms'| - 1;
    StoreRunOk(ss', ms', last);
    assert MoveAt(ss', ms', last);
    SomeGeneration(ss'[last]);
    ReleaseStep(ss'[last], t, Advance, ss'[|ms'|]);
  }

  lemma SomeGeneration(s: Store)
    requires StoreOk(s)
    ensures s.generations != []
  {
  }

  // The run in which a freshly fetched model list is lost: the reload copies the old list in move 2, an
  // update to the new list completes, and the reload puts the old one back.
  lemma LostModels() returns (ss: seq<Store>, ms: seq<Move>, k: nat)
    ensures Reloads(ss, ms, 2, k)
    ensures |ss[2].generations| == 1 && |ss[k].generations| == 2 && |ss[k + 1].generations| == 3
    ensures Models(ss[k].generations[0]) == ["old"] && Models(ss[k].generations[1]) == ["new"]
    ensures Models(ss[k + 1].generations[2]) == ["old"]
  {
    hide MoveAt;
    var key := Key("secret", "a");
    var state := RuntimeState([], "", 0, map[], ["old"]);
    var s := Store(state, FreshPool([key]), None, {}, map[], [Config([key], state)], []);
    assert Keys(s.pool) == [key];
    ss, ms := ReadOnce(s);
    var ss1, ms1 := Performed(ss, ms, 1, UpdateModels(["new"]));
    assert ss1[2] == ss[2] && ms1[2] == ms[2];
    ss, ms := Performed(ss1, ms1, 0, UpdateWithKeys([key], state));
    assert ss[2] == ss1[2] && ms[2] == ms1[2];
    k := |ms| - 1;
  }

  // The pool's own operations may run at any time: they keep the key list.
  lemma PoolOperationsKeepKeys(policy: Policy, pool: Pool, rep: Report, req: Request, now: Instant)
    requires policy.Valid() && PoolOk(policy, pool, now)
    requires if rep.ProactiveCooldown? then rep.at <= now else rep.sel.id < pool.nextId
    ensures Keys(ApplyReport(policy, pool, rep, now)) == Keys(pool)
    ensures Keys(PoolAfterSelect(policy, pool, req, now)) == Keys(pool)
  {
    ReportKeepsPool(policy, pool, rep, now);
    SelectKeepsPool(policy, pool, req, now);
  }
}
