// runner.go: the runner as a system of steps. The caller of ApplyTasks, the
// goroutine that iterates over the workers under their lock, the goroutines
// that stop workers, and the workers themselves take steps in any order. A step
// on the map of workers is one call of its methods, as HashMaps proves them.
module Runners {
  import opened HashMaps

  // Run has returned and Exited is closed; then running.Done was called.
  datatype Life = Running | Exited | Gone

  // What the goroutine that stops a worker does next.
  datatype Stage = Cancelling | Awaiting | Deleting | Finishing | Finished

  datatype Stopper = Stopper(group: Class, stage: Stage)

  datatype Scheduled = Scheduled(task: Task, worker: nat)

  // Where the caller is. Iterations take what is left in any order.
  datatype Phase =
    | Idle
    | Locking
    | Stopping(rest: set<Class>)
    | Launching(rest: set<Class>)
    | Adding(group: Class, worker: nat, rest: set<Class>)
    | Waiting
    | Returned
    | Closing
    | Stopped

  datatype State = State(
    phase: Phase,
    workers: map<Class, Scheduled>,
    locked: bool,
    life: map<nat, Life>,
    cancelled: set<nat>,
    stops: map<nat, Stopper>,
    stopping: nat,
    running: nat,
    ctxDone: bool,
    wanted: map<Class, Task>,
    before: map<Class, Scheduled>)

  const INITIAL := State(Idle, map[], false, map[], {}, map[], 0, 0, false, map[], map[])

  // newTasks: of equal tasks the first.
  function Wanted(tt: seq<Task>): map<Class, Task> {
    if tt == [] then map[]
    else
      var m, t := Wanted(tt[..|tt| - 1]), tt[|tt| - 1];
      if ClassOf(t) in m then m else m[ClassOf(t) := t]
  }

  datatype Action =
    | Call(tt: seq<Task>)
    | Lock
    | Receive(group: Class)
    | EndWorkers
    | Unlock
    | Check(group: Class, id: nat)
    | Add
    | EndTasks
    | Return
    | Cancel(worker: nat)
    | Await(worker: nat)
    | Delete(worker: nat)
    | Finish(worker: nat)
    | Exit(worker: nat)
    | Leave(worker: nat)
    | CancelContext
    | Stop
    | Close

  predicate At(s: State, w: nat, stage: Stage) {
    w in s.stops && s.stops[w].stage == stage
  }

  predicate Alive(s: State, w: nat, life: Life) {
    w in s.life && s.life[w] == life
  }

  // A new worker has an id no worker had.
  predicate Enabled(s: State, a: Action) {
    match a
    case Call(_) => s.phase.Idle? || s.phase.Returned?
    case Lock => s.phase.Locking? && !s.locked
    case Receive(c) => s.phase.Stopping? && c in s.phase.rest && c in s.workers
    case EndWorkers => s.phase == Stopping({})
    case Unlock => s.locked && !s.phase.Stopping?
    case Check(c, id) => s.phase.Launching? && c in s.phase.rest && !s.locked && id !in s.life
    case Add => s.phase.Adding? && !s.locked && s.phase.group in s.wanted
    case EndTasks => s.phase == Launching({})
    case Return => s.phase.Waiting? && s.stopping == 0
    case Cancel(w) => At(s, w, Cancelling)
    case Await(w) => At(s, w, Awaiting) && (s.ctxDone || !Alive(s, w, Running))
    case Delete(w) => At(s, w, Deleting) && !s.locked
    case Finish(w) => At(s, w, Finishing) && s.stopping > 0
    case Exit(w) => Alive(s, w, Running)
    case Leave(w) => Alive(s, w, Exited) && s.running > 0
    case CancelContext => !s.ctxDone
    case Stop => s.phase.Idle? || s.phase.Returned?
    case Close => s.phase.Closing? && s.running == 0
  }

  function Staged(s: State, w: nat, stage: Stage): State
    requires w in s.stops
  {
    s.(stops := s.stops[w := s.stops[w].(stage := stage)])
  }

  function Step(s: State, a: Action): State
    requires Enabled(s, a)
  {
    match a
    case Call(tt) =>
      s.(phase := Locking, stops := map[], stopping := 0, ctxDone := false, wanted := Wanted(tt), before := s.workers)
    case Lock => s.(phase := Stopping(s.workers.Keys), locked := true)
    case Receive(c) =>
      var rest := s.phase.rest - {c};
      if c in s.wanted then s.(phase := Stopping(rest))
      else s.(phase := Stopping(rest), stops := s.stops[s.workers[c].worker := Stopper(c, Cancelling)],
          stopping := s.stopping + 1)
    case EndWorkers => s.(phase := Launching(s.wanted.Keys))
    case Unlock => s.(locked := false)
    case Check(c, id) =>
      var rest := s.phase.rest - {c};
      if c in s.workers then s.(phase := Launching(rest))
      else s.(phase := Adding(c, id, rest), life := s.life[id := Running], running := s.running + 1)
    case Add =>
      var c := s.phase.group;
      s.(phase := Launching(s.phase.rest),
         workers := if c in s.workers then s.workers else s.workers[c := Scheduled(s.wanted[c], s.phase.worker)])
    case EndTasks => s.(phase := Waiting)
    case Return => s.(phase := Returned)
    case Cancel(w) => Staged(s, w, Awaiting).(cancelled := s.cancelled + {w})
    case Await(w) => Staged(s, w, Deleting)
    case Delete(w) => Staged(s, w, Finishing).(workers := s.workers - {s.stops[w].group})
    case Finish(w) => Staged(s, w, Finished).(stopping := s.stopping - 1)
    case Exit(w) => s.(life := s.life[w := Exited])
    case Leave(w) => s.(life := s.life[w := Gone], running := s.running - 1)
    case CancelContext => s.(ctxDone := true)
    case Stop => s.(phase := Closing, cancelled := s.cancelled + s.life.Keys)
    case Close => s.(phase := Stopped)
  }

  // ---- runs ----

  predicate CanRun(s: State, acts: seq<Action>)
    decreases acts
  {
    acts == [] || (Enabled(s, acts[0]) && CanRun(Step(s, acts[0]), acts[1..]))
  }

  function Run(s: State, acts: seq<Action>): State
    requires CanRun(s, acts)
    decreases acts
  {
    if acts == [] then s else Run(Step(s, acts[0]), acts[1..])
  }

  // ---- what holds in every state ----

  // One worker for every class, and different ones.
  predicate WorkersOk(s: State) {
    && (forall c :: c in s.workers ==> ClassOf(s.workers[c].task) == c && s.workers[c].worker in s.life)
    && forall c, d :: c in s.workers && d in s.workers && c != d ==> s.workers[c].worker != s.workers[d].worker
  }

  // Whether the worker w is one the runner still has.
  predicate Held(s: State, w: nat) {
    (exists c :: c in s.workers && s.workers[c].worker == w) || (s.phase.Adding? && s.phase.worker == w)
  }

  // No worker is forgotten while it runs: it is held, or was asked to stop.
  predicate NoLeak(s: State) {
    forall w :: w in s.life && s.life[w] == Running ==> Held(s, w) || w in s.cancelled
  }

  // Steps the goroutine still has to take.
  function Rank(x: Stage): nat {
    match x
    case Cancelling => 4
    case Awaiting => 3
    case Deleting => 2
    case Finishing => 1
    case Finished => 0
  }

  // The goroutine that stops w: w was the worker of a class not wanted. It
  // leaves the map only once it was cancelled and has exited, unless the
  // context is done.
  predicate StopperOk(s: State, w: nat)
    requires w in s.stops
  {
    var c, rank := s.stops[w].group, Rank(s.stops[w].stage);
    && w in s.life && c in s.before && s.before[c].worker == w && c !in s.wanted
    && (if rank >= 2 then c in s.workers && s.workers[c] == s.before[c] else c !in s.workers)
    && (rank <= 3 ==> w in s.cancelled)
    && (rank <= 2 ==> s.ctxDone || !Alive(s, w, Running))
  }

  predicate StopsOk(s: State) {
    forall w :: w in s.stops ==> StopperOk(s, w)
  }

  // A class of before that is not wanted has its stopper, unless it is still to come.
  predicate Covered(s: State, rest: set<Class>) {
    forall c :: c in s.before && c !in s.wanted && c !in rest ==>
      s.before[c].worker in s.stops && s.stops[s.before[c].worker].group == c
  }

  // A wanted class keeps its worker.
  predicate Kept(s: State) {
    forall c :: c in s.before && c in s.wanted ==> c in s.workers && s.workers[c] == s.before[c]
  }

  // Workers of classes not wanted are only those still to be deleted.
  predicate Leftover(s: State, rest: set<Class>) {
    forall c :: c in s.workers && c !in s.wanted ==>
      c in rest || (s.workers[c].worker in s.stops && Rank(s.stops[s.workers[c].worker].stage) >= 2)
  }

  // A wanted class has a worker for the first of its tasks, or is to get one.
  predicate Launched(s: State, rest: set<Class>) {
    && (forall c :: c in s.wanted ==> ClassOf(s.wanted[c]) == c)
    && (forall c :: c in s.wanted && c !in s.workers ==> c in rest)
    && (forall c :: c in s.workers && c in s.wanted && c !in s.before ==> s.workers[c].task == s.wanted[c])
  }

  predicate AllFinished(s: State) {
    forall w :: w in s.stops ==> s.stops[w].stage == Finished
  }

  predicate PhaseOk(s: State) {
    match s.phase
    case Idle => s.workers == map[] && s.life == map[] && s.stops == map[]
    case Locking => s.workers == s.before && s.stops == map[] && Launched(s, s.wanted.Keys)
    case Stopping(rest) =>
      && s.locked && s.workers == s.before && rest <= s.before.Keys
      && (forall c :: c in rest ==> s.before[c].worker !in s.stops)
      && Covered(s, rest) && Leftover(s, rest) && Launched(s, s.wanted.Keys)
    case Launching(rest) => rest <= s.wanted.Keys && Covered(s, {}) && Leftover(s, {}) && Launched(s, rest)
    case Adding(c, w, rest) =>
      && rest <= s.wanted.Keys && c in s.wanted && c !in s.workers && c !in rest && w in s.life
      && (forall d :: d in s.workers ==> s.workers[d].worker != w)
      && Covered(s, {}) && Leftover(s, {}) && Launched(s, rest + {c})
    case Waiting => Covered(s, {}) && Leftover(s, {}) && Launched(s, {})
    case Returned =>
      Covered(s, {}) && Leftover(s, {}) && Launched(s, {}) && AllFinished(s)
    case Closing => s.life.Keys <= s.cancelled && AllFinished(s)
    case Stopped => (forall w :: w in s.life ==> s.life[w] == Gone) && AllFinished(s)
  }

  function StopsAbove(s: State, k: nat): set<nat> {
    set w | w in s.stops && Rank(s.stops[w].stage) > k
  }

  function NotGone(s: State): set<nat> {
    set w | w in s.life && s.life[w] != Gone
  }

  // The wait groups count the goroutines that are not done.
  predicate Counted(s: State) {
    s.stopping == |StopsAbove(s, 0)| && s.running == |NotGone(s)|
  }

  predicate Inv(s: State) {
    && WorkersOk(s) && NoLeak(s) && StopsOk(s) && PhaseOk(s) && Counted(s)
    && (!s.phase.Idle? && !s.phase.Closing? && !s.phase.Stopped? ==> Kept(s))
  }

  lemma {:induction false} WantedOk(tt: seq<Task>)
    ensures forall c :: c in Wanted(tt) ==> ClassOf(Wanted(tt)[c]) == c
    ensures Wanted(tt).Keys == set t | t in tt :: ClassOf(t)
  {
    if tt != [] {
      var front, t := tt[..|tt| - 1], tt[|tt| - 1];
      WantedOk(front);
      assert tt == front + [t];
      assert forall u :: u in tt <==> u in front || u == t;
    }
  }

  // ---- counting ----

  lemma CountRemoved(a: set<nat>, b: set<nat>, w: nat)
    requires w in a && b == a - {w}
    ensures |b| == |a| - 1
  {
  }

  lemma CountAdded(a: set<nat>, b: set<nat>, w: nat)
    requires w !in a && b == a + {w}
    ensures |b| == |a| + 1
  {
  }

  // ---- every step keeps it ----

  lemma CallKeeps(s: State, tt: seq<Task>)
    requires Inv(s) && Enabled(s, Call(tt))
    ensures Inv(Step(s, Call(tt)))
  {
    WantedOk(tt);
    var n := Step(s, Call(tt));
    assert StopsAbove(n, 0) == {};
    SameWorkers(s, n);
  }

  lemma LockKeeps(s: State)
    requires Inv(s) && Enabled(s, Lock)
    ensures Inv(Step(s, Lock))
  {
    var n := Step(s, Lock);
    SameWorkers(s, n);
    assert StopsAbove(n, 0) == StopsAbove(s, 0);
  }

  lemma ReceiveKeeps(s: State, c: Class)
    requires Inv(s) && Enabled(s, Receive(c))
    ensures Inv(Step(s, Receive(c)))
  {
    if c in s.wanted {
      SameStops(s, Step(s, Receive(c)));
      SameWorkers(s, Step(s, Receive(c)));
      PassPhaseOk(s, c);
      hide StopsOk, PhaseOk, WorkersOk, NoLeak, Counted;
    } else {
      SpawnKeeps(s, c);
    }
  }

  lemma PassPhaseOk(s: State, c: Class)
    requires PhaseOk(s) && Enabled(s, Receive(c)) && c in s.wanted
    ensures PhaseOk(Step(s, Receive(c)))
  {
  }

  // Stoppers that stay, while the map, the lives and the waits do.
  lemma SameStops(s: State, n: State)
    requires StopsOk(s) && Counted(s) && n.stops == s.stops && n.stopping == s.stopping && n.running == s.running
    requires n.workers == s.workers && n.life == s.life && s.cancelled <= n.cancelled && (s.ctxDone ==> n.ctxDone)
    requires n.before == s.before && n.wanted == s.wanted
    ensures StopsOk(n) && Counted(n)
  {
    forall w | w in n.stops
      ensures StopperOk(n, w)
    {
      assert StopperOk(s, w);
    }
    assert StopsAbove(n, 0) == StopsAbove(s, 0) && NotGone(n) == NotGone(s);
  }

  // Workers that stay, and at most more that are cancelled.
  lemma SameWorkers(s: State, n: State)
    requires WorkersOk(s) && NoLeak(s) && n.workers == s.workers && n.life == s.life && s.cancelled <= n.cancelled
    requires !s.phase.Adding?
    ensures WorkersOk(n) && NoLeak(n) && NotGone(n) == NotGone(s)
  {
    forall w | w in n.life && n.life[w] == Running
      ensures Held(n, w) || w in n.cancelled
    {
      assert Held(s, w) || w in s.cancelled;
    }
  }

  // A worker whose class is not wanted gets a goroutine that stops it.
  lemma SpawnKeeps(s: State, c: Class)
    requires Inv(s) && Enabled(s, Receive(c)) && c !in s.wanted
    ensures Inv(Step(s, Receive(c)))
  {
    SpawnPhaseOk(s, c);
    SpawnStopsOk(s, c);
    hide StopsOk, PhaseOk, Counted, WorkersOk, NoLeak, NotGone;
    SameWorkers(s, Step(s, Receive(c)));
  }

  lemma SpawnStopsOk(s: State, c: Class)
    requires WorkersOk(s) && StopsOk(s) && PhaseOk(s) && Counted(s) && Enabled(s, Receive(c)) && c !in s.wanted
    ensures StopsOk(Step(s, Receive(c))) && Counted(Step(s, Receive(c)))
  {
    hide Covered, Leftover, Launched, Counted;
    var n, w := Step(s, Receive(c)), s.workers[c].worker;
    assert w !in s.stops && c in s.before && s.before[c].worker == w;
    forall v | v in n.stops
      ensures StopperOk(n, v)
    {
      if v != w {
        assert StopperOk(s, v);
        assert n.stops[v] == s.stops[v];
      }
    }
    SpawnCounted(s, c);
  }

  lemma SpawnCounted(s: State, c: Class)
    requires Counted(s) && Enabled(s, Receive(c)) && c !in s.wanted && s.workers[c].worker !in s.stops
    ensures Counted(Step(s, Receive(c)))
  {
    var n, w := Step(s, Receive(c)), s.workers[c].worker;
    assert NotGone(n) == NotGone(s);
    CountAdded(StopsAbove(s, 0), StopsAbove(n, 0), w);
  }

  lemma SpawnPhaseOk(s: State, c: Class)
    requires WorkersOk(s) && PhaseOk(s) && Enabled(s, Receive(c)) && c !in s.wanted
    ensures PhaseOk(Step(s, Receive(c)))
  {
    var n, w, rest := Step(s, Receive(c)), s.workers[c].worker, s.phase.rest;
    assert Launched(n, n.wanted.Keys);
    assert Leftover(n, rest - {c});
    forall d | d in s.before && d !in s.wanted && d !in rest - {c}
      ensures s.before[d].worker in n.stops && n.stops[s.before[d].worker].group == d
    {
    }
  }

  // Only the lock, the context or what is cancelled changes.
  lemma SamePhase(s: State, n: State)
    requires PhaseOk(s) && n.phase == s.phase && n.workers == s.workers && n.life == s.life && n.stops == s.stops
    requires n.before == s.before && n.wanted == s.wanted && s.cancelled <= n.cancelled
    requires s.phase.Stopping? ==> n.locked == s.locked
    ensures PhaseOk(n)
  {
    SameSets(s, n);
    hide Covered, Leftover, Launched;
  }

  lemma SameSets(s: State, n: State)
    requires n.workers == s.workers && n.stops == s.stops && n.before == s.before && n.wanted == s.wanted
    ensures forall rest :: Covered(s, rest) ==> Covered(n, rest)
    ensures forall rest :: Leftover(s, rest) ==> Leftover(n, rest)
    ensures forall rest :: Launched(s, rest) ==> Launched(n, rest)
  {
  }

  lemma SameKept(s: State, n: State)
    requires n.workers == s.workers && n.before == s.before && n.wanted == s.wanted
    ensures Kept(s) == Kept(n)
  {
  }

  lemma UnlockKeeps(s: State, a: Action)
    requires Inv(s) && Enabled(s, a) && (a.Unlock? || a.CancelContext?)
    ensures Inv(Step(s, a))
  {
    hide StopsOk, Counted, WorkersOk, NoLeak, PhaseOk, Kept;
    var n := Step(s, a);
    SameStops(s, n);
    SamePhase(s, n);
    SameKept(s, n);
    SameAdding(s, n);
  }

  // The caller has taken all there is.
  lemma EndsKeep(s: State, a: Action)
    requires Inv(s) && Enabled(s, a) && (a.EndWorkers? || a.EndTasks?)
    ensures Inv(Step(s, a))
  {
    hide StopsOk, Counted, WorkersOk, NoLeak, Covered, Leftover, Launched, Kept;
    var n := Step(s, a);
    SameStops(s, n);
    SameSets(s, n);
    SameKept(s, n);
    SameWorkers(s, n);
  }

  lemma SameAdding(s: State, n: State)
    requires WorkersOk(s) && NoLeak(s) && n.workers == s.workers && n.life == s.life && s.cancelled <= n.cancelled
    requires n.phase == s.phase
    ensures WorkersOk(n) && NoLeak(n) && NotGone(n) == NotGone(s)
  {
    forall w | w in n.life && n.life[w] == Running
      ensures Held(n, w) || w in n.cancelled
    {
      assert Held(s, w) || w in s.cancelled;
    }
  }

  // A wanted class that has a worker is passed over.
  lemma PassKeeps(s: State, c: Class, id: nat)
    requires Inv(s) && Enabled(s, Check(c, id)) && c in s.workers
    ensures Inv(Step(s, Check(c, id)))
  {
    hide StopsOk, Counted, WorkersOk, NoLeak, Kept;
    var n := Step(s, Check(c, id));
    SameStops(s, n);
    SameKept(s, n);
    SameWorkers(s, n);
  }

  // A new worker starts before it is in the map.
  lemma StartKeeps(s: State, c: Class, id: nat)
    requires Inv(s) && Enabled(s, Check(c, id)) && c !in s.workers
    ensures Inv(Step(s, Check(c, id)))
  {
    hide StopsOk, Counted, NoLeak, Kept;
    var n := Step(s, Check(c, id));
    StartStops(s, c, id);
    StartHeld(s, c, id);
    SameKept(s, n);
    SameSets(s, n);
    assert Launched(n, n.phase.rest + {c});
    hide Covered, Leftover, Launched;
  }

  lemma StartStops(s: State, c: Class, id: nat)
    requires StopsOk(s) && Counted(s) && Enabled(s, Check(c, id)) && c !in s.workers
    ensures StopsOk(Step(s, Check(c, id))) && Counted(Step(s, Check(c, id)))
  {
    hide Counted;
    var n := Step(s, Check(c, id));
    forall w | w in n.stops
      ensures StopperOk(n, w)
    {
      assert StopperOk(s, w);
    }
    StartCounted(s, c, id);
  }

  lemma StartCounted(s: State, c: Class, id: nat)
    requires Counted(s) && Enabled(s, Check(c, id)) && c !in s.workers
    ensures Counted(Step(s, Check(c, id)))
  {
    hide NotGone, StopsAbove;
    var n := Step(s, Check(c, id));
    SameAbove(s, n);
    NewNotGone(s, n, id);
  }

  lemma SameAbove(s: State, n: State)
    requires n.stops == s.stops
    ensures StopsAbove(n, 0) == StopsAbove(s, 0)
  {
  }

  lemma NewNotGone(s: State, n: State, id: nat)
    requires id !in s.life && n.life == s.life[id := Running]
    ensures |NotGone(n)| == |NotGone(s)| + 1
  {
    CountAdded(NotGone(s), NotGone(n), id);
  }

  lemma StartHeld(s: State, c: Class, id: nat)
    requires NoLeak(s) && Enabled(s, Check(c, id)) && c !in s.workers
    ensures NoLeak(Step(s, Check(c, id)))
  {
    var n := Step(s, Check(c, id));
    forall w | w in n.life && n.life[w] == Running
      ensures Held(n, w) || w in n.cancelled
    {
      assert w != id ==> Held(s, w) || w in s.cancelled;
    }
  }

  lemma AddKeepsInv(s: State)
    requires Inv(s) && Enabled(s, Add)
    ensures Inv(Step(s, Add))
  {
    assert s.phase.group !in s.workers;
    AddWorkers(s);
    AddStops(s);
    AddHeld(s);
    AddPhase(s);
    hide StopsOk, Counted, NoLeak, PhaseOk, WorkersOk, Kept;
  }

  lemma AddWorkers(s: State)
    requires WorkersOk(s) && PhaseOk(s) && Kept(s) && Enabled(s, Add)
    ensures WorkersOk(Step(s, Add)) && Kept(Step(s, Add))
  {
    hide Covered, Leftover;
  }

  lemma AddPhase(s: State)
    requires PhaseOk(s) && Enabled(s, Add)
    ensures PhaseOk(Step(s, Add))
  {
    var n := Step(s, Add);
    assert Leftover(n, {}) && Covered(n, {}) && Launched(n, n.phase.rest);
    hide Leftover, Covered, Launched;
  }

  lemma AddStops(s: State)
    requires StopsOk(s) && Counted(s) && Enabled(s, Add) && s.phase.group !in s.workers
    ensures StopsOk(Step(s, Add)) && Counted(Step(s, Add))
  {
    var n := Step(s, Add);
    forall w | w in n.stops
      ensures StopperOk(n, w)
    {
      assert StopperOk(s, w);
    }
    assert StopsAbove(n, 0) == StopsAbove(s, 0) && NotGone(n) == NotGone(s);
  }

  lemma AddHeld(s: State)
    requires NoLeak(s) && Enabled(s, Add) && s.phase.group !in s.workers
    ensures NoLeak(Step(s, Add))
  {
    var n := Step(s, Add);
    forall w | w in n.life && n.life[w] == Running
      ensures Held(n, w) || w in n.cancelled
    {
      assert Held(s, w) || w in s.cancelled;
      if w == s.phase.worker {
        assert n.workers[s.phase.group].worker == w;
      } else if w !in s.cancelled {
        var c :| c in s.workers && s.workers[c].worker == w;
        assert n.workers[c].worker == w;
      }
    }
  }

  lemma ReturnKeeps(s: State)
    requires Inv(s) && Enabled(s, Return)
    ensures Inv(Step(s, Return))
  {
    hide StopsOk, WorkersOk, NoLeak, Kept;
    var n := Step(s, Return);
    SameStops(s, n);
    SameKept(s, n);
    SameWorkers(s, n);
    SameSets(s, n);
    NoneAbove(s);
    hide Covered, Leftover, Launched, Counted;
  }

  lemma NoneAbove(s: State)
    requires Counted(s) && s.stopping == 0
    ensures AllFinished(s)
  {
    assert StopsAbove(s, 0) == {};
    forall w | w in s.stops
      ensures s.stops[w].stage == Finished
    {
      assert w !in StopsAbove(s, 0);
    }
  }

  // ---- the goroutine that stops a worker ----

  lemma StopperCounted(s: State, n: State, w: nat)
    requires Counted(s) && w in s.stops && n.stops.Keys == s.stops.Keys && n.life == s.life
    requires forall v :: v in s.stops && v != w ==> n.stops[v] == s.stops[v]
    requires Rank(s.stops[w].stage) > 0 && n.running == s.running
    requires n.stopping == if Rank(n.stops[w].stage) > 0 then s.stopping else s.stopping - 1
    ensures Counted(n)
  {
    assert NotGone(n) == NotGone(s);
    if Rank(n.stops[w].stage) > 0 {
      assert StopsAbove(n, 0) == StopsAbove(s, 0);
    } else {
      CountRemoved(StopsAbove(s, 0), StopsAbove(n, 0), w);
    }
  }

  // One goroutine moves on, the map stays as it is.
  lemma StageSets(s: State, n: State, w: nat)
    requires w in s.stops && n.workers == s.workers && n.before == s.before && n.wanted == s.wanted
    requires n.stops.Keys == s.stops.Keys && forall v :: v in s.stops && v != w ==> n.stops[v] == s.stops[v]
    requires n.stops[w].group == s.stops[w].group
    requires Rank(s.stops[w].stage) >= 2 && Rank(n.stops[w].stage) < 2 ==> s.stops[w].group !in s.workers
    requires forall c :: c in s.workers && s.workers[c].worker == w ==> c == s.stops[w].group
    ensures forall rest :: Covered(s, rest) ==> Covered(n, rest)
    ensures forall rest :: Leftover(s, rest) ==> Leftover(n, rest)
    ensures forall rest :: Launched(s, rest) ==> Launched(n, rest)
  {
  }

  lemma StagePhase(s: State, n: State, w: nat)
    requires PhaseOk(s) && n.phase == s.phase && n.life == s.life && n.locked == s.locked && s.cancelled <= n.cancelled
    requires w in s.stops && n.workers == s.workers && n.before == s.before && n.wanted == s.wanted
    requires n.stops.Keys == s.stops.Keys && forall v :: v in s.stops && v != w ==> n.stops[v] == s.stops[v]
    requires n.stops[w].group == s.stops[w].group && s.stops[w].stage != Finished
    requires Rank(s.stops[w].stage) >= 2 && Rank(n.stops[w].stage) < 2 ==> s.stops[w].group !in s.workers
    requires forall c :: c in s.workers && s.workers[c].worker == w ==> c == s.stops[w].group
    ensures PhaseOk(n)
  {
    StageSets(s, n, w);
    hide Covered, Leftover, Launched;
  }

  // The worker of a stopper has the class of the stopper.
  lemma OwnClass(s: State, w: nat)
    requires WorkersOk(s) && w in s.stops && StopperOk(s, w)
    ensures forall c :: c in s.workers && s.workers[c].worker == w && Rank(s.stops[w].stage) >= 2 ==>
            c == s.stops[w].group
  {
  }

  lemma OneStopper(s: State, w: nat)
    requires StopsOk(s) && w in s.stops
    ensures StopperOk(s, w)
  {
  }

  lemma CancelKeeps(s: State, w: nat)
    requires Inv(s) && Enabled(s, Cancel(w))
    ensures Inv(Step(s, Cancel(w)))
  {
    hide PhaseOk, NoLeak, Counted, StopsOk, WorkersOk, Kept, StopperOk, Held;
    var n := Step(s, Cancel(w));
    OneStopper(s, w);
    OwnClass(s, w);
    CancelStops(s, w);
    StagePhase(s, n, w);
    StopperCounted(s, n, w);
    SameAdding(s, n);
    SameKept(s, n);
  }

  lemma CancelStops(s: State, w: nat)
    requires StopsOk(s) && Enabled(s, Cancel(w))
    ensures StopsOk(Step(s, Cancel(w)))
  {
    var n := Step(s, Cancel(w));
    forall v | v in n.stops
      ensures StopperOk(n, v)
    {
      assert StopperOk(s, v);
    }
  }

  lemma AwaitKeeps(s: State, w: nat)
    requires Inv(s) && Enabled(s, Await(w))
    ensures Inv(Step(s, Await(w)))
  {
    hide PhaseOk, NoLeak, Counted, StopsOk, WorkersOk, Kept, StopperOk, Held;
    var n := Step(s, Await(w));
    OneStopper(s, w);
    OwnClass(s, w);
    AwaitStops(s, w);
    StagePhase(s, n, w);
    StopperCounted(s, n, w);
    SameAdding(s, n);
    SameKept(s, n);
  }

  lemma AwaitStops(s: State, w: nat)
    requires StopsOk(s) && Enabled(s, Await(w))
    ensures StopsOk(Step(s, Await(w)))
  {
    var n := Step(s, Await(w));
    forall v | v in n.stops
      ensures StopperOk(n, v)
    {
      assert StopperOk(s, v);
    }
  }

  lemma FinishKeeps(s: State, w: nat)
    requires Inv(s) && Enabled(s, Finish(w))
    ensures Inv(Step(s, Finish(w)))
  {
    hide PhaseOk, NoLeak, Counted, StopsOk, WorkersOk, Kept, StopperOk, Held;
    var n := Step(s, Finish(w));
    FinishPhase(s, w);
    FinishStops(s, w);
    StopperCounted(s, n, w);
    SameAdding(s, n);
    SameKept(s, n);
  }

  lemma FinishStops(s: State, w: nat)
    requires StopsOk(s) && Enabled(s, Finish(w))
    ensures StopsOk(Step(s, Finish(w)))
  {
    var n := Step(s, Finish(w));
    forall v | v in n.stops
      ensures StopperOk(n, v)
    {
      assert StopperOk(s, v);
    }
  }

  lemma FinishPhase(s: State, w: nat)
    requires PhaseOk(s) && Enabled(s, Finish(w))
    ensures PhaseOk(Step(s, Finish(w)))
  {
    FinishSets(s, w);
    hide Covered, Leftover, Launched;
  }

  lemma FinishSets(s: State, w: nat)
    requires Enabled(s, Finish(w))
    ensures var n := Step(s, Finish(w));
            && (forall rest :: Covered(s, rest) ==> Covered(n, rest))
            && (forall rest :: Leftover(s, rest) ==> Leftover(n, rest))
            && (forall rest :: Launched(s, rest) ==> Launched(n, rest))
  {
  }

  // The map loses one worker, which was cancelled.
  lemma DeleteKeepsInv(s: State, w: nat)
    requires Inv(s) && Enabled(s, Delete(w))
    ensures Inv(Step(s, Delete(w)))
  {
    hide PhaseOk, NoLeak, Counted, StopsOk, WorkersOk, Kept, StopperOk, Held;
    var n := Step(s, Delete(w));
    OneStopper(s, w);
    DeletePhase(s, w);
    DeleteStops(s, w);
    DeleteHeld(s, w);
    DeleteWorkers(s, w);
    StopperCounted(s, n, w);
  }

  lemma DeleteWorkers(s: State, w: nat)
    requires WorkersOk(s) && w in s.stops && StopperOk(s, w) && Enabled(s, Delete(w))
    ensures WorkersOk(Step(s, Delete(w))) && (Kept(s) ==> Kept(Step(s, Delete(w))))
  {
  }

  lemma DeleteStops(s: State, w: nat)
    requires StopsOk(s) && Enabled(s, Delete(w))
    ensures StopsOk(Step(s, Delete(w)))
  {
    var n := Step(s, Delete(w));
    assert StopperOk(s, w);
    forall v | v in n.stops
      ensures StopperOk(n, v)
    {
      assert StopperOk(s, v);
    }
  }

  lemma DeleteHeld(s: State, w: nat)
    requires NoLeak(s) && w in s.stops && StopperOk(s, w) && Enabled(s, Delete(w))
    ensures NoLeak(Step(s, Delete(w)))
  {
    var n := Step(s, Delete(w));
    forall v | v in n.life && n.life[v] == Running
      ensures Held(n, v) || v in n.cancelled
    {
      assert Held(s, v) || v in s.cancelled;
      if v !in s.cancelled && !(s.phase.Adding? && s.phase.worker == v) {
        var c :| c in s.workers && s.workers[c].worker == v;
        assert v != w && c in n.workers;
      }
    }
  }

  lemma DeletePhase(s: State, w: nat)
    requires WorkersOk(s) && PhaseOk(s) && w in s.stops && StopperOk(s, w) && Enabled(s, Delete(w))
    ensures PhaseOk(Step(s, Delete(w)))
  {
    DeleteSets(s, w);
    hide Covered, Leftover, Launched;
  }

  lemma DeleteSets(s: State, w: nat)
    requires WorkersOk(s) && w in s.stops && StopperOk(s, w) && Enabled(s, Delete(w))
    ensures var n := Step(s, Delete(w));
            && (forall rest :: Covered(s, rest) ==> Covered(n, rest))
            && (forall rest :: Leftover(s, rest) ==> Leftover(n, rest))
            && (forall rest :: Launched(s, rest) ==> Launched(n, rest))
  {
  }

  // ---- the workers ----

  lemma LifeStops(s: State, n: State)
    requires StopsOk(s) && n.stops == s.stops && n.workers == s.workers && n.before == s.before && n.wanted == s.wanted
    requires n.cancelled == s.cancelled && n.ctxDone == s.ctxDone && n.life.Keys == s.life.Keys
    requires forall w :: Alive(n, w, Running) ==> Alive(s, w, Running)
    ensures StopsOk(n)
  {
    forall w | w in n.stops
      ensures StopperOk(n, w)
    {
      assert StopperOk(s, w);
    }
  }

  lemma LifeLeak(s: State, n: State)
    requires NoLeak(s) && WorkersOk(s) && n.workers == s.workers && n.phase == s.phase && n.cancelled == s.cancelled
    requires n.life.Keys == s.life.Keys && forall w :: Alive(n, w, Running) ==> Alive(s, w, Running)
    ensures NoLeak(n) && WorkersOk(n)
  {
    forall w | w in n.life && n.life[w] == Running
      ensures Held(n, w) || w in n.cancelled
    {
      assert Alive(n, w, Running);
      assert Held(s, w) || w in s.cancelled;
    }
  }

  lemma LifePhase(s: State, n: State)
    requires PhaseOk(s) && n.phase == s.phase && n.workers == s.workers && n.stops == s.stops && n.before == s.before
    requires n.wanted == s.wanted && n.cancelled == s.cancelled && n.locked == s.locked && n.life.Keys == s.life.Keys
    requires !s.phase.Stopped? && !s.phase.Idle?
    ensures PhaseOk(n)
  {
    SameSets(s, n);
    hide Covered, Leftover, Launched;
  }

  lemma ExitKeeps(s: State, a: Action)
    requires Inv(s) && Enabled(s, a) && (a.Exit? || a.Leave?)
    ensures Inv(Step(s, a))
  {
    var n := Step(s, a);
    LifeStops(s, n);
    LifeLeak(s, n);
    SameKept(s, n);
    LifePhase(s, n);
    LifeCounted(s, a);
    hide StopsOk, NoLeak, WorkersOk, PhaseOk, Counted, Kept;
  }

  lemma LifeCounted(s: State, a: Action)
    requires Counted(s) && Enabled(s, a) && (a.Exit? || a.Leave?)
    ensures Counted(Step(s, a))
  {
    var n := Step(s, a);
    assert StopsAbove(n, 0) == StopsAbove(s, 0);
    if a.Exit? {
      assert NotGone(n) == NotGone(s);
    } else {
      CountRemoved(NotGone(s), NotGone(n), a.worker);
    }
  }

  // ---- closing the runner ----

  lemma StopKeeps(s: State)
    requires Inv(s) && Enabled(s, Stop)
    ensures Inv(Step(s, Stop))
  {
    hide StopsOk, NoLeak, WorkersOk, Covered, Leftover, Launched, Counted;
    var n := Step(s, Stop);
    SameWorkers(s, n);
    SameStops(s, n);
  }

  lemma CloseKeeps(s: State)
    requires Inv(s) && Enabled(s, Close)
    ensures Inv(Step(s, Close))
  {
    hide StopsOk, NoLeak, WorkersOk, Covered, Leftover, Launched, Counted;
    var n := Step(s, Close);
    SameWorkers(s, n);
    SameStops(s, n);
    NoneLeft(s);
  }

  lemma NoneLeft(s: State)
    requires Counted(s) && s.running == 0
    ensures forall w :: w in s.life ==> s.life[w] == Gone
  {
    assert NotGone(s) == {};
    forall w | w in s.life
      ensures s.life[w] == Gone
    {
      assert w !in NotGone(s);
    }
  }

  lemma StepKeeps(s: State, a: Action)
    requires Inv(s) && Enabled(s, a)
    ensures Inv(Step(s, a))
  {
    hide Inv, Enabled, Step;
    match a
    case Call(tt) => CallKeeps(s, tt);
    case Lock => LockKeeps(s);
    case Receive(c) => ReceiveKeeps(s, c);
    case EndWorkers => EndsKeep(s, a);
    case Unlock => UnlockKeeps(s, a);
    case Check(c, id) => if c in s.workers { PassKeeps(s, c, id); } else { StartKeeps(s, c, id); }
    case Add => AddKeepsInv(s);
    case EndTasks => EndsKeep(s, a);
    case Return => ReturnKeeps(s);
    case Cancel(w) => CancelKeeps(s, w);
    case Await(w) => AwaitKeeps(s, w);
    case Delete(w) => DeleteKeepsInv(s, w);
    case Finish(w) => FinishKeeps(s, w);
    case Exit(w) => ExitKeeps(s, a);
    case Leave(w) => ExitKeeps(s, a);
    case CancelContext => UnlockKeeps(s, a);
    case Stop => StopKeeps(s);
    case Close => CloseKeeps(s);
  }

  // The set of tasks a call builds first.
  method NewTasks(tt: seq<Task>) returns (m: HashMap)
    ensures fresh(m) && m.Valid() && Contents(m.lookup) == Wanted(tt)
  {
    hide Contents;
    m := new HashMap();
    for i := 0 to |tt|
      invariant fresh(m) && m.Valid() && Contents(m.lookup) == Wanted(tt[..i])
    {
      assert tt[..i + 1][..i] == tt[..i];
      var _ := m.Add(tt[i]);
    }
    assert tt[..|tt|] == tt;
  }

  // ---- the main results ----

  lemma InitialOk()
    ensures Inv(INITIAL)
  {
    assert StopsAbove(INITIAL, 0) == {} && NotGone(INITIAL) == {};
  }

  lemma {:induction false} RunKeeps(s: State, acts: seq<Action>)
    requires Inv(s) && CanRun(s, acts)
    ensures Inv(Run(s, acts))
    decreases acts
  {
    hide Inv, Step, Enabled;
    if acts != [] {
      StepKeeps(s, acts[0]);
      RunKeeps(Step(s, acts[0]), acts[1..]);
    }
  }

  predicate Serial(acts: seq<Action>) {
    forall a :: a in acts ==> !a.Call? && !a.Stop?
  }

  lemma {:induction false} CallFrame(s: State, acts: seq<Action>)
    requires CanRun(s, acts) && Serial(acts)
    ensures var n := Run(s, acts);
            && n.wanted == s.wanted && n.before == s.before
            && (!s.ctxDone && CancelContext !in acts ==> !n.ctxDone)
    decreases acts
  {
    if acts != [] {
      assert acts[0] in acts && forall a :: a in acts[1..] ==> a in acts;
      StepFrame(s, acts[0]);
      hide Step, Enabled;
      CallFrame(Step(s, acts[0]), acts[1..]);
    }
  }

  lemma StepFrame(s: State, a: Action)
    requires Enabled(s, a) && !a.Call?
    ensures var n := Step(s, a);
            n.wanted == s.wanted && n.before == s.before && (!s.ctxDone && !a.CancelContext? ==> !n.ctxDone)
  {
    match a
    case Lock =>
    case Receive(c) =>
    case EndWorkers =>
    case Unlock =>
    case Check(c, id) =>
    case Add =>
    case EndTasks =>
    case Return =>
    case Cancel(w) =>
    case Await(w) =>
    case Delete(w) =>
    case Finish(w) =>
    case Exit(w) =>
    case Leave(w) =>
    case CancelContext =>
    case Stop =>
    case Close =>
  }

  // The task a class is launched with: of equal tasks the first.
  lemma {:induction false} WantedFirst(tt: seq<Task>, i: nat)
    requires i < |tt| && forall j :: 0 <= j < i ==> ClassOf(tt[j]) != ClassOf(tt[i])
    ensures ClassOf(tt[i]) in Wanted(tt) && Wanted(tt)[ClassOf(tt[i])] == tt[i]
    decreases |tt|
  {
    var front := tt[..|tt| - 1];
    WantedOk(front);
    if i < |front| {
      WantedFirst(front, i);
    } else {
      assert ClassOf(tt[i]) !in Wanted(front);
    }
  }

  // Whatever happened before, and however the steps of a call interleave: when
  // ApplyTasks returns there is one worker for every class of its tasks; a
  // class that had one keeps it, another has a new one for the first of its
  // tasks; the others were cancelled, and have exited unless the context was
  // cancelled; and no other worker runs on without having been cancelled.
  lemma ApplyTasksApplies(past: seq<Action>, tt: seq<Task>, acts: seq<Action>)
    requires CanRun(INITIAL, past) && Enabled(Run(INITIAL, past), Call(tt))
    requires CanRun(Step(Run(INITIAL, past), Call(tt)), acts) && Serial(acts)
    requires Run(Step(Run(INITIAL, past), Call(tt)), acts).phase.Returned?
    ensures var s := Run(INITIAL, past);
            var n := Run(Step(s, Call(tt)), acts);
            && n.workers.Keys == (set t | t in tt :: ClassOf(t))
            && (forall c, d :: c in n.workers && d in n.workers && c != d ==>
                n.workers[c].worker != n.workers[d].worker)
            && (forall c :: c in n.workers && c in s.workers ==> n.workers[c] == s.workers[c])
            && (forall c :: c in n.workers && c !in s.workers ==>
                  c in Wanted(tt) && n.workers[c].task == Wanted(tt)[c])
            && (forall c :: c in s.workers && c !in n.workers ==>
                  var w := s.workers[c].worker; w in n.cancelled && (CancelContext in acts || !Alive(n, w, Running)))
            && (forall w :: Alive(n, w, Running) ==>
                  w in n.cancelled || exists c :: c in n.workers && n.workers[c].worker == w)
  {
    InitialOk();
    RunKeeps(INITIAL, past);
    var s := Run(INITIAL, past);
    var m := Step(s, Call(tt));
    CallKeeps(s, tt);
    RunKeeps(m, acts);
    CallFrame(m, acts);
    WantedOk(tt);
    var n := Run(m, acts);
    assert n.wanted == Wanted(tt) && n.before == s.workers && (CancelContext !in acts ==> !n.ctxDone);
    hide Run, CanRun, Step, Wanted;
    ReturnedMeans(n);
  }

  lemma ReturnedMeans(n: State)
    requires Inv(n) && n.phase.Returned?
    ensures n.workers.Keys == n.wanted.Keys
    ensures forall c, d :: c in n.workers && d in n.workers && c != d ==> n.workers[c].worker != n.workers[d].worker
    ensures forall c :: c in n.workers && c in n.before ==> n.workers[c] == n.before[c]
    ensures forall c :: c in n.workers && c !in n.before ==> n.workers[c].task == n.wanted[c]
    ensures forall c :: c in n.before && c !in n.workers ==>
              n.before[c].worker in n.cancelled && (n.ctxDone || !Alive(n, n.before[c].worker, Running))
    ensures forall w :: Alive(n, w, Running) ==>
              w in n.cancelled || exists c :: c in n.workers && n.workers[c].worker == w
  {
    hide Counted;
    assert forall c :: c in n.workers ==> c in n.wanted;
    forall c | c in n.before && c !in n.workers
      ensures n.before[c].worker in n.cancelled && (n.ctxDone || !Alive(n, n.before[c].worker, Running))
    {
      assert StopperOk(n, n.before[c].worker);
    }
    forall w | Alive(n, w, Running)
      ensures w in n.cancelled || exists c :: c in n.workers && n.workers[c].worker == w
    {
      assert Held(n, w) || w in n.cancelled;
    }
  }

  // When Stop returns every worker that was ever started is gone, and no call
  // is served any more.
  lemma StopStops(acts: seq<Action>, tt: seq<Task>)
    requires CanRun(INITIAL, acts) && Run(INITIAL, acts).phase.Stopped?
    ensures var n := Run(INITIAL, acts); (forall w :: w in n.life ==> n.life[w] == Gone) && !Enabled(n, Call(tt))
  {
    InitialOk();
    RunKeeps(INITIAL, acts);
  }

  // ---- progress ----

  // Steps that do not wait on a caller or on a worker that was not asked to stop.
  predicate Forced(s: State, a: Action) {
    !a.Call? && !a.Stop? && !a.CancelContext? && (a.Exit? ==> a.worker in s.cancelled)
  }

  lemma {:induction false} FreshId(ids: set<nat>) returns (id: nat)
    ensures id !in ids && forall w :: w in ids ==> w < id
    decreases |ids|
  {
    if ids == {} {
      id := 0;
    } else {
      var w :| w in ids;
      var m := FreshId(ids - {w});
      id := if m > w then m else w + 1;
      assert forall v :: v in ids ==> v == w || v in ids - {w};
    }
  }

  // No call gets stuck: while one is on its way, some step of it can be taken,
  // if cancelled workers do exit.
  lemma NoDeadlock(s: State) returns (a: Action)
    requires Inv(s) && !s.phase.Idle? && !s.phase.Returned? && !s.phase.Stopped?
    ensures Enabled(s, a) && Forced(s, a)
  {
    hide WorkersOk, NoLeak, Kept, Covered, Leftover, Launched;
    match s.phase
    case Stopping(rest) =>
      if rest == {} {
        a := EndWorkers;
      } else {
        var c :| c in rest;
        a := Receive(c);
      }
    case Locking => a := if s.locked then Unlock else Lock;
    case Launching(rest) =>
      if s.locked {
        a := Unlock;
      } else if rest == {} {
        a := EndTasks;
      } else {
        var c :| c in rest;
        var id := FreshId(s.life.Keys);
        a := Check(c, id);
      }
    case Adding(_, _, _) => a := if s.locked then Unlock else Add;
    case Waiting =>
      if s.locked {
        a := Unlock;
      } else if s.stopping == 0 {
        a := Return;
      } else {
        a := StopperGoesOn(s);
      }
    case Closing =>
      if s.running == 0 {
        a := Close;
      } else {
        a := WorkerGoesOn(s);
      }
  }

  lemma StopperGoesOn(s: State) returns (a: Action)
    requires StopsOk(s) && Counted(s) && s.stopping > 0 && !s.locked
    ensures Enabled(s, a) && Forced(s, a)
  {
    var w :| w in StopsAbove(s, 0);
    OneStopper(s, w);
    match s.stops[w].stage
    case Cancelling => a := Cancel(w);
    case Awaiting => a := if s.ctxDone || !Alive(s, w, Running) then Await(w) else Exit(w);
    case Deleting => a := Delete(w);
    case Finishing => a := Finish(w);
  }

  lemma WorkerGoesOn(s: State) returns (a: Action)
    requires Counted(s) && s.running > 0 && s.life.Keys <= s.cancelled
    ensures Enabled(s, a) && Forced(s, a)
  {
    var w :| w in NotGone(s);
    a := if s.life[w] == Running then Exit(w) else Leave(w);
  }

  // ---- termination ----

  function PhaseSteps(s: State): nat {
    match s.phase
    case Locking => 11 + 8 * |s.workers.Keys| + 6 * |s.wanted.Keys|
    case Stopping(rest) => 9 + 8 * |rest| + 6 * |s.wanted.Keys|
    case Launching(rest) => 5 + 6 * |rest|
    case Adding(_, _, rest) => 7 + 6 * |rest|
    case Waiting => 2
    case Closing => 1
    case _ => 0
  }

  function StillRunning(s: State): set<nat> {
    set w | w in s.life && s.life[w] == Running
  }

  function StopperSteps(s: State): nat {
    |StopsAbove(s, 0)| + |StopsAbove(s, 1)| + |StopsAbove(s, 2)| + |StopsAbove(s, 3)|
  }

  function WorkerSteps(s: State): nat {
    |NotGone(s)| + |StillRunning(s)|
  }

  // The steps a call can still take, at most.
  function Measure(s: State): nat {
    PhaseSteps(s) + (if s.locked then 1 else 0) + StopperSteps(s) + WorkerSteps(s) + (if s.ctxDone then 0 else 1)
  }

  lemma SameStopperSteps(s: State, n: State)
    requires n.stops == s.stops
    ensures StopperSteps(n) == StopperSteps(s)
  {
    forall k | 0 <= k < 4
      ensures StopsAbove(n, k) == StopsAbove(s, k)
    {
    }
  }

  lemma SameWorkerSteps(s: State, n: State)
    requires n.life == s.life
    ensures WorkerSteps(n) == WorkerSteps(s)
  {
    assert NotGone(n) == NotGone(s) && StillRunning(n) == StillRunning(s);
  }

  lemma NewAbove(s: State, n: State, w: nat, k: nat)
    requires w !in s.stops && w in n.stops && n.stops == s.stops[w := n.stops[w]] && Rank(n.stops[w].stage) > k
    ensures |StopsAbove(n, k)| == |StopsAbove(s, k)| + 1
  {
    CountAdded(StopsAbove(s, k), StopsAbove(n, k), w);
  }

  lemma NewStopperSteps(s: State, n: State, w: nat)
    requires w !in s.stops && w in n.stops && n.stops == s.stops[w := n.stops[w]] && n.stops[w].stage == Cancelling
    ensures StopperSteps(n) == StopperSteps(s) + 4
  {
    hide StopsAbove;
    NewAbove(s, n, w, 0);
    NewAbove(s, n, w, 1);
    NewAbove(s, n, w, 2);
    NewAbove(s, n, w, 3);
  }

  lemma StageSteps(s: State, n: State, w: nat)
    requires w in s.stops && w in n.stops && n.stops == s.stops[w := n.stops[w]]
    requires Rank(n.stops[w].stage) == Rank(s.stops[w].stage) - 1
    ensures StopperSteps(n) == StopperSteps(s) - 1
  {
    var r := Rank(n.stops[w].stage);
    CountRemoved(StopsAbove(s, r), StopsAbove(n, r), w);
    forall k | 0 <= k < 4 && k != r
      ensures StopsAbove(n, k) == StopsAbove(s, k)
    {
    }
  }

  // Every step of a call brings its end nearer, so every call ends.
  lemma StepDescends(s: State, a: Action)
    requires Inv(s) && Enabled(s, a) && !a.Call? && !a.Stop?
    ensures Measure(Step(s, a)) < Measure(s)
  {
    hide WorkersOk, NoLeak, Kept, Covered, Leftover, Launched, StopsOk, Counted, StopperSteps, WorkerSteps, PhaseOk;
    var n := Step(s, a);
    match a
    case Cancel(w) => StageSteps(s, n, w); SameWorkerSteps(s, n); SamePhaseSteps(s, n);
    case Await(w) => StageSteps(s, n, w); SameWorkerSteps(s, n); SamePhaseSteps(s, n);
    case Delete(w) => StageSteps(s, n, w); SameWorkerSteps(s, n); DeletePhaseSteps(s, w);
    case Finish(w) => StageSteps(s, n, w); SameWorkerSteps(s, n); SamePhaseSteps(s, n);
    case Receive(c) => ReceiveDescends(s, c);
    case Check(c, id) => CheckDescends(s, c, id);
    case Exit(w) => SameStopperSteps(s, n); ExitDescends(s, a); SamePhaseSteps(s, n);
    case Leave(w) => SameStopperSteps(s, n); ExitDescends(s, a); SamePhaseSteps(s, n);
    case Lock => LockDescends(s);
    case Add => AddDescends(s);
    case EndWorkers => EndDescends(s, a);
    case EndTasks => EndDescends(s, a);
    case _ => LastDescends(s, a);
  }

  lemma LockDescends(s: State)
    requires PhaseOk(s) && Enabled(s, Lock)
    ensures Measure(Step(s, Lock)) < Measure(s)
  {
    hide Covered, Leftover, Launched, StopperSteps, WorkerSteps, AllFinished;
    SameSteps(s, Step(s, Lock));
  }

  lemma AddDescends(s: State)
    requires PhaseOk(s) && Enabled(s, Add)
    ensures Measure(Step(s, Add)) < Measure(s)
  {
    hide Covered, Leftover, Launched, StopperSteps, WorkerSteps, AllFinished;
    SameSteps(s, Step(s, Add));
  }

  lemma EndDescends(s: State, a: Action)
    requires PhaseOk(s) && Enabled(s, a) && (a.EndWorkers? || a.EndTasks?)
    ensures Measure(Step(s, a)) < Measure(s)
  {
    hide Covered, Leftover, Launched, StopperSteps, WorkerSteps, AllFinished;
    SameSteps(s, Step(s, a));
  }

  lemma LastDescends(s: State, a: Action)
    requires PhaseOk(s) && Enabled(s, a) && (a.Unlock? || a.Return? || a.CancelContext? || a.Close?)
    ensures Measure(Step(s, a)) < Measure(s)
  {
    hide Covered, Leftover, Launched, StopperSteps, WorkerSteps, AllFinished;
    var n := Step(s, a);
    match a
    case Unlock => SameSteps(s, n);
    case Return => SameSteps(s, n);
    case CancelContext => SameSteps(s, n);
    case Close => SameSteps(s, n);
  }

  lemma SameSteps(s: State, n: State)
    requires n.stops == s.stops && n.life == s.life
    ensures StopperSteps(n) == StopperSteps(s) && WorkerSteps(n) == WorkerSteps(s)
  {
    hide StopperSteps, WorkerSteps;
    SameStopperSteps(s, n);
    SameWorkerSteps(s, n);
  }

  lemma SamePhaseSteps(s: State, n: State)
    requires n.phase == s.phase && n.workers == s.workers && n.wanted == s.wanted
    ensures PhaseSteps(n) == PhaseSteps(s)
  {
  }

  lemma NotLocking(s: State, w: nat)
    requires PhaseOk(s) && w in s.stops
    ensures !s.phase.Locking?
  {
    hide Covered, Leftover, Launched, AllFinished;
  }

  lemma OtherPhaseSteps(s: State, n: State)
    requires n.phase == s.phase && n.wanted == s.wanted && !s.phase.Locking?
    ensures PhaseSteps(n) == PhaseSteps(s)
  {
  }

  lemma DeletePhaseSteps(s: State, w: nat)
    requires PhaseOk(s) && Enabled(s, Delete(w))
    ensures PhaseSteps(Step(s, Delete(w))) == PhaseSteps(s)
  {
    hide PhaseOk, PhaseSteps;
    NotLocking(s, w);
    OtherPhaseSteps(s, Step(s, Delete(w)));
  }

  lemma OneLess(a: set<Class>, c: Class)
    requires c in a
    ensures |a - {c}| == |a| - 1
  {
  }

  lemma ReceiveDescends(s: State, c: Class)
    requires Inv(s) && Enabled(s, Receive(c))
    ensures Measure(Step(s, Receive(c))) < Measure(s)
  {
    hide WorkersOk, NoLeak, Kept, Covered, Leftover, Launched, StopsOk, Counted, StopperSteps, WorkerSteps;
    var n := Step(s, Receive(c));
    OneLess(s.phase.rest, c);
    SameWorkerSteps(s, n);
    if c in s.wanted {
      SameStopperSteps(s, n);
    } else {
      NewStopperSteps(s, n, s.workers[c].worker);
    }
  }

  lemma CheckDescends(s: State, c: Class, id: nat)
    requires Enabled(s, Check(c, id))
    ensures Measure(Step(s, Check(c, id))) < Measure(s)
  {
    hide StopperSteps, WorkerSteps;
    var n := Step(s, Check(c, id));
    OneLess(s.phase.rest, c);
    SameStopperSteps(s, n);
    if c in s.workers {
      SameWorkerSteps(s, n);
    } else {
      NewWorkerSteps(s, n, id);
    }
  }

  lemma NewWorkerSteps(s: State, n: State, id: nat)
    requires id !in s.life && n.life == s.life[id := Running]
    ensures WorkerSteps(n) == WorkerSteps(s) + 2
  {
    CountAdded(NotGone(s), NotGone(n), id);
    CountAdded(StillRunning(s), StillRunning(n), id);
  }

  lemma ExitDescends(s: State, a: Action)
    requires Enabled(s, a) && (a.Exit? || a.Leave?)
    ensures WorkerSteps(Step(s, a)) == WorkerSteps(s) - 1
  {
    var n := Step(s, a);
    if a.Exit? {
      assert NotGone(n) == NotGone(s);
      CountRemoved(StillRunning(s), StillRunning(n), a.worker);
    } else {
      CountRemoved(NotGone(s), NotGone(n), a.worker);
      assert StillRunning(n) == StillRunning(s);
    }
  }
}
