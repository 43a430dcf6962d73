/**
 * Parking and waking on one waker slot (src/host_carrier.rs, src/host_runtime.rs). The resource is a
 * queued datagram for a receiver or a free buffer for a sender; every atomic access is one step.
 */
module Wakeups {
  import opened Results

  /** A host thread between its steps: it may be about to look for a waker, to call it, or to queue a task. */
  datatype Actor = Rest | Supplied | Waking(task: nat) | Scheduling(task: nat)

  /** Where a task is in its poll; `Idle` tasks wait for something else. */
  datatype Pc = Idle | Trying | Registering | Rechecking | Parked

  datatype Driver = Free | Popped(task: nat) | Polling(task: nat)

  /** `woken` marks the tasks that were woken since their last poll began. */
  datatype World = World(
    resource: nat,
    unavailable: bool,
    slot: Option<nat>,
    actors: seq<Actor>,
    queued: seq<bool>,
    ready: seq<nat>,
    driver: Driver,
    pcs: seq<Pc>,
    woken: seq<bool>)

  datatype Action =
    | Supply(actor: nat)
    | Close(actor: nat)
    | Spur(actor: nat, task: nat)
    | TakeWaker(actor: nat)
    | Swap(actor: nat)
    | Push(actor: nat)
    | Pop
    | Start
    | Try
    | Register
    | Recheck

  ghost predicate Next(w: World, act: Action, w': World) {
    match act
    case Supply(k) =>
      k < |w.actors| && w.actors[k].Rest? && w' == w.(resource := w.resource + 1, actors := w.actors[k := Supplied])
    case Close(k) =>
      k < |w.actors| && w.actors[k].Rest? && w' == w.(unavailable := true, actors := w.actors[k := Supplied])
    case Spur(k, i) =>
      k < |w.actors| && w.actors[k].Rest? && i < |w.pcs| && w' == w.(actors := w.actors[k := Waking(i)])
    case TakeWaker(k) =>
      && k < |w.actors| && w.actors[k].Supplied?
      && w' == w.(slot := None, actors := w.actors[k := if w.slot.Some? then Waking(w.slot.value) else Rest])
    case Swap(k) =>
      && k < |w.actors| && w.actors[k].Waking? && w.actors[k].task < |w.queued| == |w.woken|
      && var i := w.actors[k].task;
         w' == w.(queued := w.queued[i := true], woken := w.woken[i := true],
                  actors := w.actors[k := if w.queued[i] then Rest else Scheduling(i)])
    case Push(k) =>
      && k < |w.actors| && w.actors[k].Scheduling?
      && w' == w.(ready := w.ready + [w.actors[k].task], actors := w.actors[k := Rest])
    case Pop =>
      && w.driver.Free? && w.ready != [] && w.ready[0] < |w.queued|
      && w' == w.(driver := Popped(w.ready[0]), ready := w.ready[1..], queued := w.queued[w.ready[0] := false])
    case Start =>
      && w.driver.Popped? && w.driver.task < |w.pcs| == |w.woken|
      && var i := w.driver.task;
         w' == w.(driver := Polling(i), pcs := w.pcs[i := Trying], woken := w.woken[i := false])
    case Try =>
      && w.driver.Polling? && w.driver.task < |w.pcs| && w.pcs[w.driver.task].Trying?
      && var i := w.driver.task;
         w' == if w.unavailable then w.(driver := Free, pcs := w.pcs[i := Idle])
               else if w.resource > 0 then w.(driver := Free, pcs := w.pcs[i := Idle], resource := w.resource - 1)
               else w.(pcs := w.pcs[i := Registering])
    case Register =>
      && w.driver.Polling? && w.driver.task < |w.pcs| && w.pcs[w.driver.task].Registering?
      && w' == w.(slot := Some(w.driver.task), pcs := w.pcs[w.driver.task := Rechecking])
    case Recheck =>
      && w.driver.Polling? && w.driver.task < |w.pcs| && w.pcs[w.driver.task].Rechecking?
      && var i := w.driver.task;
         w' == if w.resource > 0 then w.(pcs := w.pcs[i := Trying])
               else if w.unavailable then w.(driver := Free, pcs := w.pcs[i := Idle])
               else w.(driver := Free, pcs := w.pcs[i := Parked])
  }

  /** Every task starts queued once, as a spawned task does. */
  ghost predicate Init(w: World, tasks: nat, actors: nat) {
    && w.resource == 0 && !w.unavailable && w.slot.None? && |w.actors| == actors && |w.ready| == tasks
    && |w.queued| == tasks && |w.pcs| == tasks && |w.woken| == tasks && w.driver.Free?
    && (forall k :: 0 <= k < actors ==> w.actors[k] == Rest)
    && (forall i :: 0 <= i < tasks ==> w.ready[i] == i && w.queued[i] && w.pcs[i] == Idle && w.woken[i])
  }

  ghost predicate Run(tasks: nat, actors: nat, worlds: seq<World>, acts: seq<Action>) {
    && |worlds| == |acts| + 1 && Init(worlds[0], tasks, actors)
    && forall n :: 0 <= n < |acts| ==> Next(worlds[n], acts[n], worlds[n + 1])
  }

  /** A poll of task `i` will begin, whatever happens next. */
  ghost predicate Owed(w: World, i: nat) {
    || (i < |w.queued| && w.queued[i]) || w.driver == Popped(i)
    || (exists k :: 0 <= k < |w.actors| && w.actors[k] == Waking(i))
    || (w.slot == Some(i) && exists k :: 0 <= k < |w.actors| && w.actors[k] == Supplied)
  }

  /** A task sleeps although it could go on, and nobody is about to wake it. */
  ghost predicate Lost(w: World, i: nat) {
    i < |w.pcs| && w.pcs[i].Parked? && (w.resource > 0 || w.unavailable) && !Owed(w, i)
  }

  // ----- the executor, for any number of tasks

  ghost predicate Scheduled(w: World, i: nat) {
    exists k :: 0 <= k < |w.actors| && w.actors[k] == Scheduling(i)
  }

  /** A task is queued exactly when it is in the ready queue or one thread is about to put it there. */
  ghost predicate Executor(w: World, tasks: nat) {
    && |w.queued| == tasks && |w.pcs| == tasks && |w.woken| == tasks
    && (forall k :: 0 <= k < |w.actors| && w.actors[k].Waking? ==> w.actors[k].task < tasks)
    && (forall k :: 0 <= k < |w.actors| && w.actors[k].Scheduling? ==>
         w.actors[k].task < tasks && w.queued[w.actors[k].task])
    && (forall p :: 0 <= p < |w.ready| ==> w.ready[p] < tasks && w.queued[w.ready[p]] && !Scheduled(w, w.ready[p]))
    && (forall p, q :: 0 <= p < q < |w.ready| ==> w.ready[p] != w.ready[q])
    && (forall j, k :: 0 <= j < k < |w.actors| && w.actors[j].Scheduling? ==> w.actors[j] != w.actors[k])
    && (forall i: nat :: i < tasks && w.queued[i] ==> i in w.ready || Scheduled(w, i))
    && (w.slot.Some? ==> w.slot.value < tasks)
    && (w.driver.Free? || w.driver.task < tasks)
    && (forall i: nat :: i < tasks && w.pcs[i] in {Trying, Registering, Rechecking} ==> w.driver == Polling(i))
    && (forall i: nat :: i < tasks && w.woken[i] ==> w.queued[i] || w.driver == Popped(i))
  }

  lemma ActorStep(w: World, act: Action, w': World, tasks: nat)
    requires Executor(w, tasks) && Next(w, act, w') && (act.Supply? || act.Close? || act.Spur? || act.TakeWaker?)
    ensures Executor(w', tasks)
  {
    forall i: nat ensures Scheduled(w', i) <==> Scheduled(w, i) {
      if Scheduled(w, i) {
        var k :| 0 <= k < |w.actors| && w.actors[k] == Scheduling(i);
        assert w'.actors[k] == Scheduling(i);
      }
    }
    hide Scheduled;
  }

  lemma SwapStep(w: World, act: Action, w': World, tasks: nat)
    requires Executor(w, tasks) && Next(w, act, w') && act.Swap?
    ensures Executor(w', tasks)
  {
    var i := w.actors[act.actor].task;
    forall j: nat ensures Scheduled(w', j) <==> Scheduled(w, j) || (j == i && !w.queued[i]) {
      if Scheduled(w, j) {
        var k :| 0 <= k < |w.actors| && w.actors[k] == Scheduling(j);
        assert w'.actors[k] == Scheduling(j);
      }
      if j == i && !w.queued[i] {
        assert w'.actors[act.actor] == Scheduling(i);
      }
    }
    hide Scheduled;
  }

  lemma PushStep(w: World, act: Action, w': World, tasks: nat)
    requires Executor(w, tasks) && Next(w, act, w') && act.Push?
    ensures Executor(w', tasks)
  {
    var i := w.actors[act.actor].task;
    assert Scheduled(w, i);
    forall j: nat ensures Scheduled(w', j) <==> Scheduled(w, j) && j != i {
      if Scheduled(w, j) && j != i {
        var k :| 0 <= k < |w.actors| && w.actors[k] == Scheduling(j);
        assert w'.actors[k] == Scheduling(j);
      }
    }
    hide Scheduled;
  }

  lemma PopStep(w: World, act: Action, w': World, tasks: nat)
    requires Executor(w, tasks) && Next(w, act, w') && act.Pop?
    ensures Executor(w', tasks)
  {
    var i := w.ready[0];
    forall j: nat ensures Scheduled(w', j) <==> Scheduled(w, j) {
    }
    assert w.ready == [i] + w'.ready;
    hide Scheduled;
  }

  lemma StartStep(w: World, act: Action, w': World, tasks: nat)
    requires Executor(w, tasks) && Next(w, act, w') && act.Start?
    ensures Executor(w', tasks)
  {
    forall j: nat ensures Scheduled(w', j) <==> Scheduled(w, j) {
    }
    hide Scheduled;
  }

  lemma PollStep(w: World, act: Action, w': World, tasks: nat)
    requires Executor(w, tasks) && Next(w, act, w') && (act.Try? || act.Register? || act.Recheck?)
    ensures Executor(w', tasks)
  {
    assert w'.actors == w.actors && w'.queued == w.queued && w'.ready == w.ready && w'.woken == w.woken;
    SameActors(w, w');
    hide Scheduled;
  }

  lemma SameActors(w: World, w': World)
    requires w'.actors == w.actors
    ensures forall j: nat :: Scheduled(w', j) <==> Scheduled(w, j)
  {
  }

  lemma ExecutorKeeps(w: World, act: Action, w': World, tasks: nat)
    requires Executor(w, tasks) && Next(w, act, w')
    ensures Executor(w', tasks)
  {
    hide Executor, Next;
    match act {
      case Supply(_) => ActorStep(w, act, w', tasks);
      case Close(_) => ActorStep(w, act, w', tasks);
      case Spur(_, _) => ActorStep(w, act, w', tasks);
      case TakeWaker(_) => ActorStep(w, act, w', tasks);
      case Swap(_) => SwapStep(w, act, w', tasks);
      case Push(_) => PushStep(w, act, w', tasks);
      case Pop => PopStep(w, act, w', tasks);
      case Start => StartStep(w, act, w', tasks);
      case Try => PollStep(w, act, w', tasks);
      case Register => PollStep(w, act, w', tasks);
      case Recheck => PollStep(w, act, w', tasks);
    }
  }

  // ----- one task on the slot

  /** A poll is coming for certain. */
  ghost predicate Coming(w: World, i: nat) {
    || (i < |w.queued| && w.queued[i]) || w.driver == Popped(i)
    || exists k :: 0 <= k < |w.actors| && w.actors[k] == Waking(i)
  }

  ghost predicate Alert(w: World) {
    exists k :: 0 <= k < |w.actors| && w.actors[k] == Supplied
  }

  ghost predicate Alone(w: World) {
    && |w.pcs| == 1
    && (w.pcs[0] in {Rechecking, Parked} ==> w.slot == Some(0) || Coming(w, 0))
    && (w.pcs[0] == Parked && (w.resource > 0 || w.unavailable) ==> Coming(w, 0) || Alert(w))
  }

  lemma AloneSupplies(w: World, act: Action, w': World)
    requires Executor(w, 1) && Alone(w) && Next(w, act, w') && (act.Supply? || act.Close? || act.Spur?)
    ensures Alone(w')
  {
    if Coming(w, 0) && exists k :: 0 <= k < |w.actors| && w.actors[k] == Waking(0) {
      var k :| 0 <= k < |w.actors| && w.actors[k] == Waking(0);
      assert w'.actors[k] == Waking(0);
    }
    if !act.Spur? {
      assert w'.actors[act.actor] == Supplied;
    } else {
      assert w'.actors[act.actor] == Waking(0);
    }
  }

  lemma AloneTakes(w: World, act: Action, w': World)
    requires Executor(w, 1) && Alone(w) && Next(w, act, w') && act.TakeWaker?
    ensures Alone(w')
  {
    if Coming(w, 0) && exists k :: 0 <= k < |w.actors| && w.actors[k] == Waking(0) {
      var k :| 0 <= k < |w.actors| && w.actors[k] == Waking(0);
      assert w'.actors[k] == Waking(0);
    }
    if w.slot.Some? {
      assert w'.actors[act.actor] == Waking(0);
    }
  }

  lemma AloneSchedules(w: World, act: Action, w': World)
    requires Executor(w, 1) && Alone(w) && Next(w, act, w') && (act.Swap? || act.Push?)
    ensures Alone(w')
  {
    if act.Push? {
      assert w.queued[0];
    }
  }

  lemma AlonePolls(w: World, act: Action, w': World)
    requires Executor(w, 1) && Alone(w) && Next(w, act, w')
    requires act.Pop? || act.Start? || act.Try? || act.Register? || act.Recheck?
    ensures Alone(w')
  {
    assert w'.actors == w.actors;
    assert Alert(w') == Alert(w);
  }

  lemma AloneKeeps(w: World, act: Action, w': World)
    requires Executor(w, 1) && Alone(w) && Next(w, act, w')
    ensures Alone(w')
  {
    hide Executor, Next, Alone;
    match act {
      case Supply(_) => AloneSupplies(w, act, w');
      case Close(_) => AloneSupplies(w, act, w');
      case Spur(_, _) => AloneSupplies(w, act, w');
      case TakeWaker(_) => AloneTakes(w, act, w');
      case Swap(_) => AloneSchedules(w, act, w');
      case Push(_) => AloneSchedules(w, act, w');
      case Pop => AlonePolls(w, act, w');
      case Start => AlonePolls(w, act, w');
      case Try => AlonePolls(w, act, w');
      case Register => AlonePolls(w, act, w');
      case Recheck => AlonePolls(w, act, w');
    }
  }

  lemma {:induction false} RunExecutes(tasks: nat, actors: nat, worlds: seq<World>, acts: seq<Action>, n: nat)
    requires Run(tasks, actors, worlds, acts) && n < |worlds|
    ensures Executor(worlds[n], tasks) && (tasks == 1 ==> Alone(worlds[n]))
    decreases n
  {
    if n > 0 {
      RunExecutes(tasks, actors, worlds, acts, n - 1);
      hide Executor, Alone, Next, Init;
      ExecutorKeeps(worlds[n - 1], acts[n - 1], worlds[n], tasks);
      if tasks == 1 {
        AloneKeeps(worlds[n - 1], acts[n - 1], worlds[n]);
      }
    } else {
      InitExecutes(worlds[0], tasks, actors);
    }
  }

  lemma InitExecutes(w: World, tasks: nat, actors: nat)
    requires Init(w, tasks, actors)
    ensures Executor(w, tasks) && (tasks == 1 ==> Alone(w))
  {
    forall i: nat | i < tasks ensures i in w.ready {
      assert w.ready[i] == i;
    }
    forall i: nat ensures !Scheduled(w, i) {
    }
    hide Scheduled;
  }

  /**
   * Every wake is followed by a poll that begins after it: until then it is queued or has just been taken from the
   * queue.
   */
  lemma WakesArePolled(tasks: nat, actors: nat, worlds: seq<World>, acts: seq<Action>, n: nat, i: nat)
    requires Run(tasks, actors, worlds, acts) && n < |worlds| && i < tasks
    ensures |worlds[n].woken| == tasks && (worlds[n].woken[i] ==> Owed(worlds[n], i))
  {
    RunExecutes(tasks, actors, worlds, acts, n);
  }

  /** With a single task on the slot no wake-up is ever lost. */
  lemma NoLostWakeup(actors: nat, worlds: seq<World>, acts: seq<Action>, n: nat, i: nat)
    requires Run(1, actors, worlds, acts) && n < |worlds|
    ensures !Lost(worlds[n], i)
  {
    RunExecutes(1, actors, worlds, acts, n);
    hide Executor, Run;
  }

  // ----- several tasks on the slot

  lemma Extend(tasks: nat, actors: nat, worlds: seq<World>, acts: seq<Action>, act: Action, w: World)
    returns (worlds': seq<World>, acts': seq<Action>)
    requires Run(tasks, actors, worlds, acts) && |worlds| == |acts| + 1 && Next(worlds[|acts|], act, w)
    ensures Run(tasks, actors, worlds', acts') && |acts'| == |acts| + 1 && |worlds'| == |acts'| + 1
    ensures worlds'[|acts'|] == w
  {
    worlds', acts' := worlds + [w], acts + [act];
    hide Next, Init;
  }

  /** The world after the first task in the ready queue has found nothing and parked. */
  function Parks(w: World): World
    requires w.ready != [] && w.ready[0] < |w.queued| == |w.pcs| == |w.woken|
  {
    var i := w.ready[0];
    w.(ready := w.ready[1..], queued := w.queued[i := false], woken := w.woken[i := false], pcs := w.pcs[i := Parked],
      slot := Some(i), driver := Free)
  }

  lemma ParkFirst(tasks: nat, actors: nat, worlds: seq<World>, acts: seq<Action>)
    returns (worlds': seq<World>, acts': seq<Action>)
    requires Run(tasks, actors, worlds, acts) && |worlds| == |acts| + 1
    requires var w := worlds[|acts|];
      && w.driver.Free? && w.ready != [] && w.ready[0] < |w.queued| == |w.pcs| == |w.woken|
      && w.resource == 0 && !w.unavailable
    ensures Run(tasks, actors, worlds', acts') && |worlds'| == |acts'| + 1 && worlds'[|acts'|] == Parks(worlds[|acts|])
  {
    var w := worlds[|acts|];
    var i := w.ready[0];
    var w1 := w.(driver := Popped(i), ready := w.ready[1..], queued := w.queued[i := false]);
    var w2 := w1.(driver := Polling(i), pcs := w1.pcs[i := Trying], woken := w1.woken[i := false]);
    var w3 := w2.(pcs := w2.pcs[i := Registering]);
    var w4 := w3.(slot := Some(i), pcs := w3.pcs[i := Rechecking]);
    var w5 := w4.(driver := Free, pcs := w4.pcs[i := Parked]);
    assert w5 == Parks(w);
    hide Run;
    worlds', acts' := Extend(tasks, actors, worlds, acts, Pop, w1);
    worlds', acts' := Extend(tasks, actors, worlds', acts', Start, w2);
    worlds', acts' := Extend(tasks, actors, worlds', acts', Try, w3);
    worlds', acts' := Extend(tasks, actors, worlds', acts', Register, w4);
    worlds', acts' := Extend(tasks, actors, worlds', acts', Recheck, w5);
  }

  function Fresh(tasks: nat, actors: nat): World {
    World(0, false, None, seq(actors, _ => Rest), seq(tasks, _ => true), seq(tasks, i => i), Free,
      seq(tasks, _ => Idle), seq(tasks, _ => true))
  }

  /**
   * Two tasks that wait for the same resource: the second registration replaces the first, which is then never served.
   */
  lemma SecondTaskLoses(tasks: nat, actors: nat) returns (worlds: seq<World>, acts: seq<Action>)
    requires tasks >= 2 && actors >= 1
    ensures Run(tasks, actors, worlds, acts) && Lost(worlds[|acts|], 0)
  {
    var w0 := Fresh(tasks, actors);
    worlds, acts := [w0], [];
    worlds, acts := ParkFirst(tasks, actors, worlds, acts);
    var w1 := worlds[|acts|];
    assert w1.ready[0] == 1;
    worlds, acts := ParkFirst(tasks, actors, worlds, acts);
    var w2 := worlds[|acts|];
    var w3 := w2.(resource := 1, actors := w2.actors[0 := Supplied]);
    var w4 := w3.(slot := None, actors := w3.actors[0 := Waking(1)]);
    worlds, acts := Extend(tasks, actors, worlds, acts, Supply(0), w3);
    worlds, acts := Extend(tasks, actors, worlds, acts, TakeWaker(0), w4);
    hide Run;
    assert w4.pcs[0].Parked? && !w4.queued[0];
  }

  /** A run in which, after n steps, the wake-up of task i is lost. */
  ghost predicate Loses(tasks: nat, actors: nat, worlds: seq<World>, acts: seq<Action>, n: nat, i: nat) {
    Run(tasks, actors, worlds, acts) && n < |worlds| && Lost(worlds[n], i)
  }

  /** The exact condition: no wake-up can be lost if and only if at most one task polls the slot. */
  lemma LostExactlyWithTwo(tasks: nat, actors: nat)
    requires actors >= 1
    ensures (exists worlds, acts, n: nat, i: nat :: Loses(tasks, actors, worlds, acts, n, i)) <==> tasks >= 2
  {
    if tasks >= 2 {
      var worlds, acts := SecondTaskLoses(tasks, actors);
      assert Loses(tasks, actors, worlds, acts, |acts|, 0);
    } else {
      forall worlds, acts, n: nat, i: nat ensures !Loses(tasks, actors, worlds, acts, n, i) {
        if Run(tasks, actors, worlds, acts) && n < |worlds| {
          RunExecutes(tasks, actors, worlds, acts, n);
          if tasks == 1 {
            NoLostWakeup(actors, worlds, acts, n, i);
          }
        }
      }
    }
  }

  /** Nothing is running and nothing is about to run. */
  ghost predicate Quiet(w: World) {
    w.ready == [] && w.driver.Free? && forall k :: 0 <= k < |w.actors| ==> w.actors[k].Rest?
  }

  /** The world after the first k tasks have found nothing and parked. */
  function Partly(tasks: nat, actors: nat, k: nat): World
    requires k <= tasks
  {
    World(0, false, if k == 0 then None else Some(k - 1), seq(actors, _ => Rest), seq(tasks, i => i >= k),
          seq(tasks - k, i => i + k), Free, seq(tasks, i => if i < k then Parked else Idle), seq(tasks, i => i >= k))
  }

  lemma {:induction false} ParkAll(tasks: nat, actors: nat, k: nat) returns (worlds: seq<World>, acts: seq<Action>)
    requires k <= tasks
    ensures Run(tasks, actors, worlds, acts) && |worlds| == |acts| + 1 && worlds[|acts|] == Partly(tasks, actors, k)
  {
    if k == 0 {
      worlds, acts := [Partly(tasks, actors, 0)], [];
    } else {
      worlds, acts := ParkAll(tasks, actors, k - 1);
      hide Run;
      worlds, acts := ParkFirst(tasks, actors, worlds, acts);
      assert Parks(Partly(tasks, actors, k - 1)) == Partly(tasks, actors, k);
    }
  }

  /** How many units were supplied from act number m on. */
  function Supplies(acts: seq<Action>, m: nat): nat
    decreases |acts|
  {
    if |acts| <= m then 0
    else
      var n := |acts| - 1;
      Supplies(acts[..n], m) + if acts[n].Supply? then 1 else 0
  }

  /** A run in which, from act number m on, task 0 sleeps all the time and n units are supplied. */
  ghost predicate Sleeps(tasks: nat, actors: nat, worlds: seq<World>, acts: seq<Action>, m: nat, n: nat) {
    && Run(tasks, actors, worlds, acts) && |worlds| == |acts| + 1 && m <= |acts| && Supplies(acts, m) == n
    && forall k :: m <= k <= |acts| ==> worlds[k].pcs != [] && worlds[k].pcs[0].Parked?
  }

  lemma SleepsOn(tasks: nat, actors: nat, worlds: seq<World>, acts: seq<Action>, m: nat, n: nat, act: Action, w: World)
    returns (worlds': seq<World>, acts': seq<Action>)
    requires Sleeps(tasks, actors, worlds, acts, m, n) && |worlds| == |acts| + 1 && Next(worlds[|acts|], act, w)
    requires w.pcs != [] && w.pcs[0].Parked?
    ensures Sleeps(tasks, actors, worlds', acts', m, if act.Supply? then n + 1 else n)
    ensures |worlds'| == |acts'| + 1 && worlds'[|acts'|] == w
  {
    worlds', acts' := worlds + [w], acts + [act];
    assert acts'[..|acts|] == acts;
    hide Next, Init;
  }

  /** Everything is at rest, task i is registered, and task 0 sleeps. */
  ghost predicate Resting(w: World, i: nat) {
    && w.actors != [] && w.actors[0].Rest? && w.ready == [] && w.driver.Free? && w.resource == 0 && !w.unavailable
    && 0 < i < |w.queued| == |w.pcs| == |w.woken| && !w.queued[i] && !w.woken[i] && w.pcs[i].Parked? && w.pcs[0].Parked?
  }

  lemma Replaced<T>(s: seq<T>, i: nat, a: T, b: T)
    requires i < |s|
    ensures s[i := a][i := b] == s[i := b] && (s[i] == b ==> s[i := b] == s)
  {
  }

  /** One unit is supplied, and the registered task is woken, polled and served. */
  lemma ServeRegistered(tasks: nat, actors: nat, worlds: seq<World>, acts: seq<Action>, m: nat, n: nat, i: nat)
    returns (worlds': seq<World>, acts': seq<Action>)
    requires Sleeps(tasks, actors, worlds, acts, m, n) && |worlds| == |acts| + 1
    requires Resting(worlds[|acts|], i) && worlds[|acts|].slot == Some(i)
    ensures Sleeps(tasks, actors, worlds', acts', m, n + 1) && |worlds'| == |acts'| + 1
    ensures worlds'[|acts'|] == worlds[|acts|].(slot := None, pcs := worlds[|acts|].pcs[i := Idle])
  {
    hide Sleeps;
    var w := worlds[|acts|];
    var w1 := w.(resource := 1, actors := w.actors[0 := Supplied]);
    var w2 := w1.(slot := None, actors := w.actors[0 := Waking(i)]);
    worlds', acts' := SleepsOn(tasks, actors, worlds, acts, m, n, Supply(0), w1);
    worlds', acts' := SleepsOn(tasks, actors, worlds', acts', m, n + 1, TakeWaker(0), w2);
    worlds', acts' := PollWoken(tasks, actors, worlds', acts', m, n + 1, i);
    Replaced(w.actors, 0, Waking(i), Rest);
    Replaced(w.pcs, i, Trying, Idle);
    worlds', acts' := SleepsOn(tasks, actors, worlds', acts', m, n + 1, Try, w.(slot := None, pcs := w.pcs[i := Idle]));
  }

  /** A thread that is about to wake task i does so, and the poll begins. */
  lemma PollWoken(tasks: nat, actors: nat, worlds: seq<World>, acts: seq<Action>, m: nat, n: nat, i: nat)
    returns (worlds': seq<World>, acts': seq<Action>)
    requires Sleeps(tasks, actors, worlds, acts, m, n) && |worlds| == |acts| + 1
    requires var w := worlds[|acts|];
      && w.actors != [] && w.actors[0] == Waking(i) && w.ready == [] && w.driver.Free?
      && 0 < i < |w.queued| == |w.pcs| == |w.woken| && !w.queued[i] && !w.woken[i] && w.pcs[0].Parked?
    ensures Sleeps(tasks, actors, worlds', acts', m, n) && |worlds'| == |acts'| + 1
    ensures var w := worlds[|acts|];
      worlds'[|acts'|] == w.(actors := w.actors[0 := Rest], driver := Polling(i), pcs := w.pcs[i := Trying])
  {
    hide Sleeps;
    var w := worlds[|acts|];
    var w1 := w.(queued := w.queued[i := true], woken := w.woken[i := true], actors := w.actors[0 := Scheduling(i)]);
    var w2 := w1.(ready := [i], actors := w.actors[0 := Rest]);
    var w3 := w2.(driver := Popped(i), ready := [], queued := w.queued);
    Replaced(w.queued, i, true, false);
    Replaced(w.woken, i, true, false);
    Replaced(w.actors, 0, Scheduling(i), Rest);
    worlds', acts' := SleepsOn(tasks, actors, worlds, acts, m, n, Swap(0), w1);
    worlds', acts' := SleepsOn(tasks, actors, worlds', acts', m, n, Push(0), w2);
    worlds', acts' := SleepsOn(tasks, actors, worlds', acts', m, n, Pop, w3);
    worlds', acts' := SleepsOn(tasks, actors, worlds', acts', m, n, Start,
                               w3.(driver := Polling(i), pcs := w.pcs[i := Trying], woken := w.woken));
  }

  /** A task that was served is polled again for some other reason, finds nothing, and registers again. */
  lemma ParkAgain(tasks: nat, actors: nat, worlds: seq<World>, acts: seq<Action>, m: nat, n: nat, i: nat, rested: World)
    returns (worlds': seq<World>, acts': seq<Action>)
    requires Sleeps(tasks, actors, worlds, acts, m, n) && |worlds| == |acts| + 1
    requires Resting(rested, i) && rested.slot == Some(i)
    requires worlds[|acts|] == rested.(slot := None, pcs := rested.pcs[i := Idle])
    ensures Sleeps(tasks, actors, worlds', acts', m, n) && |worlds'| == |acts'| + 1 && worlds'[|acts'|] == rested
  {
    hide Sleeps;
    var w := worlds[|acts|];
    worlds', acts' := SleepsOn(tasks, actors, worlds, acts, m, n, Spur(0, i), w.(actors := w.actors[0 := Waking(i)]));
    worlds', acts' := PollWoken(tasks, actors, worlds', acts', m, n, i);
    Replaced(w.actors, 0, Waking(i), Rest);
    Replaced(rested.pcs, i, Idle, Trying);
    Replaced(rested.pcs, i, Trying, Registering);
    Replaced(rested.pcs, i, Registering, Rechecking);
    Replaced(rested.pcs, i, Rechecking, Parked);
    var w1 := w.(driver := Polling(i), pcs := rested.pcs[i := Registering]);
    var w2 := w1.(slot := Some(i), pcs := rested.pcs[i := Rechecking]);
    worlds', acts' := SleepsOn(tasks, actors, worlds', acts', m, n, Try, w1);
    worlds', acts' := SleepsOn(tasks, actors, worlds', acts', m, n, Register, w2);
    worlds', acts' := SleepsOn(tasks, actors, worlds', acts', m, n, Recheck, rested);
  }

  /** However many units are supplied, all of them may go to the last task while the first one sleeps. */
  lemma {:induction false} FirstTaskStarves(tasks: nat, actors: nat, n: nat)
    returns (worlds: seq<World>, acts: seq<Action>, m: nat)
    requires tasks >= 2 && actors >= 1
    ensures Sleeps(tasks, actors, worlds, acts, m, n)
    ensures worlds[|acts|] == Partly(tasks, actors, tasks)
  {
    if n == 0 {
      worlds, acts := ParkAll(tasks, actors, tasks);
      m := |acts|;
      NoSupplies(acts);
    } else {
      worlds, acts, m := FirstTaskStarves(tasks, actors, n - 1);
      var rested := worlds[|acts|];
      SleepsShape(tasks, actors, worlds, acts, m, n - 1);
      hide Sleeps;
      worlds, acts := ServeRegistered(tasks, actors, worlds, acts, m, n - 1, tasks - 1);
      worlds, acts := ParkAgain(tasks, actors, worlds, acts, m, n, tasks - 1, rested);
      SleepsShape(tasks, actors, worlds, acts, m, n);
    }
  }

  lemma NoSupplies(acts: seq<Action>)
    ensures Supplies(acts, |acts|) == 0
  {
  }

  lemma SleepsShape(tasks: nat, actors: nat, worlds: seq<World>, acts: seq<Action>, m: nat, n: nat)
    requires Sleeps(tasks, actors, worlds, acts, m, n)
    ensures |worlds| == |acts| + 1
  {
  }

  /**
   * The loss is not passing: after any number of units for the other task, everything can come to rest with a free
   * resource and the first task asleep.
   */
  lemma SecondTaskSleepsOn(tasks: nat, actors: nat, n: nat) returns (worlds: seq<World>, acts: seq<Action>, m: nat)
    requires tasks >= 2 && actors >= 1
    ensures Sleeps(tasks, actors, worlds, acts, m, n + 2)
    ensures Quiet(worlds[|acts|]) && worlds[|acts|].resource == 1
  {
    worlds, acts, m := FirstTaskStarves(tasks, actors, n);
    SleepsShape(tasks, actors, worlds, acts, m, n);
    hide Sleeps;
    worlds, acts := ServeRegistered(tasks, actors, worlds, acts, m, n, tasks - 1);
    var served := worlds[|acts|];
    var w := served.(resource := 1, actors := served.actors[0 := Supplied]);
    Replaced(served.actors, 0, Supplied, Rest);
    worlds, acts := SleepsOn(tasks, actors, worlds, acts, m, n + 1, Supply(0), w);
    worlds, acts := SleepsOn(tasks, actors, worlds, acts, m, n + 2, TakeWaker(0), served.(resource := 1));
    SleepsShape(tasks, actors, worlds, acts, m, n + 2);
  }

  /** A run that comes to rest with a free resource and a task asleep. */
  ghost predicate Stranded(tasks: nat, actors: nat, worlds: seq<World>, acts: seq<Action>) {
    && Run(tasks, actors, worlds, acts) && Quiet(worlds[|acts|]) && worlds[|acts|].resource > 0
    && exists i :: 0 <= i < |worlds[|acts|].pcs| && worlds[|acts|].pcs[i].Parked?
  }

  /** The exact condition for that: it can happen if and only if two tasks or more poll the slot. */
  lemma StrandedExactlyWithTwo(tasks: nat, actors: nat)
    requires actors >= 1
    ensures (exists worlds, acts :: Stranded(tasks, actors, worlds, acts)) <==> tasks >= 2
  {
    if tasks >= 2 {
      var worlds, acts, m := SecondTaskSleepsOn(tasks, actors, 0);
      assert worlds[|acts|].pcs[0].Parked?;
      hide Quiet, Run;
      assert Stranded(tasks, actors, worlds, acts);
    } else {
      forall worlds, acts ensures !Stranded(tasks, actors, worlds, acts) {
        if Stranded(tasks, actors, worlds, acts) {
          RunExecutes(tasks, actors, worlds, acts, |acts|);
          NotStranded(tasks, worlds[|acts|]);
        }
      }
    }
  }

  lemma NotStranded(tasks: nat, w: World)
    requires tasks < 2 && Executor(w, tasks) && (tasks == 1 ==> Alone(w)) && Quiet(w) && w.resource > 0
    ensures forall i :: 0 <= i < |w.pcs| ==> !w.pcs[i].Parked?
  {
    if tasks == 1 {
      assert !Scheduled(w, 0) && 0 !in w.ready;
    }
  }
}
