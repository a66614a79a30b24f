/** The single-instance task protocol: module/pack_work.c,
    dispatch_task_if_necessary, with the task loops of module/io.c. */
module TaskDispatch {
  /** A task instance: about to look at the queue, busy with what it took, or over. */
  datatype Task<T> = Looping | Busy(items: seq<T>) | Exited

  /** One stage queue, its working flag, whether a producer has set the flag and not
      queued its work yet, the dispatch calls still to return, and all instances
      ever started. */
  datatype Stage<T> = Stage(queue: seq<T>, flag: bool, starting: bool, owed: nat, tasks: seq<Task<T>>,
                            arrived: seq<T>, handled: seq<T>)

  function Init<T>(): Stage<T> {
    Stage([], false, false, 0, [], [], [])
  }

  datatype Step<T> =
    | Enqueue(xs: seq<T>)       // a producer puts a list into the queue, under its lock, and will dispatch once
    | TestAndSet                // a dispatch call tries the flag; it returns if the flag was set
    | Start                     // the call that set the flag queues a task instance
    | NoMemory                  // it cannot allocate the work, clears the flag and will try again
    | Take(i: nat, n: nat)      // a task dequeues up to its bulk, under the lock
    | Stop(i: nat)              // it finds the queue empty and clears the flag, under the lock
    | Finish(i: nat)            // it is done with what it took

  /** Dispatch calls that have not tried the flag, or are to try it again. */
  function Trying<T>(s: Stage<T>): int {
    if s.starting then s.owed - 1 else s.owed
  }

  ghost predicate Can<T(!new)>(s: Stage<T>, t: Step<T>) {
    match t
    case Enqueue(_) => true
    case TestAndSet => Trying(s) > 0
    case Start => s.starting && s.owed > 0
    case NoMemory => s.starting
    case Take(i, n) => i < |s.tasks| && s.tasks[i].Looping? && 0 < n <= |s.queue|
    case Stop(i) => i < |s.tasks| && s.tasks[i].Looping? && s.queue == []
    case Finish(i) => i < |s.tasks| && s.tasks[i].Busy?
  }

  function Do<T(!new)>(s: Stage<T>, t: Step<T>): Stage<T>
    requires Can(s, t)
  {
    match t
    case Enqueue(xs) => s.(queue := s.queue + xs, owed := s.owed + 1, arrived := s.arrived + xs)
    case TestAndSet => if s.flag then s.(owed := s.owed - 1) else s.(flag := true, starting := true)
    case Start => s.(starting := false, owed := s.owed - 1, tasks := s.tasks + [Looping])
    case NoMemory => s.(starting := false, flag := false)
    case Take(i, n) => s.(queue := s.queue[n..], tasks := s.tasks[i := Busy(s.queue[..n])])
    case Stop(i) => s.(flag := false, tasks := s.tasks[i := Exited])
    case Finish(i) => s.(tasks := s.tasks[i := Looping], handled := s.handled + s.tasks[i].items)
  }

  ghost predicate AllExited<T(!new)>(s: Stage<T>) {
    forall j | 0 <= j < |s.tasks| :: s.tasks[j].Exited?
  }

  /** Instance `i` is the only one that has not exited. */
  ghost predicate OnlyLive<T(!new)>(s: Stage<T>, i: nat) {
    i < |s.tasks| && !s.tasks[i].Exited? && forall j | 0 <= j < |s.tasks| && j != i :: s.tasks[j].Exited?
  }

  function InHand<T>(t: Task<T>): seq<T> {
    if t.Busy? then t.items else []
  }

  /** Instance `i` has in hand what is neither handled nor waiting. */
  ghost predicate Serves<T(!new)>(s: Stage<T>, i: nat) {
    OnlyLive(s, i) && s.arrived == s.handled + InHand(s.tasks[i]) + s.queue
  }

  /** At most one instance is alive, exactly if the flag is set and not by a call
      that is still starting it; whatever waits in the queue has a live instance or
      a dispatch call still to try the flag or to start one; and the items are
      handled in their order of arrival, each once. */
  ghost predicate Inv<T(!new)>(s: Stage<T>) {
    && (s.queue != [] ==> s.flag || s.owed > 0)
    && (s.starting ==> s.flag && s.owed > 0)
    && (if s.flag && !s.starting then exists i: nat :: Serves(s, i)
        else AllExited(s) && s.arrived == s.handled + s.queue)
  }

  lemma InitInv<T(!new)>()
    ensures Inv(Init<T>())
  {
  }

  lemma StillOnly<T(!new)>(s: Stage<T>, i: nat, t: Task<T>)
    requires OnlyLive(s, i) && !t.Exited?
    ensures OnlyLive(s.(tasks := s.tasks[i := t]), i)
  {
  }

  lemma EnqueueInv<T(!new)>(s: Stage<T>, xs: seq<T>)
    requires Inv(s)
    ensures Inv(Do(s, Enqueue(xs)))
  {
    var s2 := Do(s, Enqueue(xs));
    if s.flag && !s.starting {
      var i: nat :| Serves(s, i);
      assert Serves(s2, i);
    }
  }

  lemma DispatchInv<T(!new)>(s: Stage<T>, t: Step<T>)
    requires Inv(s) && Can(s, t) && (t.TestAndSet? || t.Start? || t.NoMemory?)
    ensures Inv(Do(s, t))
  {
    var s2 := Do(s, t);
    if t.Start? {
      assert Serves(s2, |s.tasks|);
    } else if s.flag && !s.starting {
      var i: nat :| Serves(s, i);
      assert Serves(s2, i);
    }
  }

  /** While an instance is alive the flag is set, and it is the one that serves. */
  lemma LiveIs<T(!new)>(s: Stage<T>, i: nat)
    requires Inv(s) && i < |s.tasks| && !s.tasks[i].Exited?
    ensures s.flag && !s.starting && Serves(s, i)
  {
    if s.flag && !s.starting {
      var k: nat :| Serves(s, k);
      assert k == i;
    }
  }

  lemma TaskInv<T(!new)>(s: Stage<T>, t: Step<T>)
    requires Inv(s) && Can(s, t) && (t.Take? || t.Stop? || t.Finish?)
    ensures Inv(Do(s, t))
  {
    var s2, i := Do(s, t), t.i;
    LiveIs(s, i);
    if !t.Stop? {
      StillOnly(s, i, s2.tasks[i]);
      assert OnlyLive(s2, i);
      assert s2.arrived == s2.handled + InHand(s2.tasks[i]) + s2.queue;
      assert Serves(s2, i);
    }
  }

  /** Every interleaving of enqueue, dispatch, failed start, dequeue and flag clear
      keeps it. */
  lemma StepInv<T(!new)>(s: Stage<T>, t: Step<T>)
    requires Inv(s) && Can(s, t)
    ensures Inv(Do(s, t))
  {
    match t
    case Enqueue(xs) => EnqueueInv(s, xs);
    case TestAndSet => DispatchInv(s, t);
    case Start => DispatchInv(s, t);
    case NoMemory => DispatchInv(s, t);
    case Take(_, _) => TaskInv(s, t);
    case Stop(_) => TaskInv(s, t);
    case Finish(_) => TaskInv(s, t);
  }

  ghost predicate Follows<T(!new)>(s: Stage<T>, s2: Stage<T>) {
    exists t: Step<T> :: Can(s, t) && s2 == Do(s, t)
  }

  ghost predicate Run<T(!new)>(run: seq<Stage<T>>) {
    run != [] && run[0] == Init<T>() && forall i | 0 < i < |run| :: Follows(run[i - 1], run[i])
  }

  lemma {:induction false} RunInv<T(!new)>(run: seq<Stage<T>>, i: nat)
    requires Run(run) && i < |run|
    ensures Inv(run[i])
    decreases i
  {
    if i == 0 {
      InitInv<T>();
    } else {
      RunInv(run, i - 1);
      assert Follows(run[i - 1], run[i]);
      var t: Step<T> :| Can(run[i - 1], t) && run[i] == Do(run[i - 1], t);
      StepInv(run[i - 1], t);
    }
  }

  /** In no run are two instances ever alive at a time. */
  lemma OneInstance<T(!new)>(run: seq<Stage<T>>, i: nat, j: nat, k: nat)
    requires Run(run) && i < |run| && j < |run[i].tasks| && k < |run[i].tasks|
    requires !run[i].tasks[j].Exited? && !run[i].tasks[k].Exited?
    ensures j == k
  {
    RunInv(run, i);
    LiveIs(run[i], j);
  }

  lemma LiveIfFlagged<T(!new)>(s: Stage<T>)
    requires Inv(s) && s.flag && !s.starting
    ensures !AllExited(s)
  {
    var m: nat :| Serves(s, m);
    assert !s.tasks[m].Exited?;
  }

  /** No item is stranded: once all dispatch calls have returned and all instances
      have exited, everything that arrived has been handled, in order. */
  lemma NothingStranded<T(!new)>(run: seq<Stage<T>>, i: nat)
    requires Run(run) && i < |run| && run[i].owed == 0 && AllExited(run[i])
    ensures run[i].queue == [] && run[i].handled == run[i].arrived
  {
    RunInv(run, i);
    var s := run[i];
    if s.flag && !s.starting {
      LiveIfFlagged(s);
    }
  }

  /** Nor can it get stuck: as long as an item is not handled, a step other than a
      new arrival is possible. */
  lemma NeverStuck<T(!new)>(run: seq<Stage<T>>, i: nat) returns (t: Step<T>)
    requires Run(run) && i < |run| && run[i].handled != run[i].arrived
    ensures !t.Enqueue? && Can(run[i], t)
  {
    RunInv(run, i);
    var s := run[i];
    if s.starting {
      t := Start;
    } else if s.flag {
      var m: nat :| Serves(s, m);
      t := if s.tasks[m].Busy? then Finish(m) else if s.queue == [] then Stop(m) else Take(m, 1);
    } else {
      t := TestAndSet;
    }
  }

  // ------------------------------------------------------ everything gets handled

  ghost predicate Path<T(!new)>(ss: seq<Stage<T>>) {
    ss != [] && forall i | 0 < i < |ss| :: Follows(ss[i - 1], ss[i])
  }

  /** Steps other than arrivals lead from `s` to `s2`. */
  ghost predicate Leads<T(!new)>(s: Stage<T>, s2: Stage<T>) {
    s2.arrived == s.arrived && exists ss: seq<Stage<T>> :: Path(ss) && ss[0] == s && ss[|ss| - 1] == s2
  }

  lemma LeadsThen<T(!new)>(s: Stage<T>, s1: Stage<T>, t: Step<T>)
    requires Leads(s, s1) && Can(s1, t) && !t.Enqueue?
    ensures Leads(s, Do(s1, t))
  {
    var ss: seq<Stage<T>> :| Path(ss) && ss[0] == s && ss[|ss| - 1] == s1;
    var more := ss + [Do(s1, t)];
    assert Follows(s1, Do(s1, t));
    hide Can, Do, Follows;
    forall i | 0 < i < |more| ensures Follows(more[i - 1], more[i]) {
      if i < |ss| {
        assert Follows(ss[i - 1], ss[i]);
      }
    }
    assert Path(more);
  }

  /** All that has arrived is handled, and the stage is at rest. */
  ghost predicate AtRest<T(!new)>(s: Stage<T>) {
    s.handled == s.arrived && s.queue == [] && s.owed == 0 && !s.flag && AllExited(s)
  }

  /** How far the current dispatch call is from its return. */
  ghost function Ahead<T(!new)>(s: Stage<T>): nat {
    if s.starting then 1 else if !s.flag then 2 else if forall j | 0 <= j < |s.tasks| :: !s.tasks[j].Busy? then 3 else 4
  }

  lemma {:induction false} StageEnds<T(!new)>(s0: Stage<T>, s: Stage<T>) returns (s2: Stage<T>)
    requires Leads(s0, s) && Inv(s)
    ensures Leads(s0, s2) && AtRest(s2)
    decreases s.owed, |s.queue|, Ahead(s)
  {
    s2 := s;
    if s.starting {
      s2 := StageStep(s0, s, Start);
    } else if s.flag {
      var m: nat :| Serves(s, m);
      if s.tasks[m].Busy? {
        s2 := StageStep(s0, s, Finish(m));
      } else if s.queue == [] {
        s2 := StageStep(s0, s, Stop(m));
      } else {
        s2 := StageStep(s0, s, Take(m, |s.queue|));
      }
    } else if s.owed > 0 {
      s2 := StageStep(s0, s, TestAndSet);
    } else {
      assert s.arrived == s.handled + s.queue;
    }
  }

  lemma {:induction false} StageStep<T(!new)>(s0: Stage<T>, s: Stage<T>, t: Step<T>) returns (s2: Stage<T>)
    requires Leads(s0, s) && Inv(s) && Can(s, t) && !t.Enqueue?
    requires var s1 := Do(s, t);
      || s1.owed < s.owed
      || (s1.owed == s.owed && (|s1.queue| < |s.queue| || (|s1.queue| == |s.queue| && Ahead(s1) < Ahead(s))))
    ensures Leads(s0, s2) && AtRest(s2)
    decreases s.owed, |s.queue|, Ahead(s), 0
  {
    StepInv(s, t);
    LeadsThen(s0, s, t);
    hide Leads, Inv, Can, Do, Ahead;
    s2 := StageEnds(s0, Do(s, t));
  }

  /** Every item can be handled: from every state of every run the dispatch calls and
      the tasks, without any new arrival, can handle all that has arrived and come to
      rest. */
  lemma AllCanBeHandled<T(!new)>(run: seq<Stage<T>>, i: nat) returns (s2: Stage<T>)
    requires Run(run) && i < |run|
    ensures Leads(run[i], s2) && AtRest(s2) && s2.handled == run[i].arrived
  {
    RunInv(run, i);
    assert Path([run[i]]);
    s2 := StageEnds(run[i], run[i]);
  }
}
