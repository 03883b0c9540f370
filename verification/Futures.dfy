/** The futures of the inline executor under an arbitrary scheduler. */
module Futures {
  import opened Common
  import opened Ir
  import opened Evaluator
  import opened EvaluationRules
  import opened EvaluationExact

  // genc/cc/runtime/inline_executor.cc over genc/cc/runtime/concurrency.h. Each `Create*`
  // call submits a task; its future can be waited on by tasks submitted later. The scheduler
  // decides when a submitted task starts. A running task waits for its inputs one after the
  // other, and stops at the first that is an error.

  datatype Op =
    | ValueOp(v: Value)
    | CallOp(fn: nat, arg: nat)
    | StructOp(members: seq<nat>)
    | SelectOp(source: nat, index: nat)

  /** `rejected` is the error of `Schedule`, if it failed: such a task never runs, and its
      future reports that error. */
  datatype Task = Task(op: Op, rejected: Option<Code>)

  datatype State = State(tasks: seq<Task>, started: set<nat>, results: map<nat, Result<Value>>)

  datatype Event = Submit(task: Task) | Start(i: nat) | Finish(i: nat)

  const INITIAL := State([], {}, map[])

  // ----- one task -----

  predicate InputsBelow(op: Op, i: nat) {
    match op
    case ValueOp(_) => true
    case CallOp(fn, arg) => fn < i && arg < i
    case StructOp(members) => forall k :: 0 <= k < |members| ==> members[k] < i
    case SelectOp(source, _) => source < i
  }

  /** `Get`: blocked, or the result. */
  function Get(st: State, i: nat): Option<Result<Value>> {
    if i < |st.tasks| && st.tasks[i].rejected.Some? then Some(Err(st.tasks[i].rejected.value))
    else if i in st.results then Some(st.results[i])
    else None
  }

  function GetAll(st: State, ids: seq<nat>): Option<Result<seq<Value>>> {
    if ids == [] then Some(Ok([]))
    else
      match Get(st, ids[0])
      case None => None
      case Some(first) =>
        if first.Err? then Some(Err(first.code))
        else
          match GetAll(st, ids[1..])
          case None => None
          case Some(rest) => if rest.Err? then Some(rest) else Some(Ok([first.value] + rest.value))
  }

  /** The body of a task: `None` while it is blocked in a wait. */
  function Body(rt: Runtime, st: State, op: Op): Option<Result<Value>> {
    match op
    case ValueOp(v) => Some(Ok(v))
    case CallOp(fn, arg) =>
      (match Get(st, fn)
       case None => None
       case Some(f) =>
         if f.Err? then Some(f)
         else
           match Get(st, arg)
           case None => None
           case Some(a) => Some(ChildCall(rt, f, a)))
    case StructOp(members) =>
      (match GetAll(st, members)
       case None => None
       case Some(vs) => if vs.Err? then Some(Err(vs.code)) else Some(Ok(Struct(vs.value, NO_META))))
    case SelectOp(source, index) =>
      match Get(st, source)
      case None => None
      case Some(v) => Some(ChildSelect(v, index))
  }

  // ----- runs -----

  ghost predicate Enabled(rt: Runtime, st: State, e: Event) {
    match e
    case Submit(task) => InputsBelow(task.op, |st.tasks|)
    case Start(i) => i < |st.tasks| && st.tasks[i].rejected.None? && i !in st.started
    case Finish(i) => i < |st.tasks| && i in st.started && i !in st.results && Body(rt, st, st.tasks[i].op).Some?
  }

  function Next(rt: Runtime, st: State, e: Event): State {
    match e
    case Submit(task) => st.(tasks := st.tasks + [task])
    case Start(i) => st.(started := st.started + {i})
    case Finish(i) =>
      if i < |st.tasks| && Body(rt, st, st.tasks[i].op).Some?
      then st.(results := st.results[i := Body(rt, st, st.tasks[i].op).value])
      else st
  }

  ghost predicate Run(rt: Runtime, st: State, events: seq<Event>, end: State)
    decreases |events|
  {
    if events == [] then st == end
    else Enabled(rt, st, events[0]) && Run(rt, Next(rt, st, events[0]), events[1..], end)
  }

  // ----- the sequential meaning -----

  ghost predicate Ordered(tasks: seq<Task>) {
    forall i :: 0 <= i < |tasks| ==> InputsBelow(tasks[i].op, i)
  }

  /** What evaluating all tasks one after the other, in the order of their creation, gives. */
  function Sequential(rt: Runtime, tasks: seq<Task>, i: nat): Result<Value>
    requires Ordered(tasks) && i < |tasks|
    decreases i, 1
  {
    if tasks[i].rejected.Some? then Err(tasks[i].rejected.value)
    else
      match tasks[i].op
      case ValueOp(v) => Ok(v)
      case CallOp(fn, arg) => ChildCall(rt, Sequential(rt, tasks, fn), Sequential(rt, tasks, arg))
      case StructOp(members) => ChildStruct(SequentialAll(rt, tasks, i, members))
      case SelectOp(source, index) => ChildSelect(Sequential(rt, tasks, source), index)
  }

  function SequentialAll(rt: Runtime, tasks: seq<Task>, i: nat, ids: seq<nat>): seq<Result<Value>>
    requires Ordered(tasks) && i < |tasks| && forall k :: 0 <= k < |ids| ==> ids[k] < i
    decreases i, 0
  {
    seq(|ids|, k requires 0 <= k < |ids| => Sequential(rt, tasks, ids[k]))
  }

  /** What the future of task `i` holds, given what the futures of its inputs hold: a value, the
      answer of an inline function, the struct of its members or the first error among them,
      or a member. */
  ghost predicate TaskRule(rt: Runtime, tasks: seq<Task>, i: nat, r: Result<Value>)
    requires Ordered(tasks) && i < |tasks|
  {
    match (tasks[i].rejected, tasks[i].op)
    case (Some(c), _) => r == Err(c)
    case (_, ValueOp(v)) => r == Ok(v)
    case (_, CallOp(fn, arg)) => InlineRule(rt, Sequential(rt, tasks, fn), Sequential(rt, tasks, arg), r)
    case (_, StructOp(members)) => MembersRule(SequentialAll(rt, tasks, i, members), r)
    case (_, SelectOp(source, index)) =>
      match Sequential(rt, tasks, source)
      case Err(c) => r == Err(c)
      case Ok(Struct(ds, _)) => r == if index < |ds| then Ok(ds[index]) else Err(OutOfRange)
      case Ok(_) => r == Err(InvalidArgument)
  }

  ghost predicate MembersRule(members: seq<Result<Value>>, r: Result<Value>) {
    match r
    case Ok(d) =>
      && d.Struct? && d.meta == NO_META && |d.elements| == |members|
      && forall k :: 0 <= k < |members| ==> members[k] == Ok(d.elements[k])
    case Err(c) => exists k :: 0 <= k < |members| && members[k] == Err(c) && forall j :: 0 <= j < k ==> members[j].Ok?
  }

  lemma MembersFollowRule(members: seq<Result<Value>>, r: Result<Value>)
    ensures ChildStruct(members) == r <==> MembersRule(members, r)
  {
    MembersExact(members);
    if ChildMembers(members).Ok? && r.Ok? && MembersRule(members, r) {
      assert r.value.elements == ChildMembers(members).value;
    }
  }

  lemma {:induction false} SequentialFollowsRule(rt: Runtime, tasks: seq<Task>, i: nat, r: Result<Value>)
    requires Ordered(tasks) && i < |tasks|
    ensures Sequential(rt, tasks, i) == r <==> TaskRule(rt, tasks, i, r)
  {
    hide InlineRule, ChildCall, MembersRule, ChildStruct;
    if tasks[i].rejected.None? {
      match tasks[i].op
      case ValueOp(_) =>
      case CallOp(fn, arg) => InlineExact(rt, Sequential(rt, tasks, fn), Sequential(rt, tasks, arg), r);
      case StructOp(members) => MembersFollowRule(SequentialAll(rt, tasks, i, members), r);
      case SelectOp(_, _) =>
    }
  }

  lemma {:induction false} SequentialPrefix(rt: Runtime, tasks: seq<Task>, more: seq<Task>, i: nat)
    requires Ordered(tasks) && Ordered(more) && tasks <= more && i < |tasks|
    ensures Sequential(rt, tasks, i) == Sequential(rt, more, i)
    decreases i
  {
    if tasks[i].rejected.None? {
      match tasks[i].op
      case ValueOp(_) =>
      case CallOp(fn, arg) =>
        SequentialPrefix(rt, tasks, more, fn);
        SequentialPrefix(rt, tasks, more, arg);
      case StructOp(members) =>
        forall k | 0 <= k < |members|
          ensures Sequential(rt, tasks, members[k]) == Sequential(rt, more, members[k])
        {
          SequentialPrefix(rt, tasks, more, members[k]);
        }
        assert SequentialAll(rt, tasks, i, members) == SequentialAll(rt, more, i, members);
      case SelectOp(source, _) => SequentialPrefix(rt, tasks, more, source);
    }
  }

  // ----- the invariant -----

  /** Inputs exist before their users, and every result is the sequential one. */
  ghost predicate Inv(rt: Runtime, st: State) {
    && Ordered(st.tasks)
    && (forall i :: i in st.started ==> i < |st.tasks| && st.tasks[i].rejected.None?)
    && (forall i :: i in st.results ==> i in st.started)
    && (forall i :: i in st.results ==> st.results[i] == Sequential(rt, st.tasks, i))
  }

  lemma {:induction false} GetSequential(rt: Runtime, st: State, i: nat)
    requires Inv(rt, st) && i < |st.tasks| && Get(st, i).Some?
    ensures Get(st, i).value == Sequential(rt, st.tasks, i)
  {
  }

  lemma {:induction false} GetAllSequential(rt: Runtime, st: State, i: nat, ids: seq<nat>)
    requires Inv(rt, st) && i < |st.tasks| && (forall k :: 0 <= k < |ids| ==> ids[k] < i) && GetAll(st, ids).Some?
    ensures GetAll(st, ids).value == ChildMembers(SequentialAll(rt, st.tasks, i, ids))
    decreases |ids|
  {
    if ids != [] {
      GetSequential(rt, st, ids[0]);
      var all := SequentialAll(rt, st.tasks, i, ids);
      assert all[1..] == SequentialAll(rt, st.tasks, i, ids[1..]);
      if Get(st, ids[0]).value.Ok? {
        GetAllSequential(rt, st, i, ids[1..]);
      }
    }
  }

  lemma {:induction false} BodySequential(rt: Runtime, st: State, i: nat)
    requires Inv(rt, st) && i < |st.tasks| && st.tasks[i].rejected.None? && Body(rt, st, st.tasks[i].op).Some?
    ensures Body(rt, st, st.tasks[i].op).value == Sequential(rt, st.tasks, i)
  {
    match st.tasks[i].op
    case ValueOp(_) =>
    case CallOp(fn, arg) =>
      GetSequential(rt, st, fn);
      if Get(st, arg).Some? { GetSequential(rt, st, arg); }
    case StructOp(members) => GetAllSequential(rt, st, i, members);
    case SelectOp(source, _) => GetSequential(rt, st, source);
  }

  lemma StepKeepsInv(rt: Runtime, st: State, e: Event)
    requires Inv(rt, st) && Enabled(rt, st, e)
    ensures Inv(rt, Next(rt, st, e))
  {
    match e
    case Submit(task) =>
      var st' := Next(rt, st, e);
      forall i | i in st'.results
        ensures st'.results[i] == Sequential(rt, st'.tasks, i)
      {
        SequentialPrefix(rt, st.tasks, st'.tasks, i);
      }
    case Start(_) =>
    case Finish(i) => BodySequential(rt, st, i);
  }

  lemma {:induction false} RunKeepsInv(rt: Runtime, st: State, events: seq<Event>, end: State)
    requires Inv(rt, st) && Run(rt, st, events, end)
    ensures Inv(rt, end)
    decreases |events|
  {
    if events != [] {
      StepKeepsInv(rt, st, events[0]);
      RunKeepsInv(rt, Next(rt, st, events[0]), events[1..], end);
    }
  }

  /** Scheduler independence: whatever the order in which tasks were submitted, started and
      finished, every future that has a result has the sequential one, value or error, which
      is that of its task on what its inputs hold. */
  lemma {:induction false} SchedulerIndependence(rt: Runtime, events: seq<Event>, st: State, i: nat)
    requires Run(rt, INITIAL, events, st) && i < |st.tasks| && Get(st, i).Some?
    ensures Ordered(st.tasks) && Get(st, i).value == Sequential(rt, st.tasks, i)
    ensures TaskRule(rt, st.tasks, i, Get(st, i).value)
  {
    RunKeepsInv(rt, INITIAL, events, st);
    GetSequential(rt, st, i);
    SequentialFollowsRule(rt, st.tasks, i, Get(st, i).value);
  }

  // ----- no deadlock -----

  predicate Settled(st: State, i: nat) {
    Get(st, i).Some?
  }

  predicate AllSettled(st: State) {
    forall i :: 0 <= i < |st.tasks| ==> Settled(st, i)
  }

  lemma {:induction false} GetAllSettled(st: State, ids: seq<nat>)
    requires forall k :: 0 <= k < |ids| ==> Settled(st, ids[k])
    ensures GetAll(st, ids).Some?
    decreases |ids|
  {
    if ids != [] {
      assert Settled(st, ids[0]);
      GetAllSettled(st, ids[1..]);
    }
  }

  /** The oldest future without a result is never blocked: it only has to be started. */
  lemma OldestCanProceed(rt: Runtime, st: State, i: nat)
    requires Inv(rt, st) && i < |st.tasks| && !Settled(st, i) && forall j :: 0 <= j < i ==> Settled(st, j)
    ensures if i in st.started then Enabled(rt, st, Finish(i)) else Enabled(rt, st, Start(i))
  {
    match st.tasks[i].op
    case ValueOp(_) =>
    case CallOp(fn, arg) => assert Settled(st, fn) && Settled(st, arg);
    case StructOp(members) =>
      forall k | 0 <= k < |members| ensures Settled(st, members[k]) { }
      GetAllSettled(st, members);
    case SelectOp(source, _) => assert Settled(st, source);
  }

  lemma {:induction false} OldestUnsettled(st: State, n: nat) returns (i: nat)
    requires n <= |st.tasks| && exists j :: 0 <= j < n && !Settled(st, j)
    ensures i < n && !Settled(st, i) && forall j :: 0 <= j < i ==> Settled(st, j)
    decreases n
  {
    if exists j :: 0 <= j < n - 1 && !Settled(st, j) {
      i := OldestUnsettled(st, n - 1);
    } else {
      i := n - 1;
    }
  }

  /** With a thread per task some step is always possible until every future has a result. */
  lemma {:induction false} NoDeadlock(rt: Runtime, events: seq<Event>, st: State)
    requires Run(rt, INITIAL, events, st) && !AllSettled(st)
    ensures exists i :: Enabled(rt, st, Start(i)) || Enabled(rt, st, Finish(i))
  {
    RunKeepsInv(rt, INITIAL, events, st);
    var i := OldestUnsettled(st, |st.tasks|);
    OldestCanProceed(rt, st, i);
  }

  /** Those tasks that occupy a worker: started and not finished. */
  function Busy(st: State): set<nat> {
    set i | i in st.started && i !in st.results
  }

  /** A pool of any positive size suffices when tasks start in the order of submission. */
  predicate StartedInOrder(st: State) {
    forall i, j :: 0 <= i < j < |st.tasks| && j in st.started && st.tasks[i].rejected.None? ==> i in st.started
  }

  lemma {:induction false} OrderedPoolProceeds(rt: Runtime, events: seq<Event>, st: State, workers: nat)
    requires Run(rt, INITIAL, events, st) && !AllSettled(st) && workers >= 1 && StartedInOrder(st)
    ensures exists i :: Enabled(rt, st, Finish(i)) || (Enabled(rt, st, Start(i)) && |Busy(st)| < workers)
  {
    RunKeepsInv(rt, INITIAL, events, st);
    var i := OldestUnsettled(st, |st.tasks|);
    OldestCanProceed(rt, st, i);
    if i !in st.started {
      forall j: nat
        ensures j !in Busy(st)
      {
        assert j < i ==> Settled(st, j);
      }
      assert Busy(st) == {};
    }
  }

  /** Started out of order, a bounded pool can get stuck: the only worker waits for a task
      that has no worker. */
  lemma {:induction false} OutOfOrderPoolStuck(rt: Runtime, v: Value)
    ensures var tasks := [Task(ValueOp(v), None), Task(SelectOp(0, 0), None)];
            var st := State(tasks, {1}, map[]);
            && Run(rt, INITIAL, [Submit(tasks[0]), Submit(tasks[1]), Start(1)], st)
            && |Busy(st)| == 1
            && forall i :: !Enabled(rt, st, Finish(i))
  {
    var tasks := [Task(ValueOp(v), None), Task(SelectOp(0, 0), None)];
    var st := State(tasks, {1}, map[]);
    var events := [Submit(tasks[0]), Submit(tasks[1]), Start(1)];
    var s1 := State([tasks[0]], {}, map[]);
    var s2 := State(tasks, {}, map[]);
    assert Next(rt, INITIAL, events[0]) == s1 && Next(rt, s1, events[1]) == s2 && Next(rt, s2, events[2]) == st;
    assert Run(rt, st, events[1..][1..][1..], st);
    assert Run(rt, s2, events[1..][1..], st);
    assert Run(rt, s1, events[1..], st);
    assert Busy(st) == {1};
  }

  // ----- termination -----

  function ToStart(st: State): set<nat> {
    set i | 0 <= i < |st.tasks| && i !in st.started
  }

  function ToFinish(st: State): set<nat> {
    set i | 0 <= i < |st.tasks| && i !in st.results
  }

  /** The starts and finishes still to come. */
  function Remaining(st: State): nat {
    |ToStart(st)| + |ToFinish(st)|
  }

  lemma StepRemoves(rt: Runtime, st: State, e: Event)
    requires Enabled(rt, st, e) && !e.Submit?
    ensures ToStart(Next(rt, st, e)) == if e.Start? then ToStart(st) - {e.i} else ToStart(st)
    ensures ToFinish(Next(rt, st, e)) == if e.Finish? then ToFinish(st) - {e.i} else ToFinish(st)
    ensures e.i in if e.Start? then ToStart(st) else ToFinish(st)
  {
    hide Body;
  }

  lemma StepUsesUp(rt: Runtime, st: State, e: Event)
    requires Enabled(rt, st, e) && !e.Submit?
    ensures Remaining(Next(rt, st, e)) == Remaining(st) - 1
  {
    hide Enabled, Next, ToStart, ToFinish;
    StepRemoves(rt, st, e);
  }

  /** Without new submissions every run is short: each task starts and finishes at most once.
      A run that cannot go on has settled every future. */
  lemma {:induction false} RunsEnd(rt: Runtime, st: State, events: seq<Event>, end: State)
    requires Inv(rt, st) && Run(rt, st, events, end) && forall k :: 0 <= k < |events| ==> !events[k].Submit?
    ensures |events| <= Remaining(st)
    ensures (forall i :: !Enabled(rt, end, Start(i)) && !Enabled(rt, end, Finish(i))) ==> AllSettled(end)
    decreases |events|
  {
    if events == [] {
      if !AllSettled(st) {
        var i := OldestUnsettled(st, |st.tasks|);
        OldestCanProceed(rt, st, i);
      }
    } else {
      StepKeepsInv(rt, st, events[0]);
      StepUsesUp(rt, st, events[0]);
      RunsEnd(rt, Next(rt, st, events[0]), events[1..], end);
    }
  }
}
