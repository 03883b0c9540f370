/** The remote executor and the executor service as one system of asynchronous steps. */
module RemoteProtocol {
  import opened Common

  // The client is genc/cc/runtime/remote_executor.cc, the server
  // genc/cc/runtime/executor_service.cc over the id table of genc/cc/runtime/executor.h.
  //
  // A client task is the closure handed to `RunAsync` by one `Create*` call, together with
  // the future of its result, or one blocking `Materialize` call. It keeps the futures it was
  // given for as long as it exists itself. Calls are reliable: every request is answered once.

  /** `Waiting` for its inputs; `Requested`: the request naming `refs` is at or on its way to
      the server; `Answered`: the response is on its way back, with the id of the new value if
      the server made one; `Holds`: the future has its `ExecutorValue`; `Over`: it has an error
      (or the call was a `Materialize`); `Gone`: it has been destroyed. */
  datatype Phase =
    | Waiting
    | Requested(refs: seq<nat>)
    | Answered(created: Option<nat>)
    | Holds(id: nat)
    | Over
    | Gone

  datatype Kind = Creates | Materializes

  datatype Task = Task(kind: Kind, inputs: seq<nat>, phase: Phase)

  /** `handles`: those tasks whose futures the client executor tracks. `disposals`: the Dispose
      messages under way. `next`, `tracked`: the id table of the server. `disposed`: every
      successful disposal so far. `refusals`: how often the server did not find an id. */
  datatype State = State(
    tasks: seq<Task>,
    handles: set<nat>,
    disposals: multiset<nat>,
    next: nat,
    tracked: set<nat>,
    disposed: multiset<nat>,
    refusals: nat)

  const INITIAL := State([], {}, multiset{}, 0, {}, multiset{}, 0)

  datatype Event =
    | Begin(kind: Kind, inputs: seq<nat>, accepted: bool)
    | DropHandle(t: nat)
    | Send(t: nat)
    | Abort(t: nat)
    | Answer(t: nat, ok: bool)
    | Receive(t: nat)
    | Destroy(t: nat)
    | ServeDispose(id: nat)

  function PhaseOf(s: State, t: nat): Phase {
    if t < |s.tasks| then s.tasks[t].phase else Gone
  }

  predicate Finished(p: Phase) {
    p.Holds? || p.Over?
  }

  predicate AllHold(s: State, ts: seq<nat>) {
    forall k :: 0 <= k < |ts| ==> PhaseOf(s, ts[k]).Holds?
  }

  /** The ids named by a request whose inputs all hold values. */
  function RefsOf(s: State, ts: seq<nat>): (refs: seq<nat>)
    requires AllHold(s, ts)
    ensures |refs| == |ts| && forall k :: 0 <= k < |ts| ==> PhaseOf(s, ts[k]) == Holds(refs[k])
  {
    seq(|ts|, k requires 0 <= k < |ts| => PhaseOf(s, ts[k]).id)
  }

  predicate Known(s: State, refs: seq<nat>) {
    forall k :: 0 <= k < |refs| ==> refs[k] in s.tracked
  }

  ghost predicate Needed(s: State, t: nat) {
    exists u: nat :: u < |s.tasks| && s.tasks[u].phase != Gone && t in s.tasks[u].inputs
  }

  // ----- the steps -----

  ghost predicate Enabled(s: State, e: Event) {
    match e
    case Begin(kind, inputs, _) =>
      && (forall k :: 0 <= k < |inputs| ==> inputs[k] in s.handles)
      && (kind.Materializes? ==> |inputs| == 1)
    case DropHandle(t) => t in s.handles
    case Send(t) => PhaseOf(s, t).Waiting? && AllHold(s, s.tasks[t].inputs)
    case Abort(t) =>
      && PhaseOf(s, t).Waiting?
      && exists k :: 0 <= k < |s.tasks[t].inputs| && AllHold(s, s.tasks[t].inputs[..k])
                     && PhaseOf(s, s.tasks[t].inputs[k]).Over?
    case Answer(t, _) => PhaseOf(s, t).Requested?
    case Receive(t) => PhaseOf(s, t).Answered?
    case Destroy(t) => Finished(PhaseOf(s, t)) && t !in s.handles && !Needed(s, t)
    case ServeDispose(id) => id in s.disposals
  }

  function SetPhase(s: State, t: nat, p: Phase): State
    requires t < |s.tasks|
  {
    s.(tasks := s.tasks[t := s.tasks[t].(phase := p)])
  }

  ghost function Next(s: State, e: Event): State
    requires Enabled(s, e)
  {
    match e
    case Begin(kind, inputs, accepted) =>
      s.(tasks := s.tasks + [Task(kind, inputs, if accepted || kind.Materializes? then Waiting else Over)],
         handles := if kind.Creates? then s.handles + {|s.tasks|} else s.handles)
    case DropHandle(t) => s.(handles := s.handles - {t})
    case Send(t) => SetPhase(s, t, Requested(RefsOf(s, s.tasks[t].inputs)))
    case Abort(t) => SetPhase(s, t, Over)
    case Answer(t, ok) =>
      if !Known(s, s.tasks[t].phase.refs) then SetPhase(s, t, Answered(None)).(refusals := s.refusals + 1)
      else if s.tasks[t].kind.Creates? && ok then
        SetPhase(s, t, Answered(Some(s.next))).(next := s.next + 1, tracked := s.tracked + {s.next})
      else SetPhase(s, t, Answered(None))
    case Receive(t) =>
      SetPhase(s, t, match s.tasks[t].phase.created case Some(id) => Holds(id) case None => Over)
    case Destroy(t) =>
      SetPhase(s, t, Gone).(disposals := s.disposals + Own(PhaseOf(s, t)))
    case ServeDispose(id) =>
      var t := s.(disposals := s.disposals - multiset{id});
      if id in s.tracked then t.(tracked := s.tracked - {id}, disposed := s.disposed + multiset{id})
      else t.(refusals := s.refusals + 1)
  }

  ghost predicate Run(s: State, events: seq<Event>, end: State)
    decreases |events|
  {
    if events == [] then s == end
    else Enabled(s, events[0]) && Run(Next(s, events[0]), events[1..], end)
  }

  // ----- who holds an id -----

  /** The id a task answers for: it is in its response or in its `ExecutorValue`. */
  function Own(p: Phase): multiset<nat> {
    match p
    case Answered(Some(id)) => multiset{id}
    case Holds(id) => multiset{id}
    case _ => multiset{}
  }

  function Held(tasks: seq<Task>): multiset<nat> {
    if tasks == [] then multiset{}
    else Held(tasks[..|tasks| - 1]) + Own(tasks[|tasks| - 1].phase)
  }

  /** The ids issued so far, each once. */
  function Issued(next: nat): (ids: multiset<nat>)
    ensures forall id: nat :: ids[id] == if id < next then 1 else 0
  {
    if next == 0 then multiset{} else Issued(next - 1) + multiset{next - 1}
  }

  lemma AddToBoth(a: multiset<nat>, b: multiset<nat>, c: multiset<nat>, d: multiset<nat>, x: multiset<nat>)
    requires a + b == c + d
    ensures (a + x) + b == (c + x) + d
  {
    assert (a + x) + b == (a + b) + x;
    assert (c + x) + d == (c + d) + x;
  }

  lemma Cancel(a: multiset<nat>, b: multiset<nat>, x: multiset<nat>)
    requires a + x == b + x
    ensures a == b
  {
    assert (a + x) - x == a && (b + x) - x == b;
  }

  lemma {:induction false} HeldStep(tasks: seq<Task>)
    requires tasks != []
    ensures Held(tasks) == Held(tasks[..|tasks| - 1]) + Own(tasks[|tasks| - 1].phase)
  {
  }

  lemma {:induction false} HeldUpdate(tasks: seq<Task>, i: nat, t: Task)
    requires i < |tasks|
    ensures Held(tasks[i := t]) + Own(tasks[i].phase) == Held(tasks) + Own(t.phase)
  {
    hide Own;
    var last := |tasks| - 1;
    if i == last {
      assert tasks[i := t][..last] == tasks[..last];
    } else {
      assert tasks[i := t][..last] == tasks[..last][i := t];
      HeldUpdate(tasks[..last], i, t);
      HeldStep(tasks[i := t]);
      HeldStep(tasks);
      AddToBoth(Held(tasks[..last][i := t]), Own(tasks[i].phase), Held(tasks[..last]), Own(t.phase),
        Own(tasks[last].phase));
    }
  }

  lemma {:induction false} HeldAppend(tasks: seq<Task>, t: Task)
    ensures Held(tasks + [t]) == Held(tasks) + Own(t.phase)
  {
    assert (tasks + [t])[..|tasks|] == tasks;
  }

  lemma {:induction false} OwnHeld(tasks: seq<Task>, i: nat)
    requires i < |tasks|
    ensures Own(tasks[i].phase) <= Held(tasks)
  {
    if i < |tasks| - 1 {
      OwnHeld(tasks[..|tasks| - 1], i);
    }
  }

  /** Every tracked id is answered for exactly once, by a task or by a Dispose message; every
      id ever issued is tracked or was disposed of, exactly once. */
  ghost predicate Balanced(s: State) {
    && Held(s.tasks) + s.disposals == multiset(s.tracked)
    && multiset(s.tracked) + s.disposed == Issued(s.next)
    && s.refusals == 0
  }

  /** A task that is not gone has inputs that are not gone, created before it. A request names
      the values its inputs hold. */
  ghost predicate InputsLive(s: State, t: nat)
    requires t < |s.tasks|
  {
    forall k :: 0 <= k < |s.tasks[t].inputs| ==>
      s.tasks[t].inputs[k] < t && PhaseOf(s, s.tasks[t].inputs[k]) != Gone
  }

  ghost predicate NamesInputs(s: State, t: nat)
    requires t < |s.tasks| && s.tasks[t].phase.Requested?
  {
    && |s.tasks[t].phase.refs| == |s.tasks[t].inputs|
    && forall k :: 0 <= k < |s.tasks[t].inputs| ==> PhaseOf(s, s.tasks[t].inputs[k]) == Holds(s.tasks[t].phase.refs[k])
  }

  ghost predicate Shape(s: State) {
    && (forall t :: t in s.handles ==> t < |s.tasks| && s.tasks[t].phase != Gone)
    && (forall t: nat :: t < |s.tasks| && s.tasks[t].phase != Gone ==> InputsLive(s, t))
    && (forall t: nat :: t < |s.tasks| && s.tasks[t].phase.Requested? ==> NamesInputs(s, t))
  }

  // ----- what every step keeps -----

  /** Changing the phase of one task keeps the shape, if a held value is given up only when
      no other task needs this one. */
  lemma PhaseKeepsShape(s: State, t: nat, p: Phase)
    requires Shape(s) && t < |s.tasks| && s.tasks[t].phase != Gone
    requires p.Requested? ==> AllHold(s, s.tasks[t].inputs) && p.refs == RefsOf(s, s.tasks[t].inputs)
    requires s.tasks[t].phase.Holds? ==> p == Gone
    requires p == Gone ==> t !in s.handles && !Needed(s, t)
    ensures Shape(SetPhase(s, t, p))
  {
    var s' := SetPhase(s, t, p);
    forall u: nat | u < |s'.tasks| && s'.tasks[u].phase != Gone
      ensures InputsLive(s', u)
    {
      assert InputsLive(s, u);
      assert t in s.tasks[u].inputs ==> Needed(s, t);
    }
    forall u: nat | u < |s'.tasks| && s'.tasks[u].phase.Requested?
      ensures NamesInputs(s', u)
    {
      assert InputsLive(s, u);
      assert u != t ==> NamesInputs(s, u);
      assert t in s.tasks[u].inputs ==> Needed(s, t);
    }
  }

  lemma BeginKeepsShape(s: State, e: Event)
    requires Shape(s) && e.Begin? && Enabled(s, e)
    ensures Shape(Next(s, e))
  {
    var s' := Next(s, e);
    forall u: nat | u < |s'.tasks| && s'.tasks[u].phase != Gone
      ensures InputsLive(s', u)
    {
      assert u < |s.tasks| ==> InputsLive(s, u);
    }
    forall u: nat | u < |s'.tasks| && s'.tasks[u].phase.Requested?
      ensures NamesInputs(s', u)
    {
      assert NamesInputs(s, u);
    }
  }

  /** The shape does not depend on the server or on the Dispose messages. */
  lemma SameShape(s: State, s': State)
    requires Shape(s) && s'.tasks == s.tasks && s'.handles <= s.handles
    ensures Shape(s')
  {
    forall u: nat | u < |s'.tasks|
      ensures s'.tasks[u].phase != Gone ==> InputsLive(s', u)
      ensures s'.tasks[u].phase.Requested? ==> NamesInputs(s', u)
    {
      assert s.tasks[u].phase != Gone ==> InputsLive(s, u);
      assert s.tasks[u].phase.Requested? ==> NamesInputs(s, u);
    }
  }

  lemma StepKeepsShape(s: State, e: Event)
    requires Shape(s) && Enabled(s, e)
    ensures Shape(Next(s, e))
  {
    hide Shape, Needed, Held;
    var s' := Next(s, e);
    match e
    case Begin(_, _, _) => BeginKeepsShape(s, e);
    case DropHandle(t) => SameShape(s, s');
    case ServeDispose(id) => SameShape(s, s');
    case Send(t) => PhaseKeepsShape(s, t, s'.tasks[t].phase);
    case Abort(t) => PhaseKeepsShape(s, t, Over);
    case Answer(t, _) =>
      PhaseKeepsShape(s, t, s'.tasks[t].phase);
      SameShape(SetPhase(s, t, s'.tasks[t].phase), s');
    case Receive(t) => PhaseKeepsShape(s, t, s'.tasks[t].phase);
    case Destroy(t) =>
      PhaseKeepsShape(s, t, Gone);
      SameShape(SetPhase(s, t, Gone), s');
  }

  /** The ids that a request names are tracked. */
  lemma RequestKnown(s: State, t: nat)
    requires Shape(s) && Balanced(s) && PhaseOf(s, t).Requested?
    ensures Known(s, s.tasks[t].phase.refs)
  {
    assert NamesInputs(s, t) && InputsLive(s, t);
    var refs := s.tasks[t].phase.refs;
    forall k | 0 <= k < |refs|
      ensures refs[k] in s.tracked
    {
      var u := s.tasks[t].inputs[k];
      OwnHeld(s.tasks, u);
      assert refs[k] in Own(s.tasks[u].phase);
      assert refs[k] in multiset(s.tracked);
    }
  }

  /** A phase change that leaves the id that a task answers for where it is. */
  lemma PhaseKeepsBalance(s: State, t: nat, p: Phase)
    requires Balanced(s) && t < |s.tasks| && Own(p) == Own(s.tasks[t].phase)
    ensures Balanced(SetPhase(s, t, p))
  {
    HeldUpdate(s.tasks, t, s.tasks[t].(phase := p));
    Cancel(Held(SetPhase(s, t, p).tasks), Held(s.tasks), Own(p));
  }

  lemma DestroyKeepsBalance(s: State, t: nat)
    requires Balanced(s) && Enabled(s, Destroy(t))
    ensures Balanced(Next(s, Destroy(t)))
  {
    hide Held;
    var o := Own(s.tasks[t].phase);
    var h := Held(s.tasks[t := s.tasks[t].(phase := Gone)]);
    HeldUpdate(s.tasks, t, s.tasks[t].(phase := Gone));
    assert h + o == Held(s.tasks);
    assert h + (s.disposals + o) == (h + o) + s.disposals;
  }

  lemma StepKeepsBalance(s: State, e: Event)
    requires Shape(s) && Balanced(s) && Enabled(s, e)
    ensures Balanced(Next(s, e))
  {
    hide Shape, Needed, Held;
    match e
    case Begin(_, _, _) => HeldAppend(s.tasks, Next(s, e).tasks[|s.tasks|]);
    case DropHandle(_) =>
    case Send(t) => PhaseKeepsBalance(s, t, Requested(RefsOf(s, s.tasks[t].inputs)));
    case Abort(t) => PhaseKeepsBalance(s, t, Over);
    case Answer(t, ok) => AnswerKeepsBalance(s, t, ok);
    case Receive(t) => PhaseKeepsBalance(s, t, Next(s, e).tasks[t].phase);
    case Destroy(t) => DestroyKeepsBalance(s, t);
    case ServeDispose(id) => ServeDisposeKeepsBalance(s, id);
  }

  lemma FreshId(s: State)
    requires Balanced(s)
    ensures s.next !in s.tracked
    ensures Issued(s.next + 1) == multiset(s.tracked + {s.next}) + s.disposed
  {
    assert Issued(s.next)[s.next] == 0;
    assert (multiset(s.tracked) + s.disposed)[s.next] == 0;
    assert s.next !in multiset(s.tracked);
    assert multiset(s.tracked + {s.next}) == multiset(s.tracked) + multiset{s.next};
  }

  lemma AnswerKeepsBalance(s: State, t: nat, ok: bool)
    requires Shape(s) && Balanced(s) && Enabled(s, Answer(t, ok))
    ensures Balanced(Next(s, Answer(t, ok)))
  {
    hide Shape, Needed, Held, Issued;
    var s' := Next(s, Answer(t, ok));
    RequestKnown(s, t);
    if s.tasks[t].kind.Creates? && ok {
      FreshId(s);
      HeldUpdate(s.tasks, t, s.tasks[t].(phase := Answered(Some(s.next))));
      assert Held(s'.tasks) == Held(s.tasks) + multiset{s.next};
      assert Held(s'.tasks) + s'.disposals == (Held(s.tasks) + s.disposals) + multiset{s.next};
      assert multiset(s'.tracked) == multiset(s.tracked) + multiset{s.next};
    } else {
      PhaseKeepsBalance(s, t, Answered(None));
    }
  }

  lemma ServeDisposeKeepsBalance(s: State, id: nat)
    requires Balanced(s) && id in s.disposals
    ensures Balanced(Next(s, ServeDispose(id)))
  {
    var s' := Next(s, ServeDispose(id));
    assert id in multiset(s.tracked);
    assert multiset(s'.tracked) == multiset(s.tracked) - multiset{id};
  }

  lemma {:induction false} RunKeeps(s: State, events: seq<Event>, end: State)
    requires Shape(s) && Balanced(s) && Run(s, events, end)
    ensures Shape(end) && Balanced(end)
    decreases |events|
  {
    if events != [] {
      StepKeepsShape(s, events[0]);
      StepKeepsBalance(s, events[0]);
      RunKeeps(Next(s, events[0]), events[1..], end);
    }
  }

  lemma StartIsRight()
    ensures Shape(INITIAL) && Balanced(INITIAL)
  {
    assert Issued(0) == multiset{};
  }

  /** Ownership, in every reachable state. */
  lemma {:induction false} OwnershipInvariant(events: seq<Event>, s: State)
    requires Run(INITIAL, events, s)
    ensures Held(s.tasks) + s.disposals == multiset(s.tracked)
    ensures multiset(s.tracked) + s.disposed == Issued(s.next)
    ensures s.refusals == 0
    ensures forall t: nat :: t < |s.tasks| && s.tasks[t].phase.Requested? ==> Known(s, s.tasks[t].phase.refs)
    ensures forall id: nat :: id in s.disposals ==> id in s.tracked && s.disposals[id] == 1
    ensures forall id: nat :: s.disposed[id] <= 1
  {
    StartIsRight();
    RunKeeps(INITIAL, events, s);
    forall t: nat | t < |s.tasks| && s.tasks[t].phase.Requested?
      ensures Known(s, s.tasks[t].phase.refs)
    {
      RequestKnown(s, t);
    }
    forall id: nat | id in s.disposals
      ensures id in s.tracked && s.disposals[id] == 1
    {
      assert multiset(s.tracked)[id] <= 1;
    }
    forall id: nat
      ensures s.disposed[id] <= 1
    {
      assert Issued(s.next)[id] <= 1;
    }
  }
}
