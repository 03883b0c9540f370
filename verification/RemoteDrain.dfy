/** The remote protocol neither blocks nor leaks. */
module RemoteDrain {
  import opened RemoteProtocol

  // No task waits for ever, and once the client has dropped its handles every id the server
  // issued is disposed of.

  predicate Unfinished(p: Phase) {
    p.Waiting? || p.Requested? || p.Answered?
  }

  /** A step of the running system, as opposed to a new call or a dropped handle. */
  predicate Internal(e: Event) {
    !e.Begin? && !e.DropHandle?
  }

  ghost predicate CanStep(s: State) {
    exists e :: Internal(e) && Enabled(s, e)
  }

  // ----- progress -----

  /** The oldest unfinished task can take its next step: its inputs are finished. */
  lemma OldestCanStep(s: State, t: nat)
    requires Shape(s) && Unfinished(PhaseOf(s, t))
    requires forall u: nat :: u < t ==> !Unfinished(PhaseOf(s, u))
    ensures CanStep(s)
  {
    hide Shape, Needed;
    match PhaseOf(s, t)
    case Waiting =>
      InputsFinished(s, t);
      var inputs := s.tasks[t].inputs;
      if AllHold(s, inputs) {
        assert Enabled(s, Send(t));
      } else {
        var k := FirstOver(s, inputs);
        assert Enabled(s, Abort(t));
      }
    case Requested(_) => assert Enabled(s, Answer(t, true));
    case Answered(_) => assert Enabled(s, Receive(t));
  }

  lemma InputsFinished(s: State, t: nat)
    requires Shape(s) && PhaseOf(s, t).Waiting?
    requires forall u: nat :: u < t ==> !Unfinished(PhaseOf(s, u))
    ensures forall k :: 0 <= k < |s.tasks[t].inputs| ==> Finished(PhaseOf(s, s.tasks[t].inputs[k]))
  {
    assert InputsLive(s, t);
  }

  lemma {:induction false} FirstOver(s: State, inputs: seq<nat>) returns (k: nat)
    requires forall i :: 0 <= i < |inputs| ==> Finished(PhaseOf(s, inputs[i]))
    requires !AllHold(s, inputs)
    ensures k < |inputs| && AllHold(s, inputs[..k]) && PhaseOf(s, inputs[k]).Over?
  {
    var last := |inputs| - 1;
    if AllHold(s, inputs[..last]) {
      k := last;
      assert PhaseOf(s, inputs[last]).Holds? ==> forall i :: 0 <= i < |inputs| ==>
        inputs[i] == if i < last then inputs[..last][i] else inputs[last];
    } else {
      k := FirstOver(s, inputs[..last]);
      assert inputs[..last][..k] == inputs[..k];
    }
  }

  lemma {:induction false} SomeUnfinishedCanStep(s: State, t: nat)
    requires Shape(s) && Unfinished(PhaseOf(s, t))
    ensures CanStep(s)
    decreases t
  {
    if u: nat :| u < t && Unfinished(PhaseOf(s, u)) {
      SomeUnfinishedCanStep(s, u);
    } else {
      OldestCanStep(s, t);
    }
  }

  /** With no handle left, the newest task that is not gone can be destroyed. */
  lemma {:induction false} SomeFinishedCanStep(s: State, t: nat)
    requires Shape(s) && s.handles == {} && Finished(PhaseOf(s, t))
    requires forall u: nat :: u < |s.tasks| ==> !Unfinished(PhaseOf(s, u))
    ensures CanStep(s)
    decreases |s.tasks| - t
  {
    if u: nat :| u < |s.tasks| && s.tasks[u].phase != Gone && t in s.tasks[u].inputs {
      assert InputsLive(s, u);
      assert !Unfinished(PhaseOf(s, u));
      SomeFinishedCanStep(s, u);
    } else {
      assert Enabled(s, Destroy(t));
    }
  }

  lemma DisposalCanStep(s: State, id: nat)
    requires id in s.disposals
    ensures CanStep(s)
  {
    assert Enabled(s, ServeDispose(id));
  }

  /** No deadlock: in a reachable state some step is enabled as long as a call is unfinished,
      a Dispose message is under way, or, with no handle left, a task still exists. */
  lemma {:induction false} NoDeadlock(before: seq<Event>, s: State)
    requires Run(INITIAL, before, s) && !CanStep(s)
    ensures s.disposals == multiset{}
    ensures forall t: nat :: t < |s.tasks| ==> !Unfinished(PhaseOf(s, t))
    ensures s.handles == {} ==> forall t: nat :: t < |s.tasks| ==> PhaseOf(s, t) == Gone
  {
    hide CanStep, Shape, Balanced, Run;
    StartIsRight();
    RunKeeps(INITIAL, before, s);
    forall id: nat
      ensures id !in s.disposals
    {
      if id in s.disposals {
        DisposalCanStep(s, id);
      }
    }
    forall t: nat
      ensures !Unfinished(PhaseOf(s, t))
    {
      if Unfinished(PhaseOf(s, t)) {
        SomeUnfinishedCanStep(s, t);
      }
    }
    forall t: nat
      ensures s.handles == {} ==> PhaseOf(s, t) == Gone
    {
      if s.handles == {} && Finished(PhaseOf(s, t)) {
        SomeFinishedCanStep(s, t);
      }
    }
  }

  // ----- every run without new calls ends -----

  function Rank(p: Phase): nat {
    match p
    case Waiting => 5
    case Requested(_) => 4
    case Answered(_) => 3
    case Holds(_) => 2
    case Over => 1
    case Gone => 0
  }

  function Work(tasks: seq<Task>): nat {
    if tasks == [] then 0 else Work(tasks[..|tasks| - 1]) + Rank(tasks[|tasks| - 1].phase)
  }

  function Measure(s: State): nat {
    Work(s.tasks) + |s.disposals| + |s.handles|
  }

  lemma {:induction false} WorkUpdate(tasks: seq<Task>, i: nat, t: Task)
    requires i < |tasks|
    ensures Work(tasks[i := t]) + Rank(tasks[i].phase) == Work(tasks) + Rank(t.phase)
  {
    var last := |tasks| - 1;
    if i == last {
      assert tasks[i := t][..last] == tasks[..last];
    } else {
      assert tasks[i := t][..last] == tasks[..last][i := t];
      WorkUpdate(tasks[..last], i, t);
    }
  }

  lemma PhaseShrinks(s: State, t: nat, p: Phase)
    requires t < |s.tasks|
    ensures Measure(SetPhase(s, t, p)) + Rank(s.tasks[t].phase) == Measure(s) + Rank(p)
  {
    hide Work;
    WorkUpdate(s.tasks, t, s.tasks[t].(phase := p));
  }

  lemma StepShrinks(s: State, e: Event)
    requires Enabled(s, e) && !e.Begin?
    ensures Measure(Next(s, e)) < Measure(s)
  {
    hide Work, Needed, Held, Issued, AllHold, Known;
    match e
    case DropHandle(t) => assert |s.handles - {t}| == |s.handles| - 1;
    case ServeDispose(id) => assert |s.disposals - multiset{id}| == |s.disposals| - 1;
    case Destroy(t) => DestroyShrinks(s, t);
    case Send(t) => PhaseShrinks(s, t, Next(s, e).tasks[t].phase);
    case Abort(t) => PhaseShrinks(s, t, Over);
    case Answer(t, _) => PhaseShrinks(s, t, Next(s, e).tasks[t].phase);
    case Receive(t) => PhaseShrinks(s, t, Next(s, e).tasks[t].phase);
  }

  lemma DestroyShrinks(s: State, t: nat)
    requires Enabled(s, Destroy(t))
    ensures Measure(Next(s, Destroy(t))) < Measure(s)
  {
    hide Work, Needed, Held, Issued;
    PhaseShrinks(s, t, Gone);
    assert |s.disposals + Own(s.tasks[t].phase)| == |s.disposals| + |Own(s.tasks[t].phase)|;
  }

  lemma {:induction false} RunsEnd(s: State, events: seq<Event>, end: State)
    requires Run(s, events, end) && forall k :: 0 <= k < |events| ==> !events[k].Begin?
    ensures |events| + Measure(end) <= Measure(s)
    decreases |events|
  {
    if events != [] {
      StepShrinks(s, events[0]);
      RunsEnd(Next(s, events[0]), events[1..], end);
    }
  }

  lemma {:induction false} RunsJoin(s: State, first: seq<Event>, mid: State, second: seq<Event>, end: State)
    requires Run(s, first, mid) && Run(mid, second, end)
    ensures Run(s, first + second, end)
    decreases |first|
  {
    hide Enabled, Next;
    if first == [] {
      assert first + second == second;
    } else {
      RunsJoin(Next(s, first[0]), first[1..], mid, second, end);
      assert (first + second)[1..] == first[1..] + second;
    }
  }

  lemma {:induction false} NothingHeld(tasks: seq<Task>)
    requires forall t: nat :: t < |tasks| ==> tasks[t].phase == Gone
    ensures Held(tasks) == multiset{}
  {
    if tasks != [] {
      NothingHeld(tasks[..|tasks| - 1]);
    }
  }

  /** A reachable state at rest with no handle left. */
  lemma {:induction false} RestIsEmpty(before: seq<Event>, s: State)
    requires Run(INITIAL, before, s) && s.handles == {} && !CanStep(s)
    ensures s.tracked == {} && s.disposed == Issued(s.next)
  {
    hide Run, CanStep, Unfinished, Issued;
    OwnershipInvariant(before, s);
    NoDeadlock(before, s);
    assert forall t: nat :: t < |s.tasks| ==> PhaseOf(s, t) == s.tasks[t].phase;
    NothingHeld(s.tasks);
    assert multiset(s.tracked) == multiset{};
    forall id: nat
      ensures id !in s.tracked
    {
      assert id !in multiset(s.tracked);
    }
  }

  /** Nothing leaks. Once the client makes no new call, the system takes a bounded number of
      steps; when it comes to rest with no handle left, the server tracks nothing, and each id
      it ever issued has been disposed of exactly once. */
  lemma {:induction false} DrainsCompletely(before: seq<Event>, s: State, events: seq<Event>, end: State)
    requires Run(INITIAL, before, s)
    requires Run(s, events, end) && forall k :: 0 <= k < |events| ==> !events[k].Begin?
    ensures |events| <= Measure(s)
    ensures end.handles == {} && !CanStep(end) ==> end.tracked == {} && end.disposed == Issued(end.next)
  {
    hide Run, CanStep, Measure, Issued;
    RunsEnd(s, events, end);
    RunsJoin(INITIAL, before, s, events, end);
    if end.handles == {} && !CanStep(end) {
      RestIsEmpty(before + events, end);
    }
  }
}
