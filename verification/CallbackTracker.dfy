/** The callback tracker, and any number of threads that schedule callbacks. */
module CallbackTrackers {
  import opened Common

  // `CallbackTracker` and `Schedule` of genc/cc/runtime/concurrency_helpers.h. Every body
  // under the tracker's mutex is one step, so a concurrent execution is a sequence of them.

  /** The fields of the tracker. Waitables are named by the id of their callback. */
  datatype Fields = Fields(scheduled: nat, completed: nat, completedEarly: set<nat>, callbacks: set<nat>)

  const EMPTY := Fields(0, 0, {}, {})

  function NewId(f: Fields): Fields {
    f.(scheduled := f.scheduled + 1)
  }

  function Register(f: Fields, id: nat): Fields {
    if id in f.completedEarly then f.(completedEarly := f.completedEarly - {id})
    else f.(callbacks := f.callbacks + {id})
  }

  function Ignore(f: Fields): Fields {
    f.(completed := f.completed + 1)
  }

  function Finish(f: Fields, id: nat): Fields {
    var g := f.(completed := f.completed + 1);
    if id in f.callbacks then g.(callbacks := f.callbacks - {id})
    else g.(completedEarly := f.completedEarly + {id})
  }

  /** One look under the lock by `WaitUntilAllCompleted`: all done, a waitable to wait on, or
      the error. */
  datatype Look = AllDone | WaitOn(id: nat) | NothingToWaitOn

  ghost predicate Sees(f: Fields, look: Look) {
    if f.scheduled - f.completed <= 0 then look == AllDone
    else if f.callbacks != {} then look.WaitOn? && look.id in f.callbacks
    else look == NothingToWaitOn
  }

  lemma SomeMember(s: set<nat>)
    ensures s == {} || exists id: nat :: id in s
  {
    if forall id: nat :: id !in s {
      assert s == {};
    }
  }

  class CallbackTracker<W> {
    var totalScheduled: nat
    var totalCompleted: nat
    var completedEarly: set<nat>
    var callbacks: map<nat, W>

    ghost function Abs(): Fields
      reads this
    {
      Fields(totalScheduled, totalCompleted, completedEarly, callbacks.Keys)
    }

    constructor ()
      ensures Abs() == EMPTY
    {
      totalScheduled, totalCompleted, completedEarly, callbacks := 0, 0, {}, map[];
    }

    method GetNewCallbackId() returns (id: nat)
      modifies this
      ensures Abs() == NewId(old(Abs())) && id == Abs().scheduled && callbacks == old(callbacks)
    {
      totalScheduled := totalScheduled + 1;
      id := totalScheduled;
    }

    method RegisterCallback(id: nat, waitable: W)
      modifies this
      ensures Abs() == Register(old(Abs()), id)
      ensures callbacks == if id in old(completedEarly) then old(callbacks) else old(callbacks)[id := waitable]
    {
      if id in completedEarly {
        completedEarly := completedEarly - {id};
      } else {
        callbacks := callbacks[id := waitable];
      }
    }

    method IgnoreCallback(id: nat)
      modifies this
      ensures Abs() == Ignore(old(Abs())) && callbacks == old(callbacks)
    {
      totalCompleted := totalCompleted + 1;
    }

    /** What `RunCallback` does after it has run the callback. */
    method FinishCallback(id: nat)
      modifies this
      ensures Abs() == Finish(old(Abs()), id) && callbacks == old(callbacks) - {id}
    {
      if id in callbacks {
        callbacks := callbacks - {id};
      } else {
        completedEarly := completedEarly + {id};
      }
      totalCompleted := totalCompleted + 1;
    }

    method LookForWork() returns (look: Look, waitable: Option<W>)
      ensures Sees(Abs(), look)
      ensures waitable == if look.WaitOn? && look.id in callbacks then Some(callbacks[look.id]) else None
    {
      var numPending := totalScheduled - totalCompleted;
      if numPending <= 0 {
        return AllDone, None;
      }
      if callbacks.Keys != {} {
        SomeMember(callbacks.Keys);
        var id: nat :| id in callbacks.Keys;
        return WaitOn(id), Some(callbacks[id]);
      }
      return NothingToWaitOn, None;
    }
  }

  // ----- the callers: any number of threads inside `Schedule`, and the callbacks -----

  /** How far the call that owns an id has got: it has the id, it has handed the callback to
      the scheduler, it has registered it, or the scheduler refused it. */
  datatype Phase = HasId | Submitted | Registered | Refused

  datatype Sys = Sys(fields: Fields, phase: map<nat, Phase>, finished: set<nat>)

  const START := Sys(EMPTY, map[], {})

  /** `FinishEv` is the end of `RunCallback`; it may come before `RegisterEv`. */
  datatype Event = IssueEv | SubmitEv(id: nat) | RegisterEv(id: nat) | RefuseEv(id: nat) | FinishEv(id: nat)

  ghost predicate Enabled(s: Sys, e: Event) {
    match e
    case IssueEv => true
    case SubmitEv(id) => id in s.phase && s.phase[id] == HasId
    case RegisterEv(id) => id in s.phase && s.phase[id] == Submitted
    case RefuseEv(id) => id in s.phase && s.phase[id] == HasId
    case FinishEv(id) => id in s.phase && s.phase[id] in {Submitted, Registered} && id !in s.finished
  }

  function Next(s: Sys, e: Event): Sys {
    match e
    case IssueEv => Sys(NewId(s.fields), s.phase[NewId(s.fields).scheduled := HasId], s.finished)
    case SubmitEv(id) => s.(phase := s.phase[id := Submitted])
    case RegisterEv(id) => s.(fields := Register(s.fields, id), phase := s.phase[id := Registered])
    case RefuseEv(id) => s.(fields := Ignore(s.fields), phase := s.phase[id := Refused])
    case FinishEv(id) => s.(fields := Finish(s.fields, id), finished := s.finished + {id})
  }

  ghost predicate Run(s: Sys, events: seq<Event>, end: Sys)
    decreases |events|
  {
    if events == [] then s == end
    else Enabled(s, events[0]) && Run(Next(s, events[0]), events[1..], end)
  }

  function InPhase(s: Sys, p: Phase): set<nat> {
    set id | id in s.phase && s.phase[id] == p
  }

  /** The callbacks that have neither run nor been refused. */
  function Unfinished(s: Sys): set<nat> {
    s.phase.Keys - s.finished - InPhase(s, Refused)
  }

  /** Some thread inside `Schedule` has its id but has not reached the end of the call. */
  ghost predicate ScheduleInProgress(s: Sys) {
    exists id :: id in s.phase && s.phase[id] in {HasId, Submitted}
  }

  /** Which ids the two sets of the tracker hold. */
  ghost predicate SetsInv(s: Sys) {
    && s.finished <= InPhase(s, Submitted) + InPhase(s, Registered)
    && s.fields.callbacks == InPhase(s, Registered) - s.finished
    && s.fields.completedEarly == s.finished - InPhase(s, Registered)
    && (forall id :: id in s.phase ==> 1 <= id <= s.fields.scheduled)
  }

  ghost predicate CountsInv(s: Sys) {
    && s.fields.scheduled == |s.phase.Keys|
    && s.fields.completed == |s.finished| + |InPhase(s, Refused)|
  }

  /** What every interleaving keeps. */
  ghost predicate Inv(s: Sys) {
    SetsInv(s) && CountsInv(s)
  }

  /** Setting one phase moves one id between the sets. */
  lemma PhaseChange(s: Sys, t: Sys, id: nat, p: Phase)
    requires t.phase == s.phase[id := p]
    ensures forall q :: InPhase(t, q) == if q == p then InPhase(s, q) + {id} else InPhase(s, q) - {id}
    ensures t.phase.Keys == s.phase.Keys + {id}
  {
  }

  /** The id whose phase an event sets, and the phase it gets. */
  function Moved(e: Event, s: Sys): nat {
    if e.IssueEv? then s.fields.scheduled + 1 else e.id
  }

  function NewPhase(e: Event): Phase {
    match e
    case IssueEv => HasId
    case SubmitEv(_) => Submitted
    case RegisterEv(_) => Registered
    case RefuseEv(_) => Refused
    case FinishEv(_) => Registered
  }

  lemma StepSets(s: Sys, e: Event)
    requires SetsInv(s) && Enabled(s, e)
    ensures SetsInv(Next(s, e))
  {
    var t := Next(s, e);
    var id := Moved(e, s);
    if e.FinishEv? {
      assert forall q :: InPhase(t, q) == InPhase(s, q);
      assert id in InPhase(s, s.phase[id]);
    } else {
      PhaseChange(s, t, id, NewPhase(e));
      assert id !in InPhase(s, Registered);
      assert id in s.finished ==> e.RegisterEv?;
      assert t.finished <= InPhase(t, Submitted) + InPhase(t, Registered);
      assert t.fields.callbacks == InPhase(t, Registered) - t.finished;
      assert t.fields.completedEarly == t.finished - InPhase(t, Registered);
    }
  }

  /** The counters move with the sets they count. */
  lemma CountsMove(keys: set<nat>, keys': set<nat>, done: set<nat>, done': set<nat>, refused: set<nat>,
                   refused': set<nat>, id: nat, e: Event)
    requires keys' == if e.IssueEv? then keys + {id} else keys
    requires done' == if e.FinishEv? then done + {id} else done
    requires refused' == if e.RefuseEv? then refused + {id} else refused
    requires (e.IssueEv? ==> id !in keys) && (e.FinishEv? ==> id !in done) && (e.RefuseEv? ==> id !in refused)
    ensures |keys'| == |keys| + if e.IssueEv? then 1 else 0
    ensures |done'| + |refused'| == |done| + |refused| + if e.FinishEv? || e.RefuseEv? then 1 else 0
  {
  }

  lemma CountedMove(s: Sys, e: Event)
    requires SetsInv(s) && Enabled(s, e)
    ensures var t := Next(s, e);
      var id := Moved(e, s);
      && t.phase.Keys == (if e.IssueEv? then s.phase.Keys + {id} else s.phase.Keys)
      && t.finished == (if e.FinishEv? then s.finished + {id} else s.finished)
      && InPhase(t, Refused) == (if e.RefuseEv? then InPhase(s, Refused) + {id} else InPhase(s, Refused))
      && (e.IssueEv? ==> id !in s.phase.Keys) && (e.FinishEv? ==> id !in s.finished)
      && (e.RefuseEv? ==> id !in InPhase(s, Refused))
  {
    var t := Next(s, e);
    if e.FinishEv? {
      assert InPhase(t, Refused) == InPhase(s, Refused);
    } else {
      PhaseChange(s, t, Moved(e, s), NewPhase(e));
      assert Moved(e, s) !in InPhase(s, Refused);
    }
  }

  lemma CountersMove(s: Sys, e: Event)
    ensures Next(s, e).fields.scheduled == s.fields.scheduled + if e.IssueEv? then 1 else 0
    ensures Next(s, e).fields.completed == s.fields.completed + if e.FinishEv? || e.RefuseEv? then 1 else 0
  {
  }

  lemma StepCounts(s: Sys, e: Event)
    requires SetsInv(s) && CountsInv(s) && Enabled(s, e)
    ensures CountsInv(Next(s, e))
  {
    hide SetsInv, Enabled, Next, InPhase, Moved;
    var t := Next(s, e);
    CountedMove(s, e);
    CountersMove(s, e);
    CountsMove(s.phase.Keys, t.phase.Keys, s.finished, t.finished, InPhase(s, Refused), InPhase(t, Refused),
      Moved(e, s), e);
  }

  lemma StepKeepsInv(s: Sys, e: Event)
    requires Inv(s) && Enabled(s, e)
    ensures Inv(Next(s, e))
  {
    StepSets(s, e);
    StepCounts(s, e);
  }

  // ----- the life of one callback -----

  /** An id is issued to one `Schedule` call at most. */
  lemma IssueIsNew(s: Sys)
    requires Inv(s)
    ensures var id := s.fields.scheduled + 1;
            && id !in s.phase && Enabled(s, IssueEv)
            && Next(s, IssueEv) == Sys(s.fields.(scheduled := id), s.phase[id := HasId], s.finished)
  {
  }

  /** Whether a callback runs to its end before or after it is registered, the tracker ends in
      the same state: one more completion, and nothing recorded for the callback. */
  lemma {:induction false} EitherOrder(s: Sys, id: nat)
    requires Inv(s) && id in s.phase && s.phase[id] == HasId
    ensures var end := Sys(s.fields.(completed := s.fields.completed + 1), s.phase[id := Registered], s.finished + {id});
            && Run(s, [SubmitEv(id), RegisterEv(id), FinishEv(id)], end)
            && Run(s, [SubmitEv(id), FinishEv(id), RegisterEv(id)], end)
  {
    var f, g := s.fields, s.fields.(completed := s.fields.completed + 1);
    assert id !in s.finished && id !in f.callbacks && id !in f.completedEarly by {
      assert id !in InPhase(s, Submitted) && id !in InPhase(s, Registered);
    }
    assert f.callbacks + {id} - {id} == f.callbacks && f.completedEarly + {id} - {id} == f.completedEarly;
    assert s.phase[id := Submitted][id := Registered] == s.phase[id := Registered];
    var submitted := s.(phase := s.phase[id := Submitted]);
    var end := Sys(g, s.phase[id := Registered], s.finished + {id});
    var registered := Sys(f.(callbacks := f.callbacks + {id}), end.phase, s.finished);
    var early := Sys(g.(completedEarly := f.completedEarly + {id}), submitted.phase, end.finished);
    assert Next(s, SubmitEv(id)) == submitted;
    assert Next(submitted, RegisterEv(id)) == registered && Next(registered, FinishEv(id)) == end;
    assert Next(submitted, FinishEv(id)) == early && Next(early, RegisterEv(id)) == end;
    RunsOf3(s, SubmitEv(id), RegisterEv(id), FinishEv(id), submitted, registered, end);
    RunsOf3(s, SubmitEv(id), FinishEv(id), RegisterEv(id), submitted, early, end);
  }

  /** A callback that the scheduler refuses counts as completed, and nothing is recorded. */
  lemma RefusedIsIgnored(s: Sys, id: nat)
    requires Inv(s) && id in s.phase && s.phase[id] == HasId
    ensures Enabled(s, RefuseEv(id))
    ensures Next(s, RefuseEv(id)) == Sys(s.fields.(completed := s.fields.completed + 1), s.phase[id := Refused], s.finished)
  {
  }

  lemma {:induction false} RunsOf3(s: Sys, a: Event, b: Event, c: Event, s1: Sys, s2: Sys, s3: Sys)
    requires Enabled(s, a) && Next(s, a) == s1 && Enabled(s1, b) && Next(s1, b) == s2 && Enabled(s2, c) && Next(s2, c) == s3
    ensures Run(s, [a, b, c], s3)
  {
    hide Enabled, Next;
    var no: seq<Event> := [];
    assert Run(s3, no, s3);
    assert [c][1..] == no && Run(s2, [c], s3);
    assert [b, c][1..] == [c] && Run(s1, [b, c], s3);
    assert [a, b, c][1..] == [b, c];
  }

  lemma {:induction false} RunKeepsInv(s: Sys, events: seq<Event>, end: Sys)
    requires Inv(s) && Run(s, events, end)
    ensures Inv(end)
    decreases |events|
  {
    if events != [] {
      StepKeepsInv(s, events[0]);
      RunKeepsInv(Next(s, events[0]), events[1..], end);
    }
  }

  lemma CountApart(all: set<nat>, done: set<nat>, refused: set<nat>)
    requires done <= all && refused <= all && done !! refused
    ensures |all - done - refused| == |all| - |done| - |refused|
  {
    assert |all - done| == |all| - |done| by { assert all == (all - done) + done; }
    var rest := all - done;
    assert |rest - refused| == |rest| - |refused| by { assert rest == (rest - refused) + refused; }
  }

  lemma CountUnfinished(s: Sys)
    requires Inv(s)
    ensures s.fields.scheduled - s.fields.completed == |Unfinished(s)|
  {
    CountApart(s.phase.Keys, s.finished, InPhase(s, Refused));
  }

  /** In every interleaving: the waitables on record are those of the registered, unfinished
      callbacks; the early completions are the finished, unregistered ones; the two counters
      differ by the number of unfinished callbacks. */
  lemma {:induction false} TrackerInvariant(events: seq<Event>, s: Sys)
    requires Run(START, events, s)
    ensures s.fields.callbacks == InPhase(s, Registered) - s.finished
    ensures s.fields.completedEarly == s.finished - InPhase(s, Registered)
    ensures s.fields.scheduled - s.fields.completed == |Unfinished(s)|
  {
    assert Inv(START) by { assert InPhase(START, Refused) == {}; }
    RunKeepsInv(START, events, s);
    CountUnfinished(s);
  }

  // ----- waiting -----

  /** A wait ends well only at a moment when nothing is unfinished, fails only while some
      `Schedule` call is under way, and otherwise waits on an unfinished callback. */
  lemma {:induction false} LookIsRight(events: seq<Event>, s: Sys, look: Look)
    requires Run(START, events, s) && Sees(s.fields, look)
    ensures look == AllDone <==> Unfinished(s) == {}
    ensures look == NothingToWaitOn ==> Unfinished(s) != {} && ScheduleInProgress(s)
    ensures look.WaitOn? ==> look.id in Unfinished(s)
  {
    TrackerInvariant(events, s);
    if look == NothingToWaitOn {
      var rest := Unfinished(s);
      assert |rest| > 0;
      SomeMember(rest);
      var id: nat :| id in rest;
      assert id in s.phase.Keys && id !in s.finished && id !in InPhase(s, Refused);
      assert id !in s.fields.callbacks;
      assert id in InPhase(s, Registered) ==> id in InPhase(s, Registered) - s.finished;
      assert s.phase[id] in {HasId, Submitted};
    }
    if look.WaitOn? {
      assert look.id !in InPhase(s, Refused);
    }
  }

  lemma StepUnfinished(s: Sys, e: Event)
    requires Enabled(s, e) && !e.IssueEv?
    ensures Unfinished(Next(s, e)) <= Unfinished(s)
    ensures s.finished <= Next(s, e).finished
  {
    var t := Next(s, e);
    forall id | id in Unfinished(t)
      ensures id in Unfinished(s)
    {
      assert id !in InPhase(t, Refused) && id !in InPhase(s, Refused);
    }
  }

  lemma {:induction false} RunUnfinished(s: Sys, events: seq<Event>, end: Sys)
    requires Run(s, events, end) && forall k :: 0 <= k < |events| ==> !events[k].IssueEv?
    ensures Unfinished(end) <= Unfinished(s) && s.finished <= end.finished
    decreases |events|
  {
    if events != [] {
      StepUnfinished(s, events[0]);
      RunUnfinished(Next(s, events[0]), events[1..], end);
    }
  }

  /** A round of the wait loop: look, wait on a callback, and come back when it has run. No
      new scheduling begins meanwhile. */
  ghost predicate WaitRound(s: Sys, t: Sys) {
    exists id: nat, events: seq<Event> ::
      && Sees(s.fields, WaitOn(id)) && Run(s, events, t) && id in t.finished
      && forall k :: 0 <= k < |events| ==> !events[k].IssueEv?
  }

  ghost predicate WaitRounds(states: seq<Sys>) {
    |states| > 0 && forall k :: 0 <= k < |states| - 1 ==> WaitRound(states[k], states[k + 1])
  }

  lemma SubsetSmaller(a: set<nat>, b: set<nat>)
    requires a <= b
    ensures |a| <= |b| && (a != b ==> |a| < |b|)
  {
    assert b == a + (b - a);
    assert |b| == |a| + |b - a|;
  }

  lemma RoundShrinks(s: Sys, t: Sys)
    requires Inv(s) && WaitRound(s, t)
    ensures Inv(t) && Unfinished(t) < Unfinished(s) && |Unfinished(t)| < |Unfinished(s)|
  {
    var id: nat, events: seq<Event> :| && Sees(s.fields, WaitOn(id)) && Run(s, events, t) && id in t.finished
                      && forall k :: 0 <= k < |events| ==> !events[k].IssueEv?;
    RunKeepsInv(s, events, t);
    RunUnfinished(s, events, t);
    assert id in InPhase(s, Registered) && id !in InPhase(s, Refused);
    assert id in Unfinished(s) && id !in Unfinished(t);
    SubsetSmaller(Unfinished(t), Unfinished(s));
  }

  /** Every round strictly shrinks the set of unfinished callbacks, so the wait loop ends
      after at most that many rounds. */
  lemma {:induction false} WaitEnds(states: seq<Sys>)
    requires WaitRounds(states) && Inv(states[0])
    ensures |states| - 1 <= |Unfinished(states[0])|
    decreases |states|
  {
    if |states| > 1 {
      assert WaitRound(states[0], states[1]);
      RoundShrinks(states[0], states[1]);
      assert forall k :: 0 <= k < |states[1..]| ==> states[1..][k] == states[k + 1];
      WaitEnds(states[1..]);
    }
  }

  /** When no `Schedule` call is under way and every callback has run, the tracker is empty. */
  lemma {:induction false} QuiescentIsEmpty(events: seq<Event>, s: Sys)
    requires Run(START, events, s) && !ScheduleInProgress(s) && Unfinished(s) == {}
    ensures s.fields.callbacks == {} && s.fields.completedEarly == {}
  {
    TrackerInvariant(events, s);
    RunKeepsInvFromStart(events, s);
    forall id | id in s.phase
      ensures id in s.finished ==> id in InPhase(s, Registered)
      ensures id in InPhase(s, Registered) ==> id in s.finished
    {
      if id in InPhase(s, Registered) {
        assert id !in InPhase(s, Refused) && id !in Unfinished(s);
      }
    }
  }

  lemma {:induction false} RunKeepsInvFromStart(events: seq<Event>, s: Sys)
    requires Run(START, events, s)
    ensures Inv(s)
  {
    assert Inv(START) by { assert InPhase(START, Refused) == {}; }
    RunKeepsInv(START, events, s);
  }
}
