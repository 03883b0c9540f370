/** What becomes of one remote value. */
module RemoteDelivery {
  import opened Common
  import opened RemoteProtocol

  // From the answer of the server to the disposal of its id, whatever else happens in between.

  /** A step of other parties leaves a task as it is. */
  predicate Concerns(e: Event, t: nat) {
    match e
    case Send(u) => u == t
    case Abort(u) => u == t
    case Answer(u, _) => u == t
    case Receive(u) => u == t
    case Destroy(u) => u == t
    case _ => false
  }

  lemma OthersLeave(s: State, e: Event, t: nat)
    requires Enabled(s, e) && t < |s.tasks| && !Concerns(e, t)
    ensures t < |Next(s, e).tasks| && Next(s, e).tasks[t] == s.tasks[t]
  {
    hide Needed;
  }

  /** The server answers a request to create a value: with a new id, which it tracks from then
      on, or with an error, which changes nothing on the server. */
  lemma ServerAnswers(s: State, t: nat, ok: bool)
    requires Shape(s) && Balanced(s) && PhaseOf(s, t).Requested?
    ensures var s' := Next(s, Answer(t, ok));
            var made := s.tasks[t].kind.Creates? && ok;
            && PhaseOf(s', t) == Answered(if made then Some(s.next) else None)
            && s'.tracked == (if made then s.tracked + {s.next} else s.tracked)
            && s.next !in s.tracked && s.disposed[s.next] == 0 && s'.disposed == s.disposed && s'.refusals == 0
  {
    hide Shape, Needed;
    RequestKnown(s, t);
    FreshId(s);
    assert Issued(s.next)[s.next] == 0;
    assert (multiset(s.tracked) + s.disposed)[s.next] == 0;
  }

  lemma OwnIsTracked(s: State, t: nat, id: nat)
    requires Balanced(s) && t < |s.tasks| && id in Own(s.tasks[t].phase)
    ensures id in s.tracked
  {
    OwnHeld(s.tasks, t);
    assert id in multiset(s.tracked);
  }

  /** As long as nothing concerns the task itself, it stays in its phase and the server tracks
      its id. */
  lemma {:induction false} OwnedStays(s: State, t: nat, events: seq<Event>, end: State)
    requires Shape(s) && Balanced(s) && Run(s, events, end) && t < |s.tasks|
    requires forall k :: 0 <= k < |events| ==> !Concerns(events[k], t)
    ensures Shape(end) && Balanced(end) && PhaseOf(end, t) == PhaseOf(s, t)
    ensures forall id: nat :: id in Own(PhaseOf(s, t)) ==> id in end.tracked
    decreases |events|
  {
    hide Shape, Needed, Balanced;
    if events == [] {
      forall id: nat | id in Own(PhaseOf(s, t))
        ensures id in s.tracked
      {
        OwnIsTracked(s, t, id);
      }
    } else {
      StepKeepsShape(s, events[0]);
      StepKeepsBalance(s, events[0]);
      OthersLeave(s, events[0], t);
      OwnedStays(Next(s, events[0]), t, events[1..], end);
    }
  }

  lemma Received(s: State, t: nat, id: nat)
    requires PhaseOf(s, t) == Answered(Some(id))
    ensures Enabled(s, Receive(t)) && PhaseOf(Next(s, Receive(t)), t) == Holds(id)
    ensures Next(s, Receive(t)).tracked == s.tracked
  {
  }

  lemma Destroyed(s: State, t: nat, id: nat)
    requires PhaseOf(s, t) == Holds(id) && Enabled(s, Destroy(t))
    ensures PhaseOf(Next(s, Destroy(t)), t) == Gone
    ensures Next(s, Destroy(t)).disposals == s.disposals + multiset{id} && Next(s, Destroy(t)).tracked == s.tracked
  {
    hide Needed;
  }

  /** A value from its creation to its end. The server answers a request that succeeds with a
      new id. Whatever others do before the client receives it and while the client holds it,
      the id stays tracked and stays with the client; when the client lets go, exactly this id
      is to be disposed of, and the server then stops tracking it and nothing else. */
  lemma {:induction false} ValueLives(
      before: seq<Event>, s: State, t: nat, meanwhile: seq<Event>, s1: State, later: seq<Event>, s2: State)
    requires Run(INITIAL, before, s) && PhaseOf(s, t).Requested? && s.tasks[t].kind.Creates?
    requires Run(Next(s, Answer(t, true)), meanwhile, s1) && forall k :: 0 <= k < |meanwhile| ==> !Concerns(meanwhile[k], t)
    requires Enabled(s1, Receive(t)) ==> Run(Next(s1, Receive(t)), later, s2)
    requires forall k :: 0 <= k < |later| ==> !Concerns(later[k], t)
    ensures s.next !in s.tracked && s.disposed[s.next] == 0
    ensures Enabled(s1, Receive(t)) && s.next in s1.tracked
    ensures PhaseOf(s2, t) == Holds(s.next) && s.next in s2.tracked
    ensures Enabled(s2, Destroy(t)) ==>
              var s3 := Next(s2, Destroy(t));
              && s3.disposals == s2.disposals + multiset{s.next}
              && Enabled(s3, ServeDispose(s.next))
              && Next(s3, ServeDispose(s.next)).tracked == s2.tracked - {s.next}
              && Next(s3, ServeDispose(s.next)).disposed == s2.disposed + multiset{s.next}
  {
    hide Shape, Needed, Balanced, Run;
    StartIsRight();
    RunKeeps(INITIAL, before, s);
    ServerAnswers(s, t, true);
    StepKeepsShape(s, Answer(t, true));
    StepKeepsBalance(s, Answer(t, true));
    OwnedStays(Next(s, Answer(t, true)), t, meanwhile, s1);
    Received(s1, t, s.next);
    StepKeepsShape(s1, Receive(t));
    StepKeepsBalance(s1, Receive(t));
    OwnedStays(Next(s1, Receive(t)), t, later, s2);
    if Enabled(s2, Destroy(t)) {
      Destroyed(s2, t, s.next);
    }
  }

  /** A call whose inputs have arrived sends a request for exactly these, in order; one that
      failed or was refused ends without a value. */
  lemma RequestNames(s: State, t: nat)
    requires PhaseOf(s, t).Waiting? && AllHold(s, s.tasks[t].inputs)
    ensures Enabled(s, Send(t)) && PhaseOf(Next(s, Send(t)), t).Requested?
    ensures var refs := PhaseOf(Next(s, Send(t)), t).refs;
            |refs| == |s.tasks[t].inputs| && forall k :: 0 <= k < |refs| ==> PhaseOf(s, s.tasks[t].inputs[k]) == Holds(refs[k])
  {
  }

  lemma FailureEnds(s: State, t: nat)
    ensures PhaseOf(s, t) == Answered(None) ==> Enabled(s, Receive(t)) && PhaseOf(Next(s, Receive(t)), t) == Over
    ensures Enabled(s, Abort(t)) ==> PhaseOf(Next(s, Abort(t)), t) == Over
    ensures Enabled(s, Abort(t)) ==> exists k :: 0 <= k < |s.tasks[t].inputs| && PhaseOf(s, s.tasks[t].inputs[k]) == Over
  {
  }

  /** Undisturbed, a call on values that have arrived returns a new value to the client: the
      client tracks the call, its future holds a new id, and the server tracks that id. */
  lemma {:induction false} CallReturns(before: seq<Event>, s: State, inputs: seq<nat>)
    requires Run(INITIAL, before, s) && AllHold(s, inputs) && forall k :: 0 <= k < |inputs| ==> inputs[k] in s.handles
    ensures var t, id := |s.tasks|, s.next;
            var end := State(s.tasks + [Task(Creates, inputs, Holds(id))], s.handles + {t}, s.disposals, id + 1,
                             s.tracked + {id}, s.disposed, s.refusals);
            Run(s, [Begin(Creates, inputs, true), Send(t), Answer(t, true), Receive(t)], end)
  {
    hide Shape, Balanced;
    var t, id, b := |s.tasks|, s.next, Begin(Creates, inputs, true);
    StartIsRight();
    RunKeeps(INITIAL, before, s);
    var s1 := s.(tasks := s.tasks + [Task(Creates, inputs, Waiting)], handles := s.handles + {t});
    assert Enabled(s, b) && Next(s, b) == s1;
    StepKeepsShape(s, b);
    StepKeepsBalance(s, b);
    forall k | 0 <= k < |inputs|
      ensures PhaseOf(s1, inputs[k]) == PhaseOf(s, inputs[k])
    {
      assert PhaseOf(s, inputs[k]).Holds?;
    }
    RequestNames(s1, t);
    var s2 := Next(s1, Send(t));
    StepKeepsShape(s1, Send(t));
    StepKeepsBalance(s1, Send(t));
    RequestKnown(s2, t);
    var s3 := Next(s2, Answer(t, true));
    var s4 := Next(s3, Receive(t));
    assert s4.tasks == s.tasks + [Task(Creates, inputs, Holds(id))];
    RunOf4(s, b, Send(t), Answer(t, true), Receive(t), s1, s2, s3, s4);
  }

  lemma {:induction false} RunOf4(s: State, a: Event, b: Event, c: Event, d: Event, s1: State, s2: State, s3: State, s4: State)
    requires Enabled(s, a) && Next(s, a) == s1 && Enabled(s1, b) && Next(s1, b) == s2
    requires Enabled(s2, c) && Next(s2, c) == s3 && Enabled(s3, d) && Next(s3, d) == s4
    ensures Run(s, [a, b, c, d], s4)
  {
    hide Enabled, Next;
    var no: seq<Event> := [];
    assert Run(s4, no, s4);
    assert [d][1..] == no && Run(s3, [d], s4);
    assert [c, d][1..] == [d] && Run(s2, [c, d], s4);
    assert [b, c, d][1..] == [c, d] && Run(s1, [b, c, d], s4);
    assert [a, b, c, d][1..] == [b, c, d];
  }
}
