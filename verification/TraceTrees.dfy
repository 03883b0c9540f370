/** Naming and sharing lose nothing: expanding the references of a trace gives back the
    nested call tree of the traced program. This is about the shape of the IR alone; that the
    trace also computes what the tree computes is shown in `TraceMeaning` and `TraceTheorem`. */
module TraceTrees {
  import opened Common
  import opened Ir
  import opened Names
  import opened Evaluator
  import opened Relevance
  import opened Tracing

  // ----- what a trace holds -----

  /** A reference to the argument or to one of the first `i` locals. */
  ghost predicate RefOk(i: nat, r: Value) {
    r == Arg() || exists j :: 0 <= j < i && r == RefTo(j)
  }

  ghost predicate InputOk(i: nat, v: Value) {
    RefOk(i, v) || (v.Struct? && v.meta == NO_META && forall k :: 0 <= k < |v.elements| ==> RefOk(i, v.elements[k]))
  }

  predicate IsTracedCall(v: Value) {
    v.Call? && v.fn.Ref? && v.argument.Some?
  }

  /** The names that IR of the traced function may leave free: none, unless handlers that
      evaluate payloads count some as free. */
  ghost function OwnNames(m: Mode): iset<string> {
    if m.reentry.Within? then m.reentry.names else iset{}
  }

  /** IR the traced function brings along. A call of a bare name would be taken for a call
      made by the tracer. */
  ghost predicate OwnOk(rt: Runtime, m: Mode, v: Value) {
    !v.Ref? && !IsTracedCall(v) && Free(rt, m, v) <= OwnNames(m) && Fits(rt, m, v)
  }

  lemma TracedIsOpen(rt: Runtime, m: Mode, v: Value)
    ensures v.Ref? || IsTracedCall(v) ==> !Closed(rt, m, v)
  {
    if v.Ref? {
      assert v.name in Free(rt, m, v);
    } else if IsTracedCall(v) {
      assert v.fn.name in Free(rt, m, v.fn);
      assert v.fn.name in Free(rt, m, v);
    }
  }

  /** Closed IR is always allowed. */
  lemma {:induction false} ClosedIsOwn(rt: Runtime, m: Mode, v: Value)
    requires Closed(rt, m, v) && Fits(rt, m, v)
    ensures OwnOk(rt, m, v)
  {
    TracedIsOpen(rt, m, v);
  }

  /** A value bound by the tracer as local `i`: a call on references to earlier locals, a
      parameter taken out of the argument, or IR of the traced function. */
  ghost predicate LocalOk(rt: Runtime, m: Mode, i: nat, v: Value) {
    if IsTracedCall(v) then
      RefOk(i, v.fn) && InputOk(i, v.argument.value) && v.meta == NO_META
    else (v.Select? && v.source == Arg()) || OwnOk(rt, m, v)
  }

  ghost predicate TraceOk(rt: Runtime, m: Mode, irs: Trace) {
    forall i :: 0 <= i < |irs| ==> LocalOk(rt, m, i, irs[i])
  }

  /** A value that the tracer may be handed when `i` locals exist. */
  ghost predicate Traceable(rt: Runtime, m: Mode, i: nat, v: Value) {
    RefOk(i, v) || LocalOk(rt, m, i, v)
  }

  ghost predicate AllTraceable(rt: Runtime, m: Mode, i: nat, vs: seq<Value>) {
    forall k :: 0 <= k < |vs| ==> Traceable(rt, m, i, vs[k])
  }

  lemma TraceableMono(rt: Runtime, m: Mode, i: nat, j: nat, v: Value)
    requires i <= j && Traceable(rt, m, i, v)
    ensures Traceable(rt, m, j, v)
  {
  }

  lemma TraceableRef(rt: Runtime, m: Mode, i: nat, v: Value)
    requires Traceable(rt, m, i, v) && v.Ref?
    ensures RefOk(i, v)
  {
  }

  // ----- expansion -----

  ghost function ExpandRef(ts: seq<Value>, r: Value): Value {
    if exists j :: 0 <= j < |ts| && r == RefTo(j) then
      var j :| 0 <= j < |ts| && r == RefTo(j);
      ts[j]
    else r
  }

  ghost function ExpandRefs(ts: seq<Value>, rs: seq<Value>): seq<Value> {
    seq(|rs|, i requires 0 <= i < |rs| => ExpandRef(ts, rs[i]))
  }

  ghost function ExpandInput(ts: seq<Value>, v: Value): Value {
    if v.Struct? then Struct(ExpandRefs(ts, v.elements), NO_META) else ExpandRef(ts, v)
  }

  ghost function Expand(ts: seq<Value>, v: Value): Value {
    if v.Ref? then ExpandRef(ts, v)
    else if IsTracedCall(v) then
      Call(ExpandRef(ts, v.fn), Some(ExpandInput(ts, v.argument.value)), NO_META)
    else v
  }

  /** The tree each local of the trace stands for. */
  ghost function Trees(irs: Trace): (ts: seq<Value>)
    ensures |ts| == |irs|
  {
    if irs == [] then []
    else
      var ts := Trees(irs[..|irs| - 1]);
      ts + [Expand(ts, irs[|irs| - 1])]
  }

  lemma ExpandRefAt(ts: seq<Value>, j: nat)
    requires j < |ts|
    ensures ExpandRef(ts, RefTo(j)) == ts[j]
  {
    forall i | 0 <= i < |ts| && RefTo(j) == RefTo(i)
      ensures i == j
    {
      VarNameInjective(j, i);
    }
  }

  lemma ExpandArg(ts: seq<Value>)
    ensures ExpandRef(ts, Arg()) == Arg()
  {
    forall j | 0 <= j < |ts|
      ensures Arg() != RefTo(j)
    {
      VarNameIsNotArg(j);
    }
  }

  lemma ExpandRefStable(ts: seq<Value>, more: seq<Value>, i: nat, r: Value)
    requires i <= |ts| && ts <= more && RefOk(i, r)
    ensures ExpandRef(ts, r) == ExpandRef(more, r)
  {
    if r == Arg() {
      ExpandArg(ts);
      ExpandArg(more);
    } else {
      var j :| 0 <= j < i && r == RefTo(j);
      ExpandRefAt(ts, j);
      ExpandRefAt(more, j);
    }
  }

  lemma ExpandStable(rt: Runtime, m: Mode, ts: seq<Value>, more: seq<Value>, i: nat, v: Value)
    requires i <= |ts| && ts <= more && Traceable(rt, m, i, v)
    ensures Expand(ts, v) == Expand(more, v)
  {
    if v.Ref? {
      ExpandRefStable(ts, more, i, v);
    } else if IsTracedCall(v) {
      ExpandRefStable(ts, more, i, v.fn);
      var input := v.argument.value;
      if input.Ref? {
        ExpandRefStable(ts, more, i, input);
      } else {
        forall k | 0 <= k < |input.elements|
          ensures ExpandRef(ts, input.elements[k]) == ExpandRef(more, input.elements[k])
        {
          ExpandRefStable(ts, more, i, input.elements[k]);
        }
        assert ExpandRefs(ts, input.elements) == ExpandRefs(more, input.elements);
      }
    }
  }

  lemma {:induction false} TreesPrefix(irs: Trace, more: Trace)
    requires irs <= more
    ensures Trees(irs) <= Trees(more)
    decreases |more|
  {
    if irs == more {
    } else {
      assert irs <= more[..|more| - 1];
      TreesPrefix(irs, more[..|more| - 1]);
    }
  }

  lemma {:induction false} TreesAt(rt: Runtime, m: Mode, irs: Trace, i: nat)
    requires TraceOk(rt, m, irs) && i < |irs|
    ensures Trees(irs)[i] == Expand(Trees(irs), irs[i])
  {
    var upto := irs[..i + 1];
    assert upto[..i] == irs[..i];
    assert Trees(upto) == Trees(irs[..i]) + [Expand(Trees(irs[..i]), irs[i])];
    TreesPrefix(upto, irs);
    TreesPrefix(irs[..i], irs);
    ExpandStable(rt, m, Trees(irs[..i]), Trees(irs), i, irs[i]);
  }

  // ----- the tracer keeps the trees -----

  /** `r` is a reference of the trace `irs` that expands to `tree`. */
  ghost predicate Stands(irs: Trace, r: Value, tree: Value) {
    r.Ref? && RefOk(|irs|, r) && ExpandRef(Trees(irs), r) == tree
  }

  ghost predicate AllStand(irs: Trace, rs: seq<Value>, trees: seq<Value>) {
    |rs| == |trees| && forall i :: 0 <= i < |rs| ==> Stands(irs, rs[i], trees[i])
  }

  ghost function ExpandAll(ts: seq<Value>, vs: seq<Value>): (es: seq<Value>)
    ensures |es| == |vs|
  {
    seq(|vs|, i requires 0 <= i < |vs| => Expand(ts, vs[i]))
  }

  lemma StandsMono(irs: Trace, more: Trace, r: Value, tree: Value)
    requires irs <= more && Stands(irs, r, tree)
    ensures Stands(more, r, tree)
  {
    TreesPrefix(irs, more);
    ExpandRefStable(Trees(irs), Trees(more), |irs|, r);
  }

  lemma AllStandMono(irs: Trace, more: Trace, rs: seq<Value>, trees: seq<Value>)
    requires irs <= more && AllStand(irs, rs, trees)
    ensures AllStand(more, rs, trees)
  {
    hide Stands;
    forall i | 0 <= i < |rs|
      ensures Stands(more, rs[i], trees[i])
    {
      StandsMono(irs, more, rs[i], trees[i]);
    }
  }

  lemma AllStandAppend(irs: Trace, rs: seq<Value>, trees: seq<Value>, r: Value, tree: Value)
    requires AllStand(irs, rs, trees) && Stands(irs, r, tree)
    ensures AllStand(irs, rs + [r], trees + [tree])
  {
    hide Stands;
  }

  /** The new last local of a trace is sound, and the older ones stay so. */
  lemma {:induction false} TraceOkExtend(rt: Runtime, m: Mode, irs: Trace, v: Value)
    requires TraceOk(rt, m, irs) && LocalOk(rt, m, |irs|, v)
    ensures TraceOk(rt, m, irs + [v])
    ensures Trees(irs + [v]) == Trees(irs) + [Expand(Trees(irs), v)]
  {
    TreesExtend(irs, v);
    hide LocalOk, Expand, Trees, ExpandRef;
    forall i | 0 <= i < |irs + [v]|
      ensures LocalOk(rt, m, i, (irs + [v])[i])
    {
      assert i < |irs| ==> LocalOk(rt, m, i, irs[i]);
    }
  }

  lemma {:induction false} TreesExtend(irs: Trace, v: Value)
    ensures Trees(irs + [v]) == Trees(irs) + [Expand(Trees(irs), v)]
  {
    hide Expand;
    assert (irs + [v])[..|irs|] == irs;
  }

  /** `Intern` returns a reference that expands to what its argument expands to. */
  lemma {:induction false} InternExpands(rt: Runtime, m: Mode, irs: Trace, v: Value)
    requires TraceOk(rt, m, irs) && Traceable(rt, m, |irs|, v)
    ensures TraceOk(rt, m, Intern(irs, v).0)
    ensures Stands(Intern(irs, v).0, Intern(irs, v).1, Expand(Trees(irs), v))
  {
    hide TraceOk, LocalOk, IsTracedCall, ExpandRef, Trees;
    if v.Ref? {
      TraceableRef(rt, m, |irs|, v);
    } else if v in irs {
      var i := IndexOf(irs, v);
      TreesAt(rt, m, irs, i);
      ExpandRefAt(Trees(irs), i);
    } else {
      TraceOkExtend(rt, m, irs, v);
      ExpandRefAt(Trees(irs + [v]), |irs|);
    }
  }

  lemma {:induction false} InternAllExpands(rt: Runtime, m: Mode, irs: Trace, vs: seq<Value>)
    requires TraceOk(rt, m, irs) && AllTraceable(rt, m, |irs|, vs)
    ensures TraceOk(rt, m, InternAll(irs, vs).0)
    ensures AllStand(InternAll(irs, vs).0, InternAll(irs, vs).1, ExpandAll(Trees(irs), vs))
    decreases |vs|
  {
    hide TraceOk, Traceable, Stands, Expand, Trees, Intern;
    if vs != [] {
      var k := |vs| - 1;
      InternAllExpands(rt, m, irs, vs[..k]);
      var (irs', most) := InternAll(irs, vs[..k]);
      TraceableMono(rt, m, |irs|, |irs'|, vs[k]);
      InternExpands(rt, m, irs', vs[k]);
      var irs'' := Intern(irs', vs[k]).0;
      TreesPrefix(irs, irs');
      ExpandStable(rt, m, Trees(irs), Trees(irs'), |irs|, vs[k]);
      AllStandMono(irs', irs'', most, ExpandAll(Trees(irs), vs[..k]));
      assert ExpandAll(Trees(irs), vs) == ExpandAll(Trees(irs), vs[..k]) + [Expand(Trees(irs), vs[k])];
    }
  }

  lemma {:induction false} InputExpands(irs: Trace, refs: seq<Value>, trees: seq<Value>)
    requires |refs| > 0 && AllStand(irs, refs, trees)
    ensures InputOk(|irs|, Input(refs)) && ExpandInput(Trees(irs), Input(refs)) == Input(trees)
  {
    hide RefOk, Trees, ExpandRef;
    if |refs| > 1 {
      assert ExpandRefs(Trees(irs), refs) == trees;
    }
  }

  lemma {:induction false} TraceCallExpands(rt: Runtime, m: Mode, irs: Trace, fn: Value, args: seq<Value>)
    requires |args| > 0 && TraceOk(rt, m, irs)
    requires Traceable(rt, m, |irs|, fn) && AllTraceable(rt, m, |irs|, args)
    ensures TraceOk(rt, m, TraceCall(irs, fn, args).0)
    ensures Stands(TraceCall(irs, fn, args).0, TraceCall(irs, fn, args).1,
                   Call(Expand(Trees(irs), fn), Some(Input(ExpandAll(Trees(irs), args))), NO_META))
  {
    var (irs1, refs) := InternAll(irs, args);
    InternAllExpands(rt, m, irs, args);
    TraceableMono(rt, m, |irs|, |irs1|, fn);
    InternExpands(rt, m, irs1, fn);
    var (irs2, f) := Intern(irs1, fn);
    TreesPrefix(irs, irs1);
    ExpandStable(rt, m, Trees(irs), Trees(irs1), |irs|, fn);
    AllStandMono(irs1, irs2, refs, ExpandAll(Trees(irs), args));
    InputExpands(irs2, refs, ExpandAll(Trees(irs), args));
    CallExpands(rt, m, irs2, f, Input(refs));
  }

  lemma {:induction false} CallExpands(rt: Runtime, m: Mode, irs: Trace, f: Value, input: Value)
    requires TraceOk(rt, m, irs) && f.Ref? && RefOk(|irs|, f) && InputOk(|irs|, input)
    ensures var call := Call(f, Some(input), NO_META);
            && TraceOk(rt, m, Intern(irs, call).0)
            && Stands(Intern(irs, call).0, Intern(irs, call).1,
                      Call(ExpandRef(Trees(irs), f), Some(ExpandInput(Trees(irs), input)), NO_META))
  {
    hide TraceOk, Stands, Trees, ExpandRef, ExpandInput;
    InternExpands(rt, m, irs, Call(f, Some(input), NO_META));
  }

  // ----- whole programs -----

  ghost predicate OperandClosed(rt: Runtime, m: Mode, o: Operand) {
    o.Own? ==> OwnOk(rt, m, o.ir)
  }

  ghost predicate AllClosed(rt: Runtime, m: Mode, os: seq<Operand>) {
    forall i :: 0 <= i < |os| ==> OperandClosed(rt, m, os[i])
  }

  ghost predicate StepClosed(rt: Runtime, m: Mode, c: Step) {
    match c
    case CallStep(fn, args) => OperandClosed(rt, m, fn) && AllClosed(rt, m, args)
    case EmbedStep(value) => OperandClosed(rt, m, value)
  }

  /** The IR a traced function brings along is closed, but for names that payloads may look
      up anyway. */
  ghost predicate ProgramClosed(rt: Runtime, m: Mode, p: Program) {
    && (forall k :: 0 <= k < |p.steps| ==> StepClosed(rt, m, p.steps[k]))
    && OperandClosed(rt, m, p.result)
  }

  ghost function StepTrees(p: Program, k: nat): seq<Value>
    requires ProgramOk(p) && k <= |p.steps|
  {
    seq(k, j requires 0 <= j < k => StepTree(p, j))
  }

  lemma {:induction false} OperandExpands(rt: Runtime, m: Mode, p: Program, k: nat, irs: Trace, results: seq<Value>, o: Operand)
    requires ProgramOk(p) && k <= |p.steps| && |results| == k && OperandOk(p, k, o) && OperandClosed(rt, m, o)
    requires AllStand(irs, results, StepTrees(p, k))
    ensures Traceable(rt, m, |irs|, OperandIr(p, results, o))
    ensures Expand(Trees(irs), OperandIr(p, results, o)) == OperandTree(p, k, o)
  {
    match o
    case Param(_) => ExpandArg(Trees(irs));
    case Earlier(j) => assert Stands(irs, results[j], StepTrees(p, k)[j]);
    case Own(ir) =>
  }

  lemma {:induction false} OperandsExpand(rt: Runtime, m: Mode, p: Program, k: nat, irs: Trace, results: seq<Value>, os: seq<Operand>)
    requires ProgramOk(p) && k <= |p.steps| && |results| == k && AllClosed(rt, m, os)
    requires forall i :: 0 <= i < |os| ==> OperandOk(p, k, os[i])
    requires AllStand(irs, results, StepTrees(p, k))
    ensures AllTraceable(rt, m, |irs|, OperandIrs(p, results, os))
    ensures ExpandAll(Trees(irs), OperandIrs(p, results, os)) == OperandTrees(p, k, os)
  {
    hide AllStand, Traceable, Expand, Trees, OperandIr, OperandTree, OperandClosed, StepTrees, ProgramOk;
    forall i | 0 <= i < |os|
      ensures Traceable(rt, m, |irs|, OperandIrs(p, results, os)[i])
      ensures ExpandAll(Trees(irs), OperandIrs(p, results, os))[i] == OperandTree(p, k, os[i])
    {
      OperandExpands(rt, m, p, k, irs, results, os[i]);
    }
  }

  lemma {:induction false} NothingTraced(rt: Runtime, m: Mode, p: Program)
    requires ProgramOk(p)
    ensures TraceOk(rt, m, TraceSteps(p, 0).0)
    ensures AllStand(TraceSteps(p, 0).0, TraceSteps(p, 0).1, StepTrees(p, 0))
  {
  }

  /** One step keeps the trace sound, and returns a reference that expands to its tree. */
  lemma {:induction false} TraceStepExpands(rt: Runtime, m: Mode, p: Program, k: nat, irs: Trace, results: seq<Value>)
    requires ProgramOk(p) && ProgramClosed(rt, m, p) && k < |p.steps| && |results| == k
    requires TraceOk(rt, m, irs) && AllStand(irs, results, StepTrees(p, k))
    ensures StepOk(p, k, p.steps[k])
    ensures var (irs', r) := TraceStep(p, irs, results, p.steps[k]);
            TraceOk(rt, m, irs') && Stands(irs', r, StepTree(p, k))
  {
    hide TraceOk, Traceable, Stands, AllStand, Expand, ExpandRef, Trees, OperandIr, OperandTree, OperandClosed, TraceCall, Intern;
    assert StepOk(p, k, p.steps[k]) && StepClosed(rt, m, p.steps[k]);
    match p.steps[k]
    case CallStep(fn, args) =>
      OperandExpands(rt, m, p, k, irs, results, fn);
      OperandsExpand(rt, m, p, k, irs, results, args);
      TraceCallExpands(rt, m, irs, OperandIr(p, results, fn), OperandIrs(p, results, args));
    case EmbedStep(value) =>
      OperandExpands(rt, m, p, k, irs, results, value);
      InternExpands(rt, m, irs, OperandIr(p, results, value));
  }

  lemma {:induction false} TraceStepsExpand(rt: Runtime, m: Mode, p: Program, k: nat)
    requires ProgramOk(p) && ProgramClosed(rt, m, p) && k <= |p.steps|
    ensures TraceOk(rt, m, TraceSteps(p, k).0)
    ensures AllStand(TraceSteps(p, k).0, TraceSteps(p, k).1, StepTrees(p, k))
    decreases k
  {
    hide TraceOk, Stands, StepTree, TraceStep, ProgramClosed;
    if k > 0 {
      TraceStepsExpand(rt, m, p, k - 1);
      var (irs, results) := TraceSteps(p, k - 1);
      TraceStepExpands(rt, m, p, k - 1, irs, results);
      var (irs', r) := TraceStep(p, irs, results, p.steps[k - 1]);
      AllStandMono(irs, irs', results, StepTrees(p, k - 1));
      assert StepTrees(p, k) == StepTrees(p, k - 1) + [StepTree(p, k - 1)];
      AllStandAppend(irs', results, StepTrees(p, k - 1), r, StepTree(p, k - 1));
    } else {
      NothingTraced(rt, m, p);
    }
  }

  /** The trace of a program, the value it returns, and the tree that value expands to. */
  lemma {:induction false} TracedExpands(rt: Runtime, m: Mode, p: Program)
    requires ProgramOk(p) && ProgramClosed(rt, m, p)
    ensures var (irs, results) := TraceSteps(p, |p.steps|);
            var r := OperandIr(p, results, p.result);
            && TraceOk(rt, m, irs)
            && Traceable(rt, m, |irs|, r)
            && Expand(Trees(irs), r) == Tree(p)
  {
    hide TraceOk, Traceable, AllStand, Expand, Trees;
    TraceStepsExpand(rt, m, p, |p.steps|);
    var (irs, results) := TraceSteps(p, |p.steps|);
    OperandExpands(rt, m, p, |p.steps|, irs, results, p.result);
  }
}
