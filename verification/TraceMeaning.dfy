/** Tracing preserves meaning. The lambda made by `traced_computation` computes what the
    unshared call tree of the traced function computes. Here, for one local and then for all
    locals of a block: what they evaluate to is what their trees evaluate to, and when the
    trees evaluate, so do they. `TraceTheorem` puts this together. */
module TraceMeaning {
  import opened Common
  import opened Ir
  import opened Names
  import opened Evaluator
  import opened Fuel
  import opened Relevance
  import opened ScopeRelevance
  import opened Tracing
  import opened TraceTrees

  /** With bound `n`, `t` evaluates in `s` to a value that means the same as `x`. */
  ghost predicate MeansAt(rt: Runtime, m: Mode, n: nat, t: Value, s: Scope, x: XVal) {
    Eval(rt, n, t, s).IsOk() && Same(rt, m, Eval(rt, n, t, s).result.value, x)
  }

  ghost predicate Means(rt: Runtime, m: Mode, t: Value, s: Scope, x: XVal) {
    exists n: nat :: MeansAt(rt, m, n, t, s, x)
  }

  ghost predicate AllMean(rt: Runtime, m: Mode, ts: seq<Value>, s: Scope, xs: seq<XVal>) {
    |ts| == |xs| && forall i :: 0 <= i < |ts| ==> Means(rt, m, ts[i], s, xs[i])
  }

  lemma MeansMono(rt: Runtime, m: Mode, n: nat, k: nat, t: Value, s: Scope, x: XVal)
    requires n <= k && MeansAt(rt, m, n, t, s, x)
    ensures MeansAt(rt, m, k, t, s, x)
  {
    EvalMono(rt, n, k, t, s);
  }

  /** The scope in which the locals `v_0`, `v_1`, ... are bound to `xs`. */
  ghost function ScopeOf(s: Scope, xs: seq<XVal>): Scope {
    if xs == [] then s else Bind(VarName(|xs| - 1), xs[|xs| - 1], ScopeOf(s, xs[..|xs| - 1]))
  }

  lemma {:induction false} ScopeOfResolves(s: Scope, xs: seq<XVal>)
    ensures forall j :: 0 <= j < |xs| ==> Resolve(ScopeOf(s, xs), VarName(j)) == Ok(xs[j])
    ensures forall x :: (forall j: nat :: x != VarName(j)) ==> Resolve(ScopeOf(s, xs), x) == Resolve(s, x)
    decreases |xs|
  {
    if xs != [] {
      var k := |xs| - 1;
      ScopeOfResolves(s, xs[..k]);
      forall j | 0 <= j < |xs|
        ensures Resolve(ScopeOf(s, xs), VarName(j)) == Ok(xs[j])
      {
        if j < k {
          if VarName(j) == VarName(k) { VarNameInjective(j, k); }
          assert xs[..k][j] == xs[j];
        }
      }
    }
  }

  /** The argument is bound. What the traced function can look up is what the mode allows,
      and is not hidden by the names of locals. */
  ghost predicate ArgBound(rt: Runtime, m: Mode, s: Scope) {
    && Resolve(s, "arg").Ok? && Same(rt, m, Resolve(s, "arg").value, Resolve(s, "arg").value)
    && BaseOk(rt, m, s)
  }

  ghost predicate BaseOk(rt: Runtime, m: Mode, s: Scope) {
    && (forall x :: x in OwnNames(m) && Resolve(s, x).Ok? ==> Same(rt, m, Resolve(s, x).value, Resolve(s, x).value))
    && (forall j: nat :: VarName(j) !in OwnNames(m))
  }

  lemma {:induction false} ArgStays(s: Scope, xs: seq<XVal>)
    ensures Resolve(ScopeOf(s, xs), "arg") == Resolve(s, "arg")
  {
    ScopeOfResolves(s, xs);
    forall j: nat
      ensures "arg" != VarName(j)
    {
      VarNameIsNotArg(j);
    }
  }

  // ----- references and inputs -----

  lemma RefMeans(rt: Runtime, m: Mode, ts: seq<Value>, s: Scope, xs: seq<XVal>, r: Value) returns (x: XVal)
    requires AllMean(rt, m, ts, s, xs) && ArgBound(rt, m, s) && RefOk(|xs|, r)
    ensures r.Ref? && Resolve(ScopeOf(s, xs), r.name) == Ok(x)
    ensures Means(rt, m, ExpandRef(ts, r), s, x)
  {
    hide Same, BaseOk;
    ScopeOfResolves(s, xs);
    ArgStays(s, xs);
    if r == Arg() {
      ExpandArg(ts);
      x := Resolve(s, "arg").value;
      assert MeansAt(rt, m, 1, Arg(), s, x);
    } else {
      var j :| 0 <= j < |xs| && r == RefTo(j);
      ExpandRefAt(ts, j);
      x := xs[j];
    }
  }

  lemma {:induction false} RefsMean(rt: Runtime, m: Mode, ts: seq<Value>, s: Scope, xs: seq<XVal>, rs: seq<Value>)
      returns (ys: seq<XVal>)
    requires AllMean(rt, m, ts, s, xs) && ArgBound(rt, m, s)
    requires forall i :: 0 <= i < |rs| ==> RefOk(|xs|, rs[i])
    ensures forall n: nat :: n >= 1 ==> EvalAll(rt, n, rs, ScopeOf(s, xs)) == Done(Ok(ys))
    ensures AllMean(rt, m, ExpandRefs(ts, rs), s, ys)
    decreases |rs|
  {
    hide Same, ArgBound, RefOk, Means, ExpandRef, ScopeOf;
    if rs == [] {
      ys := [];
    } else {
      var y := RefMeans(rt, m, ts, s, xs, rs[0]);
      var rest := RefsMean(rt, m, ts, s, xs, rs[1..]);
      ys := [y] + rest;
      forall n: nat | n >= 1
        ensures EvalAll(rt, n, rs, ScopeOf(s, xs)) == Done(Ok(ys))
      {
        assert Eval(rt, n, rs[0], ScopeOf(s, xs)) == Done(Ok(y));
      }
      assert ExpandRefs(ts, rs) == [ExpandRef(ts, rs[0])] + ExpandRefs(ts, rs[1..]);
    }
  }

  lemma {:induction false} AllMeanEval(rt: Runtime, m: Mode, ts: seq<Value>, s: Scope, xs: seq<XVal>) returns (n: nat)
    requires AllMean(rt, m, ts, s, xs)
    ensures EvalAll(rt, n, ts, s).IsOk() && SameAll(rt, m, EvalAll(rt, n, ts, s).result.value, xs)
    decreases |ts|
  {
    hide Same;
    if ts == [] {
      n := 0;
    } else {
      assert Means(rt, m, ts[0], s, xs[0]);
      var k: nat :| MeansAt(rt, m, k, ts[0], s, xs[0]);
      var l := AllMeanEval(rt, m, ts[1..], s, xs[1..]);
      n := if k < l then l else k;
      MeansMono(rt, m, k, n, ts[0], s, xs[0]);
      EvalAllMono(rt, l, n, ts[1..], s);
      SameAllCons(rt, m, Eval(rt, n, ts[0], s).result.value, xs[0], EvalAll(rt, n, ts[1..], s).result.value, xs[1..]);
      assert [xs[0]] + xs[1..] == xs;
    }
  }

  lemma InputMeans(rt: Runtime, m: Mode, ts: seq<Value>, s: Scope, xs: seq<XVal>, input: Value) returns (x: XVal)
    requires AllMean(rt, m, ts, s, xs) && ArgBound(rt, m, s) && InputOk(|xs|, input)
    ensures forall n: nat :: n >= 2 ==> Eval(rt, n, input, ScopeOf(s, xs)) == Done(Ok(x))
    ensures Means(rt, m, ExpandInput(ts, input), s, x)
  {
    hide Same, ArgBound, AllMean, ExpandRef, ScopeOf;
    if input.Struct? {
      var ys := RefsMean(rt, m, ts, s, xs, input.elements);
      x := Structure(ys);
      var n := AllMeanEval(rt, m, ExpandRefs(ts, input.elements), s, ys);
      StructureSame(rt, m, EvalAll(rt, n, ExpandRefs(ts, input.elements), s).result.value, ys);
      assert MeansAt(rt, m, n + 1, ExpandInput(ts, input), s, x);
    } else {
      x := RefMeans(rt, m, ts, s, xs, input);
    }
  }

  // ----- traced calls -----

  ghost function Max(a: nat, b: nat): nat { if a < b then b else a }

  /** `Call(f, a)` where both evaluate to values that mean `x` and `b` at bound `n`. */
  lemma CallEval(rt: Runtime, n: nat, f: Value, a: Value, s: Scope, x: XVal, b: XVal)
    requires Eval(rt, n, f, s) == Done(Ok(x)) && Eval(rt, n, a, s) == Done(Ok(b))
    ensures Eval(rt, n + 1, Call(f, Some(a), NO_META), s) == Apply(rt, n, x, Some(b))
  {
    assert EvalArgument(rt, n, Some(a), s) == Done(Ok(Some(b)));
  }

  lemma {:induction false} CallMeansAt(rt: Runtime, m: Mode, k: nat, f: Value, a: Value, s: Scope, x: XVal, b: XVal, r: XVal)
    requires Covers(rt, m) && Apply(rt, k, x, Some(b)) == Done(Ok(r))
    requires MeansAt(rt, m, k, f, s, x) && MeansAt(rt, m, k, a, s, b)
    ensures MeansAt(rt, m, k + 1, Call(f, Some(a), NO_META), s, r)
  {
    hide Eval, Apply, Covers, Same;
    var y, c := Eval(rt, k, f, s).result.value, Eval(rt, k, a, s).result.value;
    ApplySame(rt, m, k, y, x, Some(c), Some(b));
    CallEval(rt, k, f, a, s, y, c);
  }

  /** If functions and arguments mean the same, so do the two calls: when the first one
      succeeds, the second one does, with the same value. */
  lemma {:induction false} CallMeans(rt: Runtime, m: Mode, n: nat, f: Value, a: Value, s: Scope, x: XVal, b: XVal, r: XVal)
    requires Covers(rt, m) && Apply(rt, n, x, Some(b)) == Done(Ok(r))
    requires Means(rt, m, f, s, x) && Means(rt, m, a, s, b)
    ensures Means(rt, m, Call(f, Some(a), NO_META), s, r)
  {
    hide Apply, Covers, MeansAt;
    var i: nat :| MeansAt(rt, m, i, f, s, x);
    var j: nat :| MeansAt(rt, m, j, a, s, b);
    var k := Max(n, Max(i, j));
    MeansMono(rt, m, i, k, f, s, x);
    MeansMono(rt, m, j, k, a, s, b);
    ApplyMono(rt, n, k, x, Some(b));
    CallMeansAt(rt, m, k, f, a, s, x, b, r);
  }

  /** What a call's parts evaluate to, when the call evaluates. */
  lemma CallParts(rt: Runtime, n: nat, f: Value, a: Value, s: Scope, r: XVal) returns (x: XVal, b: XVal)
    requires Eval(rt, n, Call(f, Some(a), NO_META), s) == Done(Ok(r))
    ensures n > 0 && Eval(rt, n - 1, f, s) == Done(Ok(x)) && Eval(rt, n - 1, a, s) == Done(Ok(b))
    ensures Apply(rt, n - 1, x, Some(b)) == Done(Ok(r))
  {
    x := Eval(rt, n - 1, f, s).result.value;
    b := EvalArgument(rt, n - 1, Some(a), s).result.value.value;
  }

  lemma {:induction false} MeansSelf(rt: Runtime, m: Mode, n: nat, t: Value, s: Scope, x: XVal, y: XVal)
    requires Eval(rt, n, t, s) == Done(Ok(y)) && Means(rt, m, t, s, x)
    ensures Same(rt, m, y, x)
  {
    var k: nat :| MeansAt(rt, m, k, t, s, x);
    if n <= k { EvalMono(rt, n, k, t, s); } else { EvalMono(rt, k, n, t, s); }
  }

  lemma ApplyOkSame(rt: Runtime, m: Mode, n: nat, x: XVal, y: XVal, b: XVal, c: XVal, r: XVal) returns (q: XVal)
    requires Covers(rt, m) && Same(rt, m, x, y) && Same(rt, m, b, c)
    requires Apply(rt, n, x, Some(b)) == Done(Ok(r))
    ensures Apply(rt, n, y, Some(c)) == Done(Ok(q)) && Same(rt, m, q, r)
  {
    ApplySame(rt, m, n, x, y, Some(b), Some(c));
    q := Apply(rt, n, y, Some(c)).result.value;
  }

  // ----- one local -----

  /** IR that is not a traced call reads nothing but the argument. */
  lemma {:induction false} PlainSame(rt: Runtime, m: Mode, n: nat, v: Value, s: Scope, xs: seq<XVal>)
    requires Covers(rt, m) && ArgBound(rt, m, s) && LocalOk(rt, m, |xs|, v) && !IsTracedCall(v)
    ensures SameOutcome(rt, m, Eval(rt, n, v, ScopeOf(s, xs)), Eval(rt, n, v, s))
  {
    hide Same;
    ScopeOfResolves(s, xs);
    ArgStays(s, xs);
    var t := ScopeOf(s, xs);
    PlainEnv(rt, m, t, s);
    assert v.Select? && v.source == Arg() ==> Free(rt, m, v) == iset{"arg"};
    EnvSubset(rt, m, Free(rt, m, v), OwnNames(m) + iset{"arg"}, t, s);
    EvalSame(rt, m, n, v, t, s);
  }

  lemma {:induction false} PlainEnv(rt: Runtime, m: Mode, t: Scope, s: Scope)
    requires ArgBound(rt, m, s) && Resolve(t, "arg") == Resolve(s, "arg")
    requires forall x :: x in OwnNames(m) ==> Resolve(t, x) == Resolve(s, x)
    ensures SameEnv(rt, m, OwnNames(m) + iset{"arg"}, t, s)
  {
    var names := OwnNames(m) + iset{"arg"};
    forall x
      ensures x in CanonEnv(rt, m, names, t) <==> x in CanonEnv(rt, m, names, s)
      ensures x in CanonEnv(rt, m, names, t) ==>
                && CanonEnv(rt, m, names, t)[x] == CanonEnv(rt, m, names, s)[x]
                && FitsCanon(rt, m, CanonEnv(rt, m, names, t)[x])
    {
      EnvAt(rt, m, names, t, x);
      EnvAt(rt, m, names, s, x);
    }
  }

  /** What a local evaluates to is what its tree means. */
  lemma {:induction false} LocalForward(rt: Runtime, m: Mode, n: nat, ts: seq<Value>, s: Scope, xs: seq<XVal>, v: Value, y: XVal)
    requires Covers(rt, m) && ArgBound(rt, m, s) && AllMean(rt, m, ts, s, xs) && Traceable(rt, m, |xs|, v)
    requires Eval(rt, n, v, ScopeOf(s, xs)) == Done(Ok(y))
    ensures Means(rt, m, Expand(ts, v), s, y)
  {
    hide Same, ArgBound, AllMean, Covers, ScopeOf, Fits, Closed;
    if v.Ref? {
      TraceableRef(rt, m, |xs|, v);
      var x := RefMeans(rt, m, ts, s, xs, v);
    } else if IsTracedCall(v) {
      var f, a := v.fn, v.argument.value;
      var x := RefMeans(rt, m, ts, s, xs, f);
      var b := InputMeans(rt, m, ts, s, xs, a);
      EvalMono(rt, n, n + 3, v, ScopeOf(s, xs));
      CallEval(rt, n + 2, f, a, ScopeOf(s, xs), x, b);
      CallMeans(rt, m, n + 2, ExpandRef(ts, f), ExpandInput(ts, a), s, x, b, y);
    } else {
      PlainSame(rt, m, n, v, s, xs);
      PlainMeans(rt, m, n, v, ScopeOf(s, xs), s, y);
    }
  }

  lemma {:induction false} PlainMeans(rt: Runtime, m: Mode, n: nat, v: Value, s: Scope, t: Scope, y: XVal)
    requires SameOutcome(rt, m, Eval(rt, n, v, s), Eval(rt, n, v, t)) && Eval(rt, n, v, s) == Done(Ok(y))
    ensures Means(rt, m, v, t, y)
  {
    assert MeansAt(rt, m, n, v, t, y);
  }

  /** If a call succeeds, applying values that mean its parts does too. */
  lemma CallBackward(rt: Runtime, m: Mode, n: nat, f: Value, a: Value, s: Scope, x: XVal, b: XVal, z: XVal) returns (r: XVal)
    requires Covers(rt, m) && Means(rt, m, f, s, x) && Means(rt, m, a, s, b)
    requires Eval(rt, n, Call(f, Some(a), NO_META), s) == Done(Ok(z))
    ensures n > 0 && Apply(rt, n - 1, x, Some(b)) == Done(Ok(r)) && Same(rt, m, r, z)
  {
    hide Same, Covers, Means;
    var y, c := CallParts(rt, n, f, a, s, z);
    MeansSelf(rt, m, n - 1, f, s, x, y);
    MeansSelf(rt, m, n - 1, a, s, b, c);
    r := ApplyOkSame(rt, m, n - 1, y, x, c, b, z);
  }

  /** If the tree of a local evaluates, so does the local, to the same meaning. */
  lemma {:induction false} LocalBackward(rt: Runtime, m: Mode, n: nat, ts: seq<Value>, s: Scope, xs: seq<XVal>, v: Value, z: XVal)
    requires Covers(rt, m) && ArgBound(rt, m, s) && AllMean(rt, m, ts, s, xs) && Traceable(rt, m, |xs|, v)
    requires Eval(rt, n, Expand(ts, v), s) == Done(Ok(z))
    ensures Means(rt, m, v, ScopeOf(s, xs), z)
  {
    hide Same, ArgBound, AllMean, Covers, ScopeOf, Fits, Closed;
    if v.Ref? {
      TraceableRef(rt, m, |xs|, v);
      var x := RefMeans(rt, m, ts, s, xs, v);
      MeansSelf(rt, m, n, ExpandRef(ts, v), s, x, z);
      SameSymmetric(rt, m, z, x);
      assert MeansAt(rt, m, 1, v, ScopeOf(s, xs), z);
    } else if IsTracedCall(v) {
      var x := RefMeans(rt, m, ts, s, xs, v.fn);
      var b := InputMeans(rt, m, ts, s, xs, v.argument.value);
      var r := CallBackward(rt, m, n, ExpandRef(ts, v.fn), ExpandInput(ts, v.argument.value), s, x, b, z);
      ApplyMono(rt, n - 1, n + 1, x, Some(b));
      CallEval(rt, n + 1, v.fn, v.argument.value, ScopeOf(s, xs), x, b);
      assert MeansAt(rt, m, n + 2, v, ScopeOf(s, xs), z);
    } else {
      PlainSame(rt, m, n, v, s, xs);
      PlainMeansBack(rt, m, n, v, ScopeOf(s, xs), s, z);
    }
  }

  lemma SameSymmetric(rt: Runtime, m: Mode, x: XVal, y: XVal)
    requires Same(rt, m, x, y)
    ensures Same(rt, m, y, x)
  {
  }

  lemma {:induction false} PlainMeansBack(rt: Runtime, m: Mode, n: nat, v: Value, t: Scope, s: Scope, z: XVal)
    requires SameOutcome(rt, m, Eval(rt, n, v, t), Eval(rt, n, v, s)) && Eval(rt, n, v, s) == Done(Ok(z))
    ensures Means(rt, m, v, t, z)
  {
    assert MeansAt(rt, m, n, v, t, z);
  }

  // ----- whole blocks -----

  /** `xs` are the values of the first locals of the trace. */
  ghost predicate BoundSoFar(rt: Runtime, m: Mode, irs: Trace, s: Scope, xs: seq<XVal>) {
    |xs| <= |irs| && AllMean(rt, m, Trees(irs)[..|xs|], s, xs)
  }

  lemma {:induction false} BindNext(rt: Runtime, m: Mode, irs: Trace, s: Scope, xs: seq<XVal>, x: XVal)
    requires BoundSoFar(rt, m, irs, s, xs) && |xs| < |irs| && Means(rt, m, Trees(irs)[|xs|], s, x)
    ensures BoundSoFar(rt, m, irs, s, xs + [x])
    ensures ScopeOf(s, xs + [x]) == Bind(VarName(|xs|), x, ScopeOf(s, xs))
  {
    hide Means, Trees;
    assert (xs + [x])[..|xs|] == xs;
  }

  lemma {:induction false} LocalTree(rt: Runtime, m: Mode, irs: Trace, i: nat)
    requires TraceOk(rt, m, irs) && i < |irs|
    ensures Trees(irs)[i] == Expand(Trees(irs)[..i], irs[i])
    ensures Traceable(rt, m, i, irs[i])
  {
    TreesAt(rt, m, irs, i);
    ExpandStable(rt, m, Trees(irs)[..i], Trees(irs), i, irs[i]);
  }

  lemma {:induction false} BlockForward(
      rt: Runtime, m: Mode, n: nat, irs: Trace, r: Value, s: Scope, xs: seq<XVal>, y: XVal)
    requires Covers(rt, m) && ArgBound(rt, m, s) && TraceOk(rt, m, irs) && Traceable(rt, m, |irs|, r)
    requires BoundSoFar(rt, m, irs, s, xs)
    requires EvalBlock(rt, n, LocalsOf(irs)[|xs|..], r, ScopeOf(s, xs)) == Done(Ok(y))
    ensures Means(rt, m, Expand(Trees(irs), r), s, y)
    decreases |irs| - |xs|
  {
    hide Covers, ArgBound, TraceOk, Traceable, AllMean, Means, Expand, Trees, ScopeOf;
    var i := |xs|;
    var locals := LocalsOf(irs)[i..];
    if i == |irs| {
      assert Trees(irs)[..i] == Trees(irs);
      LocalForward(rt, m, n, Trees(irs), s, xs, r, y);
    } else {
      assert locals[0] == Local(VarName(i), irs[i]) && locals[1..] == LocalsOf(irs)[i + 1..];
      var x := Eval(rt, n, irs[i], ScopeOf(s, xs)).result.value;
      LocalTree(rt, m, irs, i);
      LocalForward(rt, m, n, Trees(irs)[..i], s, xs, irs[i], x);
      BindNext(rt, m, irs, s, xs, x);
      BlockForward(rt, m, n, irs, r, s, xs + [x], y);
    }
  }

  ghost predicate Evaluable(rt: Runtime, t: Value, s: Scope) {
    exists n: nat :: Eval(rt, n, t, s).IsOk()
  }

  ghost predicate BlockMeans(rt: Runtime, m: Mode, n: nat, locals: seq<Local>, r: Value, s: Scope, z: XVal) {
    EvalBlock(rt, n, locals, r, s).IsOk() && Same(rt, m, EvalBlock(rt, n, locals, r, s).result.value, z)
  }

  /** When the trees of all locals evaluate, so does the block. */
  lemma {:induction false} BlockBackward(
      rt: Runtime, m: Mode, n: nat, irs: Trace, r: Value, s: Scope, xs: seq<XVal>, z: XVal) returns (k: nat)
    requires Covers(rt, m) && ArgBound(rt, m, s) && TraceOk(rt, m, irs) && Traceable(rt, m, |irs|, r)
    requires BoundSoFar(rt, m, irs, s, xs)
    requires forall j :: |xs| <= j < |irs| ==> Evaluable(rt, Trees(irs)[j], s)
    requires Eval(rt, n, Expand(Trees(irs), r), s) == Done(Ok(z))
    ensures BlockMeans(rt, m, k, LocalsOf(irs)[|xs|..], r, ScopeOf(s, xs), z)
    decreases |irs| - |xs|
  {
    hide Covers, ArgBound, TraceOk, Traceable, AllMean, Same, Expand, Trees, ScopeOf;
    var i := |xs|;
    if i == |irs| {
      assert Trees(irs)[..i] == Trees(irs);
      LocalBackward(rt, m, n, Trees(irs), s, xs, r, z);
      k :| MeansAt(rt, m, k, r, ScopeOf(s, xs), z);
    } else {
      var x, l := NextLocal(rt, m, irs, s, xs);
      BindNext(rt, m, irs, s, xs, x);
      var q := BlockBackward(rt, m, n, irs, r, s, xs + [x], z);
      k := Max(l, q);
      BlockStep(rt, m, l, q, k, irs, r, s, xs, x, z);
    }
  }

  /** The next local evaluates, because its tree does. */
  lemma NextLocal(rt: Runtime, m: Mode, irs: Trace, s: Scope, xs: seq<XVal>) returns (x: XVal, l: nat)
    requires Covers(rt, m) && ArgBound(rt, m, s) && TraceOk(rt, m, irs)
    requires BoundSoFar(rt, m, irs, s, xs) && |xs| < |irs| && Evaluable(rt, Trees(irs)[|xs|], s)
    ensures Eval(rt, l, irs[|xs|], ScopeOf(s, xs)) == Done(Ok(x))
    ensures Means(rt, m, Trees(irs)[|xs|], s, x)
  {
    hide Covers, ArgBound, TraceOk, Traceable, AllMean, Expand, Trees, ScopeOf;
    var i := |xs|;
    var p: nat :| Eval(rt, p, Trees(irs)[i], s).IsOk();
    var t := Eval(rt, p, Trees(irs)[i], s).result.value;
    LocalTree(rt, m, irs, i);
    LocalBackward(rt, m, p, Trees(irs)[..i], s, xs, irs[i], t);
    l :| MeansAt(rt, m, l, irs[i], ScopeOf(s, xs), t);
    x := Eval(rt, l, irs[i], ScopeOf(s, xs)).result.value;
    assert MeansAt(rt, m, p, Trees(irs)[i], s, x);
  }

  lemma {:induction false} BlockStep(rt: Runtime, m: Mode, l: nat, q: nat, k: nat, irs: Trace, r: Value, s: Scope, xs: seq<XVal>, x: XVal, z: XVal)
    requires l <= k && q <= k && |xs| < |irs|
    requires Eval(rt, l, irs[|xs|], ScopeOf(s, xs)) == Done(Ok(x))
    requires ScopeOf(s, xs + [x]) == Bind(VarName(|xs|), x, ScopeOf(s, xs))
    requires BlockMeans(rt, m, q, LocalsOf(irs)[|xs| + 1..], r, ScopeOf(s, xs + [x]), z)
    ensures BlockMeans(rt, m, k, LocalsOf(irs)[|xs|..], r, ScopeOf(s, xs), z)
  {
    hide ScopeOf, Same;
    var locals := LocalsOf(irs)[|xs|..];
    assert locals[0] == Local(VarName(|xs|), irs[|xs|]) && locals[1..] == LocalsOf(irs)[|xs| + 1..];
    EvalMono(rt, l, k, irs[|xs|], ScopeOf(s, xs));
    EvalBlockMono(rt, q, k, locals[1..], r, ScopeOf(s, xs + [x]));
  }

  // ----- live locals -----

  /** `v` mentions the reference `r` where the tracer puts references. */
  ghost predicate Mentions(v: Value, r: Value) {
    || v == r
    || (IsTracedCall(v)
        && (v.fn == r || v.argument.value == r || (v.argument.value.Struct? && r in v.argument.value.elements)))
  }

  /** A local that some call returned, or that another local mentions. */
  ghost predicate LocalLive(irs: Trace, results: seq<Value>, i: nat) {
    RefTo(i) in results || exists j :: 0 <= j < |irs| && Mentions(irs[j], RefTo(i))
  }

  lemma {:induction false} MemberEvaluable(rt: Runtime, n: nat, ts: seq<Value>, s: Scope, i: nat)
    requires i < |ts| && EvalAll(rt, n, ts, s).IsOk()
    ensures Evaluable(rt, ts[i], s)
    decreases |ts|
  {
    if i == 0 {
      assert Eval(rt, n, ts[0], s).IsOk();
    } else {
      MemberEvaluable(rt, n, ts[1..], s, i - 1);
    }
  }

  /** Evaluation is strict in everything a traced call mentions. */
  lemma MentionedEvaluable(rt: Runtime, ts: seq<Value>, v: Value, s: Scope, i: nat)
    requires i < |ts| && Mentions(v, RefTo(i)) && Evaluable(rt, Expand(ts, v), s)
    ensures Evaluable(rt, ts[i], s)
  {
    hide Apply, ExpandRef, VarName;
    ExpandRefAt(ts, i);
    var r := RefTo(i);
    if v != r {
      var n: nat :| Eval(rt, n, Expand(ts, v), s).IsOk();
      var f, a := ExpandRef(ts, v.fn), ExpandInput(ts, v.argument.value);
      var x, b := CallParts(rt, n, f, a, s, Eval(rt, n, Expand(ts, v), s).result.value);
      if v.fn != r && v.argument.value != r {
        var elements := v.argument.value.elements;
        var k :| 0 <= k < |elements| && elements[k] == r;
        assert ExpandRefs(ts, elements)[k] == ts[i];
        assert EvalAll(rt, n - 2, ExpandRefs(ts, elements), s).IsOk();
        MemberEvaluable(rt, n - 2, ExpandRefs(ts, elements), s, k);
      }
    }
  }

  lemma MentionsEarlier(rt: Runtime, m: Mode, irs: Trace, i: nat, j: nat)
    requires TraceOk(rt, m, irs) && j < |irs| && Mentions(irs[j], RefTo(i))
    ensures i < j
  {
    var r, v := RefTo(i), irs[j];
    assert LocalOk(rt, m, j, v);
    assert RefOk(j, r);
    VarNameIsNotArg(i);
    var k :| 0 <= k < j && r == RefTo(k);
    assert r.name == VarName(i) && RefTo(k).name == VarName(k);
    VarNameInjective(i, k);
  }

  /** If everything the calls returned evaluates, so does the tree of every live local. */
  lemma {:induction false} LiveEvaluable(rt: Runtime, m: Mode, irs: Trace, results: seq<Value>, s: Scope, i: nat)
    requires TraceOk(rt, m, irs) && i < |irs|
    requires forall k :: 0 <= k < |irs| ==> LocalLive(irs, results, k)
    requires forall q :: 0 <= q < |results| ==> Evaluable(rt, ExpandRef(Trees(irs), results[q]), s)
    ensures Evaluable(rt, Trees(irs)[i], s)
    decreases |irs| - i
  {
    hide TraceOk, Mentions, Evaluable, Expand, ExpandRef, Trees;
    assert LocalLive(irs, results, i);
    if RefTo(i) in results {
      var q :| 0 <= q < |results| && results[q] == RefTo(i);
      ExpandRefAt(Trees(irs), i);
    } else {
      var j :| 0 <= j < |irs| && Mentions(irs[j], RefTo(i));
      MentionsEarlier(rt, m, irs, i, j);
      LiveEvaluable(rt, m, irs, results, s, j);
      TreesAt(rt, m, irs, j);
      MentionedEvaluable(rt, Trees(irs), irs[j], s, i);
    }
  }

  /** A block that evaluates has evaluated the tree of every local. */
  lemma {:induction false} BlockEvaluates(
      rt: Runtime, m: Mode, n: nat, irs: Trace, r: Value, s: Scope, xs: seq<XVal>, i: nat)
    requires Covers(rt, m) && ArgBound(rt, m, s) && TraceOk(rt, m, irs)
    requires BoundSoFar(rt, m, irs, s, xs) && |xs| <= i < |irs|
    requires EvalBlock(rt, n, LocalsOf(irs)[|xs|..], r, ScopeOf(s, xs)).IsOk()
    ensures Evaluable(rt, Trees(irs)[i], s)
    decreases |irs| - |xs|
  {
    hide Covers, ArgBound, TraceOk, Traceable, AllMean, Expand, Trees, ScopeOf, Same;
    var k := |xs|;
    var locals := LocalsOf(irs)[k..];
    assert locals[0] == Local(VarName(k), irs[k]) && locals[1..] == LocalsOf(irs)[k + 1..];
    var x := Eval(rt, n, irs[k], ScopeOf(s, xs)).result.value;
    LocalTree(rt, m, irs, k);
    LocalForward(rt, m, n, Trees(irs)[..k], s, xs, irs[k], x);
    if k == i {
      var l: nat :| MeansAt(rt, m, l, Trees(irs)[i], s, x);
      assert Eval(rt, l, Trees(irs)[i], s).IsOk();
    } else {
      BindNext(rt, m, irs, s, xs, x);
      BlockEvaluates(rt, m, n, irs, r, s, xs + [x], i);
    }
  }
}
