/** The C++ tracer, genc/cc/authoring/tracing_context.cc, over `BiMap`. Unlike the Python
    tracer it returns the call itself, not a reference to it. */
module CppTracing {
  import opened Common
  import opened Ir
  import opened Names
  import opened Tracing
  import opened BiMaps
  import opened TraceMeaning
  import opened TracingContexts

  /** The bindings of a trace: `v_<i>` for the `i`-th value. */
  ghost function Bindings(irs: Trace): map<string, Value>
    decreases |irs|
  {
    if irs == [] then map[] else Bindings(irs[..|irs| - 1])[VarName(|irs| - 1) := irs[|irs| - 1]]
  }

  lemma {:induction false} BindingsAt(irs: Trace)
    ensures forall i :: 0 <= i < |irs| ==> VarName(i) in Bindings(irs) && Bindings(irs)[VarName(i)] == irs[i]
    ensures forall k :: k in Bindings(irs) ==> exists i :: 0 <= i < |irs| && k == VarName(i)
    ensures |Bindings(irs)| == |irs|
    decreases |irs|
  {
    hide VarName;
    if irs != [] {
      var n := |irs| - 1;
      BindingsAt(irs[..n]);
      if VarName(n) in Bindings(irs[..n]) {
        var i :| 0 <= i < n && VarName(n) == VarName(i);
        VarNameInjective(n, i);
      }
      forall i | 0 <= i < |irs|
        ensures VarName(i) in Bindings(irs) && Bindings(irs)[VarName(i)] == irs[i]
      {
        if i < n {
          if VarName(i) == VarName(n) { VarNameInjective(i, n); }
          assert irs[..n][i] == irs[i];
        }
      }
      forall k | k in Bindings(irs)
        ensures exists i :: 0 <= i < |irs| && k == VarName(i)
      {
        if k in Bindings(irs[..n]) {
          var i :| 0 <= i < n && k == VarName(i);
        } else {
          assert k == VarName(n);
        }
      }
    }
  }

  /** The next name is fresh; binding it extends the trace. */
  lemma {:induction false} NextBinding(irs: Trace, ir: Value)
    ensures VarName(|irs|) !in Bindings(irs)
    ensures Bindings(irs + [ir]) == Bindings(irs)[VarName(|irs|) := ir]
    ensures |Bindings(irs)| == |irs|
  {
    hide VarName;
    BindingsAt(irs);
    if VarName(|irs|) in Bindings(irs) {
      var i :| 0 <= i < |irs| && VarName(|irs|) == VarName(i);
      VarNameInjective(|irs|, i);
    }
    assert (irs + [ir])[..|irs|] == irs;
  }

  /** The values bound are the traced ones, each under the name of its index. */
  lemma {:induction false} BoundValues(irs: Trace, ir: Value, name: string)
    requires Distinct(irs)
    ensures ir in Bindings(irs).Values <==> ir in irs
    ensures name in Bindings(irs) && Bindings(irs)[name] == ir ==> name == VarName(IndexOf(irs, ir))
  {
    BindingsAt(irs);
    if ir in irs {
      assert Bindings(irs)[VarName(IndexOf(irs, ir))] == ir;
    }
    if name in Bindings(irs) && Bindings(irs)[name] == ir {
      var i :| 0 <= i < |irs| && name == VarName(i);
      IndexOfDistinct(irs, i);
    }
  }

  /** What `Call` adds to the trace, and the call it returns. */
  function CppCall(irs: Trace, fn: Value, args: seq<Value>): (r: (Trace, Value))
    requires args != []
    ensures irs <= r.0
  {
    var (irs1, refs) := InternAll(irs, args);
    var (irs2, f) := Intern(irs1, fn);
    (irs2, Value.Call(f, Some(Input(refs)), NO_META))
  }

  class CppTracingContext {
    const nameToIr: BiMap<string, Value>
    ghost var irs: Trace

    ghost predicate Valid()
      reads this, nameToIr
    {
      nameToIr.Valid() && nameToIr.keyToValue == Bindings(irs) && Distinct(irs)
    }

    constructor ()
      ensures Valid() && irs == [] && fresh(nameToIr)
    {
      nameToIr := new BiMap();
      irs := [];
    }

    /** The name is fresh exactly when the IR is new, and equal IR gets the same name. */
    method ReplaceWithReference(ir: Value) returns (r: Value)
      requires Valid()
      modifies this, nameToIr
      ensures Valid() && (irs, r) == Intern(old(irs), ir)
    {
      hide Bindings, VarName, Distinct;
      if ir.Ref? {
        return ir;
      }
      BoundValues(irs, ir, "");
      var name := nameToIr.FindByValue(ir);
      if name.None? {
        var n := nameToIr.Size();
        NextBinding(irs, ir);
        NewEntry(irs, ir);
        name := Some(VarName(n));
        var inserted := nameToIr.Insert(VarName(n), ir);
        irs := irs + [ir];
      } else {
        BoundValues(irs, ir, name.value);
      }
      r := Ref(name.value, NO_META);
    }

    method Call(portableIr: Value, args: seq<Value>) returns (r: Result<Value>)
      requires Valid()
      modifies this, nameToIr
      ensures Valid()
      ensures args == [] ==> r == Err(InvalidArgument) && irs == old(irs)
      ensures args != [] ==> r.Ok? && (irs, r.value) == CppCall(old(irs), portableIr, args)
    {
      if args == [] {
        return Err(InvalidArgument);
      }
      var processedArgs := [];
      for i := 0 to |args|
        invariant Valid() && |processedArgs| == i
        invariant (irs, processedArgs) == InternAll(old(irs), args[..i])
      {
        var reference := ReplaceWithReference(args[i]);
        assert args[..i + 1][..i] == args[..i];
        processedArgs := processedArgs + [reference];
      }
      assert args[..|args|] == args;
      var inputVal := if |processedArgs| == 1 then processedArgs[0] else Struct(processedArgs, NO_META);
      var processedFunc := ReplaceWithReference(portableIr);
      r := Ok(Value.Call(processedFunc, Some(inputVal), NO_META));
    }
  }

  // ----- locals refer to earlier locals only -----

  /** Where the tracer puts references, `v` mentions none but the first `n` locals. */
  ghost predicate Below(v: Value, n: nat) {
    forall j: nat :: Mentions(v, RefTo(j)) ==> j < n
  }

  ghost predicate AllBelow(vs: seq<Value>, n: nat) {
    forall k :: 0 <= k < |vs| ==> Below(vs[k], n)
  }

  ghost predicate Ordered(irs: Trace) {
    forall i :: 0 <= i < |irs| ==> Below(irs[i], i)
  }

  lemma RefBelow(i: nat, n: nat)
    ensures Below(RefTo(i), n) <==> i < n
  {
    forall j: nat | Mentions(RefTo(i), RefTo(j))
      ensures j == i
    {
      VarNameInjective(i, j);
    }
    assert Mentions(RefTo(i), RefTo(i));
  }

  lemma InternOrdered(irs: Trace, v: Value)
    requires Ordered(irs) && Below(v, |irs|)
    ensures Ordered(Intern(irs, v).0) && Below(Intern(irs, v).1, |Intern(irs, v).0|)
  {
    hide Below;
    if !v.Ref? {
      RefBelow(if v in irs then IndexOf(irs, v) else |irs|, |Intern(irs, v).0|);
    }
  }

  lemma BelowMono(v: Value, n: nat, n': nat)
    requires Below(v, n) && n <= n'
    ensures Below(v, n')
  {
  }

  lemma {:induction false} InternAllOrdered(irs: Trace, vs: seq<Value>)
    requires Ordered(irs) && AllBelow(vs, |irs|)
    ensures Ordered(InternAll(irs, vs).0) && AllBelow(InternAll(irs, vs).1, |InternAll(irs, vs).0|)
    ensures forall k :: 0 <= k < |vs| ==> InternAll(irs, vs).1[k].Ref?
    decreases |vs|
  {
    hide Below, Intern, Ordered;
    if vs != [] {
      var most, v := vs[..|vs| - 1], vs[|vs| - 1];
      InternAllOrdered(irs, most);
      var (irs', refs) := InternAll(irs, most);
      BelowMono(v, |irs|, |irs'|);
      InternOrdered(irs', v);
      var (irs'', last) := Intern(irs', v);
      forall k | 0 <= k < |refs|
        ensures Below(refs[k], |irs''|)
      {
        BelowMono(refs[k], |irs'|, |irs''|);
      }
    }
  }

  lemma CallBelow(f: Value, refs: seq<Value>, n: nat)
    requires f.Ref? && refs != [] && Below(f, n) && AllBelow(refs, n)
    requires forall k :: 0 <= k < |refs| ==> refs[k].Ref?
    ensures Below(Value.Call(f, Some(Input(refs)), NO_META), n)
  {
    var call := Value.Call(f, Some(Input(refs)), NO_META);
    forall j: nat | Mentions(call, RefTo(j))
      ensures j < n
    {
      if f == RefTo(j) {
        assert Mentions(f, RefTo(j));
      } else {
        assert RefTo(j) in refs;
        var k :| 0 <= k < |refs| && refs[k] == RefTo(j);
        assert Below(refs[k], n) && Mentions(refs[k], RefTo(j));
      }
    }
  }

  /** Tracing a call keeps it so that each local mentions only earlier locals, and the call it
      returns mentions only locals that exist. */
  lemma CppCallOrdered(irs: Trace, fn: Value, args: seq<Value>)
    requires args != [] && Ordered(irs) && Below(fn, |irs|) && AllBelow(args, |irs|)
    ensures Ordered(CppCall(irs, fn, args).0)
    ensures Below(CppCall(irs, fn, args).1, |CppCall(irs, fn, args).0|)
  {
    hide Below, Intern, Ordered;
    InternAllOrdered(irs, args);
    var (irs1, refs) := InternAll(irs, args);
    BelowMono(fn, |irs|, |irs1|);
    InternOrdered(irs1, fn);
    var (irs2, f) := Intern(irs1, fn);
    forall k | 0 <= k < |refs|
      ensures Below(refs[k], |irs2|)
    {
      BelowMono(refs[k], |irs1|, |irs2|);
    }
    CallBelow(f, refs, |irs2|);
  }
}
