/** `TracingContext` of genc/python/authoring/tracing_context.py, and `traced_computation`
    of tracing_decorator.py run on it. */
module TracingContexts {
  import opened Common
  import opened Ir
  import opened Names
  import opened Tracing

  predicate Distinct(irs: Trace) {
    forall i, j :: 0 <= i < j < |irs| ==> irs[i] != irs[j]
  }

  lemma {:induction false} IndexOfDistinct(irs: Trace, i: nat)
    requires Distinct(irs) && i < |irs|
    ensures IndexOf(irs, irs[i]) == i
  {
    var j := IndexOf(irs, irs[i]);
  }

  /** Both dictionaries; Python keeps `_name_to_ir` in insertion order. */
  class TracingContext {
    var nameToIr: seq<Local>
    var irToName: map<Value, string>

    ghost function Irs(): Trace
      reads this
    {
      seq(|nameToIr|, i requires 0 <= i < |nameToIr| reads this => nameToIr[i].value)
    }

    ghost predicate Valid()
      reads this
    {
      && nameToIr == LocalsOf(Irs())
      && Distinct(Irs())
      && (forall v :: v in irToName <==> v in Irs())
      && (forall v :: v in irToName ==> irToName[v] == VarName(IndexOf(Irs(), v)))
    }

    constructor ()
      ensures Valid() && Irs() == []
    {
      nameToIr := [];
      irToName := map[];
    }

    method ReplaceWithReference(ir: Value) returns (r: Value)
      requires Valid()
      modifies this
      ensures Valid() && (Irs(), r) == Intern(old(Irs()), ir)
    {
      if ir.Ref? {
        return ir;
      }
      var name;
      if ir in irToName {
        name := irToName[ir];
      } else {
        ghost var irs := Irs();
        name := VarName(|nameToIr|);
        irToName := irToName[ir := name];
        nameToIr := nameToIr + [Local(name, ir)];
        assert Irs() == irs + [ir];
        NewEntry(irs, ir);
      }
      r := Ref(name, NO_META);
    }

    method Embed(arg: Value) returns (r: Value)
      requires Valid()
      modifies this
      ensures Valid() && (Irs(), r) == Intern(old(Irs()), arg)
    {
      r := ReplaceWithReference(arg);
    }

    /** Python raises `NotImplementedError` when there is no argument. */
    method Call(portableIr: Value, args: seq<Value>) returns (r: Result<Value>)
      requires Valid()
      modifies this
      ensures Valid()
      ensures args == [] ==> r == Err(Unimplemented) && Irs() == old(Irs())
      ensures args != [] ==>
                r.Ok? && (Irs(), r.value) == TraceCall(old(Irs()), portableIr, args)
    {
      if args == [] {
        return Err(Unimplemented);
      }
      var processedArgs := [];
      for i := 0 to |args|
        invariant Valid() && |processedArgs| == i
        invariant (Irs(), processedArgs) == InternAll(old(Irs()), args[..i])
      {
        var reference := ReplaceWithReference(args[i]);
        assert args[..i + 1][..i] == args[..i];
        processedArgs := processedArgs + [reference];
      }
      assert args[..|args|] == args;
      var inputVal := if |processedArgs| > 1 then Struct(processedArgs, NO_META) else processedArgs[0];
      var processedFunc := ReplaceWithReference(portableIr);
      var reference := ReplaceWithReference(Value.Call(processedFunc, Some(inputVal), NO_META));
      r := Ok(reference);
    }
  }

  /** A fresh entry keeps the index of every older one. */
  lemma {:induction false} NewEntry(irs: Trace, ir: Value)
    requires Distinct(irs) && ir !in irs
    ensures Distinct(irs + [ir])
    ensures IndexOf(irs + [ir], ir) == |irs|
    ensures forall v :: v in irs ==> IndexOf(irs + [ir], v) == IndexOf(irs, v)
  {
    IndexOfDistinct(irs + [ir], |irs|);
    forall v | v in irs
      ensures IndexOf(irs + [ir], v) == IndexOf(irs, v)
    {
      var i := IndexOf(irs, v);
      assert (irs + [ir])[i] == v;
      IndexOfDistinct(irs + [ir], i);
    }
  }

  /** The decorator: the traced function makes its calls in the nested context, then the
      locals that have accumulated become a block. */
  method TracedComputation(p: Program) returns (portableIr: Value)
    requires ProgramOk(p)
    ensures portableIr == Traced(p)
  {
    var context := new TracingContext();
    var results: seq<Value> := [];
    for k := 0 to |p.steps|
      invariant fresh(context) && context.Valid() && |results| == k
      invariant (context.Irs(), results) == TraceSteps(p, k)
    {
      assert StepOk(p, k, p.steps[k]);
      match p.steps[k] {
        case CallStep(fn, args) =>
          var r := context.Call(OperandIr(p, results, fn), OperandIrs(p, results, args));
          results := results + [r.value];
        case EmbedStep(value) =>
          var r := context.Embed(OperandIr(p, results, value));
          results := results + [r];
      }
    }
    var result := OperandIr(p, results, p.result);
    if context.nameToIr != [] {
      result := Block(context.nameToIr, result, NO_META);
    }
    portableIr := Lambda("arg", result, NO_META);
  }
}
