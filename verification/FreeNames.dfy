/** The free references of an expression, by where they occur. */
module FreeNames {
  import opened Common
  import opened Ir
  import opened Evaluator
  import opened Relevance

  /** A way from an expression to one of its parts. */
  datatype Hop = Member(i: nat) | Source | Body | Callee | Argument | Bound(i: nat) | Result | Parameter

  function Part(rt: Runtime, v: Value, h: Hop): Option<Value> {
    match (v, h)
    case (Struct(vs, _), Member(i)) => if i < |vs| then Some(vs[i]) else None
    case (Select(source, _, _), Source) => Some(source)
    case (Lambda(_, body, _), Body) => Some(body)
    case (Call(f, _, _), Callee) => Some(f)
    case (Call(_, a, _), Argument) => a
    case (Block(locals, _, _), Bound(i)) => if i < |locals| then Some(locals[i].value) else None
    case (Block(_, result, _), Result) => Some(result)
    case (Intrinsic(uri, fixed, _), Parameter) => if rt.kind(uri).ControlFlow? then fixed else None
    case _ => None
  }

  /** On this way the name `x` is bound: by a lambda, unless it may be called without an
      argument, or by an earlier local of a block. */
  predicate Hides(m: Mode, v: Value, h: Hop, x: string) {
    match (v, h)
    case (Lambda(param, _, _), Body) => param == x && !m.zeroArgument
    case (Block(locals, _, _), Bound(i)) => exists j :: 0 <= j < i && j < |locals| && locals[j].name == x
    case (Block(locals, _, _), Result) => exists j :: 0 <= j < |locals| && locals[j].name == x
    case _ => false
  }

  /** A place where `x` is looked up: a reference to it, or a handler that evaluates payloads
      which may mention it. */
  ghost predicate LooksUp(rt: Runtime, m: Mode, v: Value, x: string) {
    match v
    case Ref(name, _) => name == x
    case Intrinsic(uri, _, _) =>
      rt.kind(uri) in {ControlFlow(ParallelMap), ControlFlow(RepeatedConditionalChain)}
      && m.reentry.Within? && x in m.reentry.names
    case _ => false
  }

  /** `path` leads from `v` to such a place, and `x` is bound nowhere on it. */
  ghost predicate Occurs(rt: Runtime, m: Mode, v: Value, path: seq<Hop>, x: string)
    decreases |path|
  {
    if path == [] then LooksUp(rt, m, v, x)
    else
      && Part(rt, v, path[0]).Some? && !Hides(m, v, path[0], x)
      && Occurs(rt, m, Part(rt, v, path[0]).value, path[1..], x)
  }

  predicate NamedBefore(locals: seq<Local>, i: nat, x: string) {
    exists j :: 0 <= j < i && j < |locals| && locals[j].name == x
  }

  lemma {:induction false} FreeLocalsExact(rt: Runtime, m: Mode, locals: seq<Local>, tail: iset<string>, x: string)
    ensures x in FreeLocals(rt, m, locals, tail) <==>
              || (exists i :: 0 <= i < |locals| && x in Free(rt, m, locals[i].value) && !NamedBefore(locals, i, x))
              || (x in tail && !NamedBefore(locals, |locals|, x))
    decreases |locals|
  {
    hide Free;
    if locals != [] {
      var rest := locals[1..];
      FreeLocalsExact(rt, m, rest, tail, x);
      assert forall i :: 0 <= i < |rest| ==> rest[i] == locals[i + 1];
      forall i: nat | i <= |rest|
        ensures NamedBefore(locals, i + 1, x) <==> locals[0].name == x || NamedBefore(rest, i, x)
      {
        if j :| 0 <= j < i + 1 && j < |locals| && locals[j].name == x {
          assert j > 0 ==> rest[j - 1].name == x;
        }
        if j :| 0 <= j < i && j < |rest| && rest[j].name == x {
          assert locals[j + 1].name == x;
        }
      }
      if i :| 0 <= i < |rest| && x in Free(rt, m, rest[i].value) && !NamedBefore(rest, i, x) {
        assert locals[i + 1].value == rest[i].value;
      }
      if i :| 0 < i < |locals| && x in Free(rt, m, locals[i].value) && !NamedBefore(locals, i, x) {
        assert NamedBefore(locals, (i - 1) + 1, x) <==> locals[0].name == x || NamedBefore(rest, i - 1, x);
        assert rest[i - 1] == locals[i];
      }
    }
  }

  /** `x` is free in the part that `h` leads to, and not bound on the way. */
  ghost predicate Leads(rt: Runtime, m: Mode, v: Value, h: Hop, x: string) {
    Part(rt, v, h).Some? && !Hides(m, v, h, x) && x in Free(rt, m, Part(rt, v, h).value)
  }

  ghost predicate SomeLeads(rt: Runtime, m: Mode, v: Value, x: string) {
    exists h :: Leads(rt, m, v, h, x)
  }

  lemma {:induction false} NoParts(rt: Runtime, m: Mode, v: Value, x: string)
    requires v.NotSet? || v.Leaf? || v.Ref?
    ensures !SomeLeads(rt, m, v, x) && (x in Free(rt, m, v) <==> LooksUp(rt, m, v, x))
  {
  }

  lemma {:induction false} StructHop(rt: Runtime, m: Mode, v: Value, x: string)
    requires v.Struct?
    ensures x in Free(rt, m, v) <==> SomeLeads(rt, m, v, x)
  {
    assert forall i: nat :: i < |v.elements| ==> (Leads(rt, m, v, Member(i), x) <==> x in Free(rt, m, v.elements[i]));
    assert forall h :: Leads(rt, m, v, h, x) ==> h.Member? && h.i < |v.elements|;
  }

  lemma {:induction false} SelectHop(rt: Runtime, m: Mode, v: Value, x: string)
    requires v.Select?
    ensures x in Free(rt, m, v) <==> SomeLeads(rt, m, v, x)
  {
    assert Leads(rt, m, v, Source, x) <==> x in Free(rt, m, v.source);
    assert forall h :: Leads(rt, m, v, h, x) ==> h.Source?;
  }

  lemma {:induction false} LambdaHop(rt: Runtime, m: Mode, v: Value, x: string)
    requires v.Lambda?
    ensures x in Free(rt, m, v) <==> SomeLeads(rt, m, v, x)
  {
    assert Leads(rt, m, v, Body, x) <==> x in Free(rt, m, v.result) && (x != v.param || m.zeroArgument);
    assert forall h :: Leads(rt, m, v, h, x) ==> h.Body?;
  }

  lemma {:induction false} CallHop(rt: Runtime, m: Mode, v: Value, x: string)
    requires v.Call?
    ensures x in Free(rt, m, v) <==> SomeLeads(rt, m, v, x)
  {
    assert Leads(rt, m, v, Callee, x) <==> x in Free(rt, m, v.fn);
    assert Leads(rt, m, v, Argument, x) <==> v.argument.Some? && x in Free(rt, m, v.argument.value);
    assert forall h :: Leads(rt, m, v, h, x) ==> h.Callee? || h.Argument?;
  }

  lemma {:induction false} BlockHop(rt: Runtime, m: Mode, v: Value, x: string)
    requires v.Block?
    ensures x in Free(rt, m, v) <==> SomeLeads(rt, m, v, x)
  {
    FreeLocalsExact(rt, m, v.locals, Free(rt, m, v.result), x);
    assert Leads(rt, m, v, Result, x) <==> x in Free(rt, m, v.result) && !NamedBefore(v.locals, |v.locals|, x);
    assert forall i: nat :: i < |v.locals| ==>
      (Leads(rt, m, v, Bound(i), x) <==> x in Free(rt, m, v.locals[i].value) && !NamedBefore(v.locals, i, x));
    assert forall h :: Leads(rt, m, v, h, x) ==> h.Result? || (h.Bound? && h.i < |v.locals|);
  }

  lemma {:induction false} IntrinsicHop(rt: Runtime, m: Mode, v: Value, x: string)
    requires v.Intrinsic?
    ensures x in Free(rt, m, v) <==> LooksUp(rt, m, v, x) || SomeLeads(rt, m, v, x)
  {
    var inside := rt.kind(v.uri).ControlFlow? && v.fixed.Some? && x in Free(rt, m, v.fixed.value);
    assert Leads(rt, m, v, Parameter, x) <==> inside;
    assert forall h :: Leads(rt, m, v, h, x) ==> h.Parameter?;
  }

  /** One hop. */
  lemma {:induction false} FreeHop(rt: Runtime, m: Mode, v: Value, x: string)
    ensures x in Free(rt, m, v) <==> LooksUp(rt, m, v, x) || SomeLeads(rt, m, v, x)
  {
    hide Free, SomeLeads;
    match v
    case NotSet(_) => NoParts(rt, m, v, x);
    case Leaf(_, _) => NoParts(rt, m, v, x);
    case Ref(_, _) => NoParts(rt, m, v, x);
    case Struct(_, _) => StructHop(rt, m, v, x);
    case Select(_, _, _) => SelectHop(rt, m, v, x);
    case Lambda(_, _, _) => LambdaHop(rt, m, v, x);
    case Call(_, _, _) => CallHop(rt, m, v, x);
    case Block(_, _, _) => BlockHop(rt, m, v, x);
    case Intrinsic(_, _, _) => IntrinsicHop(rt, m, v, x);
  }

  lemma {:induction false} FreeOccurs(rt: Runtime, m: Mode, v: Value, x: string) returns (path: seq<Hop>)
    requires x in Free(rt, m, v)
    ensures Occurs(rt, m, v, path, x)
    decreases v
  {
    hide Free, LooksUp, Hides;
    FreeHop(rt, m, v, x);
    path := [];
    if !LooksUp(rt, m, v, x) {
      var h :| Leads(rt, m, v, h, x);
      var rest := FreeOccurs(rt, m, Part(rt, v, h).value, x);
      path := [h] + rest;
    }
  }

  lemma {:induction false} OccursFree(rt: Runtime, m: Mode, v: Value, path: seq<Hop>, x: string)
    requires Occurs(rt, m, v, path, x)
    ensures x in Free(rt, m, v)
    decreases |path|
  {
    hide Free, LooksUp, Hides;
    FreeHop(rt, m, v, x);
    if path != [] {
      OccursFree(rt, m, Part(rt, v, path[0]).value, path[1..], x);
      assert Leads(rt, m, v, path[0], x);
    }
  }

  /** A name counts as free exactly when it is looked up somewhere in the expression and bound
      nowhere on the way there. */
  lemma {:induction false} FreeExact(rt: Runtime, m: Mode, v: Value, x: string)
    ensures x in Free(rt, m, v) <==> exists path :: Occurs(rt, m, v, path, x)
  {
    hide Free, Occurs;
    if x in Free(rt, m, v) {
      var path := FreeOccurs(rt, m, v, x);
    }
    if path :| Occurs(rt, m, v, path, x) {
      OccursFree(rt, m, v, path, x);
    }
  }
}
