/** The chain operators agree: the repeated conditional chain, the flat breakable chain, the
    repeated serial chain and the flat serial chain. */
module Chains {
  import opened Common
  import opened Ir
  import opened Evaluator
  import opened Fuel
  import opened Representation
  import opened RoundTrip
  import opened Constructors

  /** `fns` written out `k` times. */
  function Flatten(k: int, fns: seq<Value>): seq<Value>
    decreases if k < 0 then 0 else k
  {
    if k <= 0 then [] else fns + Flatten(k - 1, fns)
  }

  // ----- repeating a serial chain is one long serial chain -----

  lemma {:induction false} SerialAppend(rt: Runtime, n: nat, a: seq<Value>, b: seq<Value>, x: XVal, s: Scope)
    ensures SerialFrom(rt, n, a + b, x, s)
         == (var y := SerialFrom(rt, n, a, x, s); if y.IsOk() then SerialFrom(rt, n, b, y.result.value, s) else y)
    decreases |a|
  {
    if a == [] {
      assert a + b == b;
    } else {
      assert (a + b)[0] == a[0] && (a + b)[1..] == a[1..] + b;
      var f := Create(rt, n, a[0], s);
      if f.IsOk() {
        var y := Apply(rt, n, f.result.value, Some(x));
        if y.IsOk() {
          SerialAppend(rt, n, a[1..], b, y.result.value, s);
        }
      }
    }
  }

  lemma {:induction false} RepeatThenFlat(
      rt: Runtime, n: nat, fixed: Option<Value>, k: int, x: XVal, s: Scope, r: Result<XVal>)
    requires RepeatFrom(rt, n, Operator(SerialChain, fixed, s), k, x) == Done(r)
    ensures SerialFrom(rt, n, Flatten(k, FixedElements(fixed)), x, s) == Done(r)
    decreases if k < 0 then 0 else k
  {
    if k > 0 {
      var fns := FixedElements(fixed);
      SerialAppend(rt, n, fns, Flatten(k - 1, fns), x, s);
      var y := Apply(rt, n, Operator(SerialChain, fixed, s), Some(x));
      assert n > 0 && y == Exec(rt, n - 1, SerialChain, fixed, Some(x), s);
      SerialMono(rt, n - 1, n, fns, x, s);
      if y.IsOk() {
        RepeatThenFlat(rt, n, fixed, k - 1, y.result.value, s, r);
      }
    }
  }

  lemma {:induction false} FlatThenRepeat(
      rt: Runtime, n: nat, fixed: Option<Value>, k: int, x: XVal, s: Scope, r: Result<XVal>)
    requires SerialFrom(rt, n, Flatten(k, FixedElements(fixed)), x, s) == Done(r)
    ensures RepeatFrom(rt, n + 1, Operator(SerialChain, fixed, s), k, x) == Done(r)
    decreases if k < 0 then 0 else k
  {
    if k > 0 {
      var fns := FixedElements(fixed);
      SerialAppend(rt, n, fns, Flatten(k - 1, fns), x, s);
      var y := Apply(rt, n + 1, Operator(SerialChain, fixed, s), Some(x));
      assert y == Exec(rt, n, SerialChain, fixed, Some(x), s);
      if y.IsOk() {
        FlatThenRepeat(rt, n, fixed, k - 1, y.result.value, s, r);
      }
    }
  }

  /** `Repeat(k, SerialChain(fns))` and the `k`-fold `SerialChain` have the same outcome, be
      it a value or an error. */
  lemma RepeatIsFlatSerial(rt: Runtime, fixed: Option<Value>, k: int, x: XVal, s: Scope, r: Result<XVal>)
    ensures (exists n: nat :: RepeatFrom(rt, n, Operator(SerialChain, fixed, s), k, x) == Done(r))
       <==> (exists n: nat :: SerialFrom(rt, n, Flatten(k, FixedElements(fixed)), x, s) == Done(r))
  {
    if n: nat :| RepeatFrom(rt, n, Operator(SerialChain, fixed, s), k, x) == Done(r) {
      RepeatThenFlat(rt, n, fixed, k, x, s, r);
    }
    if n: nat :| SerialFrom(rt, n, Flatten(k, FixedElements(fixed)), x, s) == Done(r) {
      FlatThenRepeat(rt, n, fixed, k, x, s, r);
    }
  }

  // ----- a breakable chain without Booleans is a serial chain -----

  /** No function of the chain answers with a Boolean. */
  ghost predicate NoBoolean(rt: Runtime, n: nat, fns: seq<Value>, x: XVal, s: Scope)
    decreases |fns|
  {
    fns != [] && Create(rt, n, fns[0], s).IsOk() ==>
      var y := Ask(rt, n, Create(rt, n, fns[0], s).result.value, Some(x));
      y.IsOk() ==> !IsBoolean(y.result.value.1) && NoBoolean(rt, n, fns[1..], y.result.value.0, s)
  }

  lemma {:induction false} BreakableIsSerial(rt: Runtime, n: nat, fns: seq<Value>, x: XVal, s: Scope, y: XVal)
    requires BreakableFrom(rt, n, fns, x, s) == Done(Ok(y)) && NoBoolean(rt, n, fns, x, s)
    ensures SerialFrom(rt, n, fns, x, s) == Done(Ok(y))
    decreases |fns|
  {
    if fns != [] {
      var f := Create(rt, n, fns[0], s).result.value;
      var z := Ask(rt, n, f, Some(x)).result.value.0;
      BreakableIsSerial(rt, n, fns[1..], z, s, y);
    }
  }

  // ----- the repeated conditional chain is a flat breakable chain -----

  /** A state the repeated chain can carry without loss: plain data. `structs` says under
      which rules structs are allowed, if at all; see `SettingOk`. */
  ghost predicate StateOk(structs: Option<Rules>, d: Value) {
    IsData(d) && Plain(d) && !d.NotSet? && (d.Struct? ==> structs.Some?)
  }

  /** Every state of the pass is one of those. */
  ghost predicate RoundPlain(rt: Runtime, structs: Option<Rules>, n: nat, fs: seq<XVal>, x: XVal, s: Scope)
    decreases |fs|
  {
    fs != [] && Ask(rt, n, fs[0], Some(x)).IsOk() ==>
      var d := Ask(rt, n, fs[0], Some(x)).result.value.1;
      if IsBoolean(d) then BooleanOf(d) || RoundPlain(rt, structs, n, fs[1..], x, s)
      else
        && StateOk(structs, d)
        && (Create(rt, n, d, s).IsOk() ==> RoundPlain(rt, structs, n, fs[1..], Create(rt, n, d, s).result.value, s))
  }

  ghost predicate RoundsPlain(rt: Runtime, structs: Option<Rules>, n: nat, k: int, fs: seq<XVal>, x: XVal, s: Scope)
    decreases if k < 0 then 0 else k
  {
    k > 0 ==>
      && RoundPlain(rt, structs, n, fs, x, s)
      && var r := Round(rt, n, fs, x, s);
         (r.IsOk() && !r.result.value.1 ==> RoundsPlain(rt, structs, n, k - 1, fs, r.result.value.0, s))
  }

  /** The states of the two chains: equal, or one the embedded form of the other. */
  ghost predicate Rel(rt: Runtime, structs: Option<Rules>, x: XVal, y: XVal) {
    x == y || (structs.Some? && Sim(rt, structs.value, x, y))
  }

  /** Where states may be structs, the functions of the chain, and what they find in scope,
      cannot tell a local struct from an embedded one: they are of the written kind, or they
      contain no `Fallback`. */
  ghost predicate SettingOk(rt: Runtime, structs: Option<Rules>, fns: seq<Value>, s: Scope) {
    structs.Some? ==>
      var r := structs.value;
      (r.written || OneWay(r)) && Keeps(rt, r) && AllCodeOk(rt, r, fns) && AllWritten(r, fns) && SimScope(rt, r, s, s)
  }

  ghost predicate Created(rt: Runtime, n: nat, fns: seq<Value>, fs: seq<XVal>, s: Scope) {
    |fns| == |fs| && forall i :: 0 <= i < |fns| ==> Create(rt, n, fns[i], s) == Done(Ok(fs[i]))
  }

  lemma {:induction false} CreateAllCreates(rt: Runtime, n: nat, fns: seq<Value>, s: Scope)
    requires CreateAll(rt, n, fns, s).IsOk()
    ensures Created(rt, n, fns, CreateAll(rt, n, fns, s).result.value, s)
    decreases |fns|
  {
    if fns != [] {
      CreateAllCreates(rt, n, fns[1..], s);
    }
  }

  lemma RelMaterialize(rt: Runtime, structs: Option<Rules>, x: XVal, y: XVal)
    requires Rel(rt, structs, x, y)
    ensures Materialize(x) == Materialize(y)
  {
    if x != y { EmbedSim(rt, structs.value, x, y); }
  }

  /** The same function asked about related states: the same payload. */
  lemma {:induction false} AskRel(rt: Runtime, structs: Option<Rules>, n: nat, v: Value, f: XVal, s: Scope, x: XVal, y: XVal)
    requires Rel(rt, structs, x, y) && SettingOk(rt, structs, [v], s) && Create(rt, n, v, s) == Done(Ok(f))
    requires Ask(rt, n, f, Some(x)).IsOk()
    ensures var p, q := Ask(rt, n, f, Some(x)), Ask(rt, n, f, Some(y));
            q.IsOk() && p.result.value.1 == q.result.value.1 && Rel(rt, structs, p.result.value.0, q.result.value.0)
    ensures Materialize(Ask(rt, n, f, Some(y)).result.value.0) == Ok(Ask(rt, n, f, Some(x)).result.value.1)
  {
    hide Sim, SimScope, Keeps, Apply, Create, Callable, IsFunction;
    if x != y {
      ListOk(rt, structs.value, [v]);
      FunctionCallable(rt, structs.value, n, v, s);
      CreateSim(rt, structs.value, n, v, s, s);
      AskSim(rt, structs.value, n, f, f, Some(x), Some(y));
    }
  }

  lemma {:induction false} DataIsCode(rt: Runtime, r: Rules, d: Value)
    requires IsData(d)
    ensures CodeOk(rt, r, d)
  {
    if d.Struct? {
      forall i | 0 <= i < |d.elements| { DataIsCode(rt, r, d.elements[i]); }
    }
  }

  lemma {:induction false} PlainSim(rt: Runtime, r: Rules, d: Value, y: XVal)
    requires IsData(d) && Plain(d) && Materialize(y) == Ok(d)
    ensures Sim(rt, r, LocalForm(d), y)
    ensures !d.Struct? ==> y == Embedded(Ok(d))
  {
    DataIsCode(rt, r, d);
    if d.Struct? {
      if y.Structure? {
        MaterializeStructure(y.elements);
        forall i | 0 <= i < |d.elements|
          ensures Sim(rt, r, LocalForm(d.elements[i]), y.elements[i])
        {
          assert Payloads(y.elements)[i] == d.elements[i];
          PlainSim(rt, r, d.elements[i], y.elements[i]);
        }
      } else {
        forall i | 0 <= i < |d.elements|
          ensures Sim(rt, r, LocalForm(d.elements[i]), Embedded(Ok(d.elements[i])))
        {
          PlainSim(rt, r, d.elements[i], Embedded(Ok(d.elements[i])));
        }
      }
    } else if y.Structure? {
      MaterializeStructure(y.elements);
    }
  }

  /** The repeated chain creates the state again from its payload; the breakable chain keeps
      it. */
  lemma {:induction false} StateRel(rt: Runtime, structs: Option<Rules>, n: nat, d: Value, s: Scope, state: XVal, y: XVal)
    requires StateOk(structs, d) && Create(rt, n, d, s) == Done(Ok(state)) && Materialize(y) == Ok(d)
    ensures Rel(rt, structs, state, y)
  {
    EvalDataValue(rt, n, d, s, state);
    PlainSim(rt, if structs.Some? then structs.value else Rules(false, false, false, false), d, y);
  }

  /** One pass of the repeated chain, followed by `more` in the breakable chain. */
  lemma {:induction false} RoundToFlat(
      rt: Runtime, structs: Option<Rules>, n: nat, fns: seq<Value>, fs: seq<XVal>, more: seq<Value>, x: XVal, y: XVal, s: Scope)
      returns (z: XVal)
    requires Created(rt, n, fns, fs, s) && SettingOk(rt, structs, fns, s) && Rel(rt, structs, x, y)
    requires Round(rt, n, fs, x, s).IsOk() && RoundPlain(rt, structs, n, fs, x, s)
    ensures Rel(rt, structs, Round(rt, n, fs, x, s).result.value.0, z)
    ensures BreakableFrom(rt, n, fns + more, y, s)
         == (if Round(rt, n, fs, x, s).result.value.1 then Done(Ok(z)) else BreakableFrom(rt, n, more, z, s))
    decreases |fns|
  {
    hide Rel, StateOk, Create, Ask, Keeps, CodeOk, SimScope;
    if fns == [] {
      assert fns + more == more;
      z := y;
    } else {
      var all := fns + more;
      assert all[0] == fns[0] && all[1..] == fns[1..] + more;
      assert Create(rt, n, fns[0], s) == Done(Ok(fs[0]));
      AskRel(rt, structs, n, fns[0], fs[0], s, x, y);
      var d := Ask(rt, n, fs[0], Some(x)).result.value.1;
      if IsBoolean(d) {
        if BooleanOf(d) {
          z := y;
        } else {
          z := RoundToFlat(rt, structs, n, fns[1..], fs[1..], more, x, y, s);
        }
      } else {
        var b := Ask(rt, n, fs[0], Some(y)).result.value.0;
        var state := Create(rt, n, d, s).result.value;
        StateRel(rt, structs, n, d, s, state, b);
        z := RoundToFlat(rt, structs, n, fns[1..], fs[1..], more, state, b, s);
      }
    }
  }

  lemma {:induction false} RoundsToFlat(
      rt: Runtime, structs: Option<Rules>, n: nat, k: int, fns: seq<Value>, fs: seq<XVal>, x: XVal, y: XVal, s: Scope, r: XVal)
      returns (z: XVal)
    requires Created(rt, n, fns, fs, s) && SettingOk(rt, structs, fns, s) && Rel(rt, structs, x, y)
    requires RoundsFrom(rt, n, k, fs, x, s) == Done(Ok(r)) && RoundsPlain(rt, structs, n, k, fs, x, s)
    ensures BreakableFrom(rt, n, Flatten(k, fns), y, s) == Done(Ok(z)) && Rel(rt, structs, r, z)
    decreases if k < 0 then 0 else k
  {
    hide Rel, SettingOk, Created, RoundPlain;
    if k <= 0 {
      z := y;
    } else {
      z := RoundToFlat(rt, structs, n, fns, fs, Flatten(k - 1, fns), x, y, s);
      var (state, broke) := Round(rt, n, fs, x, s).result.value;
      if !broke {
        z := RoundsToFlat(rt, structs, n, k - 1, fns, fs, state, z, s, r);
      }
    }
  }

  // ----- the same without structs: both directions, errors included -----

  /** A state that is not a struct is created again as exactly what it was. */
  lemma {:induction false} LeafAgain(rt: Runtime, n: nat, d: Value, s: Scope, y: XVal)
    requires n > 0 && StateOk(None, d) && Materialize(y) == Ok(d)
    ensures Create(rt, n, d, s) == Done(Ok(y))
  {
    PlainSim(rt, Rules(false, false, false, false), d, y);
  }

  lemma {:induction false} RoundIsFlat(
      rt: Runtime, n: nat, fns: seq<Value>, fs: seq<XVal>, more: seq<Value>, x: XVal, s: Scope)
    requires Created(rt, n, fns, fs, s) && RoundPlain(rt, None, n, fs, x, s)
    ensures var o := Round(rt, n, fs, x, s);
            BreakableFrom(rt, n, fns + more, x, s) ==
              if !o.IsOk() then o.PropagateFailure()
              else if o.result.value.1 then Done(Ok(o.result.value.0))
              else BreakableFrom(rt, n, more, o.result.value.0, s)
    decreases |fns|
  {
    hide StateOk, Create, Apply, Materialize;
    if fns == [] {
      assert fns + more == more;
    } else {
      var all := fns + more;
      assert all[0] == fns[0] && all[1..] == fns[1..] + more;
      assert Create(rt, n, fns[0], s) == Done(Ok(fs[0]));
      var a := Ask(rt, n, fs[0], Some(x));
      if a.IsOk() {
        var (y, d) := a.result.value;
        if !IsBoolean(d) {
          AskedFuel(rt, n, fs[0], x);
          LeafAgain(rt, n, d, s, y);
          RoundIsFlat(rt, n, fns[1..], fs[1..], more, y, s);
        } else if !BooleanOf(d) {
          RoundIsFlat(rt, n, fns[1..], fs[1..], more, x, s);
        }
      }
    }
  }

  lemma {:induction false} AskedFuel(rt: Runtime, n: nat, f: XVal, x: XVal)
    requires Ask(rt, n, f, Some(x)).IsOk()
    ensures n > 0 && Materialize(Ask(rt, n, f, Some(x)).result.value.0) == Ok(Ask(rt, n, f, Some(x)).result.value.1)
  {
  }

  lemma {:induction false} RoundsAreFlat(rt: Runtime, n: nat, k: int, fns: seq<Value>, fs: seq<XVal>, x: XVal, s: Scope)
    requires Created(rt, n, fns, fs, s) && RoundsPlain(rt, None, n, k, fs, x, s)
    ensures RoundsFrom(rt, n, k, fs, x, s) == BreakableFrom(rt, n, Flatten(k, fns), x, s)
    decreases if k < 0 then 0 else k
  {
    hide Created, RoundPlain;
    if k > 0 {
      RoundIsFlat(rt, n, fns, fs, Flatten(k - 1, fns), x, s);
      var o := Round(rt, n, fs, x, s);
      if o.IsOk() && !o.result.value.1 {
        RoundsAreFlat(rt, n, k - 1, fns, fs, o.result.value.0, s);
      }
    }
  }

  /** The body functions of a repeated chain: every static parameter but the first. */
  function Bodies(fixed: Option<Value>): seq<Value> {
    if FixedElements(fixed) == [] then [] else FixedElements(fixed)[1..]
  }

  /** Whenever the repeated chain succeeds on plain states, the breakable chain over its
      functions written out `num_steps` times succeeds with the same payload. */
  lemma RepeatedChainIsBreakable(
      rt: Runtime, structs: Option<Rules>, n: nat, fixed: Option<Value>, x: XVal, s: Scope, r: XVal) returns (z: XVal)
    requires Exec(rt, n, RepeatedConditionalChain, fixed, Some(x), s) == Done(Ok(r))
    requires SettingOk(rt, structs, Bodies(fixed), s)
    requires CreateAll(rt, n, Bodies(fixed), s).IsOk() ==>
               RoundsPlain(rt, structs, n, Int32Of(FixedAt(fixed, 0)), CreateAll(rt, n, Bodies(fixed), s).result.value, x, s)
    ensures BreakableFrom(rt, n, Flatten(Int32Of(FixedAt(fixed, 0)), Bodies(fixed)), x, s) == Done(Ok(z))
    ensures Rel(rt, structs, r, z) && Materialize(r) == Materialize(z)
  {
    hide RoundsPlain, SettingOk, Created;
    CreateAllCreates(rt, n, Bodies(fixed), s);
    var fs := CreateAll(rt, n, Bodies(fixed), s).result.value;
    assert RoundsFrom(rt, n, Int32Of(FixedAt(fixed, 0)), fs, x, s) == Done(Ok(r));
    z := RoundsToFlat(rt, structs, n, Int32Of(FixedAt(fixed, 0)), Bodies(fixed), fs, x, x, s, r);
    RelMaterialize(rt, structs, r, z);
  }

  /** When its functions can be created and no state is a struct, the repeated chain has
      exactly the outcome of the breakable chain: value, error, or lack of fuel. */
  lemma {:induction false} RepeatedChainExact(rt: Runtime, n: nat, fixed: Option<Value>, x: XVal, s: Scope)
    requires CreateAll(rt, n, Bodies(fixed), s).IsOk()
    requires RoundsPlain(rt, None, n, Int32Of(FixedAt(fixed, 0)), CreateAll(rt, n, Bodies(fixed), s).result.value, x, s)
    ensures Exec(rt, n, RepeatedConditionalChain, fixed, Some(x), s)
         == BreakableFrom(rt, n, Flatten(Int32Of(FixedAt(fixed, 0)), Bodies(fixed)), x, s)
  {
    hide RoundsPlain, Created;
    CreateAllCreates(rt, n, Bodies(fixed), s);
    RoundsAreFlat(rt, n, Int32Of(FixedAt(fixed, 0)), Bodies(fixed), CreateAll(rt, n, Bodies(fixed), s).result.value, x, s);
  }

  /** The two forms that `SmartChain` chooses between. If the loop form succeeds on plain
      states and no function answers with a Boolean, the serial form applied `k` times gives
      the same payload. */
  lemma SmartChainForms(
      rt: Runtime, structs: Option<Rules>, n: nat, k: int32, ops: seq<Value>, x: XVal, s: Scope, r: XVal) returns (z: XVal)
    requires k > 1 && SettingOk(rt, structs, Labelled(ops), s)
    requires var loop := SmartChainOf(ops, k, false).fixed;
             && Exec(rt, n, RepeatedConditionalChain, loop, Some(x), s) == Done(Ok(r))
             && (CreateAll(rt, n, Bodies(loop), s).IsOk() ==>
                   RoundsPlain(rt, structs, n, k, CreateAll(rt, n, Bodies(loop), s).result.value, x, s))
    requires NoBoolean(rt, n, Flatten(k, Labelled(ops)), x, s)
    ensures var serial := Operator(SerialChain, SmartChainOf(ops, 1, false).fixed, s);
            && RepeatFrom(rt, n + 1, serial, k, x) == Done(Ok(z))
            && Materialize(r) == Materialize(z)
  {
    hide RoundsPlain, SettingOk, NoBoolean, Rel;
    var loop := SmartChainOf(ops, k, false).fixed;
    assert FixedElements(loop) == [CreateInt32("num_steps", k)] + Labelled(ops);
    assert Bodies(loop) == Labelled(ops) && Int32Of(FixedAt(loop, 0)) == k;
    z := RepeatedChainIsBreakable(rt, structs, n, loop, x, s, r);
    BreakableIsSerial(rt, n, Flatten(k, Labelled(ops)), x, s, z);
    FlatThenRepeat(rt, n, SmartChainOf(ops, 1, false).fixed, k, x, s, Ok(z));
  }

  // ----- why states must be plain -----

  /** One handler returns a struct labelled "a", the other one reads the label. */
  const READS_LABEL := Runtime(
    uri => Inline,
    (uri, fixed) => None,
    (uri, fixed, d: Value) => if uri == "make" then Ok(Struct([], Meta("a", "", None))) else Ok(Leaf(Str(d.meta.tag), NO_META)))
  const MAKE := Intrinsic("make", None, NO_META)
  const READ := Intrinsic("read", None, NO_META)

  lemma {:induction false} MakeThenRead(x: Value)
    ensures Ask(READS_LABEL, 3, Embedded(Ok(MAKE)), Some(Embedded(Ok(x))))
         == Done(Ok((Embedded(Ok(Struct([], Meta("a", "", None)))), Struct([], Meta("a", "", None)))))
    ensures Ask(READS_LABEL, 3, Embedded(Ok(READ)), Some(Embedded(Ok(Struct([], Meta("a", "", None))))))
         == Done(Ok((Embedded(Ok(Leaf(Str("a"), NO_META))), Leaf(Str("a"), NO_META))))
    ensures Ask(READS_LABEL, 3, Embedded(Ok(READ)), Some(Structure([])))
         == Done(Ok((Embedded(Ok(Leaf(Str(""), NO_META))), Leaf(Str(""), NO_META))))
  {
    assert "make" != "read";
    assert Embed(Structure([])) == Ok(Ok(Struct([], NO_META)));
  }

  /** The repeated chain drops the label of the struct between its steps, the breakable chain
      keeps it. */
  lemma {:induction false} LabelsTellChainsApart(x: Value, s: Scope)
    ensures BreakableFrom(READS_LABEL, 3, [MAKE, READ], Embedded(Ok(x)), s) == Done(Ok(Embedded(Ok(Leaf(Str("a"), NO_META)))))
    ensures Round(READS_LABEL, 3, [Embedded(Ok(MAKE)), Embedded(Ok(READ))], Embedded(Ok(x)), s)
         == Done(Ok((Embedded(Ok(Leaf(Str(""), NO_META))), false)))
  {
    hide Ask;
    var rt := READS_LABEL;
    var made, e := Struct([], Meta("a", "", None)), Leaf(Str(""), NO_META);
    MakeThenRead(x);
    assert Create(rt, 3, MAKE, s) == Done(Ok(Embedded(Ok(MAKE)))) && Create(rt, 3, READ, s) == Done(Ok(Embedded(Ok(READ))));
    assert [MAKE, READ][1..] == [READ] && [READ][1..] == [];
    assert BreakableFrom(rt, 3, [READ], Embedded(Ok(made)), s) == Done(Ok(Embedded(Ok(Leaf(Str("a"), NO_META)))));
    assert EvalAll(rt, 2, [], s) == Done(Ok([]));
    assert Create(rt, 3, made, s) == Done(Ok(Structure([]))) && Create(rt, 3, e, s) == Done(Ok(Embedded(Ok(e))));
    var fs := [Embedded(Ok(MAKE)), Embedded(Ok(READ))];
    assert fs[1..] == [Embedded(Ok(READ))] && fs[1..][1..] == [];
    assert Round(rt, 3, fs[1..], Structure([]), s) == Done(Ok((Embedded(Ok(e)), false)));
  }
}
