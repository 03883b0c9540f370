/** Calls follow the rules. */
module OperatorRules {
  import opened Common
  import opened Ir
  import opened Evaluator
  import opened Fuel
  import opened EvaluationRules
  import opened EvaluationExact
  import opened ChainRules

  // First the handlers of the control-flow operators, and with them all functions.

  // ----- Fallback -----

  lemma {:induction false} TriesSound(rt: Runtime, n: nat, v: Value, a: Option<XVal>, s: Scope)
    requires Candidate(rt, n, v, a, s).Done?
    ensures Tries(rt, v, s, a, Candidate(rt, n, v, a, s).result)
  {
    hide Create, Apply, Materialize, Makes;
    MakesSound(rt, n, v, s);
    var f := Create(rt, n, v, s).result;
    var y := if f.Ok? then Apply(rt, n, f.value, a).result else Err(f.code);
    assert f.Ok? ==> Apply(rt, n, f.value, a) == Done(y);
    assert Makes(rt, v, s, f) && AppliesResult(rt, f, a, y);
  }

  lemma TriesFuel(rt: Runtime, v: Value, a: Option<XVal>, s: Scope, r: Result<XVal>) returns (n: nat)
    requires Tries(rt, v, s, a, r)
    ensures Candidate(rt, n, v, a, s) == Done(r)
  {
    hide Create, Apply, Materialize, Makes;
    var f, y :| Makes(rt, v, s, f) && AppliesResult(rt, f, a, y) && r == Checked(y);
    n := MakesFuel(rt, v, s, f);
    if f.Ok? {
      var i := n;
      var j: nat :| Apply(rt, j, f.value, a) == Done(y);
      n := Larger(i, j);
      CreateMono(rt, i, n, v, s);
      ApplyMono(rt, j, n, f.value, a);
    }
  }

  /** After a candidate that fails. */
  lemma FallbackStep(rt: Runtime, vs: seq<Value>, s: Scope, a: Option<XVal>, none: Code, e: Code, r: Result<XVal>)
    requires vs != [] && Tries(rt, vs[0], s, a, Err(e)) && FallbackRule(rt, vs[1..], s, a, e, r)
    ensures FallbackRule(rt, vs, s, a, none, r)
  {
    hide Tries;
    assert Misses(rt, vs[0], s, a);
    if r.Ok? {
      var i :| 0 <= i < |vs[1..]| && Tries(rt, vs[1..][i], s, a, r) && forall j :: 0 <= j < i ==> Misses(rt, vs[1..][j], s, a);
      assert Tries(rt, vs[i + 1], s, a, r);
      assert forall j :: 0 < j < i + 1 ==> vs[j] == vs[1..][j - 1];
    } else {
      assert forall j :: 0 < j < |vs| ==> vs[j] == vs[1..][j - 1];
    }
  }

  lemma FallbackTail(rt: Runtime, vs: seq<Value>, s: Scope, a: Option<XVal>, none: Code, r: Result<XVal>) returns (e: Code)
    requires vs != [] && FallbackRule(rt, vs, s, a, none, r) && !(r.Ok? && Tries(rt, vs[0], s, a, r))
    ensures Tries(rt, vs[0], s, a, Err(e)) && FallbackRule(rt, vs[1..], s, a, e, r)
  {
    hide Tries;
    assert forall j :: 0 <= j < |vs| - 1 ==> vs[1..][j] == vs[j + 1];
    if r.Ok? {
      var i :| 0 <= i < |vs| && Tries(rt, vs[i], s, a, r) && forall j :: 0 <= j < i ==> Misses(rt, vs[j], s, a);
      assert i > 0 && Misses(rt, vs[0], s, a) && Tries(rt, vs[1..][i - 1], s, a, r);
      e :| Tries(rt, vs[0], s, a, Err(e));
    } else if |vs| == 1 {
      e := r.code;
    } else {
      assert Misses(rt, vs[0], s, a);
      e :| Tries(rt, vs[0], s, a, Err(e));
    }
  }

  lemma {:induction false} FallbackSound(rt: Runtime, n: nat, vs: seq<Value>, a: Option<XVal>, none: Code, s: Scope)
    requires FallbackFrom(rt, n, vs, a, none, s).Done?
    ensures FallbackRule(rt, vs, s, a, none, FallbackFrom(rt, n, vs, a, none, s).result)
    decreases |vs|
  {
    hide Candidate, Tries;
    if vs != [] {
      TriesSound(rt, n, vs[0], a, s);
      var y := Candidate(rt, n, vs[0], a, s).result;
      if y.Err? {
        FallbackSound(rt, n, vs[1..], a, y.code, s);
        FallbackStep(rt, vs, s, a, none, y.code, FallbackFrom(rt, n, vs, a, none, s).result);
      }
    }
  }

  lemma {:induction false} FallbackFuel(rt: Runtime, vs: seq<Value>, a: Option<XVal>, none: Code, s: Scope, r: Result<XVal>)
      returns (n: nat)
    requires FallbackRule(rt, vs, s, a, none, r)
    ensures FallbackFrom(rt, n, vs, a, none, s) == Done(r)
    decreases |vs|
  {
    hide Candidate, Tries;
    n := 0;
    if vs != [] {
      if r.Ok? && Tries(rt, vs[0], s, a, r) {
        n := TriesFuel(rt, vs[0], a, s, r);
      } else {
        var e := FallbackTail(rt, vs, s, a, none, r);
        var i := TriesFuel(rt, vs[0], a, s, Err(e));
        var j := FallbackFuel(rt, vs[1..], a, e, s, r);
        n := Larger(i, j);
        CandidateMono(rt, i, n, vs[0], a, s);
        FallbackMono(rt, j, n, vs[1..], a, e, s);
      }
    }
  }

  // ----- While -----

  ghost function LoopTurnAt(rt: Runtime, n: nat, condition: XVal, body: XVal, x: XVal): Outcome<Turn> {
    match Ask(rt, n, condition, Some(x))
    case OutOfFuel => OutOfFuel
    case Done(Err(c)) => Done(Ok(Stop(Err(c))))
    case Done(Ok((_, d))) =>
      if !IsBoolean(d) then Done(Ok(Stop(Err(InvalidArgument))))
      else if !d.scalar.b then Done(Ok(Stop(Ok(x))))
      else
        match Apply(rt, n, body, Some(x))
        case OutOfFuel => OutOfFuel
        case Done(Err(c)) => Done(Ok(Stop(Err(c))))
        case Done(Ok(y)) => Done(Ok(Go(y)))
  }

  lemma {:induction false} WhileTurns(rt: Runtime, n: nat, condition: XVal, body: XVal, x: XVal)
    ensures WhileFrom(rt, n + 1, condition, body, x) ==
      match LoopTurnAt(rt, n, condition, body, x)
      case OutOfFuel => OutOfFuel
      case Done(Err(c)) => Done(Err(c))
      case Done(Ok(Stop(r))) => Done(r)
      case Done(Ok(Go(y))) => WhileFrom(rt, n, condition, body, y)
  {
    hide Apply, Ask;
  }

  lemma LoopTurnSound(rt: Runtime, n: nat, condition: XVal, body: XVal, x: XVal)
    requires LoopTurnAt(rt, n, condition, body, x).Done?
    ensures LoopTurnAt(rt, n, condition, body, x).IsOk()
    ensures LoopTurn(rt, condition, body, x, LoopTurnAt(rt, n, condition, body, x).result.value)
  {
    hide Apply, Materialize;
    var t := LoopTurnAt(rt, n, condition, body, x).result.value;
    var c := Apply(rt, n, condition, Some(x)).result;
    assert Apply(rt, n, condition, Some(x)) == Done(c);
    if t.Go? || (c.Ok? && Materialize(c.value).Ok? && BooleanOf(Materialize(c.value).value)) {
      var y := Apply(rt, n, body, Some(x)).result;
      assert Apply(rt, n, body, Some(x)) == Done(y);
      assert Applies(rt, body, Some(x), y);
    }
    assert Applies(rt, condition, Some(x), c) && LoopAnswered(rt, body, x, Checked(c), t);
  }

  lemma LoopTurnFuel(rt: Runtime, condition: XVal, body: XVal, x: XVal, t: Turn) returns (n: nat)
    requires LoopTurn(rt, condition, body, x, t)
    ensures LoopTurnAt(rt, n, condition, body, x) == Done(Ok(t))
  {
    hide Apply, Materialize;
    var c :| Applies(rt, condition, Some(x), c) && LoopAnswered(rt, body, x, Checked(c), t);
    n :| Apply(rt, n, condition, Some(x)) == Done(c);
    if c.Ok? && Materialize(c.value).Ok? && BooleanOf(Materialize(c.value).value) {
      var i := n;
      var y :| Applies(rt, body, Some(x), y) && t == if y.Ok? then Go(y.value) else Stop(Err(y.code));
      var j: nat :| Apply(rt, j, body, Some(x)) == Done(y);
      n := Larger(i, j);
      ApplyMono(rt, i, n, condition, Some(x));
      ApplyMono(rt, j, n, body, Some(x));
    }
  }

  lemma LoopTurnMono(rt: Runtime, n: nat, m: nat, condition: XVal, body: XVal, x: XVal)
    requires n <= m && LoopTurnAt(rt, n, condition, body, x).Done?
    ensures LoopTurnAt(rt, m, condition, body, x) == LoopTurnAt(rt, n, condition, body, x)
  {
    hide Apply, Materialize;
    ApplyMono(rt, n, m, condition, Some(x));
    var c := Ask(rt, n, condition, Some(x));
    if c.IsOk() && BooleanOf(c.result.value.1) {
      ApplyMono(rt, n, m, body, Some(x));
    }
  }

  lemma LoopFrom(rt: Runtime, condition: XVal, body: XVal, x: XVal, path: seq<XVal>, r: Result<XVal>)
    requires LoopPath(rt, condition, body, path, r) && LoopTurn(rt, condition, body, x, Go(path[0]))
    ensures LoopPath(rt, condition, body, [x] + path, r)
  {
    hide LoopTurn;
    var longer := [x] + path;
    forall i | 0 <= i < |longer| - 1
      ensures LoopTurn(rt, condition, body, longer[i], Go(longer[i + 1]))
    {
      assert i > 0 ==> longer[i] == path[i - 1] && longer[i + 1] == path[i];
    }
  }

  lemma LoopTail(rt: Runtime, condition: XVal, body: XVal, path: seq<XVal>, r: Result<XVal>)
    requires LoopPath(rt, condition, body, path, r) && |path| > 1
    ensures LoopTurn(rt, condition, body, path[0], Go(path[1])) && LoopPath(rt, condition, body, path[1..], r)
  {
    hide LoopTurn;
    forall i | 0 <= i < |path[1..]| - 1
      ensures LoopTurn(rt, condition, body, path[1..][i], Go(path[1..][i + 1]))
    {
      assert LoopTurn(rt, condition, body, path[i + 1], Go(path[i + 2]));
    }
  }

  lemma {:induction false} LoopSound(rt: Runtime, n: nat, condition: XVal, body: XVal, x: XVal) returns (path: seq<XVal>)
    requires WhileFrom(rt, n, condition, body, x).Done?
    ensures LoopPath(rt, condition, body, path, WhileFrom(rt, n, condition, body, x).result) && path[0] == x
    decreases n
  {
    hide LoopTurnAt, LoopTurn, WhileFrom;
    if n == 0 {
      WhileNoFuel(rt, condition, body, x);
      assert false;
    }
    WhileTurns(rt, n - 1, condition, body, x);
    LoopTurnSound(rt, n - 1, condition, body, x);
    var t := LoopTurnAt(rt, n - 1, condition, body, x).result.value;
    path := [x];
    if t.Go? {
      var rest := LoopSound(rt, n - 1, condition, body, t.state);
      LoopFrom(rt, condition, body, x, rest, WhileFrom(rt, n, condition, body, x).result);
      path := [x] + rest;
    }
  }

  lemma {:induction false} LoopFuel(rt: Runtime, condition: XVal, body: XVal, path: seq<XVal>, r: Result<XVal>)
      returns (n: nat)
    requires LoopPath(rt, condition, body, path, r)
    ensures WhileFrom(rt, n, condition, body, path[0]) == Done(r)
    decreases |path|
  {
    hide LoopTurnAt, LoopTurn, WhileFrom;
    if |path| == 1 {
      n := LoopTurnFuel(rt, condition, body, path[0], Stop(r));
    } else {
      LoopTail(rt, condition, body, path, r);
      var i := LoopTurnFuel(rt, condition, body, path[0], Go(path[1]));
      var j := LoopFuel(rt, condition, body, path[1..], r);
      n := Larger(i, j);
      LoopTurnMono(rt, i, n, condition, body, path[0]);
      WhileMono(rt, j, n, condition, body, path[1]);
    }
    WhileTurns(rt, n, condition, body, path[0]);
    n := n + 1;
  }

  /** A loop has a result exactly when there is a path of states to it. */
  lemma {:induction false} LoopExact(rt: Runtime, condition: XVal, body: XVal, x: XVal, r: Result<XVal>)
    ensures (exists n: nat :: WhileFrom(rt, n, condition, body, x) == Done(r)) <==> LoopRule(rt, condition, body, x, r)
  {
    hide LoopTurn, WhileFrom;
    if n: nat :| WhileFrom(rt, n, condition, body, x) == Done(r) {
      var path := LoopSound(rt, n, condition, body, x);
    }
    if LoopRule(rt, condition, body, x, r) {
      var path :| LoopPath(rt, condition, body, path, r) && path[0] == x;
      var n := LoopFuel(rt, condition, body, path, r);
    }
  }

  // ----- the handlers -----

  lemma {:induction false} ChainResult(rt: Runtime, n: nat, style: Style, fs: seq<Callee>, s: Scope, x: XVal)
    requires ChainAt(rt, n, style, fs, s, x).Done?
    ensures ChainRule(rt, style, fs, s, x, ChainAt(rt, n, style, fs, s, x).result)
  {
    hide ChainAt, ChainRule;
    ChainExact(rt, style, fs, s, x, ChainAt(rt, n, style, fs, s, x).result);
  }

  lemma {:induction false} LoopResult(rt: Runtime, n: nat, condition: XVal, body: XVal, x: XVal)
    requires WhileFrom(rt, n, condition, body, x).Done?
    ensures LoopRule(rt, condition, body, x, WhileFrom(rt, n, condition, body, x).result)
  {
    hide WhileFrom, LoopRule;
    LoopExact(rt, condition, body, x, WhileFrom(rt, n, condition, body, x).result);
  }

  lemma {:induction false} SerialSound(rt: Runtime, n: nat, fns: seq<Value>, x: XVal, s: Scope)
    requires SerialFrom(rt, n, fns, x, s).Done?
    ensures ChainRule(rt, Serial, AsWritten(fns), s, x, SerialFrom(rt, n, fns, x, s).result)
  {
    hide ChainAt, SerialFrom, ChainRule;
    SerialIsChain(rt, n, fns, x, s);
    ChainResult(rt, n, Serial, AsWritten(fns), s, x);
  }

  lemma {:induction false} BreakableSound(rt: Runtime, n: nat, fns: seq<Value>, x: XVal, s: Scope)
    requires BreakableFrom(rt, n, fns, x, s).Done?
    ensures ChainRule(rt, Breakable, AsWritten(fns), s, x, BreakableFrom(rt, n, fns, x, s).result)
  {
    hide ChainAt, BreakableFrom, ChainRule;
    BreakableIsChain(rt, n, fns, x, s);
    ChainResult(rt, n, Breakable, AsWritten(fns), s, x);
  }

  lemma {:induction false} ConditionalSound(rt: Runtime, n: nat, fixed: Option<Value>, a: XVal, s: Scope)
    requires WellFormed(Conditional, fixed) && ExecConditional(rt, n, fixed, a, s).Done?
    ensures ConditionalRule(rt, fixed.value.elements[0], fixed.value.elements[1], s, Materialize(a),
                            ExecConditional(rt, n, fixed, a, s).result)
  {
    hide Create, Makes, Materialize;
    var d := Materialize(a);
    if d.Ok? && IsBoolean(d.value) {
      MakesSound(rt, n, if BooleanOf(d.value) then FixedAt(fixed, 0) else FixedAt(fixed, 1), s);
    }
  }

  lemma ConditionalFuel(rt: Runtime, fixed: Option<Value>, a: XVal, s: Scope, r: Result<XVal>) returns (n: nat)
    requires WellFormed(Conditional, fixed)
    requires ConditionalRule(rt, fixed.value.elements[0], fixed.value.elements[1], s, Materialize(a), r)
    ensures ExecConditional(rt, n, fixed, a, s) == Done(r)
  {
    hide Create, Makes, Materialize;
    n := 0;
    var d := Materialize(a);
    if d.Ok? && IsBoolean(d.value) {
      n := MakesFuel(rt, if BooleanOf(d.value) then FixedAt(fixed, 0) else FixedAt(fixed, 1), s, r);
    }
  }

  lemma {:induction false} MapSound(rt: Runtime, n: nat, fn: Value, a: XVal, s: Scope)
    requires ExecMap(rt, n, fn, a, s).Done?
    ensures MapRule(rt, fn, s, Materialize(a), ExecMap(rt, n, fn, a, s).result)
  {
    hide Create, Makes, Materialize, InOrder, MapFrom;
    var d := Materialize(a);
    if d.Ok? {
      MakesSound(rt, n, fn, s);
      var f := Create(rt, n, fn, s).result;
      assert Makes(rt, fn, s, f);
      if f.Ok? {
        var es := if d.value.Struct? then d.value.elements else [];
        InOrderSound(rt, n, Mapped(f.value), es, s);
        var ys := MapFrom(rt, n, f.value, es, s).result;
        assert InOrder(rt, Mapped(f.value), es, s, ys) && ExecMap(rt, n, fn, a, s).result == StructureOf(ys);
      }
    }
  }

  lemma MapFuel(rt: Runtime, fn: Value, a: XVal, s: Scope, r: Result<XVal>) returns (n: nat)
    requires MapRule(rt, fn, s, Materialize(a), r)
    ensures ExecMap(rt, n, fn, a, s) == Done(r)
  {
    hide Create, Makes, Materialize, InOrder, MapFrom;
    n := 0;
    var d := Materialize(a);
    if d.Ok? {
      var f :| Makes(rt, fn, s, f) && MappedRule(rt, f, if d.value.Struct? then d.value.elements else [], s, r);
      n := MakesFuel(rt, fn, s, f);
      if f.Ok? {
        n := MapCallsFuel(rt, n, fn, f.value, a, s, d.value, r);
      }
    }
  }

  lemma MapCallsFuel(rt: Runtime, i: nat, fn: Value, f: XVal, a: XVal, s: Scope, d: Value, r: Result<XVal>) returns (n: nat)
    requires Create(rt, i, fn, s) == Done(Ok(f)) && Materialize(a) == Ok(d)
    requires MappedRule(rt, Ok(f), if d.Struct? then d.elements else [], s, r)
    ensures ExecMap(rt, n, fn, a, s) == Done(r)
  {
    hide Create, Materialize, InOrder, MapFrom;
    var es := if d.Struct? then d.elements else [];
    var ys :| InOrder(rt, Mapped(f), es, s, ys) && r == StructureOf(ys);
    var j := InOrderFuel(rt, Mapped(f), es, s, ys);
    n := Larger(i, j);
    CreateMono(rt, i, n, fn, s);
    MapMono(rt, j, n, f, es, s);
    MapIs(rt, n, fn, f, a, s, d, ys);
  }

  lemma {:induction false} MapIs(rt: Runtime, n: nat, fn: Value, f: XVal, a: XVal, s: Scope, d: Value, ys: Result<seq<XVal>>)
    requires Create(rt, n, fn, s) == Done(Ok(f)) && Materialize(a) == Ok(d)
    requires MapFrom(rt, n, f, if d.Struct? then d.elements else [], s) == Done(ys)
    ensures ExecMap(rt, n, fn, a, s) == Done(StructureOf(ys))
  {
    hide Create, Materialize, MapFrom;
    assert ElementsOf(d) == if d.Struct? then d.elements else [];
  }

  lemma {:induction false} RepeatSound(rt: Runtime, n: nat, fixed: Option<Value>, a: Option<XVal>, s: Scope)
    requires WellFormed(Repeat, fixed) && Exec(rt, n, Repeat, fixed, a, s).Done?
    ensures OperatorRule(rt, Repeat, fixed, s, a, Exec(rt, n, Repeat, fixed, a, s).result)
  {
    hide Create, Makes, RepeatFrom, ChainAt, ChainRule, Copies;
    MakesSound(rt, n, FixedAt(fixed, 1), s);
    var body := Create(rt, n, FixedAt(fixed, 1), s).result;
    if body.Ok? && a.Some? {
      var k := Int32Of(FixedAt(fixed, 0));
      RepeatIsChain(rt, n, body.value, k, a.value, s);
      ChainResult(rt, n, Serial, Copies(k, [Held(body.value)]), s, a.value);
    }
    assert RepeatRule(rt, fixed.value.elements[0], body, s, a, Exec(rt, n, Repeat, fixed, a, s).result);
  }

  lemma RepeatFuel(rt: Runtime, fixed: Option<Value>, a: Option<XVal>, s: Scope, r: Result<XVal>) returns (n: nat)
    requires WellFormed(Repeat, fixed) && OperatorRule(rt, Repeat, fixed, s, a, r)
    ensures Exec(rt, n, Repeat, fixed, a, s) == Done(r)
  {
    hide Create, Makes, RepeatFrom, ChainAt, ChainRule, Copies;
    var body :| Makes(rt, fixed.value.elements[1], s, body) && RepeatRule(rt, fixed.value.elements[0], body, s, a, r);
    n := MakesFuel(rt, FixedAt(fixed, 1), s, body);
    if body.Ok? && a.Some? {
      var i, k := n, Int32Of(FixedAt(fixed, 0));
      ChainExact(rt, Serial, Copies(k, [Held(body.value)]), s, a.value, r);
      var j: nat :| ChainAt(rt, j, Serial, Copies(k, [Held(body.value)]), s, a.value) == Done(r);
      RepeatIsChain(rt, j, body.value, k, a.value, s);
      n := Larger(i, j);
      CreateMono(rt, i, n, FixedAt(fixed, 1), s);
      RepeatMono(rt, j, n, body.value, k, a.value);
    }
  }

  lemma {:induction false} WhileSound(rt: Runtime, n: nat, fixed: Option<Value>, a: Option<XVal>, s: Scope)
    requires WellFormed(While, fixed) && Exec(rt, n, While, fixed, a, s).Done?
    ensures OperatorRule(rt, While, fixed, s, a, Exec(rt, n, While, fixed, a, s).result)
  {
    hide Create, Makes, WhileFrom, LoopRule;
    MakesSound(rt, n, FixedAt(fixed, 0), s);
    var condition, r := Create(rt, n, FixedAt(fixed, 0), s).result, Exec(rt, n, While, fixed, a, s).result;
    if condition.Ok? {
      MakesSound(rt, n, FixedAt(fixed, 1), s);
      var body := Create(rt, n, FixedAt(fixed, 1), s).result;
      if body.Ok? && a.Some? {
        LoopResult(rt, n, condition.value, body.value, a.value);
      }
      assert Makes(rt, fixed.value.elements[1], s, body) && WhileBodyRule(rt, condition.value, body, a, r);
    }
    assert WhileRule(rt, condition, fixed.value.elements[1], s, a, r);
  }

  lemma WhileFuel(rt: Runtime, fixed: Option<Value>, a: Option<XVal>, s: Scope, r: Result<XVal>) returns (n: nat)
    requires WellFormed(While, fixed) && OperatorRule(rt, While, fixed, s, a, r)
    ensures Exec(rt, n, While, fixed, a, s) == Done(r)
  {
    hide Create, Makes, WhileFrom, LoopRule;
    var condition :| Makes(rt, fixed.value.elements[0], s, condition) && WhileRule(rt, condition, fixed.value.elements[1], s, a, r);
    n := MakesFuel(rt, FixedAt(fixed, 0), s, condition);
    if condition.Ok? {
      var body :| Makes(rt, fixed.value.elements[1], s, body) && WhileBodyRule(rt, condition.value, body, a, r);
      var i, j, k: nat := n, 0, 0;
      j := MakesFuel(rt, FixedAt(fixed, 1), s, body);
      if body.Ok? && a.Some? {
        LoopExact(rt, condition.value, body.value, a.value, r);
        k :| WhileFrom(rt, k, condition.value, body.value, a.value) == Done(r);
      }
      n := Larger(i, Larger(j, k));
      CreateMono(rt, i, n, FixedAt(fixed, 0), s);
      CreateMono(rt, j, n, FixedAt(fixed, 1), s);
      if body.Ok? && a.Some? {
        WhileMono(rt, k, n, condition.value, body.value, a.value);
      }
    }
  }

  lemma {:induction false} RoundsSound(rt: Runtime, n: nat, fixed: Option<Value>, a: Option<XVal>, s: Scope)
    requires WellFormed(RepeatedConditionalChain, fixed) && Exec(rt, n, RepeatedConditionalChain, fixed, a, s).Done?
    ensures OperatorRule(rt, RepeatedConditionalChain, fixed, s, a, Exec(rt, n, RepeatedConditionalChain, fixed, a, s).result)
  {
    hide CreateAll, InOrder, RoundsFrom, ChainAt, ChainRule, Copies;
    var params := fixed.value.elements;
    InOrderSound(rt, n, Made, params[1..], s);
    var fs := CreateAll(rt, n, params[1..], s).result;
    if fs.Ok? && a.Some? {
      var k := Int32Of(params[0]);
      RoundsIsChain(rt, n, k, fs.value, a.value, s);
      ChainResult(rt, n, Rounds, Copies(k, AsHeld(fs.value)), s, a.value);
    }
    assert RoundsRule(rt, params[0], fs, s, a, Exec(rt, n, RepeatedConditionalChain, fixed, a, s).result);
  }

  lemma RoundsFuel(rt: Runtime, fixed: Option<Value>, a: Option<XVal>, s: Scope, r: Result<XVal>) returns (n: nat)
    requires WellFormed(RepeatedConditionalChain, fixed) && OperatorRule(rt, RepeatedConditionalChain, fixed, s, a, r)
    ensures Exec(rt, n, RepeatedConditionalChain, fixed, a, s) == Done(r)
  {
    hide CreateAll, InOrder, RoundsFrom, ChainAt, ChainRule, Copies;
    var params := fixed.value.elements;
    var fs :| InOrder(rt, Made, params[1..], s, fs) && RoundsRule(rt, params[0], fs, s, a, r);
    n := InOrderFuel(rt, Made, params[1..], s, fs);
    if fs.Ok? && a.Some? {
      var i, k := n, Int32Of(params[0]);
      ChainExact(rt, Rounds, Copies(k, AsHeld(fs.value)), s, a.value, r);
      var j: nat :| ChainAt(rt, j, Rounds, Copies(k, AsHeld(fs.value)), s, a.value) == Done(r);
      RoundsIsChain(rt, j, k, fs.value, a.value, s);
      n := Larger(i, j);
      CreateAllMono(rt, i, n, params[1..], s);
      RoundsMono(rt, j, n, k, fs.value, a.value, s);
    }
  }

  lemma {:induction false} ExecSound(rt: Runtime, n: nat, op: Op, fixed: Option<Value>, a: Option<XVal>, s: Scope)
    requires WellFormed(op, fixed) && Exec(rt, n, op, fixed, a, s).Done?
    ensures OperatorRule(rt, op, fixed, s, a, Exec(rt, n, op, fixed, a, s).result)
  {
    hide Create, Makes, SerialFrom, BreakableFrom, FallbackFrom, ExecConditional, ExecMap, ChainRule, FallbackRule, MapRule,
      ConditionalRule, RepeatRule, WhileRule, RoundsRule, InOrder, RepeatFrom, WhileFrom, RoundsFrom, CreateAll;
    match op
    case SerialChain => if a.Some? { SerialSound(rt, n, FixedElements(fixed), a.value, s); }
    case BreakableChain => if a.Some? { BreakableSound(rt, n, FixedElements(fixed), a.value, s); }
    case Conditional => if a.Some? { ConditionalSound(rt, n, fixed, a.value, s); }
    case Fallback => FallbackSound(rt, n, FixedElements(fixed), a, Unavailable, s);
    case ParallelMap => if a.Some? { MapSound(rt, n, fixed.value, a.value, s); }
    case Repeat => RepeatSound(rt, n, fixed, a, s);
    case While => WhileSound(rt, n, fixed, a, s);
    case RepeatedConditionalChain => RoundsSound(rt, n, fixed, a, s);
  }

  lemma WrittenChainFuel(rt: Runtime, style: Style, fns: seq<Value>, s: Scope, x: XVal, r: Result<XVal>) returns (n: nat)
    requires ChainRule(rt, style, AsWritten(fns), s, x, r)
    ensures style == Serial ==> SerialFrom(rt, n, fns, x, s) == Done(r)
    ensures style == Breakable ==> BreakableFrom(rt, n, fns, x, s) == Done(r)
  {
    hide ChainAt, ChainRule, SerialFrom, BreakableFrom;
    ChainExact(rt, style, AsWritten(fns), s, x, r);
    n :| ChainAt(rt, n, style, AsWritten(fns), s, x) == Done(r);
    SerialIsChain(rt, n, fns, x, s);
    BreakableIsChain(rt, n, fns, x, s);
  }

  lemma {:induction false} ExecFuel(rt: Runtime, op: Op, fixed: Option<Value>, a: Option<XVal>, s: Scope, r: Result<XVal>)
      returns (n: nat)
    requires WellFormed(op, fixed) && OperatorRule(rt, op, fixed, s, a, r)
    ensures Exec(rt, n, op, fixed, a, s) == Done(r)
  {
    hide Create, Makes, SerialFrom, BreakableFrom, FallbackFrom, ExecConditional, ExecMap, ChainRule, FallbackRule, MapRule,
      ConditionalRule, RepeatRule, WhileRule, RoundsRule, InOrder, RepeatFrom, WhileFrom, RoundsFrom, CreateAll;
    n := 0;
    match op
    case SerialChain => if a.Some? { n := WrittenChainFuel(rt, Serial, FixedElements(fixed), s, a.value, r); }
    case BreakableChain => if a.Some? { n := WrittenChainFuel(rt, Breakable, FixedElements(fixed), s, a.value, r); }
    case Conditional => if a.Some? { n := ConditionalFuel(rt, fixed, a.value, s, r); }
    case Fallback => n := FallbackFuel(rt, FixedElements(fixed), a, Unavailable, s, r);
    case ParallelMap => if a.Some? { n := MapFuel(rt, fixed.value, a.value, s, r); }
    case Repeat => n := RepeatFuel(rt, fixed, a, s, r);
    case While => n := WhileFuel(rt, fixed, a, s, r);
    case RepeatedConditionalChain => n := RoundsFuel(rt, fixed, a, s, r);
  }

  // ----- all functions -----

  /** Calling an embedded value needs an argument that can be embedded; the answer is a future
      of the child. */
  lemma EmbeddedExact(rt: Runtime, future: Result<Value>, a: Option<XVal>, r: Result<XVal>)
    ensures ApplyEmbedded(rt, future, a) == r <==> ApplicationRule(rt, Embedded(future), a, r)
  {
    hide Embed, Materialize, HasOperator, ChildCall, InlineRule;
    if a.Some? {
      EmbedExact(a.value);
      var d := Materialize(a.value);
      InlineExact(rt, future, d, ChildCall(rt, future, d));
      forall q
        ensures InlineRule(rt, future, d, q) <==> q == ChildCall(rt, future, d)
      {
        InlineExact(rt, future, d, q);
      }
    }
  }

  /** A call has a result exactly when the rule for the function gives it. */
  lemma {:induction false} ApplicationFollowsRules(rt: Runtime, f: XVal, a: Option<XVal>, r: Result<XVal>)
    requires Callable(f)
    ensures Applies(rt, f, a, r) <==> ApplicationRule(rt, f, a, r)
  {
    hide ApplicationRule;
    if n: nat :| Apply(rt, n, f, a) == Done(r) {
      ApplicationSound(rt, n, f, a);
    }
    if ApplicationRule(rt, f, a, r) {
      var n := ApplicationFuel(rt, f, a, r);
    }
  }

  lemma {:induction false} ApplicationSound(rt: Runtime, n: nat, f: XVal, a: Option<XVal>)
    requires Callable(f) && Apply(rt, n, f, a).Done?
    ensures ApplicationRule(rt, f, a, Apply(rt, n, f, a).result)
  {
    hide Eval, Exec, WellFormed, OperatorRule, ApplyEmbedded, InlineRule, HasOperator;
    match f
    case Structure(_) =>
    case Embedded(future) => EmbeddedExact(rt, future, a, ApplyEmbedded(rt, future, a));
    case Closure(param, body, scope) =>
      var t := if a.Some? then Bind(param, a.value, scope) else scope;
      EvalIs(rt, n - 1, body, t, Apply(rt, n, f, a).result);
    case Operator(op, fixed, scope) => ExecSound(rt, n - 1, op, fixed, a, scope);
  }

  lemma {:induction false} ApplicationFuel(rt: Runtime, f: XVal, a: Option<XVal>, r: Result<XVal>) returns (n: nat)
    requires Callable(f) && ApplicationRule(rt, f, a, r)
    ensures Apply(rt, n, f, a) == Done(r)
  {
    hide Eval, Exec, WellFormed, OperatorRule, ApplyEmbedded, InlineRule, HasOperator;
    n := 1;
    match f
    case Structure(_) =>
    case Embedded(future) => EmbeddedExact(rt, future, a, r);
    case Closure(param, body, scope) =>
      var t := if a.Some? then Bind(param, a.value, scope) else scope;
      n :| Eval(rt, n, body, t) == Done(r);
      n := n + 1;
    case Operator(op, fixed, scope) =>
      n := ExecFuel(rt, op, fixed, a, scope, r);
      n := n + 1;
  }
}
