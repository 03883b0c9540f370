/** The four loops over chains follow the rule for chains. */
module ChainRules {
  import opened Common
  import opened Ir
  import opened Evaluator
  import opened Fuel
  import opened EvaluationRules
  import opened EvaluationExact

  // ----- one turn, and a whole chain, within a bound -----

  ghost function Called(rt: Runtime, n: nat, f: Callee, s: Scope, x: XVal): Outcome<XVal> {
    match f
    case Held(g) => Apply(rt, n, g, Some(x))
    case Written(v) =>
      var g :- Create(rt, n, v, s);
      Apply(rt, n, g, Some(x))
  }

  ghost function TurnAfter(rt: Runtime, n: nat, style: Style, s: Scope, x: XVal, z: XVal): Outcome<Turn> {
    if style == Serial then Done(Ok(Go(z)))
    else
      match Materialize(z)
      case Err(c) => Done(Ok(Stop(Err(c))))
      case Ok(d) =>
        if IsBoolean(d) then Done(Ok(if d.scalar.b then Stop(Ok(x)) else Go(x)))
        else if style == Breakable then Done(Ok(Go(z)))
        else
          match Create(rt, n, d, s)
          case OutOfFuel => OutOfFuel
          case Done(Err(c)) => Done(Ok(Stop(Err(c))))
          case Done(Ok(y)) => Done(Ok(Go(y)))
  }

  ghost function TurnAt(rt: Runtime, n: nat, style: Style, f: Callee, s: Scope, x: XVal): Outcome<Turn> {
    match Called(rt, n, f, s, x)
    case OutOfFuel => OutOfFuel
    case Done(Err(c)) => Done(Ok(Stop(Err(c))))
    case Done(Ok(z)) => TurnAfter(rt, n, style, s, x, z)
  }

  ghost function ChainAt(rt: Runtime, n: nat, style: Style, fs: seq<Callee>, s: Scope, x: XVal): Outcome<XVal>
    decreases |fs|
  {
    if fs == [] then Done(Ok(x))
    else
      match TurnAt(rt, n, style, fs[0], s, x)
      case OutOfFuel => OutOfFuel
      case Done(Err(c)) => Done(Err(c))
      case Done(Ok(Stop(r))) => Done(r)
      case Done(Ok(Go(y))) => ChainAt(rt, n, style, fs[1..], s, y)
  }

  // ----- turns -----

  lemma CallsSound(rt: Runtime, n: nat, f: Callee, s: Scope, x: XVal)
    requires Called(rt, n, f, s, x).Done?
    ensures Calls(rt, f, s, x, Called(rt, n, f, s, x).result)
  {
    hide Create, Apply, Makes;
    var r := Called(rt, n, f, s, x).result;
    if f.Held? {
      assert Apply(rt, n, f.f, Some(x)) == Done(r);
    } else {
      MakesSound(rt, n, f.code, s);
      var g := Create(rt, n, f.code, s).result;
      assert g.Ok? ==> Apply(rt, n, g.value, Some(x)) == Done(r);
      assert AppliesResult(rt, g, Some(x), r);
    }
  }

  lemma CallsFuel(rt: Runtime, f: Callee, s: Scope, x: XVal, r: Result<XVal>) returns (n: nat)
    requires Calls(rt, f, s, x, r)
    ensures Called(rt, n, f, s, x) == Done(r)
  {
    hide Create, Apply, Makes;
    if f.Held? {
      n :| Apply(rt, n, f.f, Some(x)) == Done(r);
    } else {
      var g :| Makes(rt, f.code, s, g) && AppliesResult(rt, g, Some(x), r);
      n := MakesFuel(rt, f.code, s, g);
      if g.Ok? {
        var i := n;
        var j: nat :| Apply(rt, j, g.value, Some(x)) == Done(r);
        n := Larger(i, j);
        CreateMono(rt, i, n, f.code, s);
        ApplyMono(rt, j, n, g.value, Some(x));
      }
    }
  }

  lemma CalledMono(rt: Runtime, n: nat, m: nat, f: Callee, s: Scope, x: XVal)
    requires n <= m && Called(rt, n, f, s, x).Done?
    ensures Called(rt, m, f, s, x) == Called(rt, n, f, s, x)
  {
    hide Create, Apply;
    if f.Held? {
      ApplyMono(rt, n, m, f.f, Some(x));
    } else {
      CreateMono(rt, n, m, f.code, s);
      var g := Create(rt, n, f.code, s);
      if g.IsOk() {
        ApplyMono(rt, n, m, g.result.value, Some(x));
      }
    }
  }

  lemma AfterSound(rt: Runtime, n: nat, style: Style, s: Scope, x: XVal, z: XVal)
    requires TurnAfter(rt, n, style, s, x, z).Done?
    ensures TurnAfter(rt, n, style, s, x, z).IsOk()
    ensures Answered(rt, style, s, x, Ok(z), TurnAfter(rt, n, style, s, x, z).result.value)
  {
    hide Create, Materialize, Makes;
    if style == Rounds && Materialize(z).Ok? && !IsBoolean(Materialize(z).value) {
      MakesSound(rt, n, Materialize(z).value, s);
      assert Makes(rt, Materialize(z).value, s, Create(rt, n, Materialize(z).value, s).result);
    }
  }

  lemma AfterFuel(rt: Runtime, style: Style, s: Scope, x: XVal, z: XVal, t: Turn) returns (n: nat)
    requires Answered(rt, style, s, x, Ok(z), t)
    ensures TurnAfter(rt, n, style, s, x, z) == Done(Ok(t))
  {
    hide Create, Materialize, Makes;
    n := 0;
    if style == Rounds && Materialize(z).Ok? && !IsBoolean(Materialize(z).value) {
      var d := Materialize(z).value;
      var y :| Makes(rt, d, s, y) && t == if y.Ok? then Go(y.value) else Stop(Err(y.code));
      n := MakesFuel(rt, d, s, y);
    }
  }

  lemma AfterMono(rt: Runtime, n: nat, m: nat, style: Style, s: Scope, x: XVal, z: XVal)
    requires n <= m && TurnAfter(rt, n, style, s, x, z).Done?
    ensures TurnAfter(rt, m, style, s, x, z) == TurnAfter(rt, n, style, s, x, z)
  {
    hide Create, Materialize;
    if style == Rounds && Materialize(z).Ok? && !IsBoolean(Materialize(z).value) {
      CreateMono(rt, n, m, Materialize(z).value, s);
    }
  }

  lemma TurnSound(rt: Runtime, n: nat, style: Style, f: Callee, s: Scope, x: XVal)
    requires TurnAt(rt, n, style, f, s, x).Done?
    ensures TurnAt(rt, n, style, f, s, x).IsOk()
    ensures Takes(rt, style, f, s, x, TurnAt(rt, n, style, f, s, x).result.value)
  {
    hide Called, TurnAfter, Calls, Steered;
    CallsSound(rt, n, f, s, x);
    var y := Called(rt, n, f, s, x).result;
    if y.Ok? {
      AfterSound(rt, n, style, s, x, y.value);
    }
    assert Calls(rt, f, s, x, y) && Answered(rt, style, s, x, y, TurnAt(rt, n, style, f, s, x).result.value);
  }

  lemma TurnFuel(rt: Runtime, style: Style, f: Callee, s: Scope, x: XVal, t: Turn) returns (n: nat)
    requires Takes(rt, style, f, s, x, t)
    ensures TurnAt(rt, n, style, f, s, x) == Done(Ok(t))
  {
    hide Called, TurnAfter, Calls, Steered;
    var y :| Calls(rt, f, s, x, y) && Answered(rt, style, s, x, y, t);
    n := CallsFuel(rt, f, s, x, y);
    if y.Ok? {
      var i := n;
      var j := AfterFuel(rt, style, s, x, y.value, t);
      n := Larger(i, j);
      CalledMono(rt, i, n, f, s, x);
      AfterMono(rt, j, n, style, s, x, y.value);
    }
  }

  lemma TurnMono(rt: Runtime, n: nat, m: nat, style: Style, f: Callee, s: Scope, x: XVal)
    requires n <= m && TurnAt(rt, n, style, f, s, x).Done?
    ensures TurnAt(rt, m, style, f, s, x) == TurnAt(rt, n, style, f, s, x)
  {
    hide Called, TurnAfter;
    CalledMono(rt, n, m, f, s, x);
    var y := Called(rt, n, f, s, x).result;
    if y.Ok? {
      AfterMono(rt, n, m, style, s, x, y.value);
    }
  }

  // ----- chains -----

  lemma {:induction false} ChainMono(rt: Runtime, n: nat, m: nat, style: Style, fs: seq<Callee>, s: Scope, x: XVal)
    requires n <= m && ChainAt(rt, n, style, fs, s, x).Done?
    ensures ChainAt(rt, m, style, fs, s, x) == ChainAt(rt, n, style, fs, s, x)
    decreases |fs|
  {
    hide TurnAt;
    if fs != [] {
      TurnMono(rt, n, m, style, fs[0], s, x);
      var t := TurnAt(rt, n, style, fs[0], s, x);
      if t.IsOk() && t.result.value.Go? {
        ChainMono(rt, n, m, style, fs[1..], s, t.result.value.state);
      }
    }
  }

  /** A path is extended at its beginning. */
  lemma FollowsFrom(rt: Runtime, style: Style, fs: seq<Callee>, s: Scope, x: XVal, path: seq<XVal>, r: Result<XVal>)
    requires fs != [] && Follows(rt, style, fs[1..], s, path, r) && Takes(rt, style, fs[0], s, x, Go(path[0]))
    ensures Follows(rt, style, fs, s, [x] + path, r)
  {
    hide Takes;
    var longer := [x] + path;
    forall i | 0 <= i < |longer| - 1
      ensures Takes(rt, style, fs[i], s, longer[i], Go(longer[i + 1]))
    {
      if i > 0 {
        assert fs[i] == fs[1..][i - 1] && longer[i] == path[i - 1] && longer[i + 1] == path[i];
      }
    }
    assert |path| <= |fs[1..]| ==> fs[|longer| - 1] == fs[1..][|path| - 1];
  }

  lemma FollowsTail(rt: Runtime, style: Style, fs: seq<Callee>, s: Scope, path: seq<XVal>, r: Result<XVal>)
    requires fs != [] && |path| > 1 && Follows(rt, style, fs, s, path, r)
    ensures Follows(rt, style, fs[1..], s, path[1..], r)
  {
    hide Takes;
    forall i | 0 <= i < |path[1..]| - 1
      ensures Takes(rt, style, fs[1..][i], s, path[1..][i], Go(path[1..][i + 1]))
    {
      assert Takes(rt, style, fs[i + 1], s, path[i + 1], Go(path[i + 2]));
    }
    assert |path| <= |fs| ==> fs[1..][|path[1..]| - 1] == fs[|path| - 1];
  }

  lemma {:induction false} ChainSound(rt: Runtime, n: nat, style: Style, fs: seq<Callee>, s: Scope, x: XVal)
      returns (path: seq<XVal>)
    requires ChainAt(rt, n, style, fs, s, x).Done?
    ensures Follows(rt, style, fs, s, path, ChainAt(rt, n, style, fs, s, x).result) && path[0] == x
    decreases |fs|
  {
    hide TurnAt, Takes;
    path := [x];
    if fs != [] {
      TurnSound(rt, n, style, fs[0], s, x);
      var t := TurnAt(rt, n, style, fs[0], s, x).result.value;
      if t.Go? {
        var rest := ChainSound(rt, n, style, fs[1..], s, t.state);
        FollowsFrom(rt, style, fs, s, x, rest, ChainAt(rt, n, style, fs, s, x).result);
        path := [x] + rest;
      }
    }
  }

  lemma {:induction false} ChainFuel(rt: Runtime, style: Style, fs: seq<Callee>, s: Scope, path: seq<XVal>, r: Result<XVal>)
      returns (n: nat)
    requires Follows(rt, style, fs, s, path, r)
    ensures ChainAt(rt, n, style, fs, s, path[0]) == Done(r)
    decreases |fs|
  {
    hide TurnAt, Takes;
    n := 0;
    if fs != [] {
      if |path| == 1 {
        n := TurnFuel(rt, style, fs[0], s, path[0], Stop(r));
      } else {
        assert Takes(rt, style, fs[0], s, path[0], Go(path[1]));
        var i := TurnFuel(rt, style, fs[0], s, path[0], Go(path[1]));
        FollowsTail(rt, style, fs, s, path, r);
        var j := ChainFuel(rt, style, fs[1..], s, path[1..], r);
        n := Larger(i, j);
        TurnMono(rt, i, n, style, fs[0], s, path[0]);
        ChainMono(rt, j, n, style, fs[1..], s, path[1]);
      }
    }
  }

  /** A chain has a result exactly when there is a path of states to it. */
  lemma {:induction false} ChainExact(rt: Runtime, style: Style, fs: seq<Callee>, s: Scope, x: XVal, r: Result<XVal>)
    ensures (exists n: nat :: ChainAt(rt, n, style, fs, s, x) == Done(r)) <==> ChainRule(rt, style, fs, s, x, r)
  {
    hide ChainAt, Takes;
    if n: nat :| ChainAt(rt, n, style, fs, s, x) == Done(r) {
      var path := ChainSound(rt, n, style, fs, s, x);
    }
    if ChainRule(rt, style, fs, s, x, r) {
      var path :| Follows(rt, style, fs, s, path, r) && path[0] == x;
      var n := ChainFuel(rt, style, fs, s, path, r);
    }
  }

  // ----- the loops -----

  lemma {:induction false} SerialIsChain(rt: Runtime, n: nat, fns: seq<Value>, x: XVal, s: Scope)
    ensures SerialFrom(rt, n, fns, x, s) == ChainAt(rt, n, Serial, AsWritten(fns), s, x)
    decreases |fns|
  {
    hide Create, Apply;
    if fns != [] {
      assert AsWritten(fns)[1..] == AsWritten(fns[1..]);
      var f := Create(rt, n, fns[0], s);
      if f.IsOk() {
        var y := Apply(rt, n, f.result.value, Some(x));
        if y.IsOk() {
          SerialIsChain(rt, n, fns[1..], y.result.value, s);
        }
      }
    }
  }

  lemma {:induction false} BreakableIsChain(rt: Runtime, n: nat, fns: seq<Value>, x: XVal, s: Scope)
    ensures BreakableFrom(rt, n, fns, x, s) == ChainAt(rt, n, Breakable, AsWritten(fns), s, x)
    decreases |fns|
  {
    hide Create, Apply, Materialize;
    if fns != [] {
      assert AsWritten(fns)[1..] == AsWritten(fns[1..]);
      var f := Create(rt, n, fns[0], s);
      if f.IsOk() {
        var y := Ask(rt, n, f.result.value, Some(x));
        if y.IsOk() && !BooleanOf(y.result.value.1) {
          BreakableIsChain(rt, n, fns[1..], if IsBoolean(y.result.value.1) then x else y.result.value.0, s);
        }
      }
    }
  }

  lemma {:induction false} RepeatIsChain(rt: Runtime, n: nat, body: XVal, k: int, x: XVal, s: Scope)
    ensures RepeatFrom(rt, n, body, k, x) == ChainAt(rt, n, Serial, Copies(k, [Held(body)]), s, x)
    decreases if k < 0 then 0 else k
  {
    hide Apply;
    if k > 0 {
      assert Copies(k, [Held(body)])[1..] == Copies(k - 1, [Held(body)]);
      var y := Apply(rt, n, body, Some(x));
      if y.IsOk() {
        RepeatIsChain(rt, n, body, k - 1, y.result.value, s);
      }
    }
  }

  /** A pass, and then what follows it. */
  lemma {:induction false} RoundIsChain(rt: Runtime, n: nat, fs: seq<XVal>, rest: seq<Callee>, x: XVal, s: Scope)
    ensures ChainAt(rt, n, Rounds, AsHeld(fs) + rest, s, x) ==
      match Round(rt, n, fs, x, s)
      case OutOfFuel => OutOfFuel
      case Done(Err(c)) => Done(Err(c))
      case Done(Ok((y, broke))) => if broke then Done(Ok(y)) else ChainAt(rt, n, Rounds, rest, s, y)
    decreases |fs|
  {
    hide Create, Apply, Materialize;
    if fs == [] {
      assert AsHeld(fs) + rest == rest;
    } else {
      assert (AsHeld(fs) + rest)[1..] == AsHeld(fs[1..]) + rest;
      RoundTurn(rt, n, fs, x, s);
      var t := TurnAt(rt, n, Rounds, Held(fs[0]), s, x);
      if t.IsOk() && t.result.value.Go? {
        RoundIsChain(rt, n, fs[1..], rest, t.result.value.state, s);
      }
    }
  }

  lemma {:induction false} RoundTurn(rt: Runtime, n: nat, fs: seq<XVal>, x: XVal, s: Scope)
    requires fs != []
    ensures Round(rt, n, fs, x, s) ==
      match TurnAt(rt, n, Rounds, Held(fs[0]), s, x)
      case OutOfFuel => OutOfFuel
      case Done(Err(c)) => Done(Err(c))
      case Done(Ok(Stop(Err(c)))) => Done(Err(c))
      case Done(Ok(Stop(Ok(y)))) => Done(Ok((y, true)))
      case Done(Ok(Go(y))) => Round(rt, n, fs[1..], y, s)
  {
    hide Create, Apply, Materialize;
  }

  lemma {:induction false} RoundsIsChain(rt: Runtime, n: nat, k: int, fs: seq<XVal>, x: XVal, s: Scope)
    ensures RoundsFrom(rt, n, k, fs, x, s) == ChainAt(rt, n, Rounds, Copies(k, AsHeld(fs)), s, x)
    decreases if k < 0 then 0 else k
  {
    hide Round;
    if k > 0 {
      RoundIsChain(rt, n, fs, Copies(k - 1, AsHeld(fs)), x, s);
      var r := Round(rt, n, fs, x, s);
      if r.IsOk() && !r.result.value.1 {
        RoundsIsChain(rt, n, k - 1, fs, r.result.value.0, s);
      }
    }
  }
}
