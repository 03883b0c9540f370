/** References to the values of the control-flow executor, and the child ids they keep.

    The shared pointers of genc/cc/runtime/control_flow_executor.cc. `SharedValues` shows that
    counting references id by id frees what counting them pointer by pointer frees. */
module ValueReferences {
  import opened Common
  import opened Evaluator
  import opened IdTables
  import opened InlineExecutors
  import opened ExecutorValues

  /** How many references there are to each child id, and the child's table. */
  datatype Store = Store(counts: multiset<nat>, futures: map<nat, Future>)

  /** The child tracks exactly the ids that are referred to. */
  ghost predicate Consistent(st: Store) {
    forall id :: id in st.futures <==> id in st.counts
  }

  /** The references in `b` are held by somebody. */
  ghost predicate Has(st: Store, b: multiset<nat>) {
    Consistent(st) && b <= st.counts
  }

  /** Exactly the references in `b` have come on top, and all futures are as they were. */
  ghost predicate Gained(st: Store, st': Store, b: multiset<nat>) {
    && Consistent(st) && Consistent(st')
    && st'.counts == st.counts + b && Grows(st.futures, st'.futures)
  }

  /** The references in `b` have been given up, and the ids without a reference with them. */
  ghost predicate Dropped(st: Store, st': Store, b: multiset<nat>) {
    Consistent(st') && st'.counts == st.counts - b && Grows(st'.futures, st.futures)
  }

  /** The child has exactly the ids in `b` more than before. */
  lemma GainedIds(st: Store, st': Store, b: multiset<nat>)
    requires Gained(st, st', b)
    ensures forall id :: id in st'.futures <==> id in st.futures || id in b
    ensures b == multiset{} ==> st' == st
  {
    assert forall id :: id in st'.futures <==> id in st.counts + b;
    if b == multiset{} {
      assert st'.futures == st.futures;
    }
  }

  lemma GainNothing(st: Store)
    requires Consistent(st)
    ensures Gained(st, st, multiset{})
  {
  }

  lemma HasConsistent(st: Store, b: multiset<nat>)
    requires Has(st, b)
    ensures Consistent(st)
  {
  }

  lemma HasGainsNothing(st: Store, b: multiset<nat>)
    requires Has(st, b)
    ensures Gained(st, st, multiset{})
  {
  }

  lemma HasId(st: Store, id: nat)
    requires Has(st, multiset{id})
    ensures Consistent(st) && id in st.futures
  {
    assert id in multiset{id};
  }

  lemma HasNothing(st: Store, b: multiset<nat>)
    requires Has(st, b)
    ensures Has(st, multiset{})
  {
  }

  lemma GainMore(s0: Store, s1: Store, s2: Store, a: multiset<nat>, b: multiset<nat>)
    requires Gained(s0, s1, a) && Gained(s1, s2, b)
    ensures Gained(s0, s2, a + b)
  {
  }

  lemma GainBack(s0: Store, s1: Store, s2: Store, b: multiset<nat>)
    requires Gained(s0, s1, b) && Dropped(s1, s2, b)
    ensures Gained(s0, s2, multiset{}) && s2 == s0
  {
    assert s2.counts == s0.counts;
    assert s2.futures == s0.futures;
  }

  /** What was held is still held, and so is what has come on top. */
  lemma HasStill(st: Store, st': Store, b: multiset<nat>, held: multiset<nat>)
    requires Has(st, held) && Gained(st, st', b)
    ensures Has(st', held) && Has(st', b)
  {
  }

  lemma HasGained(st: Store, st': Store, b: multiset<nat>)
    requires Gained(st, st', b)
    ensures Has(st', b)
  {
  }

  lemma DropNothing(st: Store, held: multiset<nat>)
    requires Has(st, held)
    ensures Dropped(st, st, multiset{})
  {
    assert st.counts - multiset{} == st.counts;
  }

  lemma DropMore(s0: Store, s1: Store, s2: Store, a: multiset<nat>, b: multiset<nat>)
    requires Has(s0, a + b) && Dropped(s0, s1, a)
    ensures Has(s1, b) && (Dropped(s1, s2, b) ==> Dropped(s0, s2, a + b))
  {
    assert s0.counts - a - b == s0.counts - (a + b);
  }

  lemma HasFirst(st: Store, a: multiset<nat>, b: multiset<nat>)
    requires Has(st, a + b)
    ensures Has(st, a)
  {
  }

  /** A temporary `b` that is held while `g` comes on top and given up afterwards. */
  lemma Bracket(s0: Store, s1: Store, s2: Store, s3: Store, b: multiset<nat>, g: multiset<nat>)
    requires Gained(s0, s1, b) && Gained(s1, s2, g) && Dropped(s2, s3, b)
    ensures Gained(s0, s3, g)
  {
    assert s3.counts == s0.counts + g;
    forall id | id in s0.futures
      ensures id in s3.futures && s3.futures[id] == s0.futures[id]
    {
      assert id in s0.counts;
      assert id in s3.counts;
    }
  }

  // ----- the meaning of values that are held -----

  lemma {:induction false} HasBound(x: Node, st: Store)
    requires Has(st, Bag(x))
    ensures Bound(x, st.futures)
  {
  }

  lemma {:induction false} HasAllBound(xs: seq<Node>, st: Store)
    requires Has(st, BagAll(xs))
    ensures AllBound(xs, st.futures)
  {
    PartsBound(xs, st.futures);
  }

  lemma {:induction false} SameNode(x: Node, st: Store, st': Store, b: multiset<nat>)
    requires Has(st, Bag(x)) && Gained(st, st', b)
    ensures Has(st', Bag(x)) && Denote(x, st'.futures) == Denote(x, st.futures)
  {
    HasStill(st, st', b, Bag(x));
    KeepNode(x, st.futures, st'.futures);
  }

  lemma SameArgument(a: Option<Node>, st: Store, st': Store, b: multiset<nat>)
    requires Has(st, ArgumentBag(a)) && Gained(st, st', b)
    ensures Has(st', ArgumentBag(a)) && DenoteArgument(a, st'.futures) == DenoteArgument(a, st.futures)
  {
    HasStill(st, st', b, ArgumentBag(a));
    if a.Some? {
      SameNode(a.value, st, st', b);
    }
  }

  lemma {:induction false} SameScope(s: Chain, st: Store, st': Store, b: multiset<nat>)
    requires Has(st, ScopeBag(s)) && Gained(st, st', b)
    ensures Has(st', ScopeBag(s)) && DenoteScope(s, st'.futures) == DenoteScope(s, st.futures)
  {
    HasStill(st, st', b, ScopeBag(s));
    KeepChain(s, st.futures, st'.futures);
  }

  lemma {:induction false} SameAll(xs: seq<Node>, st: Store, st': Store, b: multiset<nat>)
    requires Has(st, BagAll(xs)) && Gained(st, st', b)
    ensures Has(st', BagAll(xs)) && DenoteAll(xs, st'.futures) == DenoteAll(xs, st.futures)
  {
    HasStill(st, st', b, BagAll(xs));
    PartsBound(xs, st.futures);
    KeepAll(xs, st.futures, st'.futures);
  }

  lemma {:induction false} HasElement(xs: seq<Node>, k: nat, st: Store)
    requires Has(st, BagAll(xs)) && k < |xs|
    ensures Has(st, Bag(xs[k]))
  {
    BagAllHas(xs, k);
  }

  /** One more value at the end of a list. */
  lemma {:induction false} GainElement(s0: Store, s1: Store, s2: Store, xs: seq<Node>, x: Node)
    requires Gained(s0, s1, BagAll(xs)) && Gained(s1, s2, Bag(x))
    ensures Gained(s0, s2, BagAll(xs + [x]))
    ensures DenoteAll(xs + [x], s2.futures) == DenoteAll(xs, s1.futures) + [Denote(x, s2.futures)]
  {
    BagAllAppend(xs, x);
    GainMore(s0, s1, s2, BagAll(xs), Bag(x));
    HasGained(s0, s1, BagAll(xs));
    SameAll(xs, s1, s2, Bag(x));
  }

  /** One more binding around a scope. */
  lemma {:induction false} GainLink(s0: Store, s1: Store, s2: Store, s: Chain, name: string, x: Node)
    requires Gained(s0, s1, ScopeBag(s)) && Gained(s1, s2, Bag(x))
    ensures Gained(s0, s2, ScopeBag(Link(name, x, s)))
    ensures DenoteScope(Link(name, x, s), s2.futures) == Bind(name, Denote(x, s2.futures), DenoteScope(s, s1.futures))
  {
    GainMore(s0, s1, s2, ScopeBag(s), Bag(x));
    assert ScopeBag(s) + Bag(x) == ScopeBag(Link(name, x, s));
    HasGained(s0, s1, ScopeBag(s));
    SameScope(s, s1, s2, Bag(x));
  }

  // ----- results that outlive a temporary -----

  lemma Outlives(s0: Store, s1: Store, s2: Store, s3: Store, b: multiset<nat>, r: Outcome<Node>, spec: Outcome<XVal>)
    requires Gained(s0, s1, b) && Gained(s1, s2, Got(r)) && Dropped(s2, s3, b)
    requires Means(r, spec, s2.futures)
    ensures Gained(s0, s3, Got(r)) && Means(r, spec, s3.futures)
  {
    Bracket(s0, s1, s2, s3, b, Got(r));
    HasGained(s0, s3, Got(r));
    StillMeans(r, spec, s2.futures, s3.futures);
  }

  lemma AllOutlive(s0: Store, s1: Store, s2: Store, s3: Store, b: multiset<nat>,
    r: Outcome<seq<Node>>, spec: Outcome<seq<XVal>>)
    requires Gained(s0, s1, b) && Gained(s1, s2, GotAll(r)) && Dropped(s2, s3, b)
    requires MeanAll(r, spec, s2.futures)
    ensures Gained(s0, s3, GotAll(r)) && MeanAll(r, spec, s3.futures)
  {
    Bracket(s0, s1, s2, s3, b, GotAll(r));
    HasGained(s0, s3, GotAll(r));
    StillMeanAll(r, spec, s2.futures, s3.futures);
  }

  lemma PairOutlives<T>(s0: Store, s1: Store, s2: Store, s3: Store, b: multiset<nat>,
    r: Outcome<(Node, T)>, spec: Outcome<(XVal, T)>)
    requires Gained(s0, s1, b) && Gained(s1, s2, GotPair(r)) && Dropped(s2, s3, b)
    requires MeanPair(r, spec, s2.futures)
    ensures Gained(s0, s3, GotPair(r)) && MeanPair(r, spec, s3.futures)
  {
    Bracket(s0, s1, s2, s3, b, GotPair(r));
    HasGained(s0, s3, GotPair(r));
    StillMeanPair(r, spec, s2.futures, s3.futures);
  }
}
