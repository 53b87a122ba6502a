/** The object graph that the collector walks, as it stood when the collection started. */
module HeapGraph {
  import opened Values

  /** `props[o]` is the property list of object `o`, `at` gives the value held at an address. */
  datatype Graph = Graph(
    objects: set<Addr>, props: map<Addr, seq<Addr>>, sigs: set<Addr>, roots: set<Addr>, at: map<Addr, Value>)

  // A property cell holds its link, its name and its value.

  function NameSlot(p: Addr): nat { p + 8 }
  function ValueSlot(p: Addr): nat { p + 16 }

  /** The slots of property `p` exist, and what they refer to exists. */
  predicate PropertyOk(g: Graph, p: Addr) {
    SlotOk(g, NameSlot(p)) && SlotOk(g, ValueSlot(p))
  }

  predicate SlotOk(g: Graph, a: nat) {
    && a in g.at
    && (IsObject(g.at[a]) ==> g.at[a].payload in g.objects)
    && (IsFfiSig(g.at[a]) ==> g.at[a].payload in g.sigs)
  }

  /** Every property belongs to one object, once. */
  predicate Owned(g: Graph)
    requires g.props.Keys == g.objects
  {
    && (forall o, i, j :: o in g.objects && 0 <= i < j < |g.props[o]| ==> g.props[o][i] != g.props[o][j])
    && (forall o, o', p :: o in g.objects && o' in g.objects && p in g.props[o] && p in g.props[o'] ==> o == o')
  }

  predicate GraphOk(g: Graph) {
    && g.props.Keys == g.objects
    && Owned(g)
    && (forall o, p :: o in g.objects && p in g.props[o] ==> PropertyOk(g, p) && p !in g.objects && p !in g.sigs)
    && (forall a :: a in g.roots ==> SlotOk(g, a))
    && g.objects !! g.sigs
  }

  // ----- reachability -----

  /** `s` holds whatever the slot at `a` refers to. */
  predicate Follows(g: Graph, s: set<Addr>, a: nat)
    requires a in g.at
  {
    IsObject(g.at[a]) || IsFfiSig(g.at[a]) ==> g.at[a].payload in s
  }

  /** `s` holds the properties of its objects and whatever these refer to. */
  predicate Closed(g: Graph, s: set<Addr>)
    requires GraphOk(g)
  {
    forall o, p :: o in s && o in g.objects && p in g.props[o] ==>
      && PropertyOk(g, p)
      && p in s && Follows(g, s, NameSlot(p)) && Follows(g, s, ValueSlot(p))
  }

  /** `s` holds everything that can be reached from the roots. */
  predicate RootClosed(g: Graph, s: set<Addr>)
    requires GraphOk(g)
  {
    Closed(g, s) && forall a :: a in g.roots ==> SlotOk(g, a) && Follows(g, s, a)
  }

  /** The cells reachable from the roots: those in every set that is closed under following references. */
  ghost predicate Reachable(g: Graph, c: Addr)
    requires GraphOk(g)
  {
    forall s: set<Addr> | RootClosed(g, s) :: c in s
  }

  /** `s` is exactly the reachable cells. */
  ghost predicate IsReachableSet(g: Graph, s: set<Addr>)
    requires GraphOk(g)
  {
    forall c: Addr :: c in s <==> Reachable(g, c)
  }

  /** The slots the collector may visit when it stays inside `s`. */
  predicate SlotWithin(g: Graph, s: set<Addr>, a: nat)
    requires g.props.Keys == g.objects
  {
    a in g.roots || exists o, p :: o in g.objects && o in s && p in g.props[o] && (a == NameSlot(p) || a == ValueSlot(p))
  }

  // ----- the progress of marking -----
  // `m` are the marked cells, `t` the slots threaded onto their strings.

  /** The slot at `a` has been dealt with. */
  predicate SlotDone(g: Graph, m: set<Addr>, t: iset<Addr>, a: nat)
    requires a in g.at
  {
    && Follows(g, m, a)
    && (IsOwnedString(g.at[a]) ==> a in t)
  }

  predicate PropertyDone(g: Graph, m: set<Addr>, t: iset<Addr>, p: Addr)
    requires PropertyOk(g, p)
  {
    p in m && SlotDone(g, m, t, NameSlot(p)) && SlotDone(g, m, t, ValueSlot(p))
  }

  predicate ObjectDone(g: Graph, m: set<Addr>, t: iset<Addr>, o: Addr)
    requires GraphOk(g) && o in g.objects
  {
    forall p :: p in g.props[o] ==> PropertyOk(g, p) && PropertyDone(g, m, t, p)
  }

  /** Marked objects are done, unless marking them is still under way (`stack`). */
  predicate Done(g: Graph, m: set<Addr>, t: iset<Addr>, stack: set<Addr>)
    requires GraphOk(g)
  {
    forall o :: o in g.objects && o in m && o !in stack ==> ObjectDone(g, m, t, o)
  }

  /** An unmarked object has no marked property. */
  predicate Untraced(g: Graph, m: set<Addr>)
    requires GraphOk(g)
  {
    forall o, p :: o in g.objects && o !in m && p in g.props[o] ==> p !in m
  }

  /** Only cells of `s` are marked and only their slots are threaded. */
  ghost predicate Within(g: Graph, m: set<Addr>, t: iset<Addr>, s: set<Addr>)
    requires GraphOk(g)
  {
    m <= s && forall a :: a in t ==> SlotWithin(g, s, a) && a in g.at && IsOwnedString(g.at[a])
  }

  ghost predicate Marking(g: Graph, m: set<Addr>, t: iset<Addr>, stack: set<Addr>, s: set<Addr>) {
    && GraphOk(g)
    && Closed(g, s)
    && stack <= m
    && Done(g, m, t, stack)
    && Untraced(g, m)
    && Within(g, m, t, s)
  }

  /** From `m, t` to `m', t'` marks and threads were only added, none to a property of a marked object. */
  predicate Grows(g: Graph, m: set<Addr>, t: iset<Addr>, m': set<Addr>, t': iset<Addr>)
    requires GraphOk(g)
  {
    && m <= m' && t <= t'
    && forall o, p :: o in g.objects && o in m && p in g.props[o] && p in m' ==> p in m
  }

  /** Progress is kept when marks and threads are added. */
  lemma DoneGrows(g: Graph, m: set<Addr>, t: iset<Addr>, m': set<Addr>, t': iset<Addr>, o: Addr)
    requires GraphOk(g) && o in g.objects && m <= m' && t <= t'
    requires ObjectDone(g, m, t, o)
    ensures ObjectDone(g, m', t', o)
  {}

  /** Starting on an unmarked object. */
  lemma MarkObject(g: Graph, m: set<Addr>, t: iset<Addr>, stack: set<Addr>, s: set<Addr>, o: Addr)
    requires Marking(g, m, t, stack, s) && o in g.objects && o in s && o !in m
    ensures Marking(g, m + {o}, t, stack + {o}, s)
    ensures Grows(g, m, t, m + {o}, t)
  {
    forall o' | o' in g.objects && o' in m && o' !in stack
      ensures ObjectDone(g, m + {o}, t, o')
    {
      DoneGrows(g, m, t, m + {o}, t, o');
    }
  }

  /** The slots of a property of an object under way may be visited. */
  lemma PropertySlots(g: Graph, m: set<Addr>, t: iset<Addr>, stack: set<Addr>, s: set<Addr>, o: Addr, p: Addr)
    requires Marking(g, m, t, stack, s) && o in g.objects && o in stack && p in g.props[o]
    ensures PropertyOk(g, p)
    ensures SlotWithin(g, s, NameSlot(p)) && Follows(g, s, NameSlot(p))
    ensures SlotWithin(g, s, ValueSlot(p)) && Follows(g, s, ValueSlot(p))
  {
    assert o in m && o in s;
  }

  /** Marking a property of an object under way. */
  lemma MarkProperty(g: Graph, m: set<Addr>, t: iset<Addr>, stack: set<Addr>, s: set<Addr>, o: Addr, p: Addr)
    requires Marking(g, m, t, stack, s) && o in g.objects && o in stack && p in g.props[o]
    ensures Marking(g, m + {p}, t, stack, s)
    ensures forall o', p' :: o' in g.objects && o' != o && p' in g.props[o'] ==> p' != p
  {
    assert o in m && o in s;
    forall o' | o' in g.objects && o' in m && o' !in stack
      ensures ObjectDone(g, m + {p}, t, o')
    {
      DoneGrows(g, m, t, m + {p}, t, o');
    }
  }

  /** Marking a cell that is neither an object nor a property. */
  lemma MarkSig(g: Graph, m: set<Addr>, t: iset<Addr>, stack: set<Addr>, s: set<Addr>, c: Addr)
    requires Marking(g, m, t, stack, s) && c in g.sigs && c in s
    ensures Marking(g, m + {c}, t, stack, s) && Grows(g, m, t, m + {c}, t)
  {
    forall o' | o' in g.objects && o' in m + {c} && o' !in stack
      ensures ObjectDone(g, m + {c}, t, o')
    {
      DoneGrows(g, m, t, m + {c}, t, o');
    }
  }

  /** Threading a slot. */
  lemma MarkString(g: Graph, m: set<Addr>, t: iset<Addr>, stack: set<Addr>, s: set<Addr>, a: Addr)
    requires Marking(g, m, t, stack, s) && SlotWithin(g, s, a) && a in g.at && IsOwnedString(g.at[a])
    ensures Marking(g, m, t + iset{a}, stack, s) && Grows(g, m, t, m, t + iset{a})
  {
    forall o' | o' in g.objects && o' in m && o' !in stack
      ensures ObjectDone(g, m, t + iset{a}, o')
    {
      DoneGrows(g, m, t, m, t + iset{a}, o');
    }
  }

  /** The object whose properties are all done leaves the stack. */
  lemma FinishObject(g: Graph, m: set<Addr>, t: iset<Addr>, stack: set<Addr>, s: set<Addr>, o: Addr)
    requires Marking(g, m, t, stack + {o}, s) && o in g.objects && ObjectDone(g, m, t, o)
    ensures Marking(g, m, t, stack, s)
  {}

  /** Marks were added to properties of no marked object other than `o`, and of `o` at most to `p`. */
  predicate GrowsFor(g: Graph, m: set<Addr>, t: iset<Addr>, m': set<Addr>, t': iset<Addr>, o: Addr, p: Addr)
    requires GraphOk(g)
  {
    && m <= m' && t <= t'
    && forall o', p' :: o' in g.objects && o' in m && p' in g.props[o'] && p' in m' && !(o' == o && p' == p) ==> p' in m
  }

  /** Dealing with one property of `o`: its name, then its value, then its own mark. */
  lemma PropertyStep(g: Graph, m0: set<Addr>, t0: iset<Addr>, m1: set<Addr>, t1: iset<Addr>, m2: set<Addr>, t2: iset<Addr>,
                     stack: set<Addr>, s: set<Addr>, o: Addr, p: Addr)
    requires GraphOk(g) && Grows(g, m0, t0, m1, t1) && Grows(g, m1, t1, m2, t2)
    requires Marking(g, m2, t2, stack, s) && o in g.objects && o in stack && p in g.props[o]
    requires SlotDone(g, m1, t1, NameSlot(p)) && SlotDone(g, m2, t2, ValueSlot(p))
    ensures Marking(g, m2 + {p}, t2, stack, s)
    ensures GrowsFor(g, m0, t0, m2 + {p}, t2, o, p)
    ensures PropertyDone(g, m2 + {p}, t2, p)
  {
    MarkProperty(g, m2, t2, stack, s, o, p);
    GrowsTransitive(g, m0, t0, m1, t1, m2, t2);
  }

  /** The first `i` properties of `o` are done and the others are not marked. */
  predicate Upto(g: Graph, m: set<Addr>, t: iset<Addr>, o: Addr, i: nat)
    requires GraphOk(g) && o in g.objects
  {
    && i <= |g.props[o]|
    && (forall k :: 0 <= k < i ==> PropertyOk(g, g.props[o][k]) && PropertyDone(g, m, t, g.props[o][k]))
    && (forall k :: i <= k < |g.props[o]| ==> g.props[o][k] !in m)
  }

  /** The state between two properties of `o`, which was unmarked when its turn came with `m0, t0`. */
  predicate Tracing(g: Graph, m0: set<Addr>, t0: iset<Addr>, m: set<Addr>, t: iset<Addr>, o: Addr, i: nat)
    requires GraphOk(g)
  {
    && o in g.objects && o !in m0 && o in m
    && Upto(g, m, t, o, i)
    && Grows(g, m0, t0, m, t)
  }

  lemma TracingStart(g: Graph, m: set<Addr>, t: iset<Addr>, stack: set<Addr>, s: set<Addr>, o: Addr)
    requires Marking(g, m, t, stack, s) && o in g.objects && o in s && o !in m
    ensures Marking(g, m + {o}, t, stack + {o}, s)
    ensures Tracing(g, m, t, m + {o}, t, o, 0)
  {
    MarkObject(g, m, t, stack, s, o);
  }

  lemma TracingEnd(g: Graph, m0: set<Addr>, t0: iset<Addr>, m: set<Addr>, t: iset<Addr>, stack: set<Addr>, s: set<Addr>, o: Addr)
    requires GraphOk(g) && o in g.objects && Tracing(g, m0, t0, m, t, o, |g.props[o]|)
    requires Marking(g, m, t, stack + {o}, s)
    ensures Marking(g, m, t, stack, s) && Grows(g, m0, t0, m, t) && o in m
  {
    FinishObject(g, m, t, stack, s, o);
  }

  lemma TracingStep(g: Graph, m0: set<Addr>, t0: iset<Addr>, m: set<Addr>, t: iset<Addr>, m': set<Addr>, t': iset<Addr>,
                    o: Addr, i: nat)
    requires GraphOk(g) && Tracing(g, m0, t0, m, t, o, i) && i < |g.props[o]|
    requires GrowsFor(g, m, t, m', t', o, g.props[o][i])
    requires PropertyOk(g, g.props[o][i]) && PropertyDone(g, m', t', g.props[o][i])
    ensures Tracing(g, m0, t0, m', t', o, i + 1)
  {
    forall k | i + 1 <= k < |g.props[o]|
      ensures g.props[o][k] !in m'
    {
      assert g.props[o][k] != g.props[o][i];
      assert g.props[o][k] !in m;
    }
    forall o', p | o' in g.objects && o' in m0 && p in g.props[o'] && p in m'
      ensures p in m0
    {
      assert o' in m && o' != o;
    }
  }

  lemma GrowsRefl(g: Graph, m: set<Addr>, t: iset<Addr>)
    requires GraphOk(g)
    ensures Grows(g, m, t, m, t)
  {}

  lemma GrowsTransitive(g: Graph, m: set<Addr>, t: iset<Addr>, m': set<Addr>, t': iset<Addr>, m'': set<Addr>, t'': iset<Addr>)
    requires GraphOk(g) && Grows(g, m, t, m', t') && Grows(g, m', t', m'', t'')
    ensures Grows(g, m, t, m'', t'')
  {}

  // ----- the result of marking -----

  /** Reachability is itself closed. */
  lemma ReachableClosed(g: Graph, s: set<Addr>)
    requires GraphOk(g) && IsReachableSet(g, s)
    ensures RootClosed(g, s)
  {
    forall o, p | o in s && o in g.objects && p in g.props[o]
      ensures PropertyOk(g, p) && p in s && Follows(g, s, NameSlot(p)) && Follows(g, s, ValueSlot(p))
    {
      assert Reachable(g, o);
      forall r | RootClosed(g, r)
        ensures p in r && Follows(g, r, NameSlot(p)) && Follows(g, r, ValueSlot(p))
      {
      }
      assert Reachable(g, p);
      assert PropertyOk(g, p);
      FollowsAll(g, s, NameSlot(p));
      FollowsAll(g, s, ValueSlot(p));
    }
    forall a | a in g.roots
      ensures SlotOk(g, a) && Follows(g, s, a)
    {
      FollowsAll(g, s, a);
    }
  }

  lemma FollowsAll(g: Graph, s: set<Addr>, a: nat)
    requires GraphOk(g) && IsReachableSet(g, s) && SlotOk(g, a)
    requires forall r | RootClosed(g, r) :: Follows(g, r, a)
    ensures Follows(g, s, a)
  {
    if IsObject(g.at[a]) || IsFfiSig(g.at[a]) {
      var c: Addr := g.at[a].payload;
      assert Reachable(g, c);
    }
  }

  /** When the roots are done and nothing is under way, the marked cells are exactly the reachable ones. */
  lemma MarkedIsReachable(g: Graph, m: set<Addr>, t: iset<Addr>, s: set<Addr>)
    requires Marking(g, m, t, {}, s) && IsReachableSet(g, s)
    requires forall a :: a in g.roots ==> SlotOk(g, a) && SlotDone(g, m, t, a)
    ensures m == s
    ensures forall a: Addr :: a in t <==> SlotWithin(g, s, a) && a in g.at && IsOwnedString(g.at[a])
  {
    assert RootClosed(g, m);
    assert s <= m;
  }
}
