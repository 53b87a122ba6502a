/** What a collection keeps, with the tags written out. */
module Liveness {
  import opened Varint
  import opened Values
  import opened StringLayout
  import opened HeapGraph
  import opened HeapLayout

  /** The words that count: the roots, and the second and third word of every property cell of an object in `s`. */
  predicate Word(g: Graph, s: set<Addr>, a: nat) {
    a in g.roots || exists o, p :: o in s && o in g.props && p in g.props[o] && (a == p as int + 8 || a == p as int + 16)
  }

  /** A value refers to a cell when it is an object, an array or a foreign function. */
  predicate Refers(v: Value) {
    v.tag == Object || v.tag == Array || v.tag == FunctionFfi
  }

  /** `s` holds what its words refer to and the properties of its objects, and so on. */
  ghost predicate Traced(g: Graph, s: set<Addr>) {
    && (forall a :: Word(g, s, a) && a in g.at && Refers(g.at[a]) ==> g.at[a].payload in s)
    && (forall o, p :: o in s && o in g.props && p in g.props[o] ==> p in s)
  }

  /** `s` is the least set of that kind: a word of any other tag keeps no cell alive. */
  ghost predicate LeastTraced(g: Graph, s: set<Addr>) {
    Traced(g, s) && forall t: set<Addr> :: Traced(g, t) ==> s <= t
  }

  /** The words that count hold what they held, owned strings by their contents. */
  ghost predicate WordsMean(g: Graph, s: set<Addr>, owned0: seq<Byte>, owned: seq<Byte>, val: map<Addr, Value>) {
    forall a :: Word(g, s, a) && a in g.at ==>
      a in val
      && if g.at[a].tag == StringO then
           val[a].tag == StringO && Readable(owned0, g.at[a].payload) && Readable(owned, val[a].payload)
           && StringAt(owned, val[a].payload) == StringAt(owned0, g.at[a].payload)
         else val[a] == g.at[a]
  }

  lemma WordIsSlot(g: Graph, s: set<Addr>, a: nat)
    requires g.props.Keys == g.objects
    ensures Word(g, s, a) <==> SlotWithin(g, s, a)
  {
    if SlotWithin(g, s, a) && a !in g.roots {
      var o, p :| o in g.objects && o in s && p in g.props[o] && (a == NameSlot(p) || a == ValueSlot(p));
      assert o in s && o in g.props && p in g.props[o] && (a == p as int + 8 || a == p as int + 16);
    }
    if Word(g, s, a) && a !in g.roots {
      var o, p :| o in s && o in g.props && p in g.props[o] && (a == p as int + 8 || a == p as int + 16);
      assert o in g.objects && o in s && p in g.props[o] && (a == NameSlot(p) || a == ValueSlot(p));
    }
  }

  /** Following references by their tags is what the collector does. */
  lemma TracedIsClosed(g: Graph, s: set<Addr>)
    requires GraphOk(g)
    ensures Traced(g, s) <==> RootClosed(g, s)
  {
    hide Owned;
    if Traced(g, s) {
      forall o, p | o in s && o in g.objects && p in g.props[o]
        ensures PropertyOk(g, p) && p in s && Follows(g, s, NameSlot(p)) && Follows(g, s, ValueSlot(p))
      {
        assert PropertyOk(g, p);
        assert Word(g, s, NameSlot(p)) && Word(g, s, ValueSlot(p));
      }
      forall a | a in g.roots
        ensures SlotOk(g, a) && Follows(g, s, a)
      {
        assert Word(g, s, a);
      }
    }
    if RootClosed(g, s) {
      forall a | Word(g, s, a) && a in g.at && Refers(g.at[a])
        ensures g.at[a].payload in s
      {
        if a !in g.roots {
          var o, p :| o in s && o in g.props && p in g.props[o] && (a == p as int + 8 || a == p as int + 16);
          assert Follows(g, s, NameSlot(p)) && Follows(g, s, ValueSlot(p));
        }
      }
    }
  }

  /** The reachable cells are the least such set. */
  lemma ReachableIsTraced(g: Graph, live: set<Addr>)
    requires GraphOk(g) && IsReachableSet(g, live)
    ensures LeastTraced(g, live)
  {
    hide GraphOk, RootClosed, Traced;
    ReachableClosed(g, live);
    TracedIsClosed(g, live);
    forall t: set<Addr> | Traced(g, t)
      ensures live <= t
    {
      TracedIsClosed(g, t);
      forall c | c in live
        ensures c in t
      {
        assert Reachable(g, c);
      }
    }
  }

  lemma KeptWords(g: Graph, s: set<Addr>, owned0: seq<Byte>, owned: seq<Byte>, val: map<Addr, Value>)
    requires GraphOk(g) && Kept3(g, s, owned0, owned, val)
    ensures WordsMean(g, s, owned0, owned, val)
  {
    hide OrderKept, Owned, PropertyOk;
    forall a | Word(g, s, a)
      ensures SlotWithin(g, s, a)
    {
      WordIsSlot(g, s, a);
    }
  }
}
