/** Arrays as property lists, and `mjs_array_splice` on them. */
module Splice {
  import opened Sequences
  import opened Varint

  /** What an array holds; only numbers matter to `splice` itself. */
  datatype Item = Number(n: int) | Undefined | Other(id: int)

  /** A property name: the decimal digits of an index, or anything else. */
  datatype Key = Index(i: int) | Named(name: string)

  datatype Prop = Prop(name: Key, value: Item)

  datatype Slot = Absent | Present(value: Item)

  /** The value of the first property called `k`. */
  function Find(props: seq<Prop>, k: Key): Slot {
    if props == [] then Absent
    else if props[0].name == k then Present(props[0].value)
    else Find(props[1..], k)
  }

  predicate Distinct(props: seq<Prop>) {
    forall i, j :: 0 <= i < j < |props| ==> props[i].name != props[j].name
  }

  lemma {:induction false} FindAbsent(props: seq<Prop>, k: Key)
    ensures Find(props, k).Absent? <==> forall i :: 0 <= i < |props| ==> props[i].name != k
  {
    if props != [] {
      FindAbsent(props[1..], k);
      assert forall i :: 1 <= i < |props| ==> props[i] == props[1..][i - 1];
    }
  }

  /** With distinct names, the position of a property does not matter. */
  lemma {:induction false} FindAt(props: seq<Prop>, i: nat)
    requires Distinct(props) && i < |props|
    ensures Find(props, props[i].name) == Present(props[i].value)
  {
    if i > 0 {
      FindAt(props[1..], i - 1);
    }
  }

  lemma {:induction false} FindInFront(front: seq<Prop>, back: seq<Prop>, k: Key)
    ensures Find(front + back, k) == if Find(front, k).Present? then Find(front, k) else Find(back, k)
  {
    if front == [] {
      assert front + back == back;
    } else {
      assert (front + back)[1..] == front[1..] + back;
      FindInFront(front[1..], back, k);
    }
  }

  /** Greater numbers are names like any other. */
  const INDEX_LIMIT: nat := 0xffff_ffff

  predicate IsIndex(k: Key) {
    k.Index? && 0 <= k.i < INDEX_LIMIT
  }

  /** The indices hold `a`, which may have holes, and nothing behind it. */
  ghost predicate Holds(props: seq<Prop>, a: seq<Slot>) {
    Distinct(props) && forall i {:trigger Find(props, Index(i))} :: 0 <= i < INDEX_LIMIT ==> Find(props, Index(i)) == Elem(a, i)
  }

  function Elem(a: seq<Slot>, i: int): Slot {
    if 0 <= i < |a| then a[i] else Absent
  }

  /** An array ends with an element, if it is not empty. */
  predicate Proper(a: seq<Slot>) {
    a != [] ==> a[|a| - 1].Present?
  }

  /** What reading gives: a hole reads as `undefined`. */
  function Value(s: Slot): Item {
    if s.Present? then s.value else Undefined
  }

  /** The holes of `a` filled with what reading them gives. */
  function Filled(a: seq<Slot>): (r: seq<Slot>)
    ensures |r| == |a| && forall i :: 0 <= i < |a| ==> r[i] == Present(Value(a[i]))
  {
    seq(|a|, i requires 0 <= i < |a| => Present(Value(a[i])))
  }

  /** An array without holes. */
  function Full(s: seq<Item>): (r: seq<Slot>)
    ensures |r| == |s| && forall i :: 0 <= i < |s| ==> r[i] == Present(s[i])
  {
    seq(|s|, i requires 0 <= i < |s| => Present(s[i]))
  }

  ghost predicate SameOthers(p: seq<Prop>, q: seq<Prop>) {
    forall k :: !IsIndex(k) ==> Find(p, k) == Find(q, k)
  }

  /** `mjs_normalize_idx`: negative indices count from the end, and everything is clamped. */
  function NormalizeIdx(idx: int, size: nat): (r: nat)
    ensures r <= size
    ensures 0 <= idx <= size ==> r == idx
    ensures 0 <= size + idx < size ==> r == size + idx
    ensures idx > size ==> r == size
    ensures size + idx < 0 ==> r == 0
  {
    var i := if idx < 0 then (if size + idx < 0 then 0 else size + idx) else idx;
    if i > size then size else i
  }

  /** An object with its property list, newest first. */
  class ArrayObj {
    var properties: seq<Prop>

    constructor ()
      ensures properties == []
    {
      properties := [];
    }

    /** `mjs_array_get2`. */
    method Get(index: int) returns (r: Slot)
      requires Distinct(properties)
      ensures r == Find(properties, Index(index))
    {
      var i := 0;
      FindAbsent(properties, Index(index));
      while i < |properties|
        invariant 0 <= i <= |properties|
        invariant forall j :: 0 <= j < i ==> properties[j].name != Index(index)
      {
        if properties[i].name == Index(index) {
          FindAt(properties, i);
          return Present(properties[i].value);
        }
        i := i + 1;
      }
      return Absent;
    }

    /** `mjs_array_length`: one more than the greatest index. */
    method Length(ghost a: seq<Slot>) returns (len: nat)
      requires Holds(properties, a) && Proper(a) && |a| <= INDEX_LIMIT
      ensures len == |a|
    {
      len := 0;
      var p := 0;
      while p < |properties|
        invariant 0 <= p <= |properties| && len <= |a|
        invariant forall j :: 0 <= j < p && IsIndex(properties[j].name) ==> properties[j].name.i < len
      {
        var name := properties[p].name;
        FindAt(properties, p);
        if IsIndex(name) {
          assert Find(properties, Index(name.i)) == Elem(a, name.i);
          if name.i >= len {
            len := name.i + 1;
          }
        }
        p := p + 1;
      }
      FindAbsent(properties, Index(|a| - 1));
      assert |a| > 0 ==> Find(properties, Index(|a| - 1)) == Elem(a, |a| - 1);
    }

    /** `mjs_array_set`: an existing property is overwritten, a new one goes in front. */
    method Set(index: int, v: Item)
      requires Distinct(properties)
      modifies this
      ensures Distinct(properties)
      ensures forall k :: Find(properties, k) == if k == Index(index) then Present(v) else Find(old(properties), k)
    {
      ghost var was := properties;
      var i := 0;
      while i < |properties|
        invariant 0 <= i <= |properties| && properties == was
        invariant forall j :: 0 <= j < i ==> properties[j].name != Index(index)
      {
        if properties[i].name == Index(index) {
          properties := properties[i := Prop(Index(index), v)];
          forall k
            ensures Find(properties, k) == if k == Index(index) then Present(v) else Find(was, k)
          {
            FindReplaced(was, i, Prop(Index(index), v), k);
          }
          return;
        }
        i := i + 1;
      }
      properties := [Prop(Index(index), v)] + properties;
      assert properties[1..] == was;
    }

    /** `mjs_array_del`. */
    method Del(index: int)
      requires Distinct(properties)
      modifies this
      ensures Distinct(properties)
      ensures forall k :: Find(properties, k) == if k == Index(index) then Absent else Find(old(properties), k)
    {
      ghost var was := properties;
      FindAbsent(was, Index(index));
      var i := 0;
      while i < |properties|
        invariant 0 <= i <= |properties| && properties == was
        invariant forall j :: 0 <= j < i ==> properties[j].name != Index(index)
      {
        if properties[i].name == Index(index) {
          properties := properties[..i] + properties[i + 1..];
          forall k {
            FindRemoved(was, i, k);
          }
          return;
        }
        i := i + 1;
      }
    }
  }

  lemma FindReplaced(props: seq<Prop>, i: nat, p: Prop, k: Key)
    requires Distinct(props) && i < |props| && p.name == props[i].name
    ensures Find(props[i := p], k) == if k == p.name then Present(p.value) else Find(props, k)
  {
    Around(props, i);
    assert props[i := p] == props[..i] + [p] + props[i + 1..];
    FindInFront(props[..i] + [p], props[i + 1..], k);
    FindInFront(props[..i], [p], k);
    FindInFront(props[..i] + [props[i]], props[i + 1..], k);
    FindInFront(props[..i], [props[i]], k);
    FindAbsent(props[..i], p.name);
  }

  lemma FindRemoved(props: seq<Prop>, i: nat, k: Key)
    requires Distinct(props) && i < |props|
    ensures Distinct(props[..i] + props[i + 1..])
    ensures Find(props[..i] + props[i + 1..], k) == if k == props[i].name then Absent else Find(props, k)
  {
    Around(props, i);
    FindInFront(props[..i], props[i + 1..], k);
    FindInFront(props[..i] + [props[i]], props[i + 1..], k);
    FindInFront(props[..i], [props[i]], k);
    FindAbsent(props[..i], props[i].name);
    FindAbsent(props[i + 1..], props[i].name);
  }

  // ----- splice -----

  /** Everything from `start` on has come down by `g` indices as far as index `cur`, with holes filled. */
  ghost predicate Closing(props: seq<Prop>, a: seq<Slot>, start: int, g: int, cur: int) {
    Distinct(props)
    && forall i {:trigger Find(props, Index(i))} :: 0 <= i < INDEX_LIMIT ==>
         Find(props, Index(i)) == if i < start || i >= cur then Elem(a, i) else if i < cur - g then Elem(Filled(a), i + g) else Absent
  }

  /** Everything from `lo` on has moved up by `g`, with holes filled. */
  ghost predicate Opening(props: seq<Prop>, a: seq<Slot>, lo: int, g: int) {
    Distinct(props)
    && forall i {:trigger Find(props, Index(i))} :: 0 <= i < INDEX_LIMIT ==>
         Find(props, Index(i)) == if i < lo then Elem(a, i) else if i < lo + g then Absent else Elem(Filled(a), i - g)
  }

  /** The elements behind the deleted ones: moving them fills their holes. */
  function Tail(a: seq<Slot>, start: nat, del: nat, cnt: nat): seq<Slot>
    requires start + del <= |a|
  {
    if cnt == del then a[start + del..] else Filled(a[start + del..])
  }

  /** Outside the place for the new items everything is where it belongs. */
  ghost predicate Settled(props: seq<Prop>, a: seq<Slot>, start: nat, del: nat, cnt: nat)
    requires start + del <= |a|
  {
    Distinct(props)
    && forall i {:trigger Find(props, Index(i))} :: 0 <= i < INDEX_LIMIT && (i < start || i >= start + cnt) ==>
         Find(props, Index(i)) == if i < start then Elem(a, i) else Elem(Tail(a, start, del, cnt), i - start - cnt)
  }

  /** The elements of the spliced array. */
  function Spliced(a: seq<Slot>, start: nat, del: nat, items: seq<Item>): seq<Slot>
    requires start + del <= |a|
  {
    a[..start] + Full(items) + Tail(a, start, del, |items|)
  }

  /** How many elements go: the count given, or everything to the end, kept within the array. */
  function DeleteCount(args: seq<Item>, start: nat, len: nat): (r: nat)
    requires start <= len
    requires |args| >= 2 ==> args[1].Number?
    ensures start + r <= len
    ensures |args| < 2 ==> r == len - start
    ensures |args| >= 2 && 0 <= args[1].n <= len - start ==> r == args[1].n
    ensures |args| >= 2 && args[1].n > len - start ==> r == len - start
    ensures |args| >= 2 && args[1].n < 0 ==> r == 0
  {
    var count := if |args| >= 2 then args[1].n else len - start;
    if count > len - start then len - start else if count < 0 then 0 else count
  }

  /** `move_item`. A hole arrives as `undefined`. */
  method MoveItem(arr: ArrayObj, from: int, to: int)
    requires Distinct(arr.properties) && from != to
    modifies arr
    ensures Distinct(arr.properties)
    ensures forall k :: Find(arr.properties, k)
                     == if k == Index(from) then Absent
                        else if k == Index(to) then Present(Value(old(Find(arr.properties, Index(from)))))
                        else Find(old(arr.properties), k)
  {
    var cur := arr.Get(from);
    arr.Set(to, Value(cur));
    arr.Del(from);
  }

  /** The elements behind a gap move down into it, one by one; what is in their way is deleted first. */
  method CloseGap(arr: ArrayObj, ghost a: seq<Slot>, start: nat, g: nat, len: nat)
    requires Holds(arr.properties, a) && g > 0 && start + g <= len == |a| <= INT_MAX
    modifies arr
    ensures Closing(arr.properties, a, start, g, len)
    ensures SameOthers(arr.properties, old(arr.properties))
  {
    hide Find, Distinct;
    var i := start;
    while i < len
      invariant start <= i <= len
      invariant Closing(arr.properties, a, start, g, i)
      invariant SameOthers(arr.properties, old(arr.properties))
    {
      if i >= start + g {
        assert Find(arr.properties, Index(i)) == Elem(a, i);
        MoveItem(arr, i, i - g);
      } else {
        arr.Del(i);
      }
      i := i + 1;
    }
  }

  /** The elements from `start` on move up, last first. */
  method OpenGap(arr: ArrayObj, ghost a: seq<Slot>, start: nat, g: nat, len: nat)
    requires Holds(arr.properties, a) && g > 0 && start <= len == |a| && len + g <= INT_MAX
    modifies arr
    ensures Opening(arr.properties, a, start, g)
    ensures SameOthers(arr.properties, old(arr.properties))
  {
    hide Find, Distinct;
    var i := len - 1;
    while i >= start
      invariant start - 1 <= i < len
      invariant Opening(arr.properties, a, i + 1, g)
      invariant SameOthers(arr.properties, old(arr.properties))
    {
      assert Find(arr.properties, Index(i)) == Elem(a, i);
      MoveItem(arr, i, i + g);
      i := i - 1;
    }
  }

  /** The deleted elements, copied to an array of their own. */
  method CopyOut(arr: ArrayObj, ghost a: seq<Slot>, start: nat, del: nat) returns (ret: ArrayObj)
    requires Holds(arr.properties, a) && start + del <= |a| <= INT_MAX
    ensures fresh(ret) && Holds(ret.properties, Filled(a[start..start + del]))
  {
    hide Find, Distinct;
    ret := new ArrayObj();
    NothingFound();
    var i := 0;
    while i < del
      invariant 0 <= i <= del && fresh(ret)
      invariant Holds(ret.properties, Filled(a[start..start + i]))
    {
      var cur := arr.Get(start + i);
      assert Find(arr.properties, Index(start + i)) == Elem(a, start + i);
      var len := ret.Length(Filled(a[start..start + i]));
      ret.Set(len, Value(cur));
      i := i + 1;
    }
  }

  lemma NothingFound()
    ensures Distinct([]) && forall k :: Find([], k) == Absent
  {}

  /** The new items, set over whatever lies there. */
  method CopyIn(arr: ArrayObj, ghost a: seq<Slot>, start: nat, ghost del: nat, items: seq<Item>)
    requires start + del <= |a| && Settled(arr.properties, a, start, del, |items|) && start + |items| <= INT_MAX
    modifies arr
    ensures Holds(arr.properties, Spliced(a, start, del, items))
    ensures SameOthers(arr.properties, old(arr.properties))
  {
    hide Find, Distinct;
    var i := 0;
    while i < |items|
      invariant 0 <= i <= |items|
      invariant Settled(arr.properties, a, start, del, |items|)
      invariant forall j :: start <= j < start + i ==> Find(arr.properties, Index(j)) == Present(items[j - start])
      invariant SameOthers(arr.properties, old(arr.properties))
    {
      arr.Set(start + i, items[i]);
      i := i + 1;
    }
    forall j | 0 <= j < INDEX_LIMIT
      ensures Find(arr.properties, Index(j)) == Elem(Spliced(a, start, del, items), j)
    {
      ElemSpliced(a, start, del, items, j);
    }
  }

  lemma ElemSpliced(a: seq<Slot>, start: nat, del: nat, items: seq<Item>, j: nat)
    requires start + del <= |a|
    ensures Elem(Spliced(a, start, del, items), j)
         == if j < start then Elem(a, j)
            else if j < start + |items| then Present(items[j - start])
            else Elem(Tail(a, start, del, |items|), j - start - |items|)
  {}

  lemma ElemTail(a: seq<Slot>, start: nat, del: nat, cnt: nat, i: int)
    requires start + del <= |a| && start + cnt <= i
    ensures Elem(Tail(a, start, del, cnt), i - start - cnt) == if cnt == del then Elem(a, i) else Elem(Filled(a), i - (cnt - del))
  {}

  /** Making room, or closing it, when as many elements arrive as `cnt` and leave as `del`. */
  method MoveTail(arr: ArrayObj, ghost a: seq<Slot>, start: nat, del: nat, cnt: nat, len: nat)
    requires Holds(arr.properties, a) && start + del <= len == |a| && len + cnt <= INT_MAX
    modifies arr
    ensures Settled(arr.properties, a, start, del, cnt)
    ensures SameOthers(arr.properties, old(arr.properties))
  {
    hide Find, Distinct;
    var delta := cnt - del;
    if delta < 0 {
      CloseGap(arr, a, start, 0 - delta, len);
    } else if delta > 0 {
      OpenGap(arr, a, start, delta, len);
    }
    forall i | start + cnt <= i
      ensures Elem(Tail(a, start, del, cnt), i - start - cnt) == if delta == 0 then Elem(a, i) else Elem(Filled(a), i - delta)
    {
      ElemTail(a, start, del, cnt, i);
    }
  }

  /** `mjs_check_arg` for a number. */
  predicate HasNumber(args: seq<Item>, i: nat) {
    i < |args| && args[i].Number?
  }

  /** The calls that do not raise a type error. */
  predicate Callable(isArray: bool, args: seq<Item>) {
    isArray && HasNumber(args, 0) && (|args| >= 2 ==> HasNumber(args, 1))
  }

  /** `mjs_array_splice`: the array becomes what is in front of `start`, the new items, and what is behind the
      deleted ones; the deleted ones are returned. Holes that are moved or returned become `undefined`. Other
      properties stay. */
  method MjsArraySplice(arr: ArrayObj, isArray: bool, ghost a: seq<Slot>, args: seq<Item>)
    returns (ret: ArrayObj, error: bool)
    requires Holds(arr.properties, a) && Proper(a) && |a| + |args| <= INT_MAX
    modifies arr
    ensures fresh(ret) && (error <==> !Callable(isArray, args))
    ensures error ==> ret.properties == [] && arr.properties == old(arr.properties)
    ensures !error ==>
            var start := NormalizeIdx(args[0].n, |a|);
            var del := DeleteCount(args, start, |a|);
            Holds(arr.properties, Spliced(a, start, del, if |args| > 2 then args[2..] else []))
            && Holds(ret.properties, Filled(a[start..start + del]))
    ensures SameOthers(arr.properties, old(arr.properties))
  {
    hide Holds, Settled, Find, Proper;
    if !Callable(isArray, args) {
      ret := new ArrayObj();
      return ret, true;
    }
    var len := arr.Length(a);
    var start := NormalizeIdx(args[0].n, len);
    var del := DeleteCount(args, start, len);
    var items := if |args| > 2 then args[2..] else [];
    ret := CopyOut(arr, a, start, del);
    MoveTail(arr, a, start, del, |items|, len);
    CopyIn(arr, a, start, del, items);
    error := false;
  }

  /** On an array without holes, that is the sequence operation. */
  lemma SplicedFull(s: seq<Item>, start: nat, del: nat, items: seq<Item>)
    requires start + del <= |s|
    ensures Spliced(Full(s), start, del, items) == Full(s[..start] + items + s[start + del..])
    ensures Filled(Full(s)[start..start + del]) == Full(s[start..start + del])
  {}

  /** The call on an array without holes makes it `rest` and returns `gone`. */
  predicate SplicesTo(s: seq<Item>, args: seq<Item>, rest: seq<Item>, gone: seq<Item>)
    requires Callable(true, args)
  {
    var start := NormalizeIdx(args[0].n, |s|);
    var del := DeleteCount(args, start, |s|);
    && Spliced(Full(s), start, del, if |args| > 2 then args[2..] else []) == Full(rest)
    && Filled(Full(s)[start..start + del]) == Full(gone)
  }

  lemma SplicesAt(s: seq<Item>, args: seq<Item>, items: seq<Item>, front: seq<Item>, gone: seq<Item>, back: seq<Item>)
    requires s == front + gone + back && Callable(true, args) && items == if |args| > 2 then args[2..] else []
    requires NormalizeIdx(args[0].n, |s|) == |front| && DeleteCount(args, |front|, |s|) == |gone|
    ensures SplicesTo(s, args, front + items + back, gone)
  {
    hide Full, Filled, Spliced, NormalizeIdx, DeleteCount;
    SplicedFull(s, |front|, |gone|, items);
    assert s[..|front|] == front && s[|front|..|front| + |gone|] == gone && s[|front| + |gone|..] == back;
  }

  /** `splice(i, n, items...)` */
  function SpliceArgs(i: int, n: int, items: seq<Item>): (r: seq<Item>)
    ensures Callable(true, r) && items == if |r| > 2 then r[2..] else []
    ensures r[0] == Number(i) && |r| >= 2 && r[1] == Number(n)
  {
    [Number(i), Number(n)] + items
  }

  /** A count that fits takes so many elements, one that reaches past the end or is missing takes all there are, and a
      negative one takes none. */
  lemma SpliceCounts(front: seq<Item>, gone: seq<Item>, back: seq<Item>, items: seq<Item>, far: nat)
    ensures var s := front + gone + back;
      && SplicesTo(s, SpliceArgs(|front|, |gone|, items), front + items + back, gone)
      && SplicesTo(front + gone, SpliceArgs(|front|, |gone| + far, items), front + items, gone)
      && SplicesTo(front + back, SpliceArgs(|front|, -1 - far, items), front + items + back, [])
      && SplicesTo(front + gone, [Number(|front|)], front, gone)
  {
    hide SplicesTo, SpliceArgs, NormalizeIdx, DeleteCount;
    SplicesAt(front + gone + back, SpliceArgs(|front|, |gone|, items), items, front, gone, back);
    assert front + gone + [] == front + gone && front + items + [] == front + items;
    SplicesAt(front + gone, SpliceArgs(|front|, |gone| + far, items), items, front, gone, []);
    assert front + [] + back == front + back;
    SplicesAt(front + back, SpliceArgs(|front|, -1 - far, items), items, front, [], back);
    assert front + [] + [] == front;
    SplicesAt(front + gone, [Number(|front|)], [], front, gone, []);
  }

  /** A negative index counts from the end, one before the start is the start, and one behind the end is the end. */
  lemma SpliceIndices(front: seq<Item>, gone: seq<Item>, back: seq<Item>, items: seq<Item>, far: nat)
    ensures |gone| + |back| > 0 ==>
              SplicesTo(front + gone + back, SpliceArgs(0 - |gone| - |back|, |gone|, items), front + items + back, gone)
    ensures SplicesTo(gone + back, SpliceArgs(-1 - |gone| - |back| - far, |gone|, items), items + back, gone)
    ensures SplicesTo(front, SpliceArgs(|front| + far, |gone|, items), front + items, [])
  {
    hide SplicesTo, SpliceArgs, NormalizeIdx, DeleteCount;
    if |gone| + |back| > 0 {
      SplicesAt(front + gone + back, SpliceArgs(0 - |gone| - |back|, |gone|, items), items, front, gone, back);
    }
    assert [] + gone + back == gone + back && [] + items + back == items + back;
    SplicesAt(gone + back, SpliceArgs(-1 - |gone| - |back| - far, |gone|, items), items, [], gone, back);
    assert front + [] + [] == front && front + items + [] == front + items;
    SplicesAt(front, SpliceArgs(|front| + far, |gone|, items), items, front, [], []);
  }

  /** Where an object has properties, there is an array that its indices hold, up to its length. */
  lemma SomeArray(props: seq<Prop>) returns (a: seq<Slot>)
    requires Distinct(props)
    ensures Holds(props, a) && Proper(a)
  {
    var n := Bound(props);
    a := Trim(seq(n, i => Find(props, Index(i))));
    forall i | 0 <= i < INDEX_LIMIT
      ensures Find(props, Index(i)) == Elem(a, i)
    {
      if i >= n {
        BoundAbove(props, i);
      }
    }
  }

  /** One more than every index. */
  function Bound(props: seq<Prop>): nat {
    if props == [] then 0
    else
      var n := Bound(props[1..]);
      if IsIndex(props[0].name) && props[0].name.i >= n then props[0].name.i + 1 else n
  }

  lemma {:induction false} BoundAbove(props: seq<Prop>, i: int)
    requires 0 <= i < INDEX_LIMIT && i >= Bound(props)
    ensures Find(props, Index(i)) == Absent
  {
    if props != [] {
      BoundAbove(props[1..], i);
    }
  }

  /** Without the holes at its end. */
  function Trim(a: seq<Slot>): (r: seq<Slot>)
    ensures Proper(r) && forall i :: Elem(r, i) == Elem(a, i)
  {
    if a == [] || a[|a| - 1].Present? then a else Trim(a[..|a| - 1])
  }
}
