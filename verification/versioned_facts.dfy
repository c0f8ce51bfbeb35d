/** Properties of the versioned object: what a write or deletion reads back
    as, which mutator pairs undo each other, that sorting and reversing keep
    the elements, and that the version counts exactly the mutations. */
module VersionedFacts {
  import opened Values
  import opened Versioned

  /* ---------------------------------------------------------------------- */
  /* Paths                                                                  */
  /* ---------------------------------------------------------------------- */

  /** Putting back the node a path already leads to changes nothing. */
  lemma {:induction false} PutAtOwn(v: Value, path: Path)
    requires At(v, path).Some?
    ensures PutAt(v, path, At(v, path).value) == v
    decreases |path|
  {
    if path != [] {
      match path[0]
      case Field(n) =>
        PutAtOwn(v.props[n], path[1..]);
        assert v.props[n := v.props[n]] == v.props;
      case Index(i) =>
        PutAtOwn(v.elems[i], path[1..]);
        assert v.elems[i := v.elems[i]] == v.elems;
    }
  }

  /** A second replacement at the same path overrides the first. */
  lemma {:induction false} PutAtTwice(v: Value, path: Path, n1: Value, n2: Value)
    requires At(v, path).Some?
    ensures PutAt(PutAt(v, path, n1), path, n2) == PutAt(v, path, n2)
    decreases |path|
  {
    if path != [] {
      match path[0]
      case Field(n) =>
        PutAtTwice(v.props[n], path[1..], n1, n2);
      case Index(i) =>
        PutAtTwice(v.elems[i], path[1..], n1, n2);
    }
  }

  /** Replacing a node below the root by `n1` and then by the node that was
      there gives back the root's original properties. */
  lemma ReplaceBack(root: Root, path: Path, n1: Value, version: VersionNumber)
    requires path != [] && At(Data(root), path).Some?
    ensures var props1 := Replace(root, path, n1);
            Replace(Root(version, props1), path, At(Data(root), path).value) == root.props
  {
    var props1 := Replace(root, path, n1);
    assert Data(Root(version, props1)) == PutAt(Data(root), path, n1);
    PutAtTwice(Data(root), path, n1, At(Data(root), path).value);
    PutAtOwn(Data(root), path);
  }

  /** Neither path leads through the other: the nodes they address lie in
      separate subtrees. */
  predicate Apart(p: Path, q: Path) {
    !(p <= q) && !(q <= p)
  }

  /** A replacement at one path leaves the node at every path apart from it
      as it was, present or absent alike. */
  lemma {:induction false} PutAtFrame(v: Value, path: Path, node: Value, p: Path)
    requires At(v, path).Some? && Apart(path, p)
    ensures At(PutAt(v, path, node), p) == At(v, p)
    decreases |path|
  {
    var r := PutAt(v, path, node);
    if path[0] == p[0] {
      assert Apart(path[1..], p[1..]) by {
        assert path == [path[0]] + path[1..] && p == [p[0]] + p[1..];
      }
      match path[0]
      case Field(n) => PutAtFrame(v.props[n], path[1..], node, p[1..]);
      case Index(i) => PutAtFrame(v.elems[i], path[1..], node, p[1..]);
    } else {
      assert Child(r, p[0]) == Child(v, p[0]);
    }
  }

  /** The node one step below the end of a path. */
  lemma {:induction false} AtSnoc(v: Value, path: Path, q: Seg)
    requires At(v, path).Some?
    ensures At(v, path + [q]) == Child(At(v, path).value, q)
    decreases |path|
  {
    if path == [] {
      assert At(v, [q]) == match Child(v, q) case None => None case Some(c) => At(c, []);
    } else {
      assert (path + [q])[1..] == path[1..] + [q];
      match path[0]
      case Field(n) => AtSnoc(v.props[n], path[1..], q);
      case Index(i) => AtSnoc(v.elems[i], path[1..], q);
    }
  }

  /* ---------------------------------------------------------------------- */
  /* Writes and deletions                                                   */
  /* ---------------------------------------------------------------------- */

  /** A value written through the proxy reads back as that value, wrapped
      when it is an object or array. */
  lemma SetThenGet(root: Root, path: Path, prop: Seg, v: Value)
    requires ValidTrap(root, Set(path, prop, v)) && !IsRootVersion(path, prop)
    ensures var after := Handle(root, Set(path, prop, v)).root;
            && ValidTrap(after, Get(path, prop))
            && Handle(after, Get(path, prop)).reply == ReadReply(if v.IsStructured() then Wrapped(v) else Plain(v))
  {
    var t := TargetOf(root, Set(path, prop, v)).value;
    var after := Handle(root, Set(path, prop, v)).root;
    assert TargetOf(after, Get(path, prop)) == Some(Assign(t, prop, v));
  }

  /** A deleted property reads back as `undefined`. */
  lemma DeleteThenGet(root: Root, path: Path, prop: Seg)
    requires ValidTrap(root, Delete(path, prop)) && !IsRootVersion(path, prop)
    ensures var after := Handle(root, Delete(path, prop)).root;
            && ValidTrap(after, Get(path, prop))
            && Handle(after, Get(path, prop)).reply == ReadReply(Plain(Undefined))
  {
    var t := TargetOf(root, Delete(path, prop)).value;
    var after := Handle(root, Delete(path, prop)).root;
    assert TargetOf(after, Get(path, prop)) == Some(Remove(t, prop));
  }

  /** A write, deletion or mutator call changes nothing outside the object it
      acts on: every node at a path apart from that object's is as it was. */
  lemma MutationLeavesOtherPathsAlone(root: Root, trap: Trap, p: Path)
    requires ValidTrap(root, trap) && !trap.Get? && !TouchesRootVersion(trap)
    requires Apart(trap.path, p)
    ensures At(Data(Handle(root, trap).root), p) == At(Data(root), p)
  {
    var t := TargetOf(root, trap).value;
    var node := match trap
      case Set(_, prop, value) => Assign(t, prop, value)
      case Delete(_, prop) => Remove(t, prop)
      case Call(_, m) => Arr(ApplyMethod(t.elems, m).elems);
    assert Data(Handle(root, trap).root) == PutAt(Data(root), trap.path, node);
    PutAtFrame(Data(root), trap.path, node, p);
  }

  /** Within the object a write or deletion acts on, every other property it
      already had keeps its value. */
  lemma SiblingsKeepTheirValues(root: Root, trap: Trap, q: Seg)
    requires ValidTrap(root, trap) && (trap.Set? || trap.Delete?) && !TouchesRootVersion(trap)
    requires q != trap.prop && Child(TargetOf(root, trap).value, q).Some?
    ensures At(Data(Handle(root, trap).root), trap.path + [q]) == At(Data(root), trap.path + [q])
  {
    var t := TargetOf(root, trap).value;
    var after := At(Data(Handle(root, trap).root), trap.path).value;
    AtSnoc(Data(root), trap.path, q);
    AtSnoc(Data(Handle(root, trap).root), trap.path, q);
    assert Child(after, q) == Child(t, q);
  }

  /** Writing `a.x = 2` on `{a: {x: 1}, b: 7}` leaves `b` at 7. */
  lemma NestedWriteKeepsOtherBranch()
    ensures var root := Root(Finite(0), map["a" := Obj(map["x" := Num(1)]), "b" := Num(7)]);
            var trap := Set([Field("a")], Field("x"), Num(2));
            && ValidTrap(root, trap)
            && At(Data(Handle(root, trap).root), [Field("a"), Field("x")]) == Some(Num(2))
            && At(Data(Handle(root, trap).root), [Field("b")]) == Some(Num(7))
  {
    var root := Root(Finite(0), map["a" := Obj(map["x" := Num(1)]), "b" := Num(7)]);
    var trap := Set([Field("a")], Field("x"), Num(2));
    assert At(Data(root), [Field("a")]) == Some(Obj(map["x" := Num(1)]));
    assert At(Data(root), [Field("b")]) == Some(Num(7));
    MutationLeavesOtherPathsAlone(root, trap, [Field("b")]);
    AtSnoc(Data(Handle(root, trap).root), [Field("a")], Field("x"));
  }

  /* ---------------------------------------------------------------------- */
  /* Mutator pairs                                                          */
  /* ---------------------------------------------------------------------- */

  /** `push(x)` then `pop()` returns `x` and restores the data; the version
      has moved on by two. */
  lemma PushThenPop(root: Root, path: Path, x: Value)
    requires ValidTrap(root, Call(path, Push([x])))
    ensures var r1 := Handle(root, Call(path, Push([x])));
            && ValidTrap(r1.root, Call(path, Pop))
            && var r2 := Handle(r1.root, Call(path, Pop));
            && r2.reply == Returned(x)
            && r2.root.props == root.props
            && r2.root.version == root.version.Bump().Bump()
            && r1.updates + r2.updates == 2
  {
    var a := TargetOf(root, Call(path, Push([x]))).value.elems;
    var r1 := Handle(root, Call(path, Push([x])));
    assert path != [];
    assert TargetOf(r1.root, Call(path, Pop)) == Some(Arr(a + [x]));
    var p := Popped(a + [x]);
    assert p.elems + [p.ret] == a + [x];
    assert p.elems == (p.elems + [p.ret])[..|a|] == a;
    ReplaceBack(root, path, Arr(a + [x]), root.version.Bump());
  }

  /** `unshift(x)` then `shift()` returns `x` and restores the data. */
  lemma UnshiftThenShift(root: Root, path: Path, x: Value)
    requires ValidTrap(root, Call(path, Unshift([x])))
    ensures var r1 := Handle(root, Call(path, Unshift([x])));
            && ValidTrap(r1.root, Call(path, Shift))
            && var r2 := Handle(r1.root, Call(path, Shift));
            && r2.reply == Returned(x)
            && r2.root.props == root.props
            && r2.root.version == root.version.Bump().Bump()
  {
    var a := TargetOf(root, Call(path, Unshift([x]))).value.elems;
    var r1 := Handle(root, Call(path, Unshift([x])));
    assert path != [];
    assert TargetOf(r1.root, Call(path, Shift)) == Some(Arr([x] + a));
    var p := Shifted([x] + a);
    assert [p.ret] + p.elems == [x] + a;
    assert p.elems == ([p.ret] + p.elems)[1..] == a;
    ReplaceBack(root, path, Arr([x] + a), root.version.Bump());
  }

  /** Reversing twice restores the data. */
  lemma ReverseTwice(root: Root, path: Path)
    requires ValidTrap(root, Call(path, Reverse))
    ensures var r1 := Handle(root, Call(path, Reverse));
            && ValidTrap(r1.root, Call(path, Reverse))
            && Handle(r1.root, Call(path, Reverse)).root.props == root.props
  {
    var a := TargetOf(root, Call(path, Reverse)).value.elems;
    var r1 := Handle(root, Call(path, Reverse));
    assert path != [];
    var b := Reversed(a).elems;
    assert TargetOf(r1.root, Call(path, Reverse)) == Some(Arr(b));
    assert Reversed(b).elems == a;
    ReplaceBack(root, path, Arr(b), root.version.Bump());
  }

  /** A splice is undone by splicing the removed elements back over the
      inserted ones; each call returns what the other inserted. */
  lemma SpliceRoundTrip(root: Root, path: Path, start: nat, count: nat, items: seq<Value>)
    requires ValidTrap(root, Call(path, Splice(start, count, items)))
    requires var a := TargetOf(root, Call(path, Splice(start, count, items))).value.elems;
             start + count <= |a|
    ensures var a := TargetOf(root, Call(path, Splice(start, count, items))).value.elems;
            var r1 := Handle(root, Call(path, Splice(start, count, items)));
            var back := Splice(start, |items|, a[start..start + count]);
            && r1.reply == Returned(Arr(a[start..start + count]))
            && ValidTrap(r1.root, Call(path, back))
            && var r2 := Handle(r1.root, Call(path, back));
            && r2.reply == Returned(Arr(items))
            && r2.root.props == root.props
  {
    var a := TargetOf(root, Call(path, Splice(start, count, items))).value.elems;
    var r1 := Handle(root, Call(path, Splice(start, count, items)));
    assert path != [];
    var b := Spliced(a, start, count, items).elems;
    assert b == a[..start] + items + a[start + count..];
    assert TargetOf(r1.root, Call(path, Splice(start, |items|, a[start..start + count]))) == Some(Arr(b));
    var c := Spliced(b, start, |items|, a[start..start + count]);
    assert b[start..start + |items|] == items;
    assert b[start + |items|..] == a[start + count..];
    assert c.elems == a[..start] + a[start..start + count] + a[start + count..];
    assert c.elems == a;
    ReplaceBack(root, path, Arr(b), root.version.Bump());
  }

  /** `splice(-k, k)` removes and returns the last `k` elements, or all of
      them when the array is shorter: the start counts from the end and the
      count is clamped to what is left. */
  lemma SpliceFromEndTakesTail(a: seq<Value>, k: nat)
    ensures var m := if k <= |a| then k else |a|;
            Spliced(a, -(k as int), k, []) == Applied(a[..|a| - m], Arr(a[|a| - m..]))
  {
    var m := if k <= |a| then k else |a|;
    var start: int := -(k as int);
    if k == 0 {
      // -0 is 0: nothing is removed, from the front rather than the end
      assert a[..0] + [] + a[0..] == a[..|a|];
    } else {
      if k <= |a| {
        assert start < 0 && |a| + start >= 0;
      } else {
        assert |a| + start < 0;
      }
      assert SpliceStart(start, |a|) == |a| - m;
      assert SpliceCount(k, |a|, |a| - m) == m;
      assert a[..|a| - m] + [] + a[|a|..] == a[..|a| - m];
    }
  }

  /** `pop()` on an empty array returns `undefined` and leaves the data as it
      was, yet still counts as a mutation. */
  lemma PopOnEmptyStillCounts(root: Root, path: Path)
    requires ValidTrap(root, Call(path, Pop)) && TargetOf(root, Call(path, Pop)) == Some(Arr([]))
    ensures var r := Handle(root, Call(path, Pop));
            && r.reply == Returned(Undefined)
            && r.root.props == root.props
            && r.root.version == root.version.Bump()
            && r.updates == 1
  {
    assert path != [];
    PutAtOwn(Data(root), path);
  }

  /* ---------------------------------------------------------------------- */
  /* Sorting and reversing keep the elements                                */
  /* ---------------------------------------------------------------------- */

  /** Rearranging a sequence by a permutation keeps its multiset. */
  lemma {:induction false} PermutedKeepsMultiset<T>(a: seq<T>, order: seq<nat>, r: seq<T>)
    requires IsPermutation(order, |a|)
    requires |r| == |a| && forall i :: 0 <= i < |a| ==> r[i] == a[order[i]]
    ensures multiset(r) == multiset(a)
    decreases |a|
  {
    if |a| > 0 {
      var n := |a|;
      var j := order[n - 1];
      var a' := a[..j] + a[j + 1..];
      var order' := seq(n - 1, i requires 0 <= i < n - 1 => if order[i] > j then order[i] - 1 else order[i]);
      var r' := r[..n - 1];
      forall i | 0 <= i < n - 1 ensures order'[i] < n - 1 && r'[i] == a'[order'[i]] {
        assert order[i] != j;
      }
      forall i, k | 0 <= i < k < n - 1 ensures order'[i] != order'[k] {
        assert order[i] != order[k];
      }
      PermutedKeepsMultiset(a', order', r');
      assert r == r' + [a[j]];
      assert a == a[..j] + [a[j]] + a[j + 1..];
    }
  }

  /** `sort` keeps the array's elements: only their order changes. */
  lemma SortKeepsElements(root: Root, path: Path, order: seq<nat>)
    requires ValidTrap(root, Call(path, Sort(order)))
    ensures var a := TargetOf(root, Call(path, Sort(order))).value.elems;
            var r := Handle(root, Call(path, Sort(order)));
            exists b :: At(Data(r.root), path) == Some(Arr(b)) && multiset(b) == multiset(a)
  {
    var a := TargetOf(root, Call(path, Sort(order))).value.elems;
    var b := Sorted(a, order).elems;
    PermutedKeepsMultiset(a, order, b);
  }

  /** `reverse` keeps the array's elements. */
  lemma ReverseKeepsElements(a: seq<Value>)
    ensures multiset(Reversed(a).elems) == multiset(a)
  {
    var n := |a|;
    var order: seq<nat> := seq(n, i requires 0 <= i < n => n - 1 - i);
    assert IsPermutation(order, n);
    PermutedKeepsMultiset(a, order, Reversed(a).elems);
  }

  /* ---------------------------------------------------------------------- */
  /* The version counts mutations                                           */
  /* ---------------------------------------------------------------------- */

  /** A sequence of trap invocations each of which is valid on the root the
      previous ones left. */
  predicate ValidRun(root: Root, traps: seq<Trap>)
    decreases |traps|
  {
    traps == [] || (ValidTrap(root, traps[0]) && ValidRun(Handle(root, traps[0]).root, traps[1..]))
  }

  /** The root after a run, and the updates emitted along it. */
  datatype Trace = Trace(root: Root, updates: nat)

  function Run(root: Root, traps: seq<Trap>): Trace
    requires ValidRun(root, traps)
    decreases |traps|
  {
    if traps == [] then Trace(root, 0)
    else
      var o := Handle(root, traps[0]);
      var rest := Run(o.root, traps[1..]);
      Trace(rest.root, o.updates + rest.updates)
  }

  /** The number of invocations in a run that are not reads. */
  function Mutations(traps: seq<Trap>): nat
    decreases |traps|
  {
    if traps == [] then 0 else (if traps[0].Get? then 0 else 1) + Mutations(traps[1..])
  }

  /** As long as nobody writes or deletes the root's `version`, it rises by
      exactly the number of mutations, and each mutation emits exactly one
      update. */
  lemma {:induction false} VersionCountsMutations(root: Root, traps: seq<Trap>, n: int)
    requires ValidRun(root, traps) && root.version == Finite(n)
    requires forall i :: 0 <= i < |traps| ==> !TouchesRootVersion(traps[i])
    ensures Run(root, traps).root.version == Finite(n + Mutations(traps))
    ensures Run(root, traps).updates == Mutations(traps)
    decreases |traps|
  {
    if traps != [] {
      var o := Handle(root, traps[0]);
      assert !TouchesRootVersion(traps[0]);
      var m := if traps[0].Get? then 0 else 1;
      assert o.root.version == Finite(n + m);
      VersionCountsMutations(o.root, traps[1..], n + m);
    }
  }

  /** Once the root's `version` has been deleted it stays NaN, whatever else
      happens, until a number is written to it again. */
  lemma {:induction false} DeletedVersionStaysNaN(root: Root, traps: seq<Trap>)
    requires ValidTrap(root, Delete([], Field("version")))
    requires ValidRun(Handle(root, Delete([], Field("version"))).root, traps)
    requires forall i :: 0 <= i < |traps| ==> !(traps[i].Set? && TouchesRootVersion(traps[i]))
    ensures Run(Handle(root, Delete([], Field("version"))).root, traps).root.version == NaN
  {
    NaNIsSticky(Handle(root, Delete([], Field("version"))).root, traps);
  }

  lemma {:induction false} NaNIsSticky(root: Root, traps: seq<Trap>)
    requires ValidRun(root, traps) && root.version == NaN
    requires forall i :: 0 <= i < |traps| ==> !(traps[i].Set? && TouchesRootVersion(traps[i]))
    ensures Run(root, traps).root.version == NaN
    decreases |traps|
  {
    if traps != [] {
      assert !(traps[0].Set? && TouchesRootVersion(traps[0]));
      NaNIsSticky(Handle(root, traps[0]).root, traps[1..]);
    }
  }
}
