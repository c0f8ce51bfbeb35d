/** Two behaviours of lib/events.ts as the code is written, each set against
    the corrected model in module Versioned.

    1. The array method table. The `get` trap of an array looks the property
       name up in an object literal holding the seven mutators. Being a plain
       object, that literal also answers every name of `Object.prototype`, so
       reading `constructor`, `toString`, `toLocaleString` or `__proto__` on a
       proxied array yields `Object.prototype`'s member instead of the one
       `Array.prototype` overrides it with.

    2. Stacked proxies. The `set` trap stores an assigned object as a copy
       wrapped in a proxy of its own, and every `get` wraps what it returns in
       a further proxy. A node reached from the root thus sits under one layer
       per proxied node on the way (the root's own proxy included), and a
       write or deletion passes through every layer, each of which increments
       the version and emits. Here the tree records which objects were stored
       by the `set` trap; the layer count follows from the path. */
module VersionedAsWritten {
  import opened Values
  import opened Versioned

  /* ---------------------------------------------------------------------- */
  /* 1. The array method table                                              */
  /* ---------------------------------------------------------------------- */

  /** The `get` trap as written: on an array, a name found in the method
      table — a mutator or an inherited member — is answered from it. */
  function ReadPropAsWritten(t: Value, prop: Seg): (r: Read)
    requires t.IsStructured() && (t.Obj? ==> prop.Field?)
    ensures t.Arr? && prop.Field? && prop.name in MutatorNames ==> r == MutatorMethod(prop.name)
    ensures t.Arr? && prop.Field? && prop.name in ObjectPrototypeNames ==> r == ObjectPrototypeMember(prop.name)
    ensures !(t.Arr? && prop.Field? && prop.name in MutatorNames + ObjectPrototypeNames) ==> r == ReadProp(t, prop)
  {
    if t.Arr? && prop.Field? && prop.name in MutatorNames then MutatorMethod(prop.name)
    else if t.Arr? && prop.Field? && prop.name in ObjectPrototypeNames then ObjectPrototypeMember(prop.name)
    else ReadProp(t, prop)
  }

  /** The written lookup and the corrected one disagree exactly on the names
      `Array.prototype` overrides, read on an array. */
  lemma ReadsDifferExactlyOnOverriddenNames(t: Value, prop: Seg)
    requires t.IsStructured() && (t.Obj? ==> prop.Field?)
    ensures ReadPropAsWritten(t, prop) != ReadProp(t, prop) <==>
              t.Arr? && prop.Field? && prop.name in ArrayOverrides
  {
    if t.Arr? && prop.Field? && prop.name in ObjectPrototypeNames {
      assert prop.name !in MutatorNames;
    }
  }

  /** `list.toString()` on a proxied array `[1, 2]` calls the method table's
      inherited `Object.prototype.toString` (giving "[object Array]") instead
      of the array's own `toString` (giving "1,2"). */
  lemma ToStringOnArrayReadsTheTable()
    ensures var t := Arr([Num(1), Num(2)]);
            && ReadPropAsWritten(t, Field("toString")) == ObjectPrototypeMember("toString")
            && ReadProp(t, Field("toString")) == ArrayMember("toString")
  {
  }

  /* ---------------------------------------------------------------------- */
  /* 2. Stacked proxies                                                     */
  /* ---------------------------------------------------------------------- */

  /** A stored value: an object, flagged when the `set` trap stored it as a
      proxy of its own; anything else is a leaf. Arrays are leaves here. */
  datatype Node = Leaf(value: Value) | Object(proxied: bool, fields: map<string, Node>)

  /** The root's version and its other properties. */
  datatype State = State(version: VersionNumber, fields: map<string, Node>)

  /** The root as a node; its own proxy is counted separately. */
  function RootNode(s: State): Node {
    Object(false, s.fields)
  }

  /** The data a node holds, with the proxies looked through. */
  function ToValue(n: Node): Value {
    match n
    case Leaf(v) => v
    case Object(_, f) => Obj(map k | k in f :: ToValue(f[k]))
  }

  /** The properties a map of nodes holds. */
  function ToProps(f: map<string, Node>): (props: map<string, Value>)
    ensures props.Keys == f.Keys
    ensures forall k :: k in f ==> props[k] == ToValue(f[k])
  {
    map k | k in f :: ToValue(f[k])
  }

  /** A value that was never assigned through the proxy: an object stays a
      plain object all the way down. */
  function Raw(v: Value): Node {
    match v
    case Obj(props) => Object(false, map k | k in props :: Raw(props[k]))
    case _ => Leaf(v)
  }

  /** What the `set` trap stores for a value: an object becomes a shallow
      copy that is itself a proxy (its own fields stay as they were); any
      other value is stored as given. */
  function Stored(v: Value): (n: Node)
    ensures v.Obj? <==> n.Object?
    ensures n.Object? ==> n.proxied
  {
    match v
    case Obj(props) => Object(true, map k | k in props :: Raw(props[k]))
    case _ => Leaf(v)
  }

  /** The node a path of property names leads to. */
  function NodeAt(n: Node, path: seq<string>): Option<Node>
    decreases |path|
  {
    if path == [] then Some(n)
    else if n.Object? && path[0] in n.fields then NodeAt(n.fields[path[0]], path[1..])
    else None
  }

  /** The proxies a path passes beyond the root's own: one per stored proxy. */
  function ExtraLayers(n: Node, path: seq<string>): nat
    requires NodeAt(n, path).Some?
    decreases |path|
  {
    if path == [] then 0
    else
      var c := n.fields[path[0]];
      (if c.Object? && c.proxied then 1 else 0) + ExtraLayers(c, path[1..])
  }

  /** `n` with the node at `path` replaced by `m`. */
  function PutNode(n: Node, path: seq<string>, m: Node): (r: Node)
    requires NodeAt(n, path).Some?
    ensures NodeAt(r, path) == Some(m)
    ensures n.Object? && m.Object? ==> r.Object?
    decreases |path|
  {
    if path == [] then m
    else
      var r := Object(n.proxied, n.fields[path[0] := PutNode(n.fields[path[0]], path[1..], m)]);
      assert NodeAt(r, path) == NodeAt(r.fields[path[0]], path[1..]);
      r
  }

  /** A path of property names as a path of the corrected model. */
  function FieldPath(path: seq<string>): (p: Path)
    ensures |p| == |path| && forall i :: 0 <= i < |path| ==> p[i] == Field(path[i])
  {
    seq(|path|, i requires 0 <= i < |path| => Field(path[i]))
  }

  /** `version++` performed `k` times. */
  function BumpBy(v: VersionNumber, k: nat): (r: VersionNumber)
    ensures v.NaN? <==> r.NaN?
    ensures v.Finite? ==> r.n == v.n + k
  {
    if v.Finite? then Finite(v.n + k) else NaN
  }

  /** The result of a write or deletion: the new state and the updates emitted. */
  datatype Written = Written(state: State, updates: nat)

  /** The writes the layered model covers: into an object reached by the path,
      not the root's `version`, and an object or array assigned only directly
      under the root's own proxy (through several layers the copy-and-wrap
      of each layer interleaves in ways not modelled here). */
  predicate CanWrite(s: State, path: seq<string>, name: string, value: Value) {
    && NodeAt(RootNode(s), path).Some? && NodeAt(RootNode(s), path).value.Object?
    && (path == [] ==> name != "version")
    && (value.IsStructured() ==> ExtraLayers(RootNode(s), path) == 0)
  }

  /** `target[name] = value` through every layer above the target: the
      innermost layer stores the value, and each layer increments the version
      and emits once. */
  function SetAsWritten(s: State, path: seq<string>, name: string, value: Value): (r: Written)
    requires CanWrite(s, path, name, value)
    ensures r.updates == 1 + ExtraLayers(RootNode(s), path)
    ensures r.state.version == BumpBy(s.version, r.updates)
    ensures NodeAt(RootNode(r.state), path + [name]) == Some(Stored(value))
  {
    var t := NodeAt(RootNode(s), path).value;
    var t' := Object(t.proxied, t.fields[name := Stored(value)]);
    var root' := PutNode(RootNode(s), path, t');
    var k := 1 + ExtraLayers(RootNode(s), path);
    NodeAtAppend(root', path, name);
    assert RootNode(State(BumpBy(s.version, k), root'.fields)) == root';
    Written(State(BumpBy(s.version, k), root'.fields), k)
  }

  /** `delete target[name]` through every layer above the target. */
  function DeleteAsWritten(s: State, path: seq<string>, name: string): (r: Written)
    requires NodeAt(RootNode(s), path).Some? && NodeAt(RootNode(s), path).value.Object?
    requires path == [] ==> name != "version"
    ensures r.updates == 1 + ExtraLayers(RootNode(s), path)
    ensures r.state.version == BumpBy(s.version, r.updates)
    ensures NodeAt(RootNode(r.state), path + [name]).None?
  {
    var t := NodeAt(RootNode(s), path).value;
    var t' := Object(t.proxied, t.fields - {name});
    var root' := PutNode(RootNode(s), path, t');
    var k := 1 + ExtraLayers(RootNode(s), path);
    NodeAtAppend(root', path, name);
    assert RootNode(State(BumpBy(s.version, k), root'.fields)) == root';
    Written(State(BumpBy(s.version, k), root'.fields), k)
  }

  /** A path extended by one name leads to that field of the node at the path. */
  lemma {:induction false} NodeAtAppend(n: Node, path: seq<string>, name: string)
    requires NodeAt(n, path).Some?
    ensures NodeAt(n, path + [name]) ==
              var t := NodeAt(n, path).value;
              if t.Object? && name in t.fields then Some(t.fields[name]) else None
    decreases |path|
  {
    if path == [] {
      assert path + [name] == [name];
      assert [name][1..] == [];
    } else {
      assert (path + [name])[0] == path[0];
      assert (path + [name])[1..] == path[1..] + [name];
      NodeAtAppend(n.fields[path[0]], path[1..], name);
    }
  }

  /* ---------------------------------------------------------------------- */
  /* Agreement with the corrected model                                     */
  /* ---------------------------------------------------------------------- */

  /** Raw storage holds exactly the value. */
  lemma {:induction false} RawIsFaithful(v: Value)
    ensures ToValue(Raw(v)) == v
  {
    match v
    case Obj(props) =>
      forall k | k in props ensures ToValue(Raw(props[k])) == props[k] {
        RawIsFaithful(props[k]);
      }
    case _ =>
  }

  /** What the `set` trap stores holds exactly the assigned value. */
  lemma StoredIsFaithful(v: Value)
    ensures ToValue(Stored(v)) == v
  {
    if v.Obj? {
      forall k | k in v.props ensures ToValue(Raw(v.props[k])) == v.props[k] {
        RawIsFaithful(v.props[k]);
      }
    }
  }

  /** Following a path in the tree and in its data agree. */
  lemma {:induction false} NodeAtAgrees(n: Node, path: seq<string>)
    requires NodeAt(n, path).Some?
    ensures At(ToValue(n), FieldPath(path)) == Some(ToValue(NodeAt(n, path).value))
    decreases |path|
  {
    if path != [] {
      NodeAtAgrees(n.fields[path[0]], path[1..]);
      assert FieldPath(path)[1..] == FieldPath(path[1..]);
    }
  }

  /** Replacing a node in the tree replaces its data in the data. */
  lemma {:induction false} PutNodeAgrees(n: Node, path: seq<string>, m: Node)
    requires NodeAt(n, path).Some?
    ensures At(ToValue(n), FieldPath(path)).Some?
    ensures ToValue(PutNode(n, path, m)) == PutAt(ToValue(n), FieldPath(path), ToValue(m))
    decreases |path|
  {
    NodeAtAgrees(n, path);
    if path != [] {
      var c := n.fields[path[0]];
      PutNodeAgrees(c, path[1..], m);
      assert FieldPath(path)[1..] == FieldPath(path[1..]);
      var f' := n.fields[path[0] := PutNode(c, path[1..], m)];
      assert ToProps(f') == ToProps(n.fields)[path[0] := ToValue(PutNode(c, path[1..], m))];
    }
  }

  /** The corrected root holding the same data as a layered state. */
  function Corrected(s: State): Root {
    Root(s.version, ToProps(s.fields))
  }

  /** A write through stacked proxies stores the same data as the corrected
      trap, but counts one extra version step and update per stored proxy on
      the way. */
  lemma SetSameDataOtherCount(s: State, path: seq<string>, name: string, value: Value)
    requires CanWrite(s, path, name, value) && "version" !in s.fields
    ensures var trap := Set(FieldPath(path), Field(name), value);
            && ValidTrap(Corrected(s), trap)
            && var fixed := Handle(Corrected(s), trap);
            && var written := SetAsWritten(s, path, name, value);
            && ToProps(written.state.fields) == fixed.root.props
            && fixed.updates == 1
            && written.updates == fixed.updates + ExtraLayers(RootNode(s), path)
            && fixed.root.version == BumpBy(s.version, 1)
  {
    var trap := Set(FieldPath(path), Field(name), value);
    var root := Corrected(s);
    assert ToValue(RootNode(s)) == Data(root);
    NodeAtAgrees(RootNode(s), path);
    var t := NodeAt(RootNode(s), path).value;
    assert TargetOf(root, trap) == Some(ToValue(t));
    assert !IsRootVersion(FieldPath(path), Field(name)) by {
      if FieldPath(path) == [] { assert path == []; }
    }
    var t' := Object(t.proxied, t.fields[name := Stored(value)]);
    StoredIsFaithful(value);
    assert ToProps(t'.fields) == ToProps(t.fields)[name := value];
    assert ToValue(t') == Assign(ToValue(t), Field(name), value);
    PutNodeAgrees(RootNode(s), path, t');
  }

  /** A deletion through stacked proxies removes the same property as the
      corrected trap, with the same extra count. */
  lemma DeleteSameDataOtherCount(s: State, path: seq<string>, name: string)
    requires NodeAt(RootNode(s), path).Some? && NodeAt(RootNode(s), path).value.Object?
    requires (path == [] ==> name != "version") && "version" !in s.fields
    ensures var trap := Delete(FieldPath(path), Field(name));
            && ValidTrap(Corrected(s), trap)
            && var fixed := Handle(Corrected(s), trap);
            && var written := DeleteAsWritten(s, path, name);
            && ToProps(written.state.fields) == fixed.root.props
            && written.updates == fixed.updates + ExtraLayers(RootNode(s), path)
  {
    var trap := Delete(FieldPath(path), Field(name));
    var root := Corrected(s);
    assert ToValue(RootNode(s)) == Data(root);
    NodeAtAgrees(RootNode(s), path);
    var t := NodeAt(RootNode(s), path).value;
    assert TargetOf(root, trap) == Some(ToValue(t));
    assert !IsRootVersion(FieldPath(path), Field(name)) by {
      if FieldPath(path) == [] { assert path == []; }
    }
    var t' := Object(t.proxied, t.fields - {name});
    assert ToProps(t'.fields) == ToProps(t.fields) - {name};
    assert ToValue(t') == Remove(ToValue(t), Field(name));
    PutNodeAgrees(RootNode(s), path, t');
  }

  /** The discrepancy on a concrete input: `root.a = {x: 1}` and then
      `root.a.x = 2` move the version by three and emit three updates, where
      two mutations should move it by two. */
  lemma AssignedObjectCountsTwice(v: int)
    ensures var s0 := State(Finite(v), map[]);
            var w1 := SetAsWritten(s0, [], "a", Obj(map["x" := Num(1)]));
            && w1.updates == 1
            && CanWrite(w1.state, ["a"], "x", Num(2))
            && var w2 := SetAsWritten(w1.state, ["a"], "x", Num(2));
            && w2.updates == 2
            && w2.state.version == Finite(v + 3)
  {
    var s0 := State(Finite(v), map[]);
    var w1 := SetAsWritten(s0, [], "a", Obj(map["x" := Num(1)]));
    assert w1.state.fields == map["a" := Stored(Obj(map["x" := Num(1)]))];
    assert ExtraLayers(RootNode(w1.state), ["a"]) == 1;
  }
}
