/** The versioned object of lib/events.ts (`createVersionedObject`): a record
    whose root `version` counts the mutations made through it, each mutation
    also emitting one update.

    The proxy traps become explicit operations on an immutable tree: `Handle`
    takes the root and one trap invocation — a property read, a property
    write, a property deletion, or a call of one of the seven array mutators
    — addressed by the path from the root to the object it acts on, and
    returns the new root, the number of updates emitted and the trap's reply.

    Stored values are plain trees here: an assigned object or array is kept as
    a copy, and every access from the root goes through exactly one layer of
    interception. The source additionally wraps the stored copy in a proxy of
    its own, which makes later writes through it count more than once; that
    behaviour is modelled separately in module VersionedAsWritten. */
module Versioned {
  import opened Values

  /** A JavaScript number as `version++` leaves it: an integer, or NaN once
      the root's version property has been deleted. */
  datatype VersionNumber = Finite(n: int) | NaN
  {
    /** `version++` */
    function Bump(): VersionNumber {
      if Finite? then Finite(n + 1) else NaN
    }
  }

  /** The versioned root: its `version` and its other properties. */
  datatype Root = Root(version: VersionNumber, props: map<string, Value>)

  /** The root's other properties, seen as an object. */
  function Data(root: Root): Value {
    Obj(root.props)
  }

  /** One step of a path: a named property of an object, or an array index. */
  datatype Seg = Field(name: string) | Index(i: nat)

  type Path = seq<Seg>

  function Child(v: Value, seg: Seg): Option<Value> {
    match seg
    case Field(n) => if v.Obj? && n in v.props then Some(v.props[n]) else None
    case Index(i) => if v.Arr? && i < |v.elems| then Some(v.elems[i]) else None
  }

  /** The value a path leads to, if it leads anywhere. */
  function At(v: Value, path: Path): Option<Value>
    decreases |path|
  {
    if path == [] then Some(v)
    else match Child(v, path[0])
      case None => None
      case Some(c) => At(c, path[1..])
  }

  /** `v` with the node at `path` replaced by `node`. */
  function PutAt(v: Value, path: Path, node: Value): (r: Value)
    requires At(v, path).Some?
    ensures At(r, path) == Some(node)
    ensures path == [] ==> r == node
    ensures path != [] && v.Obj? ==> r.Obj? && r.props.Keys == v.props.Keys
    ensures path != [] && v.Arr? ==> r.Arr? && |r.elems| == |v.elems|
    decreases |path|
  {
    if path == [] then node
    else match path[0]
      case Field(n) =>
        var r := Obj(v.props[n := PutAt(v.props[n], path[1..], node)]);
        assert Child(r, path[0]) == Some(r.props[n]);
        r
      case Index(i) =>
        var r := Arr(v.elems[i := PutAt(v.elems[i], path[1..], node)]);
        assert Child(r, path[0]) == Some(r.elems[i]);
        r
  }

  /** A property of the right kind for its holder: names on objects, indices
      on arrays. */
  predicate Fits(t: Value, prop: Seg) {
    (t.Obj? && prop.Field?) || (t.Arr? && prop.Index?)
  }

  /** `elems[i] = v` on a JavaScript array: writing past the end lengthens the
      array. JavaScript leaves the skipped slots as holes, which read as
      `undefined`; the model stores them as `undefined` values. */
  function SetElem(elems: seq<Value>, i: nat, v: Value): (r: seq<Value>)
    ensures |r| == if i < |elems| then |elems| else i + 1
    ensures r[i] == v
    ensures forall j :: 0 <= j < |elems| && j != i ==> r[j] == elems[j]
    ensures forall j :: |elems| <= j < |r| && j != i ==> r[j] == Undefined
  {
    if i < |elems| then elems[i := v] else elems + seq(i - |elems|, _ => Undefined) + [v]
  }

  /** `target[prop] = value` on the raw target. */
  function Assign(t: Value, prop: Seg, value: Value): (r: Value)
    requires Fits(t, prop)
    ensures r.Obj? == t.Obj? && r.Arr? == t.Arr?
    ensures t.Obj? ==> r.props.Keys == t.props.Keys + {prop.name} && r.props[prop.name] == value
    ensures t.Obj? ==> forall k :: k in t.props && k != prop.name ==> r.props[k] == t.props[k]
    ensures t.Arr? ==> r.elems == SetElem(t.elems, prop.i, value)
  {
    if t.Obj? then Obj(t.props[prop.name := value]) else Arr(SetElem(t.elems, prop.i, value))
  }

  /** `delete target[prop]` on the raw target: an object loses the key; an
      array keeps its length and the slot reads as `undefined`. */
  function Remove(t: Value, prop: Seg): (r: Value)
    requires Fits(t, prop)
    ensures r.Obj? == t.Obj? && r.Arr? == t.Arr?
    ensures t.Obj? ==> r.props == t.props - {prop.name}
    ensures t.Arr? ==> |r.elems| == |t.elems|
    ensures t.Arr? && prop.i < |t.elems| ==> r.elems[prop.i] == Undefined
    ensures t.Arr? ==> forall j :: 0 <= j < |t.elems| && j != prop.i ==> r.elems[j] == t.elems[j]
  {
    if t.Obj? then Obj(t.props - {prop.name})
    else if prop.i < |t.elems| then Arr(t.elems[prop.i := Undefined])
    else t
  }

  /* ---------------------------------------------------------------------- */
  /* Array mutators                                                         */
  /* ---------------------------------------------------------------------- */

  /** The seven array methods the handler intercepts. `Sort` carries the order
      the caller's comparator produces (`order[i]` is the old index of the
      element that ends up at `i`), since the comparator is caller code. */
  datatype ArrayMethod =
    | Push(items: seq<Value>)
    | Pop
    | Shift
    | Unshift(items: seq<Value>)
    | Splice(start: int, deleteCount: int, items: seq<Value>)
    | Sort(order: seq<nat>)
    | Reverse

  /** The property names under which the handler returns a mutator. */
  const MutatorNames: set<string> := {"push", "pop", "shift", "unshift", "splice", "sort", "reverse"}

  /** Members of `Object.prototype`. */
  const ObjectPrototypeNames: set<string> :=
    {"constructor", "toString", "toLocaleString", "valueOf", "hasOwnProperty", "isPrototypeOf",
     "propertyIsEnumerable", "__proto__", "__defineGetter__", "__defineSetter__",
     "__lookupGetter__", "__lookupSetter__"}

  /** The members of `Object.prototype` that `Array.prototype` overrides (an
      array's `__proto__` being `Array.prototype` itself); an array inherits
      the others from `Object.prototype` unchanged. */
  const ArrayOverrides: set<string> := {"constructor", "toString", "toLocaleString", "__proto__"}

  /** `order` lists every index below `n` exactly once. */
  predicate IsPermutation(order: seq<nat>, n: nat) {
    && |order| == n
    && (forall i :: 0 <= i < n ==> order[i] < n)
    && (forall i, j :: 0 <= i < j < n ==> order[i] != order[j])
  }

  /** `Array.prototype.splice`'s actual start: negative counts from the end;
      both ends are clamped. */
  function SpliceStart(start: int, len: nat): (r: nat)
    ensures r <= len
    ensures 0 <= start <= len ==> r == start
    ensures start < 0 && len + start >= 0 ==> r == len + start
    ensures len + start < 0 ==> r == 0
    ensures start > len ==> r == len
  {
    if start < 0 then (if len + start < 0 then 0 else len + start)
    else if start > len then len
    else start
  }

  /** `Array.prototype.splice`'s actual delete count, clamped to what is left. */
  function SpliceCount(deleteCount: int, len: nat, start: nat): (r: nat)
    requires start <= len
    ensures start + r <= len
    ensures 0 <= deleteCount <= len - start ==> r == deleteCount
    ensures deleteCount < 0 ==> r == 0
    ensures deleteCount > len - start ==> r == len - start
  {
    if deleteCount < 0 then 0
    else if deleteCount > len - start then len - start
    else deleteCount
  }

  /** The array after a mutator, and what the mutator returned. */
  datatype Applied = Applied(elems: seq<Value>, ret: Value)

  /** `push(...items)`: the items are appended; the new length is returned. */
  function Pushed(a: seq<Value>, items: seq<Value>): (r: Applied)
    ensures |r.elems| == |a| + |items| && r.elems[..|a|] == a && r.elems[|a|..] == items
    ensures r.ret == Num(|a| + |items|)
  {
    Applied(a + items, Num(|a| + |items|))
  }

  /** `unshift(...items)`: the items are prepended; the new length is returned. */
  function Unshifted(a: seq<Value>, items: seq<Value>): (r: Applied)
    ensures |r.elems| == |a| + |items| && r.elems[..|items|] == items && r.elems[|items|..] == a
    ensures r.ret == Num(|a| + |items|)
  {
    Applied(items + a, Num(|items| + |a|))
  }

  /** `pop()`: the last element is removed and returned; an empty array stays
      empty and `undefined` is returned. */
  function Popped(a: seq<Value>): (r: Applied)
    ensures a == [] ==> r == Applied([], Undefined)
    ensures a != [] ==> r.elems + [r.ret] == a
  {
    if a == [] then Applied(a, Undefined) else Applied(a[..|a| - 1], a[|a| - 1])
  }

  /** `shift()`: the first element is removed and returned; an empty array
      stays empty and `undefined` is returned. */
  function Shifted(a: seq<Value>): (r: Applied)
    ensures a == [] ==> r == Applied([], Undefined)
    ensures a != [] ==> [r.ret] + r.elems == a
  {
    if a == [] then Applied(a, Undefined) else Applied(a[1..], a[0])
  }

  /** `splice(start, deleteCount, ...items)`: the clamped range is replaced by
      the items and returned as a new array. */
  function Spliced(a: seq<Value>, start: int, deleteCount: int, items: seq<Value>): (r: Applied)
    ensures var st := SpliceStart(start, |a|);
            var n := SpliceCount(deleteCount, |a|, st);
            && r.ret == Arr(a[st..st + n])
            && |r.elems| == |a| - n + |items|
            && r.elems[..st] == a[..st]
            && r.elems[st..st + |items|] == items
            && r.elems[st + |items|..] == a[st + n..]
  {
    var st := SpliceStart(start, |a|);
    var n := SpliceCount(deleteCount, |a|, st);
    var e := a[..st] + items + a[st + n..];
    assert e[..st] == a[..st];
    assert e[st..st + |items|] == items;
    assert e[st + |items|..] == a[st + n..];
    Applied(e, Arr(a[st..st + n]))
  }

  /** `sort(compareFn)`: the elements rearranged in the comparator's order; the
      array itself is returned. */
  function Sorted(a: seq<Value>, order: seq<nat>): (r: Applied)
    requires IsPermutation(order, |a|)
    ensures |r.elems| == |a| && forall i :: 0 <= i < |a| ==> r.elems[i] == a[order[i]]
    ensures r.ret == Arr(r.elems)
  {
    var s := seq(|a|, i requires 0 <= i < |a| => a[order[i]]);
    Applied(s, Arr(s))
  }

  /** `reverse()`: the elements in reverse order; the array itself is returned. */
  function Reversed(a: seq<Value>): (r: Applied)
    ensures |r.elems| == |a| && forall i :: 0 <= i < |a| ==> r.elems[i] == a[|a| - 1 - i]
    ensures r.ret == Arr(r.elems)
  {
    var s := seq(|a|, i requires 0 <= i < |a| => a[|a| - 1 - i]);
    Applied(s, Arr(s))
  }

  /** A mutator applied to the raw array. */
  function ApplyMethod(a: seq<Value>, m: ArrayMethod): Applied
    requires m.Sort? ==> IsPermutation(m.order, |a|)
  {
    match m
    case Push(items) => Pushed(a, items)
    case Pop => Popped(a)
    case Shift => Shifted(a)
    case Unshift(items) => Unshifted(a, items)
    case Splice(start, deleteCount, items) => Spliced(a, start, deleteCount, items)
    case Sort(order) => Sorted(a, order)
    case Reverse => Reversed(a)
  }

  /* ---------------------------------------------------------------------- */
  /* The traps                                                              */
  /* ---------------------------------------------------------------------- */

  /** What the `get` trap returns. */
  datatype Read =
    | VersionRead(version: VersionNumber)    // the root's own version
    | MutatorMethod(name: string)            // an intercepting array mutator
    | ObjectPrototypeMember(name: string)    // a member of `Object.prototype`
    | ArrayMember(name: string)              // any other array member, not modelled further
    | Wrapped(value: Value)                  // an object or array, inside a new proxy
    | Plain(value: Value)                    // anything else, as stored

  /** One invocation of a trap, on the object at `path` from the root. */
  datatype Trap =
    | Get(path: Path, prop: Seg)
    | Set(path: Path, prop: Seg, value: Value)
    | Delete(path: Path, prop: Seg)
    | Call(path: Path, mutator: ArrayMethod)

  datatype Reply = ReadReply(read: Read) | Accepted | Returned(value: Value)

  /** The root after a trap, how many updates it emitted, and its reply. */
  datatype Outcome = Outcome(root: Root, updates: nat, reply: Reply)

  /** The root's own `version` property. */
  predicate IsRootVersion(path: Path, prop: Seg) {
    path == [] && prop == Field("version")
  }

  /** The `get` trap's answer for a property of the object or array `t`. On
      an array, exactly the seven mutator names yield an intercepting method;
      the members an array inherits from `Object.prototype` unchanged read as
      those; every other name reads the array's own member. (The source looks
      names up in a plain object literal, which answers even the overridden
      names from `Object.prototype`; that lookup is modelled as written in
      module VersionedAsWritten.) */
  function ReadProp(t: Value, prop: Seg): (r: Read)
    requires t.IsStructured() && (t.Obj? ==> prop.Field?)
    ensures t.Obj? ==> r == if Lookup(t.props, prop.name).IsStructured() then Wrapped(Lookup(t.props, prop.name))
                            else Plain(Lookup(t.props, prop.name))
    ensures r.MutatorMethod? <==> t.Arr? && prop.Field? && prop.name in MutatorNames
    ensures r.MutatorMethod? ==> r.name == prop.name
    ensures t.Arr? && prop == Field("length") ==> r == Plain(Num(|t.elems|))
    ensures r.ObjectPrototypeMember? <==>
              t.Arr? && prop.Field? && prop.name in ObjectPrototypeNames - ArrayOverrides
    ensures r.ObjectPrototypeMember? ==> r.name == prop.name
    ensures (t.Arr? && prop.Field? && prop.name != "length" &&
             prop.name !in MutatorNames + (ObjectPrototypeNames - ArrayOverrides)) ==> r == ArrayMember(prop.name)
    ensures t.Arr? && prop.Index? ==>
              var v := if prop.i < |t.elems| then t.elems[prop.i] else Undefined;
              r == if v.IsStructured() then Wrapped(v) else Plain(v)
  {
    if t.Arr? && prop.Field? then
      if prop.name in MutatorNames then MutatorMethod(prop.name)
      else if prop.name == "length" then Plain(Num(|t.elems|))
      else if prop.name in ObjectPrototypeNames - ArrayOverrides then ObjectPrototypeMember(prop.name)
      else ArrayMember(prop.name)
    else
      var v := if t.Obj? then Lookup(t.props, prop.name)
               else if prop.i < |t.elems| then t.elems[prop.i] else Undefined;
      if v.IsStructured() then Wrapped(v) else Plain(v)
  }

  /** A write or deletion of the root's own `version` property. */
  predicate TouchesRootVersion(trap: Trap) {
    (trap.Set? || trap.Delete?) && IsRootVersion(trap.path, trap.prop)
  }

  /** The object a trap acts on. */
  function TargetOf(root: Root, trap: Trap): Option<Value> {
    At(Data(root), trap.path)
  }

  /** What the source demands of a trap invocation: the root carries its
      version apart from its other properties; the path leads to an object or
      array (only those are proxied); the property suits its holder; the
      root's version is written with a number; mutators are called on arrays,
      and a sort's order is a permutation. */
  predicate ValidTrap(root: Root, trap: Trap) {
    && "version" !in root.props
    && var t := TargetOf(root, trap);
    && t.Some? && t.value.IsStructured()
    && match trap
       case Get(_, prop) => t.value.Obj? ==> prop.Field?
       case Set(path, prop, value) => Fits(t.value, prop) && (IsRootVersion(path, prop) ==> value.Num?)
       case Delete(_, prop) => Fits(t.value, prop)
       case Call(_, m) => t.value.Arr? && (m.Sort? ==> IsPermutation(m.order, |t.value.elems|))
  }

  /** The root's other properties after replacing the node at `path`. */
  function Replace(root: Root, path: Path, node: Value): (props: map<string, Value>)
    requires At(Data(root), path).Some?
    requires path == [] ==> node.Obj?
    ensures path != [] ==> props.Keys == root.props.Keys
    ensures path == [] ==> props == node.props
    ensures At(Obj(props), path) == Some(node)
  {
    PutAt(Data(root), path, node).props
  }

  /** One trap invocation. Reads change nothing and emit nothing. Writing the
      root's `version` stores the number as given and emits once. Every other
      write, every deletion and every mutator call — at any depth — performs
      its change, then increments the root version by one and emits once;
      deleting the root's `version` leaves it NaN. */
  function Handle(root: Root, trap: Trap): (r: Outcome)
    requires ValidTrap(root, trap)
    ensures "version" !in r.root.props
    ensures trap.Get? <==> r.updates == 0
    ensures !trap.Get? ==> r.updates == 1
    ensures trap.Get? ==> r.root == root && r.reply.ReadReply?
    ensures trap.Set? && TouchesRootVersion(trap) ==>
              r.root == Root(Finite(trap.value.n), root.props)
    ensures trap.Delete? && TouchesRootVersion(trap) ==> r.root == Root(NaN, root.props)
    ensures !trap.Get? && !TouchesRootVersion(trap) ==> r.root.version == root.version.Bump()
    ensures trap.Set? && !TouchesRootVersion(trap) ==>
              At(Data(r.root), trap.path) == Some(Assign(TargetOf(root, trap).value, trap.prop, trap.value))
    ensures trap.Delete? && !TouchesRootVersion(trap) ==>
              At(Data(r.root), trap.path) == Some(Remove(TargetOf(root, trap).value, trap.prop))
    ensures trap.Call? ==>
              var a := ApplyMethod(TargetOf(root, trap).value.elems, trap.mutator);
              At(Data(r.root), trap.path) == Some(Arr(a.elems)) && r.reply == Returned(a.ret)
  {
    var t := TargetOf(root, trap).value;
    match trap
    case Get(path, prop) =>
      if IsRootVersion(path, prop) then Outcome(root, 0, ReadReply(VersionRead(root.version)))
      else Outcome(root, 0, ReadReply(ReadProp(t, prop)))
    case Set(path, prop, value) =>
      if IsRootVersion(path, prop) then Outcome(root.(version := Finite(value.n)), 1, Accepted)
      else Outcome(Root(root.version.Bump(), Replace(root, path, Assign(t, prop, value))), 1, Accepted)
    case Delete(path, prop) =>
      if IsRootVersion(path, prop) then Outcome(root.(version := NaN), 1, Accepted)
      else Outcome(Root(root.version.Bump(), Replace(root, path, Remove(t, prop))), 1, Accepted)
    case Call(path, m) =>
      var a := ApplyMethod(t.elems, m);
      Outcome(Root(root.version.Bump(), Replace(root, path, Arr(a.elems))), 1, Returned(a.ret))
  }
}
