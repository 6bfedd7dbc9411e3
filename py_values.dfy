/** The Python values that reach the merge of YAML and command-line arguments,
    and the few built-ins the merge applies to them: `type`, `isinstance`,
    `getattr`, `hasattr` and `setattr` on a `SimpleNamespace`. */
module PyValues {
  import opened Wrappers

  /** A value as the JSON round trip of the parsed YAML document produces it,
      or as a command-line parser stores it. Floats are opaque tokens (their
      literal text): the merge compares types, never numbers. A nested mapping
      is a namespace, kept as its attributes in insertion order. */
  datatype Value =
    | VBool(b: bool)
    | VInt(i: int)
    | VFloat(literal: string)
    | VStr(s: string)
    | VNone
    | VList(items: seq<Value>)
    | VNs(fields: seq<(string, Value)>)

  /** The attributes of a `SimpleNamespace`, in the order `vars()` lists them. */
  type Namespace = seq<(string, Value)>

  /** The runtime classes of the values above. */
  datatype PyType = Bool | Int | Float | Str | NoneType | List | SimpleNamespace

  /** `type(v)` */
  function TypeOf(v: Value): PyType
  {
    match v
    case VBool(_) => Bool
    case VInt(_) => Int
    case VFloat(_) => Float
    case VStr(_) => Str
    case VNone => NoneType
    case VList(_) => List
    case VNs(_) => SimpleNamespace
  }

  /** `t.__name__` */
  function TypeName(t: PyType): string
  {
    match t
    case Bool => "bool"
    case Int => "int"
    case Float => "float"
    case Str => "str"
    case NoneType => "NoneType"
    case List => "list"
    case SimpleNamespace => "SimpleNamespace"
  }

  /** `isinstance(v, t)`: among these classes the only subclass relation is
      that `bool` derives from `int`. */
  predicate IsInstance(v: Value, t: PyType)
  {
    TypeOf(v) == t || (TypeOf(v) == Bool && t == Int)
  }

  /** The attribute names of a namespace, in order. */
  function Keys(ns: Namespace): seq<string>
  {
    seq(|ns|, i requires 0 <= i < |ns| => ns[i].0)
  }

  /** A namespace never holds the same attribute twice. */
  predicate Distinct(ns: Namespace)
  {
    forall i, j :: 0 <= i < j < |ns| ==> ns[i].0 != ns[j].0
  }

  /** `hasattr(ns, key)` */
  predicate HasAttr(ns: Namespace, key: string)
  {
    exists i :: 0 <= i < |ns| && ns[i].0 == key
  }

  /** The position of attribute `key`, if the namespace has it. */
  function IndexOf(ns: Namespace, key: string): (r: Option<nat>)
    ensures r.Some? ==> r.value < |ns| && ns[r.value].0 == key
    ensures r.Some? ==> forall j :: 0 <= j < r.value ==> ns[j].0 != key
    ensures r.None? <==> !HasAttr(ns, key)
    decreases |ns|
  {
    if ns == [] then None
    else if ns[0].0 == key then Some(0)
    else
      match IndexOf(ns[1..], key)
      case None => None
      case Some(j) => Some(j + 1)
  }

  /** `getattr(ns, key, None)`: an absent attribute reads as None. */
  function GetAttr(ns: Namespace, key: string): (r: Value)
    ensures !HasAttr(ns, key) ==> r == VNone
    ensures HasAttr(ns, key) ==>
      exists i :: 0 <= i < |ns| && ns[i] == (key, r) && forall j :: 0 <= j < i ==> ns[j].0 != key
  {
    match IndexOf(ns, key)
    case Some(i) => ns[i].1
    case None => VNone
  }

  /** `setattr(ns, key, v)`: a new attribute goes last, an existing one keeps
      its place and takes the new value. */
  function SetAttr(ns: Namespace, key: string, v: Value): (r: Namespace)
    ensures !HasAttr(ns, key) ==> r == ns + [(key, v)]
    ensures HasAttr(ns, key) ==> Keys(r) == Keys(ns)
    ensures GetAttr(r, key) == v
    ensures forall k :: k != key ==> GetAttr(r, k) == GetAttr(ns, k)
    ensures Distinct(ns) ==> Distinct(r)
  {
    match IndexOf(ns, key)
    case Some(i) =>
      var r := ns[i := (key, v)];
      assert forall j :: 0 <= j < |ns| ==> r[j].0 == ns[j].0;
      forall k ensures IndexOf(r, k) == IndexOf(ns, k) {
        IndexOfFollowsKeys(r, ns, k);
      }
      r
    case None =>
      var r := ns + [(key, v)];
      forall k ensures IndexOf(r, k) == if k == key then Some(|ns|) else IndexOf(ns, k) {
        IndexOfAppend(ns, (key, v), k);
      }
      r
  }

  /** Appending an attribute leaves every earlier position where it was. */
  lemma IndexOfAppend(ns: Namespace, entry: (string, Value), key: string)
    ensures IndexOf(ns + [entry], key) ==
      if HasAttr(ns, key) then IndexOf(ns, key)
      else if entry.0 == key then Some(|ns|)
      else None
  {
    var a := ns + [entry];
    assert forall j :: 0 <= j < |ns| ==> a[j] == ns[j];
    var r, t := IndexOf(a, key), IndexOf(ns, key);
    if t.Some? {
      assert a[t.value].0 == key;
      assert r.Some?;
      assert !(r.value < t.value) && !(t.value < r.value);
    } else if entry.0 == key {
      assert a[|ns|].0 == key;
      assert r.Some?;
      assert !(r.value < |ns|);
    } else {
      assert !HasAttr(a, key);
    }
  }

  /** Where an attribute sits depends on the attribute names alone. */
  lemma IndexOfFollowsKeys(a: Namespace, b: Namespace, key: string)
    requires |a| == |b|
    requires forall j :: 0 <= j < |a| ==> a[j].0 == b[j].0
    ensures IndexOf(a, key) == IndexOf(b, key)
  {
  }

  /** In a namespace with distinct attributes, `getattr` finds each stored value. */
  lemma GetAttrAt(ns: Namespace, i: nat)
    requires Distinct(ns) && i < |ns|
    ensures HasAttr(ns, ns[i].0)
    ensures GetAttr(ns, ns[i].0) == ns[i].1
  {
  }
}
