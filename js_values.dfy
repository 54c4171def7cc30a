/**
 * The slice of JavaScript's value model that the page builder touches:
 * primitive values, their truthiness, loose comparison with null, and plain
 * objects used as property bags (React props), together with the three object
 * operations the builder and its components perform on them: reading a
 * property, rest-destructuring a property away, and spreading one object into
 * another.
 */
module JsValues {

  /** A JavaScript value. Functions and other objects (click handlers, React
      nodes) are opaque and told apart only by identity. */
  datatype Value =
    | Undefined
    | Null
    | Bool(b: bool)
    | Num(n: int)
    | Str(s: string)
    | Object(id: nat)

  /** ToBoolean: the test `x || y` applies to `x`. The falsy values are
      undefined, null, false, 0 and the empty string. */
  predicate Truthy(v: Value)
    ensures Truthy(v) <==> v != Undefined && v != Null && v != Bool(false) && v != Num(0) && v != Str("")
  {
    match v
    case Undefined => false
    case Null => false
    case Bool(b) => b
    case Num(n) => n != 0
    case Str(s) => s != ""
    case Object(_) => true
  }

  /** `v != null` with loose inequality: false exactly for null and undefined. */
  predicate NotNullish(v: Value)
    ensures NotNullish(v) <==> v != Undefined && v != Null
    ensures !NotNullish(v) ==> !Truthy(v)
  {
    !v.Undefined? && !v.Null?
  }

  type Entry = (string, Value)

  /** A plain object as the ordered list of its own enumerable properties, in
      the order `Object.entries` and object spread visit them. */
  type Props = seq<Entry>

  /** The object's own keys. */
  function Keys(p: Props): set<string> {
    if p == [] then {} else {p[0].0} + Keys(p[1..])
  }

  predicate Has(p: Props, k: string) {
    k in Keys(p)
  }

  /** A real JavaScript object never holds the same key twice. */
  predicate DistinctKeys(p: Props) {
    p == [] || (p[0].0 !in Keys(p[1..]) && DistinctKeys(p[1..]))
  }

  /** The keys, read off position by position. */
  lemma {:induction false} KeysAt(p: Props)
    ensures Keys(p) == set i | 0 <= i < |p| :: p[i].0
  {
    if p != [] {
      KeysAt(p[1..]);
      assert forall i :: 0 < i < |p| ==> p[i] == p[1..][i - 1];
      assert forall j :: 0 <= j < |p[1..]| ==> p[1..][j] == p[j + 1];
    }
  }

  /** Distinct keys, checked pair by pair. */
  lemma {:induction false} DistinctKeysAt(p: Props)
    ensures DistinctKeys(p) <==> forall i, j :: 0 <= i < j < |p| ==> p[i].0 != p[j].0
  {
    if p != [] {
      DistinctKeysAt(p[1..]);
      KeysAt(p[1..]);
      assert forall i :: 0 < i < |p| ==> p[i] == p[1..][i - 1];
      assert forall j :: 0 <= j < |p[1..]| ==> p[1..][j] == p[j + 1];
    }
  }

  /** `a` lists some of the entries of `b`, in the order `b` has them. */
  ghost predicate Subsequence(a: Props, b: Props) {
    if a == [] then true
    else if b == [] then false
    else if a[0] == b[0] then Subsequence(a[1..], b[1..])
    else Subsequence(a, b[1..])
  }

  /** Reading property `k`: its value, or undefined when the object lacks it. */
  function Get(p: Props, k: string): (v: Value)
    ensures !Has(p, k) ==> v == Undefined
    ensures Has(p, k) ==> (k, v) in p
    ensures DistinctKeys(p) ==> forall e :: e in p && e.0 == k ==> e.1 == v
  {
    if p == [] then Undefined
    else if p[0].0 == k then
      (assert DistinctKeys(p) ==> forall e :: e in p[1..] ==> e.0 != k by {
         if DistinctKeys(p) { NotHasMember(p[1..], k); }
       }
       p[0].1)
    else Get(p[1..], k)
  }

  lemma {:induction false} NotHasMember(p: Props, k: string)
    requires !Has(p, k)
    ensures forall e :: e in p ==> e.0 != k
  {
    if p != [] {
      NotHasMember(p[1..], k);
      assert forall e :: e in p ==> e == p[0] || e in p[1..];
    }
  }

  /** Rest destructuring `const { k, ...rest } = p`: `rest` holds every other
      own property of `p`, in `p`'s order. */
  function Remove(p: Props, k: string): (r: Props)
    ensures forall e :: e in r <==> e in p && e.0 != k
    ensures Keys(r) == Keys(p) - {k}
    ensures forall j :: j != k ==> Get(r, j) == Get(p, j)
    ensures Subsequence(r, p)
    ensures DistinctKeys(p) ==> DistinctKeys(r)
  {
    if p == [] then []
    else
      var tail := Remove(p[1..], k);
      if p[0].0 == k then tail
      else
        assert ([p[0]] + tail)[1..] == tail;
        [p[0]] + tail
  }

  /** Property assignment `p[k] = v`: an existing key keeps its place and takes
      the new value; a new key is added last. */
  function Assign(p: Props, k: string, v: Value): (r: Props)
    ensures Get(r, k) == v
    ensures forall j :: j != k ==> Get(r, j) == Get(p, j)
    ensures Keys(r) == Keys(p) + {k}
    ensures Has(p, k) ==> |r| == |p| && forall i :: 0 <= i < |p| ==> r[i].0 == p[i].0
    ensures !Has(p, k) ==> r == p + [(k, v)]
    ensures DistinctKeys(p) ==> DistinctKeys(r)
  {
    if p == [] then [(k, v)]
    else if p[0].0 == k then
      assert ([(k, v)] + p[1..])[1..] == p[1..];
      [(k, v)] + p[1..]
    else
      var tail := Assign(p[1..], k, v);
      assert ([p[0]] + tail)[1..] == tail;
      assert p == [p[0]] + p[1..];
      [p[0]] + tail
  }

  /** Object spread `{ ...a, ...b }`: the properties of `b`, in order, assigned
      onto a copy of `a`. */
  function Spread(a: Props, b: Props): (r: Props)
    ensures Keys(r) == Keys(a) + Keys(b)
    ensures DistinctKeys(b) ==> forall k :: Get(r, k) == if Has(b, k) then Get(b, k) else Get(a, k)
    ensures |a| <= |r| && forall i :: 0 <= i < |a| ==> r[i].0 == a[i].0
    ensures DistinctKeys(a) ==> DistinctKeys(r)
    decreases |b|
  {
    if b == [] then a
    else Spread(Assign(a, b[0].0, b[0].1), b[1..])
  }
}
