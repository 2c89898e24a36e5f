/** Small value types shared by every module: optional values, results with an
    error channel, the three-state option argument that Python writes with a
    `DEFAULT` sentinel, and the ordered dictionaries the exporters build. */
module Base {

  datatype Option<+T> = None | Some(value: T)

  /** A computation that either succeeds or raises; usable with `:-`. */
  datatype Result<+T, +E> = Ok(value: T) | Err(error: E) {
    predicate IsFailure() { Err? }
    function PropagateFailure<U>(): Result<U, E>
      requires Err?
    {
      Err(error)
    }
    function Extract(): T
      requires Ok?
    {
      value
    }
  }

  /** An option argument of `to_dict`/`to_schema`: either the module-level
      `DEFAULT` sentinel object, or any other value passed by the caller
      (which may itself be `None` or `False`). */
  datatype Opt<+T> = Default | Given(v: T)

  /** `_default(arg, value)`: the sentinel falls back to the class policy,
      anything else is used exactly as given. */
  function Resolve<T>(arg: Opt<T>, policy: T): (r: T)
    ensures arg.Default? ==> r == policy
    ensures arg.Given? ==> r == arg.v
  {
    match arg
    case Default => policy
    case Given(v) => v
  }

  /** A Python dict with string keys, in insertion order. */
  type Entries<V> = seq<(string, V)>

  function Keys<V>(d: Entries<V>): (ks: seq<string>)
    ensures |ks| == |d|
    ensures forall i :: 0 <= i < |d| ==> ks[i] == d[i].0
  {
    if d == [] then [] else [d[0].0] + Keys(d[1..])
  }

  /** `d[k] = v`: an existing key keeps its position and takes the new value,
      a new key goes to the end. */
  function Put<V>(d: Entries<V>, k: string, v: V): Entries<V>
  {
    if d == [] then [(k, v)]
    else if d[0].0 == k then [(k, v)] + d[1..]
    else [d[0]] + Put(d[1..], k, v)
  }

  /** The value a key maps to, if any. */
  function Lookup<V>(d: Entries<V>, k: string): Option<V>
  {
    if d == [] then None
    else if d[0].0 == k then Some(d[0].1)
    else Lookup(d[1..], k)
  }

  lemma {:induction false} PutKeys<V>(d: Entries<V>, k: string, v: V)
    ensures Keys(Put(d, k, v)) == if k in Keys(d) then Keys(d) else Keys(d) + [k]
  {
    if d != [] && d[0].0 != k {
      PutKeys(d[1..], k, v);
      assert Keys(d) == [d[0].0] + Keys(d[1..]);
      assert Put(d, k, v) == [d[0]] + Put(d[1..], k, v);
    }
  }

  lemma {:induction false} PutLookup<V>(d: Entries<V>, k: string, v: V, k': string)
    ensures Lookup(Put(d, k, v), k') == if k' == k then Some(v) else Lookup(d, k')
  {
    if d != [] && d[0].0 != k {
      PutLookup(d[1..], k, v, k');
    }
  }

  /** Keys of `a` sit, in order, at the start of the keys of `b`. */
  predicate KeyPrefix<V>(a: Entries<V>, b: Entries<V>)
  {
    Keys(a) <= Keys(b)
  }

  lemma KeyPrefixMember<V>(a: Entries<V>, b: Entries<V>, k: string)
    requires KeyPrefix(a, b) && k in Keys(a)
    ensures k in Keys(b)
  {
    var i :| 0 <= i < |Keys(a)| && Keys(a)[i] == k;
    assert Keys(b)[i] == k;
  }

  lemma PutExtends<V>(d: Entries<V>, k: string, v: V)
    ensures KeyPrefix(d, Put(d, k, v))
  {
    PutKeys(d, k, v);
  }
}
