/** The Ruby values that reach the sheet's translators: cell contents,
    formatting descriptions and grid properties. A Hash is its sequence of
    entries in insertion order (Ruby keeps that order and keys are distinct);
    symbol keys are written as their names. */
module RubyHash {

  datatype Obj =
    | Nil
    | True
    | False
    | Int(i: int)
    | Float(f: real)
    | Str(s: string)
    | Sym(name: string)
    | Hash(entries: seq<(string, Obj)>)
    | Other(description: string)  // any other object (an Array, a Date, ...)

  /** Ruby truthiness: everything except `nil` and `false`. */
  predicate Truthy(v: Obj) {
    !v.Nil? && !v.False?
  }

  function Keys<V>(entries: seq<(string, V)>): (ks: seq<string>)
    ensures |ks| == |entries|
    ensures forall i :: 0 <= i < |entries| ==> ks[i] == entries[i].0
  {
    if entries == [] then [] else [entries[0].0] + Keys(entries[1..])
  }

  /** `hash[key]`: the value of the first entry with that key, nil when there is none. */
  function Lookup(entries: seq<(string, Obj)>, key: string): (v: Obj)
    ensures (forall i :: 0 <= i < |entries| ==> entries[i].0 != key) ==> v == Nil
    ensures forall i :: 0 <= i < |entries| && entries[i].0 == key && (forall j :: 0 <= j < i ==> entries[j].0 != key)
              ==> v == entries[i].1
  {
    if entries == [] then Nil
    else if entries[0].0 == key then entries[0].1
    else Lookup(entries[1..], key)
  }

  /** `hash.except(key)`: the entries with any other key, in their order. */
  function Except(entries: seq<(string, Obj)>, key: string): (r: seq<(string, Obj)>)
    ensures |r| <= |entries|
    ensures forall e :: e in r <==> e in entries && e.0 != key
  {
    if entries == [] then []
    else (if entries[0].0 == key then [] else [entries[0]]) + Except(entries[1..], key)
  }

  /** On one entry, `except` keeps it exactly when its key is another. */
  lemma ExceptOne(e: (string, Obj), key: string)
    ensures Except([e], key) == if e.0 == key then [] else [e]
  {
    assert [e][1..] == [];
  }

  /** `except` keeps the order and the multiplicity of what it keeps: a split
      of the hash splits its result the same way, so with `ExceptOne` it
      works entry by entry. */
  lemma {:induction false} ExceptAppend(a: seq<(string, Obj)>, b: seq<(string, Obj)>, key: string)
    ensures Except(a + b, key) == Except(a, key) + Except(b, key)
  {
    if a == [] {
      assert a + b == b;
    } else {
      assert (a + b)[0] == a[0] && (a + b)[1..] == a[1..] + b;
      ExceptCons(a + b, key);
      ExceptCons(a, key);
      ExceptAppend(a[1..], b, key);
      PrependAppend(if a[0].0 == key then [] else [a[0]],
                    Except(a[1..], key), Except(b, key),
                    Except(a + b, key), Except(a[1..] + b, key), Except(a, key));
    }
  }

  // `h + (x + y) == (h + x) + y`, on names, so that the solver meets no other facts.
  lemma PrependAppend<T>(h: seq<T>, x: seq<T>, y: seq<T>, whole: seq<T>, tail: seq<T>, left: seq<T>)
    requires whole == h + tail && tail == x + y && left == h + x
    ensures whole == left + y
  {
  }

  // One step of `except`.
  lemma ExceptCons(entries: seq<(string, Obj)>, key: string)
    requires entries != []
    ensures Except(entries, key)
         == (if entries[0].0 == key then [] else [entries[0]]) + Except(entries[1..], key)
  {
  }

  /** `except` removes exactly the one key. */
  lemma {:induction false} ExceptKeys(entries: seq<(string, Obj)>, key: string)
    ensures forall k :: k in Keys(Except(entries, key)) <==> k in Keys(entries) && k != key
  {
    if entries != [] {
      var rest := Except(entries[1..], key);
      ExceptKeys(entries[1..], key);
      assert Keys(entries) == [entries[0].0] + Keys(entries[1..]);
      if entries[0].0 == key {
        assert Except(entries, key) == [] + rest == rest;
      } else {
        assert Except(entries, key) == [entries[0]] + rest;
        assert Keys([entries[0]] + rest) == [entries[0].0] + Keys(rest);
      }
    }
  }

  /** `hash.merge(key => v)`: an existing key keeps its place and takes the
      new value; a new key goes at the end. */
  function Store(entries: seq<(string, Obj)>, key: string, v: Obj): (r: seq<(string, Obj)>)
    ensures Lookup(r, key) == v
    ensures forall k :: k != key ==> Lookup(r, k) == Lookup(entries, k)
    ensures Keys(r) == if key in Keys(entries) then Keys(entries) else Keys(entries) + [key]
  {
    if entries == [] then [(key, v)]
    else if entries[0].0 == key then
      var r := [(key, v)] + entries[1..];
      assert r[1..] == entries[1..];
      assert Keys(r) == [key] + Keys(entries[1..]);
      assert Keys(entries) == [key] + Keys(entries[1..]);
      r
    else
      var rest := Store(entries[1..], key, v);
      var r := [entries[0]] + rest;
      assert r[1..] == rest;
      assert Keys(entries) == [entries[0].0] + Keys(entries[1..]);
      assert Keys(r) == [entries[0].0] + Keys(rest);
      r
  }

  /** Merging the same pair twice is merging it once. */
  lemma {:induction false} StoreIdempotent(entries: seq<(string, Obj)>, key: string, v: Obj)
    ensures Store(Store(entries, key, v), key, v) == Store(entries, key, v)
  {
    if entries != [] && entries[0].0 != key {
      StoreIdempotent(entries[1..], key, v);
      assert ([entries[0]] + Store(entries[1..], key, v))[1..] == Store(entries[1..], key, v);
    }
  }
}
