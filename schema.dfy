/**
  The component definitions the generator reads, one JSON document per
  component, as typed records.

  A JSON object is an association list `Dict<T>` whose order is the key
  insertion order of the JavaScript object. Where JavaScript tests a string
  for truthiness (`def.description`, `def.returns`, `def.object`) the empty
  string stands for an absent key. A string the generator prints without a
  test (a `type`, a parameter's `name` or `type`) prints as `undefined` when
  absent, so such an input stands as the string "undefined". Keys whose
  absence differs from an empty value in the generator (`include`,
  `properties`, `events`) are `Option`s.
*/
module Schema {
  import opened Wrappers
  import opened Strings

  type Dict<T> = seq<(string, T)>

  /** The universal base every component may include; never a superclass. */
  const NativeObject := "NativeObject"

  /** A parameter of a method overload or of an event listener. */
  datatype Param = Param(name: string, typeExpr: string, description: string)

  /** What `createDoc` reads from a definition. */
  datatype DocInfo = DocInfo(description: string, isStatic: bool, provisional: bool)

  /** A field or property: its type, its literal `values` (empty when absent) and its documentation. */
  datatype Member = Member(typeExpr: string, values: seq<string>, doc: DocInfo)

  /** One overload of a method; an empty `returnType` stands for an absent `returns`. */
  datatype Overload = Overload(parameters: seq<Param>, returnType: string, doc: DocInfo)

  /** The value of a `methods` entry: an array of overloads, or any other JSON value. */
  datatype MethodDef = Overloads(list: seq<Overload>) | NotAnArray

  datatype Event = Event(parameters: seq<Param>)

  /** One component document; `singleton` is the `object` key, empty when absent. */
  datatype Component = Component(
    doc: DocInfo,
    includes: Option<seq<string>>,
    fields: Dict<Member>,
    methods: Dict<MethodDef>,
    properties: Option<Dict<Member>>,
    events: Option<Dict<Event>>,
    singleton: string)

  /** The fatal conditions that abort generation. */
  datatype Error =
    | MultipleInheritance(name: string)  // more than one include besides NativeObject
    | MethodNotArray                     // a `methods` entry that is not an array
    | ClassDocMissing(name: string)      // a class with nothing to document: `append(undefined)` throws
    | UnknownInclude(name: string)       // an include in the frontier with no definition

  /** `Object.keys(d)`. */
  function Keys<T>(d: Dict<T>): (r: seq<string>)
    ensures |r| == |d|
    ensures forall i :: 0 <= i < |d| ==> r[i] == d[i].0
  {
    seq(|d|, i requires 0 <= i < |d| => d[i].0)
  }

  ghost predicate DistinctKeys<T>(d: Dict<T>)
  {
    Distinct(Keys(d))
  }

  /** `d[k]`: the value of the first entry with key `k`. */
  function Lookup<T>(d: Dict<T>, k: string): (r: Option<T>)
    ensures r.Some? <==> k in Keys(d)
  {
    if d == [] then None
    else if d[0].0 == k then Some(d[0].1)
    else
      assert Keys(d) == [d[0].0] + Keys(d[1..]);
      Lookup(d[1..], k)
  }

  function Get<T>(d: Dict<T>, k: string): T
    requires k in Keys(d)
  {
    Lookup(d, k).value
  }

  /** With distinct keys, the lookup of an entry's key finds that entry. */
  lemma {:induction false} LookupAt<T>(d: Dict<T>, j: nat)
    requires DistinctKeys(d) && j < |d|
    ensures Lookup(d, d[j].0) == Some(d[j].1)
  {
    if j > 0 {
      assert Keys(d[1..]) == Keys(d)[1..];
      LookupAt(d[1..], j - 1);
    }
  }

  /** A lookup that finds a value found it at some entry with that key. */
  lemma {:induction false} LookupFound<T>(d: Dict<T>, k: string, v: T)
    requires Lookup(d, k) == Some(v)
    ensures exists j :: 0 <= j < |d| && d[j] == (k, v)
  {
    if d[0].0 != k {
      LookupFound(d[1..], k, v);
      var j :| 0 <= j < |d[1..]| && d[1..][j] == (k, v);
      assert d[j + 1] == (k, v);
    }
  }

  /** Replacing the value of entry `i` changes the lookup of its key only. */
  lemma {:induction false} LookupUpdate<T>(d: Dict<T>, i: nat, v: T, k: string)
    requires DistinctKeys(d) && i < |d|
    ensures Lookup(d[i := (d[i].0, v)], k) == if k == d[i].0 then Some(v) else Lookup(d, k)
  {
    var d' := d[i := (d[i].0, v)];
    assert Keys(d') == Keys(d);
    if k == d[i].0 {
      LookupAt(d', i);
    } else if i > 0 && d[0].0 != k {
      assert d'[1..] == d[1..][i - 1 := (d[i].0, v)];
      assert Keys(d[1..]) == Keys(d)[1..];
      LookupUpdate(d[1..], i - 1, v, k);
    } else if i == 0 {
      assert d'[1..] == d[1..];
    }
  }

  /** Looking up in a concatenation looks in the first part first. */
  lemma {:induction false} LookupConcat<T>(a: Dict<T>, b: Dict<T>, k: string)
    ensures Lookup(a + b, k) == if k in Keys(a) then Lookup(a, k) else Lookup(b, k)
  {
    if a != [] {
      assert (a + b)[1..] == a[1..] + b;
      assert Keys(a) == [a[0].0] + Keys(a[1..]);
      LookupConcat(a[1..], b, k);
    } else {
      assert a + b == b;
    }
  }

  /**
    `Object.keys(d).sort()` paired with the values: the entries in the order
    the generator emits them.
  */
  function SortedEntries<T>(d: Dict<T>): (r: Dict<T>)
    ensures |r| == |d| && Sorted(Keys(r))
    ensures multiset(Keys(r)) == multiset(Keys(d))
    ensures forall i :: 0 <= i < |r| ==> Lookup(d, r[i].0) == Some(r[i].1)
  {
    var names := Sort(Keys(d));
    assert forall i :: 0 <= i < |names| ==> names[i] in Keys(d) by {
      forall i | 0 <= i < |names| ensures names[i] in Keys(d) {
        assert names[i] in multiset(names);
      }
    }
    var r := seq(|names|, i requires 0 <= i < |names| => (names[i], Get(d, names[i])));
    assert Keys(r) == names;
    r
  }

  /**
    The emitted order does not depend on the key order of the input object:
    two objects with the same entries are emitted alike, in strictly
    ascending key order.
  */
  lemma SortedEntriesCanonical<T>(d1: Dict<T>, d2: Dict<T>)
    requires DistinctKeys(d1) && DistinctKeys(d2)
    requires forall k :: Lookup(d1, k) == Lookup(d2, k)
    ensures SortedEntries(d1) == SortedEntries(d2)
    ensures Ascending(Keys(SortedEntries(d1)))
  {
    SameKeysSameOrder(d1, d2);
    SortDistinct(Keys(d1));
    var r1, r2 := SortedEntries(d1), SortedEntries(d2);
    forall i | 0 <= i < |r1| ensures r1[i] == r2[i] {
      assert Keys(r1)[i] == Keys(r2)[i];
      assert Lookup(d1, r1[i].0) == Lookup(d2, r2[i].0);
    }
  }

  lemma SameKeysSameOrder<T>(d1: Dict<T>, d2: Dict<T>)
    requires DistinctKeys(d1) && DistinctKeys(d2)
    requires forall k :: Lookup(d1, k) == Lookup(d2, k)
    ensures Keys(SortedEntries(d1)) == Keys(SortedEntries(d2)) == Sort(Keys(d1))
  {
    var s1 := set x | x in Keys(d1);
    var s2 := set x | x in Keys(d2);
    forall x ensures x in s1 <==> x in s2 {
      assert Lookup(d1, x).Some? == Lookup(d2, x).Some?;
    }
    assert s1 == s2;
    DistinctMultiset(Keys(d1));
    DistinctMultiset(Keys(d2));
    SortCanonical(Keys(d1), Keys(d2));
    SortedUnique(Keys(SortedEntries(d1)), Sort(Keys(d1)));
    SortedUnique(Keys(SortedEntries(d2)), Sort(Keys(d2)));
  }

  /** The entries of `a` with each value replaced by `b`'s where `b` has the key. */
  function Overwrite<T>(a: Dict<T>, b: Dict<T>): (r: Dict<T>)
    ensures Keys(r) == Keys(a)
  {
    if a == [] then []
    else
      var v := if a[0].0 in Keys(b) then Get(b, a[0].0) else a[0].1;
      var r := [(a[0].0, v)] + Overwrite(a[1..], b);
      assert [a[0]] + a[1..] == a;
      KeysAppend([a[0]], a[1..]);
      KeysAppend([(a[0].0, v)], Overwrite(a[1..], b));
      r
  }

  /** The entries of `b` whose keys `a` lacks, in `b`'s order. */
  function Fresh<T>(b: Dict<T>, a: Dict<T>): (r: Dict<T>)
    ensures forall k :: k in Keys(r) <==> k in Keys(b) && k !in Keys(a)
  {
    if b == [] then []
    else
      var head: Dict<T> := if b[0].0 in Keys(a) then [] else [b[0]];
      var r := head + Fresh(b[1..], a);
      assert [b[0]] + b[1..] == b;
      KeysAppend([b[0]], b[1..]);
      KeysAppend(head, Fresh(b[1..], a));
      r
  }

  lemma KeysAppend<T>(x: Dict<T>, y: Dict<T>)
    ensures Keys(x + y) == Keys(x) + Keys(y)
  {
  }

  /**
    `Object.assign({}, a, b)`: `a`'s keys in their order, then the keys only
    `b` has; on a key both have, `b`'s value.
  */
  function Assign<T>(a: Dict<T>, b: Dict<T>): Dict<T>
  {
    Overwrite(a, b) + Fresh(b, a)
  }

  lemma {:induction false} LookupOverwrite<T>(a: Dict<T>, b: Dict<T>, k: string)
    requires k in Keys(a)
    ensures Lookup(Overwrite(a, b), k) == if k in Keys(b) then Lookup(b, k) else Lookup(a, k)
  {
    if a[0].0 != k {
      assert Keys(a) == [a[0].0] + Keys(a[1..]);
      LookupOverwrite(a[1..], b, k);
    }
  }

  lemma {:induction false} LookupFresh<T>(b: Dict<T>, a: Dict<T>, k: string)
    requires k !in Keys(a)
    ensures Lookup(Fresh(b, a), k) == Lookup(b, k)
  {
    if b != [] {
      var rest := Fresh(b[1..], a);
      LookupFresh(b[1..], a, k);
      if b[0].0 !in Keys(a) {
        assert Fresh(b, a) == [b[0]] + rest;
        assert ([b[0]] + rest)[1..] == rest;
      } else {
        assert Fresh(b, a) == rest;
        assert b[0].0 != k;
      }
    }
  }

  /**
    What `Object.assign({}, a, b)` holds: every key of either object, with
    `b`'s value winning on a key both have.
  */
  lemma AssignLookup<T>(a: Dict<T>, b: Dict<T>, k: string)
    ensures Lookup(Assign(a, b), k) == if k in Keys(b) then Lookup(b, k) else Lookup(a, k)
  {
    LookupConcat(Overwrite(a, b), Fresh(b, a), k);
    if k in Keys(a) {
      LookupOverwrite(a, b, k);
    } else {
      LookupFresh(b, a, k);
    }
  }
}
