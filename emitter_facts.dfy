/**
  What the emitted declarations look like: the layout of the event accessor
  family, of fields and properties and of method overloads, when and in
  which order class emission fails, that member order in the input does not
  matter, that class bodies are nested one level deeper, and that the
  document starts with its header.
*/
module EmitterFacts {
  import opened Wrappers
  import opened Strings
  import opened Schema
  import opened LineBuffer
  import opened Declarations
  import opened Includes
  import opened Emitter

  // ----- Layout of chunk lists -----

  /** `Each` with a fixed number of chunks per element has length `w` per element. */
  lemma {:induction false} EachLength<T>(s: seq<T>, f: T -> seq<string>, w: nat)
    requires forall x :: |f(x)| == w
    ensures |Each(s, f)| == w * |s|
  {
    if s != [] {
      EachLength(s[..|s| - 1], f, w);
      assert w * |s| == w * (|s| - 1) + w;
    }
  }

  lemma {:induction false} EachConcat<T>(a: seq<T>, b: seq<T>, f: T -> seq<string>)
    ensures Each(a + b, f) == Each(a, f) + Each(b, f)
    decreases |b|
  {
    if b == [] {
      assert a + b == a;
    } else {
      var init := b[..|b| - 1];
      assert (a + b)[..|a + b| - 1] == a + init;
      EachConcat(a, init, f);
      ConcatAssoc(Each(a, f), Each(init, f), f(b[|b| - 1]));
    }
  }

  lemma EachOne<T>(x: T, f: T -> seq<string>)
    ensures Each([x], f) == f(x)
  {
    assert [x][..0] == [];
  }

  /** The chunks of element `i` follow the chunks of the elements before it. */
  lemma EachAt<T>(s: seq<T>, f: T -> seq<string>, i: nat, m: nat)
    requires i < |s| && m < |f(s[i])|
    ensures |Each(s[..i], f)| + m < |Each(s, f)|
    ensures Each(s, f)[|Each(s[..i], f)| + m] == f(s[i])[m]
  {
    var before, after := s[..i], s[i + 1..];
    assert s == before + [s[i]] + after;
    EachConcat(before + [s[i]], after, f);
    EachConcat(before, [s[i]], f);
    EachOne(s[i], f);
  }

  /** Elements that each give an empty chunk and one more: the second chunk of element `i` is at `2 * i + 1`. */
  lemma PairLayout<T>(s: seq<T>, f: T -> seq<string>, i: nat)
    requires forall x :: |f(x)| == 2 && f(x)[0] == ""
    ensures |Each(s, f)| == 2 * |s|
    ensures i < |s| ==> Each(s, f)[2 * i] == "" && Each(s, f)[2 * i + 1] == f(s[i])[1]
  {
    EachLength(s, f, 2);
    if i < |s| {
      EachLength(s[..i], f, 2);
      EachAt(s, f, i, 0);
      EachAt(s, f, i, 1);
    }
  }

  /** Fields: one empty chunk and one declaration per field, in ascending name order. */
  lemma FieldLayout(c: Component, i: nat)
    ensures |FieldChunks(c)| == 2 * |c.fields|
    ensures i < |c.fields| ==>
      var e := SortedEntries(c.fields)[i];
      FieldChunks(c)[2 * i] == "" && FieldChunks(c)[2 * i + 1] == CreateField(e.0, e.1)
  {
    PairLayout(SortedEntries(c.fields), FieldChunk, i);
  }

  /** Class properties: one empty chunk and one declaration per property, in ascending name order. */
  lemma PropertyLayout(c: Component, i: nat)
    ensures |PropertyChunks(c)| == 2 * |PropertiesOr(c)|
    ensures i < |PropertiesOr(c)| ==>
      var e := SortedEntries(PropertiesOr(c))[i];
      PropertyChunks(c)[2 * i] == "" && PropertyChunks(c)[2 * i + 1] == CreateProperty(e.0, e.1)
  {
    PairLayout(SortedEntries(PropertiesOr(c)), PropertyChunk, i);
  }

  /** The properties interface: the same properties in the same order, as optional members. */
  lemma InterfacePropertyLayout(c: Component, i: nat)
    ensures |InterfacePropertyChunks(c)| == 2 * |PropertiesOr(c)|
    ensures i < |PropertiesOr(c)| ==>
      var e := SortedEntries(PropertiesOr(c))[i];
      InterfacePropertyChunks(c)[2 * i] == "" && InterfacePropertyChunks(c)[2 * i + 1] == CreateInterfaceProperty(e.0, e.1)
  {
    PairLayout(SortedEntries(PropertiesOr(c)), InterfacePropertyChunk, i);
  }

  /** The overloads of a method come out in their declared order, each behind an empty chunk. */
  lemma {:induction false} OverloadLayout(name: string, list: seq<Overload>, i: nat)
    ensures |OverloadChunks(name, list)| == 2 * |list|
    ensures i < |list| ==>
      OverloadChunks(name, list)[2 * i] == "" && OverloadChunks(name, list)[2 * i + 1] == CreateMethod(name, list[i])
    decreases |list|
  {
    if list != [] {
      var init := list[..|list| - 1];
      OverloadLayout(name, init, i);
      if i < |init| {
        assert init[i] == list[i];
      }
    }
  }

  /** Fixed chunks followed by one chunk per element. */
  lemma HeadedLayout<T>(head: seq<string>, s: seq<T>, f: T -> seq<string>, i: nat)
    requires forall x :: |f(x)| == 1
    ensures |head + Each(s, f)| == |head| + |s|
    ensures i < |s| ==> (head + Each(s, f))[|head| + i] == f(s[i])[0]
  {
    EachLength(s, f, 1);
    if i < |s| {
      EachLength(s[..i], f, 1);
      EachAt(s, f, i, 0);
    }
  }

  /** The `off` part: an empty chunk, the comment, the generic `off`, then one `off` per event in ascending name order. */
  lemma OffLayout(events: Dict<Event>, i: nat)
    ensures |OffChunks(events)| == 3 + |events| && OffChunks(events)[2] == OffSignature
    ensures i < |events| ==> OffChunks(events)[3 + i] == CreateOffMethod(SortedEntries(events)[i].0)
  {
    HeadedLayout(["", CreateComment(OffComment), OffSignature], SortedEntries(events), OffChunk, i);
  }

  /** The `on` part: likewise, each listener typed by the event's parameters. */
  lemma OnLayout(events: Dict<Event>, i: nat)
    ensures |OnChunks(events)| == 3 + |events| && OnChunks(events)[2] == OnSignature
    ensures i < |events| ==>
      OnChunks(events)[3 + i] == CreateOnMethod(SortedEntries(events)[i].0, SortedEntries(events)[i].1)
  {
    HeadedLayout(["", CreateComment(OnComment), OnSignature], SortedEntries(events), OnChunk, i);
  }

  /** The `once` part: likewise. */
  lemma OnceLayout(events: Dict<Event>, i: nat)
    ensures |OnceChunks(events)| == 3 + |events| && OnceChunks(events)[2] == OnceSignature
    ensures i < |events| ==>
      OnceChunks(events)[3 + i] == CreateOnceMethod(SortedEntries(events)[i].0, SortedEntries(events)[i].1)
  {
    HeadedLayout(["", CreateComment(OnceComment), OnceSignature], SortedEntries(events), OnceChunk, i);
  }

  /**
    `addEvents` on a definition with `events`: the generic `off`, one `off`
    per event, the generic `on`, one `on` per event, the generic `once`, one
    `once` per event, then `trigger` as the last chunk; the events in
    ascending name order, and all of it even when there are no events.
  */
  lemma EventFamilyLayout(c: Component, i: nat)
    requires c.events.Some?
    ensures
      var n := |c.events.value|;
      var ev := EventChunks(c);
      |ev| == 12 + 3 * n && ev[2] == OffSignature && ev[5 + n] == OnSignature &&
      ev[8 + 2 * n] == OnceSignature && ev[11 + 3 * n] == TriggerSignature
    ensures i < |c.events.value| ==>
      var n := |c.events.value|;
      var e := SortedEntries(c.events.value)[i];
      EventChunks(c)[3 + i] == CreateOffMethod(e.0) &&
      EventChunks(c)[6 + n + i] == CreateOnMethod(e.0, e.1) &&
      EventChunks(c)[9 + 2 * n + i] == CreateOnceMethod(e.0, e.1)
  {
    var events := c.events.value;
    OffLayout(events, i);
    OnLayout(events, i);
    OnceLayout(events, i);
  }

  /** Without `events` nothing of the family is emitted. */
  lemma NoEventsNoFamily(c: Component)
    requires c.events.None?
    ensures EventChunks(c) == []
  {
  }

  /**
    The property API comes exactly with `properties`, and then it is
    `get`, `set` and the typed `set(properties: …)`, each behind its comment.
  */
  lemma PropertyApiLayout(name: string, c: Component)
    ensures PropertyApiChunks(name, c) != [] <==> c.properties.Some?
    ensures c.properties.Some? ==>
      |PropertyApiChunks(name, c)| == 9 &&
      PropertyApiChunks(name, c)[2] == GetSignature &&
      PropertyApiChunks(name, c)[5] == SetSignature &&
      PropertyApiChunks(name, c)[8] == "set(properties: " + name + "Properties): this;"
  {
  }

  // ----- Failures -----

  /** Method emission fails exactly when some `methods` entry is not an array. */
  lemma {:induction false} MethodsFailIff(s: Dict<MethodDef>)
    ensures MethodChunks(s).Err? <==> exists i :: 0 <= i < |s| && s[i].1.NotAnArray?
    decreases |s|
  {
    if s != [] {
      var init := s[..|s| - 1];
      MethodsFailIff(init);
      if exists i :: 0 <= i < |init| && init[i].1.NotAnArray? {
        var i :| 0 <= i < |init| && init[i].1.NotAnArray?;
        assert s[i] == init[i];
      }
      if exists i :: 0 <= i < |s| && s[i].1.NotAnArray? {
        var i :| 0 <= i < |s| && s[i].1.NotAnArray?;
        if i < |init| {
          assert init[i] == s[i];
        }
      }
    }
  }

  /**
    Sorting the entries keeps every key's value, so the sorted methods fail
    exactly when some method name is bound to something that is not an array.
  */
  lemma SortedMethodsFailIff(methods: Dict<MethodDef>)
    ensures MethodChunks(SortedEntries(methods)).Err? <==> exists key :: Lookup(methods, key) == Some(NotAnArray)
  {
    var sorted := SortedEntries(methods);
    MethodsFailIff(sorted);
    if exists key :: Lookup(methods, key) == Some(NotAnArray) {
      var key :| Lookup(methods, key) == Some(NotAnArray);
      var i := SortedPosition(methods, key);
      assert sorted[i].1.NotAnArray?;
    }
  }

  /** Every key of an object appears in its sorted entries. */
  lemma SortedPosition<T>(d: Dict<T>, key: string) returns (i: nat)
    requires key in Keys(d)
    ensures i < |SortedEntries(d)| && SortedEntries(d)[i].0 == key
    ensures Lookup(d, key) == Some(SortedEntries(d)[i].1)
  {
    var names := Keys(SortedEntries(d));
    assert key in multiset(Keys(d));
    assert key in multiset(names);
    i :| 0 <= i < |names| && names[i] == key;
  }

  /**
    `addClass` fails exactly when the class has nothing to document, when
    it has more than one superclass candidate, or when a method is not an
    array; and the failures are reported in that order.
  */
  lemma ClassFailures(indent: nat, name: string, c: Component)
    ensures CreateDoc(c.doc, None).None? ==> ClassLines(indent, name, c) == Err(ClassDocMissing(name))
    ensures CreateDoc(c.doc, None).Some? && GetSuperClass(name, c).Err? ==>
      ClassLines(indent, name, c) == Err(MultipleInheritance(name))
    ensures CreateDoc(c.doc, None).Some? && GetSuperClass(name, c).Ok? ==>
      (ClassLines(indent, name, c).Err? <==> exists key :: Lookup(c.methods, key) == Some(NotAnArray))
    ensures ClassLines(indent, name, c).Err? && CreateDoc(c.doc, None).Some? && GetSuperClass(name, c).Ok? ==>
      ClassLines(indent, name, c).error == MethodNotArray
  {
    SortedMethodsFailIff(c.methods);
  }

  // ----- Order independence -----

  /** Two objects with the same entries, whatever their key order. */
  ghost predicate SameEntries<T>(d1: Dict<T>, d2: Dict<T>)
  {
    DistinctKeys(d1) && DistinctKeys(d2) && forall k :: Lookup(d1, k) == Lookup(d2, k)
  }

  ghost predicate SameEntriesOr<T>(d1: Option<Dict<T>>, d2: Option<Dict<T>>)
  {
    d1.Some? == d2.Some? && (d1.Some? ==> SameEntries(d1.value, d2.value))
  }

  /** The class body and the properties interface's members are the same for both. */
  lemma BodyOrderFree(name: string, c1: Component, c2: Component)
    requires SameEntries(c1.fields, c2.fields) && SameEntries(c1.methods, c2.methods)
    requires SameEntriesOr(c1.properties, c2.properties) && SameEntriesOr(c1.events, c2.events)
    ensures ClassBody(name, c1) == ClassBody(name, c2)
    ensures InterfacePropertyChunks(c1) == InterfacePropertyChunks(c2)
  {
    SortedEntriesCanonical(c1.fields, c2.fields);
    SortedEntriesCanonical(c1.methods, c2.methods);
    if c1.properties.Some? {
      SortedEntriesCanonical(c1.properties.value, c2.properties.value);
    }
    if c1.events.Some? {
      SortedEntriesCanonical(c1.events.value, c2.events.value);
    }
  }

  /** Both headers depend on the `include` list alone. */
  lemma HeadersOrderFree(name: string, c1: Component, c2: Component)
    requires c1.includes == c2.includes
    ensures CreateClassDef(name, c1) == CreateClassDef(name, c2)
    ensures CreatePropertyInterfaceDef(name, c1) == CreatePropertyInterfaceDef(name, c2)
  {
    assert GetSuperClass(name, c1) == GetSuperClass(name, c2);
  }

  /** The class's lines depend only on its doc comment, its header and its body. */
  lemma ClassLinesOrderFree(indent: nat, name: string, c1: Component, c2: Component)
    requires c1.doc == c2.doc
    requires CreateClassDef(name, c1) == CreateClassDef(name, c2) && ClassBody(name, c1) == ClassBody(name, c2)
    ensures ClassLines(indent, name, c1) == ClassLines(indent, name, c2)
  {
    assert DeclarationLines(indent, name, c1) == DeclarationLines(indent, name, c2);
  }

  /** A type definition depends only on the class lines, the interface lines and the singleton. */
  lemma TypeDefLinesOf(indent: nat, name: string, c1: Component, c2: Component)
    requires ClassLines(indent, name, c1) == ClassLines(indent, name, c2)
    requires InterfaceLines(indent, name, c1) == InterfaceLines(indent, name, c2)
    requires c1.singleton == c2.singleton
    ensures TypeDefLines(indent, name, c1) == TypeDefLines(indent, name, c2)
  {
    assert InstanceLines(indent, name, c1) == InstanceLines(indent, name, c2);
  }

  /**
    The class declaration, the properties interface and the instance do
    not depend on the key order of `fields`, `methods`, `properties` and
    `events`: everything is emitted in sorted key order.
  */
  lemma TypeDefOrderFree(indent: nat, name: string, c1: Component, c2: Component)
    requires c1.doc == c2.doc && c1.includes == c2.includes && c1.singleton == c2.singleton
    requires SameEntries(c1.fields, c2.fields) && SameEntries(c1.methods, c2.methods)
    requires SameEntriesOr(c1.properties, c2.properties) && SameEntriesOr(c1.events, c2.events)
    ensures TypeDefLines(indent, name, c1) == TypeDefLines(indent, name, c2)
  {
    HeadersOrderFree(name, c1, c2);
    BodyOrderFree(name, c1, c2);
    ClassLinesOrderFree(indent, name, c1, c2);
    TypeDefLinesOf(indent, name, c1, c2);
  }

  // ----- Nesting -----

  /** Every line a level-`indent` append writes is empty or starts with that level's indentation. */
  lemma {:induction false} RenderIndented(indent: nat, chunks: seq<string>, i: nat)
    requires i < |Render(indent, chunks)|
    ensures Render(indent, chunks)[i] == [] || Repeat("  ", indent) <= Render(indent, chunks)[i]
    decreases |chunks|
  {
    var head := Block(indent, chunks[0]);
    assert Render(indent, chunks) == head + Render(indent, chunks[1..]);
    if i < |head| {
      BlockRoundTrip(indent, chunks[0]);
    } else {
      RenderIndented(indent, chunks[1..], i - |head|);
    }
  }

  /** The closing brace is one line at the given level. */
  lemma ClosingBrace(indent: nat)
    ensures Block(indent, "}") == [Repeat("  ", indent) + "}"]
  {
    SplitWithout("}", '\n');
  }

  /**
    `addClass` and `addPropertyInterface` write the header at the level
    they were called at, then the members one level deeper (every line
    empty or indented by one more level), then the closing brace back at
    the starting level.
  */
  lemma NestedShape(indent: nat, header: string, chunks: seq<string>, i: nat)
    ensures
      var top := Block(indent, header);
      var lines := Nested(indent, header, chunks);
      |top| < |lines| && lines[..|top|] == top && lines[|lines| - 1] == Repeat("  ", indent) + "}" &&
      (|top| <= i < |lines| - 1 ==> lines[i] == [] || Repeat("  ", indent + 1) <= lines[i])
  {
    var top := Block(indent, header);
    var body := Render(indent + 1, chunks);
    ClosingBrace(indent);
    var lines := top + body + Block(indent, "}");
    assert lines[..|top|] == top;
    if |top| <= i < |lines| - 1 {
      NestedBody(top, body, Block(indent, "}"), i);
      RenderIndented(indent + 1, chunks, i - |top|);
    }
  }

  lemma NestedBody(top: seq<string>, body: seq<string>, close: seq<string>, i: nat)
    requires |top| <= i < |top| + |body|
    ensures (top + body + close)[i] == body[i - |top|]
  {
  }

  // ----- The document -----

  /** Joining lines that start with a header's own lines starts with the header and a newline. */
  lemma HeaderFirst(header: string, b: seq<string>, c: seq<string>, d: seq<string>)
    requires |b| >= 1
    ensures header + "\n" <= Join(Block(0, header) + b + c + d, "\n")
  {
    var top := Block(0, header);
    var rest := b + c + d;
    assert top + b + c + d == top + rest;
    BlockAtZero(header);
    JoinSplit(header, '\n');
    JoinConcat(top, rest, "\n");
    var text := Join(top + rest, "\n");
    assert text == (header + "\n") + Join(rest, "\n");
  }

  /**
    Emitting a list succeeds exactly when every element emits; otherwise the
    error is that of the first element that fails.
  */
  lemma {:induction false} EachOkIff<T>(s: seq<T>, f: T -> Result<seq<string>, Error>)
    ensures EachOk(s, f).Ok? <==> forall i :: 0 <= i < |s| ==> f(s[i]).Ok?
    ensures EachOk(s, f).Err? ==>
      exists i :: 0 <= i < |s| && EachOk(s, f) == f(s[i]) && forall j :: 0 <= j < i ==> f(s[j]).Ok?
    decreases |s|
  {
    if s != [] {
      var t := s[..|s| - 1];
      EachOkIff(t, f);
      assert forall i :: 0 <= i < |t| ==> t[i] == s[i];
      if EachOk(t, f).Err? {
        var i :| 0 <= i < |t| && EachOk(t, f) == f(t[i]) && forall j :: 0 <= j < i ==> f(t[j]).Ok?;
        assert EachOk(s, f) == f(s[i]);
      } else if f(s[|s| - 1]).Err? {
        assert EachOk(s, f) == f(s[|s| - 1]);
      }
    }
  }

  /**
    The declaration file is produced exactly when the includes resolve and
    every resolved definition emits; when resolution succeeds but the file
    is not produced, the error is that of the first definition, in key
    order, that fails.
  */
  lemma DocumentFailures(S: Dict<Component>, header: string, rank: map<string, nat>)
    requires RankedBy(S, rank)
    ensures Document(S, header, rank).Ok? <==>
      Resolve(S, [NativeObject], rank, 0).Ok? &&
      var R := Resolve(S, [NativeObject], rank, 0).value;
      forall k :: 0 <= k < |R| ==> TypeDefLines(0, R[k].0, R[k].1).Ok?
    ensures Document(S, header, rank).Err? && Resolve(S, [NativeObject], rank, 0).Ok? ==>
      var R := Resolve(S, [NativeObject], rank, 0).value;
      exists k :: 0 <= k < |R| && TypeDefLines(0, R[k].0, R[k].1).Err? &&
        Document(S, header, rank) == Err(TypeDefLines(0, R[k].0, R[k].1).error) &&
        forall j :: 0 <= j < k ==> TypeDefLines(0, R[j].0, R[j].1).Ok?
  {
    if Resolve(S, [NativeObject], rank, 0).Ok? {
      var R := Resolve(S, [NativeObject], rank, 0).value;
      TypeDefsFailures(R);
    }
  }

  lemma TypeDefsFailures(R: Dict<Component>)
    ensures TypeDefsLines(0, R).Ok? <==> forall k :: 0 <= k < |R| ==> TypeDefLines(0, R[k].0, R[k].1).Ok?
    ensures TypeDefsLines(0, R).Err? ==>
      exists k :: 0 <= k < |R| && TypeDefsLines(0, R) == TypeDefLines(0, R[k].0, R[k].1) &&
        forall j :: 0 <= j < k ==> TypeDefLines(0, R[j].0, R[j].1).Ok?
  {
    var f := TypeDefOf(0);
    EachOkIff(R, f);
    assert forall k :: 0 <= k < |R| ==> f(R[k]) == TypeDefLines(0, R[k].0, R[k].1);
  }

  /** The declaration file starts with the header, on lines of its own. */
  lemma DocumentStartsWithHeader(S: Dict<Component>, header: string, rank: map<string, nat>)
    requires RankedBy(S, rank)
    ensures Document(S, header, rank).Ok? ==> header + "\n" <= Document(S, header, rank).value
  {
    if Document(S, header, rank).Ok? {
      var lines := TypeDefsLines(0, Resolve(S, [NativeObject], rank, 0).value).value;
      HeaderFirst(header, Block(0, ""), lines, Block(0, ""));
    }
  }
}
