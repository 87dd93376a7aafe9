/**
  The emitters: they write each component into the `Text` buffer, the class
  declaration with its members and accessors, the properties interface and
  the singleton instance, and `createTypeDefs` puts the whole declaration
  file together.

  Like the code's `add…` functions, each emitter is a method of this module
  that takes the buffer as its `result: Text` parameter. It is specified by
  the chunks it appends to `result` (a chunk is one `append` argument, split
  into lines and indented at the buffer's level); the chunk functions are
  the specification the lemmas below are about.
*/
module Emitter {
  import opened Wrappers
  import opened Strings
  import opened Schema
  import opened LineBuffer
  import opened Declarations
  import opened Includes

  // ----- Fixed text -----

  const OffComment: seq<string> := [
    "Removes all occurrences of *listener* that are bound to *event* and *context* from this widget.",
    "If the context parameter is not present, all matching listeners will be removed.",
    "If the listener parameter is not present, all listeners that are bound to *event* will be removed.",
    "If the event parameter is not present, all listeners for all events will be removed from this widget.",
    "Supports chaining.",
    "@param event",
    "@param listener",
    "@param context"]
  const OffSignature := "off(event?: string, listener?: Function, context?: this): this;"

  const OnComment: seq<string> := [
    "Adds a *listener* to the list of functions to be notified when *event* is fired. If the context",
    "parameter is not present, the listener will be called in the context of this object. Supports",
    "chaining.",
    "@param event",
    "@param listener",
    "@param context? In the listener function, `this` will point to this object."]
  const OnSignature := "on(event: string, listener: Function, context?: this): this;"

  const OnceComment: seq<string> := [
    "Same as `on`, but removes the listener after it has been invoked by an event. Supports chaining.",
    "@param event",
    "@param listener",
    "@param context? In the listener function, `this` will point to this object."]
  const OnceSignature := "once(event: string, listener: Function, context?: this): this;"

  const TriggerComment: seq<string> := [
    "Triggers an event of the given type. All registered listeners will be notified. Additional parameters",
    "will be passed to the listeners.",
    "@param event",
    "@param ...params"]
  const TriggerSignature := "trigger(event: string, ...params: any[]): this;"

  const GetComment: seq<string> := [
    "Gets the current value of the given *property*.",
    "@param property"]
  const GetSignature := "get(property: string): any;"

  const SetComment: seq<string> := [
    "Sets the given property. Supports chaining.",
    "@param property",
    "@param value"]
  const SetSignature := "set(property: string, value: any): this;"

  const SetAllComment: seq<string> := [
    "Sets all key-value pairs in the properties object as widget properties. Supports chaining.",
    "@param properties"]

  function SetAllSignature(name: string): string
  {
    "set(properties: " + name + "Properties): this;"
  }

  // ----- Chunks -----

  /** The chunks `f` gives for each element of `s`, in order. */
  function Each<T>(s: seq<T>, f: T -> seq<string>): seq<string>
  {
    if s == [] then [] else Each(s[..|s| - 1], f) + f(s[|s| - 1])
  }

  function FieldChunk(e: (string, Member)): seq<string>
  {
    ["", CreateField(e.0, e.1)]
  }

  function PropertyChunk(e: (string, Member)): seq<string>
  {
    ["", CreateProperty(e.0, e.1)]
  }

  function InterfacePropertyChunk(e: (string, Member)): seq<string>
  {
    ["", CreateInterfaceProperty(e.0, e.1)]
  }

  function OffChunk(e: (string, Event)): seq<string>
  {
    [CreateOffMethod(e.0)]
  }

  function OnChunk(e: (string, Event)): seq<string>
  {
    [CreateOnMethod(e.0, e.1)]
  }

  function OnceChunk(e: (string, Event)): seq<string>
  {
    [CreateOnceMethod(e.0, e.1)]
  }

  /** `def.properties || []`. */
  function PropertiesOr(c: Component): Dict<Member>
  {
    if c.properties.Some? then c.properties.value else []
  }

  function ConstructorChunks(name: string): seq<string>
  {
    ["", "constructor(properties?: " + name + "Properties);"]
  }

  function FieldChunks(c: Component): seq<string>
  {
    Each(SortedEntries(c.fields), FieldChunk)
  }

  /** The overloads of one method, in declared order. */
  function OverloadChunks(name: string, list: seq<Overload>): seq<string>
  {
    if list == [] then [] else OverloadChunks(name, list[..|list| - 1]) + ["", CreateMethod(name, list[|list| - 1])]
  }

  /** The methods in the given (sorted) order; the first entry that is not an array is an error. */
  function MethodChunks(s: Dict<MethodDef>): (r: Result<seq<string>, Error>)
    ensures r.Err? ==> r.error == MethodNotArray
  {
    if s == [] then Ok([])
    else
      match MethodChunks(s[..|s| - 1])
      case Err(e) => Err(e)
      case Ok(before) =>
        match s[|s| - 1].1
        case NotAnArray => Err(MethodNotArray)
        case Overloads(list) => Ok(before + OverloadChunks(s[|s| - 1].0, list))
  }

  function OffChunks(events: Dict<Event>): seq<string>
  {
    ["", CreateComment(OffComment), OffSignature] + Each(SortedEntries(events), OffChunk)
  }

  function OnChunks(events: Dict<Event>): seq<string>
  {
    ["", CreateComment(OnComment), OnSignature] + Each(SortedEntries(events), OnChunk)
  }

  function OnceChunks(events: Dict<Event>): seq<string>
  {
    ["", CreateComment(OnceComment), OnceSignature] + Each(SortedEntries(events), OnceChunk)
  }

  function TriggerChunks(): seq<string>
  {
    ["", CreateComment(TriggerComment), TriggerSignature]
  }

  /** `addEvents`: the whole accessor family whenever `events` is present, even when it is empty. */
  function EventChunks(c: Component): seq<string>
  {
    if c.events.Some? then
      OffChunks(c.events.value) + OnChunks(c.events.value) + OnceChunks(c.events.value) + TriggerChunks()
    else []
  }

  function PropertyApiChunks(name: string, c: Component): seq<string>
  {
    if c.properties.Some? then
      ["", CreateComment(GetComment), GetSignature,
       "", CreateComment(SetComment), SetSignature,
       "", CreateComment(SetAllComment), SetAllSignature(name)]
    else []
  }

  function PropertyChunks(c: Component): seq<string>
  {
    Each(SortedEntries(PropertiesOr(c)), PropertyChunk)
  }

  function InterfacePropertyChunks(c: Component): seq<string>
  {
    Each(SortedEntries(PropertiesOr(c)), InterfacePropertyChunk)
  }

  /** Everything between the class header and its closing brace. */
  function ClassBody(name: string, c: Component): Result<seq<string>, Error>
  {
    match MethodChunks(SortedEntries(c.methods))
    case Err(e) => Err(e)
    case Ok(methods) =>
      Ok(ConstructorChunks(name) + FieldChunks(c) + methods + EventChunks(c) + PropertyApiChunks(name, c) + PropertyChunks(c))
  }

  // ----- Lines -----

  /** `addClass` at the given level; the first error in source order wins. */
  function ClassLines(indent: nat, name: string, c: Component): Result<seq<string>, Error>
  {
    match CreateDoc(c.doc, None)
    case None => Err(ClassDocMissing(name))
    case Some(doc) =>
      match DeclarationLines(indent, name, c)
      case Err(e) => Err(e)
      case Ok(declaration) => Ok(Block(indent, doc) + declaration)
  }

  /** What `addClass` writes after the doc comment: the header, the body one level deeper, the closing brace. */
  function DeclarationLines(indent: nat, name: string, c: Component): Result<seq<string>, Error>
  {
    match CreateClassDef(name, c)
    case Err(e) => Err(e)
    case Ok(header) =>
      match ClassBody(name, c)
      case Err(e) => Err(e)
      case Ok(body) => Ok(Nested(indent, header, body))
  }

  /** A header line, chunks one level deeper, and the closing brace back at the header's level. */
  function Nested(indent: nat, header: string, chunks: seq<string>): seq<string>
  {
    Block(indent, header) + Render(indent + 1, chunks) + Block(indent, "}")
  }

  function InterfaceLines(indent: nat, name: string, c: Component): seq<string>
  {
    Nested(indent, CreatePropertyInterfaceDef(name, c), InterfacePropertyChunks(c))
  }

  function InstanceLines(indent: nat, name: string, c: Component): seq<string>
  {
    if c.singleton != "" then Render(indent, ["", "declare let " + c.singleton + ": " + name + ";"]) else []
  }

  function TypeDefLines(indent: nat, name: string, c: Component): Result<seq<string>, Error>
  {
    match ClassLines(indent, name, c)
    case Err(e) => Err(e)
    case Ok(cls) =>
      Ok(Block(indent, "// " + name) + Block(indent, "") + cls + Block(indent, "")
         + InterfaceLines(indent, name, c) + InstanceLines(indent, name, c) + Block(indent, ""))
  }

  /** The lines `f` gives for each element of `s`, in order; the first error decides. */
  function EachOk<T>(s: seq<T>, f: T -> Result<seq<string>, Error>): Result<seq<string>, Error>
  {
    if s == [] then Ok([])
    else
      match EachOk(s[..|s| - 1], f)
      case Err(e) => Err(e)
      case Ok(before) =>
        match f(s[|s| - 1])
        case Err(e) => Err(e)
        case Ok(lines) => Ok(before + lines)
  }

  function TypeDefOf(indent: nat): ((string, Component)) -> Result<seq<string>, Error>
  {
    (d: (string, Component)) => TypeDefLines(indent, d.0, d.1)
  }

  /** The definitions in their own (insertion) order; the first failing one decides the error. */
  function TypeDefsLines(indent: nat, defs: Dict<Component>): Result<seq<string>, Error>
  {
    EachOk(defs, TypeDefOf(indent))
  }

  /** `createTypeDefs(defs)` with the header text as a parameter. */
  ghost function Document(S: Dict<Component>, header: string, rank: map<string, nat>): Result<string, Error>
    requires RankedBy(S, rank)
  {
    match Resolve(S, [NativeObject], rank, 0)
    case Err(e) => Err(e)
    case Ok(R) =>
      match TypeDefsLines(0, R)
      case Err(e) => Err(e)
      case Ok(lines) => Ok(Join(Block(0, header) + Block(0, "") + lines + Block(0, ""), "\n"))
  }

  // ----- Rendering steps -----

  lemma RenderPair(indent: nat, a: string, b: string)
    ensures Render(indent, [a, b]) == Block(indent, a) + Block(indent, b)
  {
    RenderOne(indent, b);
    assert [a, b][1..] == [b];
    assert Render(indent, [a, b]) == Block(indent, a) + Render(indent, [b]);
  }

  lemma RenderOne(indent: nat, a: string)
    ensures Render(indent, [a]) == Block(indent, a)
  {
    assert [a][1..] == [];
    assert Render(indent, [a]) == Block(indent, a) + Render(indent, []);
  }

  lemma EachStep<T>(s: seq<T>, i: nat, f: T -> seq<string>)
    requires i < |s|
    ensures Each(s[..i + 1], f) == Each(s[..i], f) + f(s[i])
  {
    assert s[..i + 1][..i] == s[..i];
  }

  lemma OverloadStep(indent: nat, name: string, list: seq<Overload>, j: nat)
    requires j < |list|
    ensures OverloadChunks(name, list[..j + 1]) == OverloadChunks(name, list[..j]) + ["", CreateMethod(name, list[j])]
  {
    assert list[..j + 1][..j] == list[..j];
  }

  // ----- Emitters -----

  method AddConstructor(result: Text, name: string)
    modifies result
    ensures result.indent == old(result.indent)
    ensures result.lines == old(result.lines) + Render(result.indent, ConstructorChunks(name))
  {
    result.Append("");
    result.Append("constructor(properties?: " + name + "Properties);");
    RenderPair(result.indent, "", "constructor(properties?: " + name + "Properties);");
  }

  /** One `append` per chunk, in order. */
  method AppendChunks(result: Text, chunks: seq<string>)
    modifies result
    ensures result.indent == old(result.indent)
    ensures result.lines == old(result.lines) + Render(result.indent, chunks)
  {
    for j := 0 to |chunks|
      invariant result.indent == old(result.indent)
      invariant result.lines == old(result.lines) + Render(result.indent, chunks[..j])
    {
      ghost var before := result.lines;
      result.Append(chunks[j]);
      RenderOne(result.indent, chunks[j]);
      RunThenLoop(result.indent, old(result.lines), before, result.lines, chunks[..j], [chunks[j]]);
      assert chunks[..j + 1] == chunks[..j] + [chunks[j]];
    }
    assert chunks[..|chunks|] == chunks;
  }

  /**
    `Object.keys(d).sort().forEach(callback)` where the callback appends the
    chunks `f` gives for the entry.
  */
  method ForEachAppend<T>(result: Text, s: seq<T>, f: T -> seq<string>)
    modifies result
    ensures result.indent == old(result.indent)
    ensures result.lines == old(result.lines) + Render(result.indent, Each(s, f))
  {
    for i := 0 to |s|
      invariant result.indent == old(result.indent)
      invariant result.lines == old(result.lines) + Render(result.indent, Each(s[..i], f))
    {
      ghost var before := result.lines;
      AppendChunks(result, f(s[i]));
      RunThenLoop(result.indent, old(result.lines), before, result.lines, Each(s[..i], f), f(s[i]));
      EachStep(s, i, f);
    }
    assert s[..|s|] == s;
  }

  method AddFields(result: Text, c: Component)
    modifies result
    ensures result.indent == old(result.indent)
    ensures result.lines == old(result.lines) + Render(result.indent, FieldChunks(c))
  {
    ForEachAppend(result, SortedEntries(c.fields), FieldChunk);
  }

  lemma {:induction false} MethodsErrSticky(s: Dict<MethodDef>, i: nat)
    requires i <= |s| && MethodChunks(s[..i]).Err?
    ensures MethodChunks(s).Err?
    decreases |s| - i
  {
    if i < |s| {
      var t := s[..|s| - 1];
      assert t[..i] == s[..i];
      MethodsErrSticky(t, i);
    } else {
      assert s[..i] == s;
    }
  }

  /** `def.methods[name].forEach(...)`: every overload behind an empty line, in declared order. */
  method AddOverloads(result: Text, name: string, list: seq<Overload>)
    modifies result
    ensures result.indent == old(result.indent)
    ensures result.lines == old(result.lines) + Render(result.indent, OverloadChunks(name, list))
  {
    for j := 0 to |list|
      invariant result.indent == old(result.indent)
      invariant result.lines == old(result.lines) + Render(result.indent, OverloadChunks(name, list[..j]))
    {
      ghost var mid := result.lines;
      AppendChunks(result, ["", CreateMethod(name, list[j])]);
      OverloadStep(result.indent, name, list, j);
      RunThenLoop(result.indent, old(result.lines), mid, result.lines,
        OverloadChunks(name, list[..j]), ["", CreateMethod(name, list[j])]);
    }
    assert list[..|list|] == list;
  }

  /** The sorted method loop of `addMethods`, each overload behind an empty line. */
  method AddMethodList(result: Text, s: Dict<MethodDef>) returns (outcome: Outcome<Error>)
    modifies result
    ensures result.indent == old(result.indent)
    ensures MethodChunks(s).Err? ==> outcome == Fail(MethodNotArray)
    ensures MethodChunks(s).Ok? ==>
      outcome == Pass && result.lines == old(result.lines) + Render(result.indent, MethodChunks(s).value)
  {
    ghost var emitted: seq<string> := [];
    for i := 0 to |s|
      invariant result.indent == old(result.indent)
      invariant MethodChunks(s[..i]) == Ok(emitted)
      invariant result.lines == old(result.lines) + Render(result.indent, emitted)
    {
      assert s[..i + 1][..i] == s[..i];
      var name := s[i].0;
      match s[i].1
      case NotAnArray =>
        MethodsErrSticky(s, i + 1);
        return Fail(MethodNotArray);
      case Overloads(list) =>
        ghost var start := result.lines;
        AddOverloads(result, name, list);
        RunThenLoop(result.indent, old(result.lines), start, result.lines, emitted, OverloadChunks(name, list));
        emitted := emitted + OverloadChunks(name, list);
    }
    assert s[..|s|] == s;
    outcome := Pass;
  }

  /** `addMethods`: a method whose definition is not an array aborts the generation. */
  method AddMethods(result: Text, c: Component) returns (outcome: Outcome<Error>)
    modifies result
    ensures result.indent == old(result.indent)
    ensures MethodChunks(SortedEntries(c.methods)).Err? ==> outcome == Fail(MethodNotArray)
    ensures MethodChunks(SortedEntries(c.methods)).Ok? ==>
      outcome == Pass && result.lines == old(result.lines) + Render(result.indent, MethodChunks(SortedEntries(c.methods)).value)
  {
    outcome := AddMethodList(result, SortedEntries(c.methods));
  }

  /** A fixed run of appends followed by a sorted loop. */
  lemma RunThenLoop(indent: nat, before: seq<string>, mid: seq<string>, after: seq<string>, fixed: seq<string>, loop: seq<string>)
    requires mid == before + Render(indent, fixed) && after == mid + Render(indent, loop)
    ensures after == before + Render(indent, fixed + loop)
  {
    var x, y := Render(indent, fixed), Render(indent, loop);
    ConcatAssoc(before, x, y);
    RenderConcat(indent, fixed, loop);
  }

  method AddOffMethods(result: Text, events: Dict<Event>)
    modifies result
    ensures result.indent == old(result.indent)
    ensures result.lines == old(result.lines) + Render(result.indent, OffChunks(events))
  {
    AppendChunks(result, ["", CreateComment(OffComment), OffSignature]);
    ghost var mid := result.lines;
    ForEachAppend(result, SortedEntries(events), OffChunk);
    RunThenLoop(result.indent, old(result.lines), mid, result.lines,
      ["", CreateComment(OffComment), OffSignature], Each(SortedEntries(events), OffChunk));
  }

  method AddOnMethods(result: Text, events: Dict<Event>)
    modifies result
    ensures result.indent == old(result.indent)
    ensures result.lines == old(result.lines) + Render(result.indent, OnChunks(events))
  {
    AppendChunks(result, ["", CreateComment(OnComment), OnSignature]);
    ghost var mid := result.lines;
    ForEachAppend(result, SortedEntries(events), OnChunk);
    RunThenLoop(result.indent, old(result.lines), mid, result.lines,
      ["", CreateComment(OnComment), OnSignature], Each(SortedEntries(events), OnChunk));
  }

  method AddOnceMethods(result: Text, events: Dict<Event>)
    modifies result
    ensures result.indent == old(result.indent)
    ensures result.lines == old(result.lines) + Render(result.indent, OnceChunks(events))
  {
    AppendChunks(result, ["", CreateComment(OnceComment), OnceSignature]);
    ghost var mid := result.lines;
    ForEachAppend(result, SortedEntries(events), OnceChunk);
    RunThenLoop(result.indent, old(result.lines), mid, result.lines,
      ["", CreateComment(OnceComment), OnceSignature], Each(SortedEntries(events), OnceChunk));
  }

  method AddTriggerMethod(result: Text)
    modifies result
    ensures result.indent == old(result.indent)
    ensures result.lines == old(result.lines) + Render(result.indent, TriggerChunks())
  {
    AppendChunks(result, ["", CreateComment(TriggerComment), TriggerSignature]);
  }

  method AddEvents(result: Text, c: Component)
    modifies result
    ensures result.indent == old(result.indent)
    ensures result.lines == old(result.lines) + Render(result.indent, EventChunks(c))
  {
    if c.events.Some? {
      var events := c.events.value;
      AddOffMethods(result, events);
      ghost var l1 := result.lines;
      AddOnMethods(result, events);
      RunThenLoop(result.indent, old(result.lines), l1, result.lines, OffChunks(events), OnChunks(events));
      ghost var l2 := result.lines;
      AddOnceMethods(result, events);
      RunThenLoop(result.indent, old(result.lines), l2, result.lines, OffChunks(events) + OnChunks(events), OnceChunks(events));
      ghost var l3 := result.lines;
      AddTriggerMethod(result);
      RunThenLoop(result.indent, old(result.lines), l3, result.lines,
        OffChunks(events) + OnChunks(events) + OnceChunks(events), TriggerChunks());
    } else {
      assert Render(result.indent, []) == [];
      assert result.lines == old(result.lines) + [];
    }
  }

  method AddPropertyApi(result: Text, c: Component, name: string)
    modifies result
    ensures result.indent == old(result.indent)
    ensures result.lines == old(result.lines) + Render(result.indent, PropertyApiChunks(name, c))
  {
    if c.properties.Some? {
      AppendChunks(result, ["", CreateComment(GetComment), GetSignature,
                            "", CreateComment(SetComment), SetSignature,
                            "", CreateComment(SetAllComment), SetAllSignature(name)]);
    } else {
      assert Render(result.indent, []) == [];
      assert result.lines == old(result.lines) + [];
    }
  }

  method AddProperties(result: Text, c: Component)
    modifies result
    ensures result.indent == old(result.indent)
    ensures result.lines == old(result.lines) + Render(result.indent, PropertyChunks(c))
  {
    ForEachAppend(result, SortedEntries(PropertiesOr(c)), PropertyChunk);
  }

  /** Three consecutive writes, as one. */
  lemma Bracketed(l0: seq<string>, l1: seq<string>, l2: seq<string>, l3: seq<string>,
                  a: seq<string>, b: seq<string>, c: seq<string>)
    requires l1 == l0 + a && l2 == l1 + b && l3 == l2 + c
    ensures l3 == l0 + ((a + b) + c)
  {
  }

  lemma Chain7(o: seq<string>, a: seq<string>, b: seq<string>, c: seq<string>, d: seq<string>,
               e: seq<string>, f: seq<string>, g: seq<string>)
    ensures ((((((o + a) + b) + c) + d) + e) + f) + g == o + ((((((a + b) + c) + d) + e) + f) + g)
  {
  }

  /**
    `addClass`: the doc comment, the header, the body one level deeper and
    the closing brace at the entry level. A class with nothing to document
    fails, because `append(undefined)` throws; so do multiple inheritance and
    a method that is not an array.
  */
  method AddClass(result: Text, c: Component, name: string) returns (outcome: Outcome<Error>)
    modifies result
    ensures ClassLines(old(result.indent), name, c).Err? ==>
      outcome == Fail(ClassLines(old(result.indent), name, c).error)
    ensures ClassLines(old(result.indent), name, c).Ok? ==>
      outcome == Pass && result.indent == old(result.indent) &&
      result.lines == old(result.lines) + ClassLines(old(result.indent), name, c).value
  {
    var doc := CreateDoc(c.doc, None);
    if doc.None? {
      return Fail(ClassDocMissing(name));
    }
    result.Append(doc.value);
    ghost var l0 := result.lines;
    outcome := AddDeclaration(result, c, name);
    ConcatAssoc(old(result.lines), Block(result.indent, doc.value), if DeclarationLines(result.indent, name, c).Ok? then DeclarationLines(result.indent, name, c).value else []);
  }

  /** The part of `addClass` after the doc comment. */
  method AddDeclaration(result: Text, c: Component, name: string) returns (outcome: Outcome<Error>)
    modifies result
    ensures DeclarationLines(old(result.indent), name, c).Err? ==>
      outcome == Fail(DeclarationLines(old(result.indent), name, c).error)
    ensures DeclarationLines(old(result.indent), name, c).Ok? ==>
      outcome == Pass && result.indent == old(result.indent) &&
      result.lines == old(result.lines) + DeclarationLines(old(result.indent), name, c).value
  {
    ghost var indent := result.indent;
    DeclarationFailures(indent, name, c);
    var header := CreateClassDef(name, c);
    if header.Err? {
      return Fail(header.error);
    }
    result.Append(header.value);
    ghost var top := result.lines;
    result.indent := result.indent + 1;
    ghost var inner := result.indent;
    outcome := AddClassBody(result, c, name);
    if outcome.Fail? {
      return;
    }
    ghost var l1 := result.lines;
    result.indent := result.indent - 1;
    result.Append("}");
    DeclarationAssembled(indent, inner, name, c, header.value, old(result.lines), top, l1, result.lines);
  }

  lemma DeclarationFailures(indent: nat, name: string, c: Component)
    ensures CreateClassDef(name, c).Err? ==> DeclarationLines(indent, name, c) == Err(CreateClassDef(name, c).error)
    ensures CreateClassDef(name, c).Ok? && ClassBody(name, c).Err? ==>
      DeclarationLines(indent, name, c) == Err(ClassBody(name, c).error)
  {
  }

  lemma DeclarationAssembled(indent: nat, inner: nat, name: string, c: Component, header: string,
                             l0: seq<string>, top: seq<string>, l1: seq<string>, l2: seq<string>)
    requires CreateClassDef(name, c) == Ok(header) && ClassBody(name, c).Ok? && inner == indent + 1
    requires top == l0 + Block(indent, header)
    requires l1 == top + Render(inner, ClassBody(name, c).value)
    requires l2 == l1 + Block(indent, "}")
    ensures DeclarationLines(indent, name, c).Ok? && l2 == l0 + DeclarationLines(indent, name, c).value
  {
    Bracketed(l0, top, l1, l2, Block(indent, header), Render(indent + 1, ClassBody(name, c).value), Block(indent, "}"));
  }

  /** The class body: constructor, fields, methods, events, property API and properties. */
  method AddClassBody(result: Text, c: Component, name: string) returns (outcome: Outcome<Error>)
    modifies result
    ensures result.indent == old(result.indent)
    ensures ClassBody(name, c).Err? ==> outcome == Fail(ClassBody(name, c).error)
    ensures ClassBody(name, c).Ok? ==>
      outcome == Pass && result.lines == old(result.lines) + Render(result.indent, ClassBody(name, c).value)
  {
    AddConstructor(result, name);
    ghost var l1 := result.lines;
    AddFields(result, c);
    ghost var l2 := result.lines;
    outcome := AddMethods(result, c);
    if outcome.Fail? {
      return;
    }
    ghost var l3 := result.lines;
    AddEvents(result, c);
    ghost var l4 := result.lines;
    AddPropertyApi(result, c, name);
    ghost var l5 := result.lines;
    AddProperties(result, c);
    BodyAssembled(result.indent, name, c, old(result.lines), l1, l2, l3, l4, l5, result.lines);
  }

  /** The six emitters of the class body, one after the other. */
  lemma BodyAssembled(indent: nat, name: string, c: Component,
                      l0: seq<string>, l1: seq<string>, l2: seq<string>, l3: seq<string>,
                      l4: seq<string>, l5: seq<string>, l6: seq<string>)
    requires MethodChunks(SortedEntries(c.methods)).Ok?
    requires l1 == l0 + Render(indent, ConstructorChunks(name))
    requires l2 == l1 + Render(indent, FieldChunks(c))
    requires l3 == l2 + Render(indent, MethodChunks(SortedEntries(c.methods)).value)
    requires l4 == l3 + Render(indent, EventChunks(c))
    requires l5 == l4 + Render(indent, PropertyApiChunks(name, c))
    requires l6 == l5 + Render(indent, PropertyChunks(c))
    ensures ClassBody(name, c).Ok? && l6 == l0 + Render(indent, ClassBody(name, c).value)
  {
    var body := ConstructorChunks(name);
    RunThenLoop(indent, l0, l1, l2, body, FieldChunks(c));
    body := body + FieldChunks(c);
    RunThenLoop(indent, l0, l2, l3, body, MethodChunks(SortedEntries(c.methods)).value);
    body := body + MethodChunks(SortedEntries(c.methods)).value;
    RunThenLoop(indent, l0, l3, l4, body, EventChunks(c));
    body := body + EventChunks(c);
    RunThenLoop(indent, l0, l4, l5, body, PropertyApiChunks(name, c));
    body := body + PropertyApiChunks(name, c);
    RunThenLoop(indent, l0, l5, l6, body, PropertyChunks(c));
  }

  /** `addPropertyInterface`: the header, the optional members one level deeper, the closing brace. */
  method AddPropertyInterface(result: Text, c: Component, name: string)
    modifies result
    ensures result.indent == old(result.indent)
    ensures result.lines == old(result.lines) + InterfaceLines(old(result.indent), name, c)
  {
    ghost var indent := result.indent;
    result.Append(CreatePropertyInterfaceDef(name, c));
    ghost var l1 := result.lines;
    result.indent := result.indent + 1;
    ghost var inner := result.indent;
    ForEachAppend(result, SortedEntries(PropertiesOr(c)), InterfacePropertyChunk);
    ghost var l2 := result.lines;
    result.indent := result.indent - 1;
    result.Append("}");
    InterfaceAssembled(indent, inner, name, c, old(result.lines), l1, l2, result.lines);
  }

  lemma InterfaceAssembled(indent: nat, inner: nat, name: string, c: Component,
                           l0: seq<string>, l1: seq<string>, l2: seq<string>, l3: seq<string>)
    requires inner == indent + 1
    requires l1 == l0 + Block(indent, CreatePropertyInterfaceDef(name, c))
    requires l2 == l1 + Render(inner, InterfacePropertyChunks(c))
    requires l3 == l2 + Block(indent, "}")
    ensures l3 == l0 + InterfaceLines(indent, name, c)
  {
    Bracketed(l0, l1, l2, l3, Block(indent, CreatePropertyInterfaceDef(name, c)),
      Render(indent + 1, InterfacePropertyChunks(c)), Block(indent, "}"));
  }

  /** `addInstance`: the `declare let` of a singleton object. */
  method AddInstance(result: Text, c: Component, name: string)
    modifies result
    ensures result.indent == old(result.indent)
    ensures result.lines == old(result.lines) + InstanceLines(result.indent, name, c)
  {
    if c.singleton != "" {
      AppendChunks(result, ["", "declare let " + c.singleton + ": " + name + ";"]);
    } else {
      assert result.lines == old(result.lines) + [];
    }
  }

  /** `createTypeDef`: a comment with the name, the class, the properties interface and the instance. */
  method CreateTypeDef(result: Text, c: Component, name: string) returns (outcome: Outcome<Error>)
    modifies result
    ensures TypeDefLines(old(result.indent), name, c).Err? ==>
      outcome == Fail(TypeDefLines(old(result.indent), name, c).error)
    ensures TypeDefLines(old(result.indent), name, c).Ok? ==>
      outcome == Pass && result.indent == old(result.indent) &&
      result.lines == old(result.lines) + TypeDefLines(old(result.indent), name, c).value
  {
    ghost var indent := result.indent;
    result.Append("// " + name);
    ghost var l1 := result.lines;
    result.Append("");
    ghost var l2 := result.lines;
    outcome := AddClass(result, c, name);
    if outcome.Fail? {
      return;
    }
    ghost var l3 := result.lines;
    result.Append("");
    ghost var l4 := result.lines;
    AddPropertyInterface(result, c, name);
    ghost var l5 := result.lines;
    AddInstance(result, c, name);
    ghost var l6 := result.lines;
    result.Append("");
    TypeDefAssembled(indent, name, c, old(result.lines), l1, l2, l3, l4, l5, l6, result.lines);
  }

  lemma TypeDefAssembled(indent: nat, name: string, c: Component, l0: seq<string>, l1: seq<string>,
                         l2: seq<string>, l3: seq<string>, l4: seq<string>, l5: seq<string>,
                         l6: seq<string>, l7: seq<string>)
    requires ClassLines(indent, name, c).Ok?
    requires l1 == l0 + Block(indent, "// " + name)
    requires l2 == l1 + Block(indent, "")
    requires l3 == l2 + ClassLines(indent, name, c).value
    requires l4 == l3 + Block(indent, "")
    requires l5 == l4 + InterfaceLines(indent, name, c)
    requires l6 == l5 + InstanceLines(indent, name, c)
    requires l7 == l6 + Block(indent, "")
    ensures TypeDefLines(indent, name, c).Ok? && l7 == l0 + TypeDefLines(indent, name, c).value
  {
    Chain7(l0, Block(indent, "// " + name), Block(indent, ""), ClassLines(indent, name, c).value,
      Block(indent, ""), InterfaceLines(indent, name, c), InstanceLines(indent, name, c), Block(indent, ""));
  }

  lemma {:induction false} EachOkErrSticky<T>(s: seq<T>, f: T -> Result<seq<string>, Error>, i: nat)
    requires i <= |s| && EachOk(s[..i], f).Err?
    ensures EachOk(s, f) == EachOk(s[..i], f)
    decreases |s| - i
  {
    if i < |s| {
      var t := s[..|s| - 1];
      assert t[..i] == s[..i];
      EachOkErrSticky(t, f, i);
    } else {
      assert s[..i] == s;
    }
  }

  /** One more element after the first `i`. */
  lemma EachOkStep<T>(s: seq<T>, f: T -> Result<seq<string>, Error>, i: nat, emitted: seq<string>, lines: seq<string>)
    requires i < |s| && EachOk(s[..i], f) == Ok(emitted) && f(s[i]) == Ok(lines)
    ensures EachOk(s[..i + 1], f) == Ok(emitted + lines)
  {
    assert s[..i + 1][..i] == s[..i];
  }

  /** An element that fails fails the whole sequence. */
  lemma EachOkFail<T>(s: seq<T>, f: T -> Result<seq<string>, Error>, i: nat)
    requires i < |s| && EachOk(s[..i], f).Ok? && f(s[i]).Err?
    ensures EachOk(s, f) == Err(f(s[i]).error)
  {
    assert s[..i + 1][..i] == s[..i];
    EachOkErrSticky(s, f, i + 1);
  }

  /** The loop of `createTypeDefs`: every definition in its own order; the first error aborts. */
  method AddTypeDefs(result: Text, defs: Dict<Component>) returns (outcome: Outcome<Error>)
    modifies result
    ensures TypeDefsLines(old(result.indent), defs).Err? ==>
      outcome == Fail(TypeDefsLines(old(result.indent), defs).error)
    ensures TypeDefsLines(old(result.indent), defs).Ok? ==>
      outcome == Pass && result.indent == old(result.indent) &&
      result.lines == old(result.lines) + TypeDefsLines(old(result.indent), defs).value
  {
    ghost var indent := result.indent;
    ghost var f := TypeDefOf(indent);
    ghost var emitted: seq<string> := [];
    assert defs[..0] == [];
    for i := 0 to |defs|
      invariant result.indent == indent
      invariant EachOk(defs[..i], f) == Ok(emitted)
      invariant result.lines == old(result.lines) + emitted
    {
      var step := CreateTypeDef(result, defs[i].1, defs[i].0);
      assert f(defs[i]) == TypeDefLines(indent, defs[i].0, defs[i].1);
      if step.Fail? {
        EachOkFail(defs, f, i);
        return step;
      }
      ghost var lines := f(defs[i]).value;
      EachOkStep(defs, f, i, emitted, lines);
      ConcatAssoc(old(result.lines), emitted, lines);
      emitted := emitted + lines;
    }
    assert defs[..|defs|] == defs;
    outcome := Pass;
  }

  /**
    `createTypeDefs(defs)`: resolve the includes in place, then write the
    header, an empty line, every definition in its own order and a final
    empty line; the first error aborts.
  */
  method CreateTypeDefs(defs: Definitions, header: string, ghost rank: map<string, nat>) returns (r: Result<string, Error>)
    requires RankedBy(defs.entries, rank)
    modifies defs
    ensures r == Document(old(defs.entries), header, rank)
    ensures Resolve(old(defs.entries), [NativeObject], rank, 0).Ok? ==>
      defs.entries == Resolve(old(defs.entries), [NativeObject], rank, 0).value
  {
    var resolved := ApplyIncludes(defs, [NativeObject], rank, 0);
    if resolved.Fail? {
      return Err(resolved.error);
    }
    var result := new Text();
    result.Append(header);
    ghost var l1 := result.lines;
    result.Append("");
    ghost var l2 := result.lines;
    var outcome := AddTypeDefs(result, defs.entries);
    if outcome.Fail? {
      return Err(outcome.error);
    }
    ghost var l3 := result.lines;
    result.Append("");
    r := Ok(result.ToString());
    DocumentAssembled(old(defs.entries), header, rank, l1, l2, l3, result.lines);
  }

  lemma DocumentAssembled(S: Dict<Component>, header: string, rank: map<string, nat>,
                          l1: seq<string>, l2: seq<string>, l3: seq<string>, l4: seq<string>)
    requires RankedBy(S, rank) && Resolve(S, [NativeObject], rank, 0).Ok?
    requires TypeDefsLines(0, Resolve(S, [NativeObject], rank, 0).value).Ok?
    requires l1 == [] + Block(0, header)
    requires l2 == l1 + Block(0, "")
    requires l3 == l2 + TypeDefsLines(0, Resolve(S, [NativeObject], rank, 0).value).value
    requires l4 == l3 + Block(0, "")
    ensures Document(S, header, rank) == Ok(Join(l4, "\n"))
  {
    assert [] + Block(0, header) == Block(0, header);
  }
}
