/**
  The string builders of the generator: parameter lists, doc comments,
  member declarations, the overloads of the event accessors and the two
  headers of every component (its class and its properties interface).
*/
module Declarations {
  import opened Wrappers
  import opened Strings
  import opened Schema
  import opened Wrap

  /** The width descriptions are wrapped to. */
  const DocWidth: nat := 100

  /** `createParamList`: `name: type` per parameter, joined by `, `. */
  function ParamList(params: seq<Param>): string
  {
    Join(seq(|params|, i requires 0 <= i < |params| => params[i].name + ": " + params[i].typeExpr), ", ")
  }

  /** `createParamAnnotations`: one `@param name description` line per parameter. */
  function ParamAnnotations(params: seq<Param>): (r: seq<string>)
    ensures |r| == |params|
  {
    seq(|params|, i requires 0 <= i < |params| => "@param " + params[i].name + " " + params[i].description)
  }

  /** The body lines of a comment, each behind ` * `. */
  function Starred(lines: seq<string>): (r: seq<string>)
    ensures |r| == |lines|
  {
    seq(|lines|, i requires 0 <= i < |lines| => " * " + lines[i])
  }

  /** `createComment`. */
  function CreateComment(lines: seq<string>): string
  {
    Join(["/**"] + Starred(lines) + [" */"], "\n")
  }

  /**
    The lines `createDoc` puts in a comment: the description wrapped at
    `DocWidth`, a `@param` line per parameter when the definition has a
    `parameters` array, then `@static`, then `@provisional`.
  */
  function DocLines(doc: DocInfo, params: Option<seq<Param>>): seq<string>
  {
    (if doc.description != "" then WrapText(doc.description, DocWidth) else [])
    + (if params.Some? then ParamAnnotations(params.value) else [])
    + (if doc.isStatic then ["@static"] else [])
    + (if doc.provisional then ["@provisional"] else [])
  }

  /** `createDoc`: nothing (`undefined`) when there is neither a description nor a flag. */
  function CreateDoc(doc: DocInfo, params: Option<seq<Param>>): Option<string>
  {
    if doc.description == "" && !doc.isStatic && !doc.provisional then None
    else Some(CreateComment(DocLines(doc, params)))
  }

  /** How `[doc, declaration].join('\n')` prints the doc: `undefined` becomes the empty string. */
  function DocText(doc: Option<string>): string
  {
    if doc.Some? then doc.value else ""
  }

  /** Each value in double quotes. */
  function QuoteAll(values: seq<string>): (r: seq<string>)
    ensures |r| == |values|
    ensures forall i :: 0 <= i < |values| ==> r[i] == "\"" + values[i] + "\""
  {
    seq(|values|, i requires 0 <= i < |values| => "\"" + values[i] + "\"")
  }

  /** The sorted values, each in double quotes, joined by ` | `. */
  function LiteralUnion(values: seq<string>): string
  {
    Join(QuoteAll(Sort(values)), " | ")
  }

  /** `valuesType || def.type`. */
  function TypeText(m: Member): string
  {
    var union := LiteralUnion(m.values);
    if union != "" then union else m.typeExpr
  }

  /** `createField`. */
  function CreateField(name: string, m: Member): string
  {
    Join([DocText(CreateDoc(m.doc, None)), name + ": " + m.typeExpr + ";"], "\n")
  }

  /** `createProperty`: a class property. */
  function CreateProperty(name: string, m: Member): string
  {
    Join([DocText(CreateDoc(m.doc, None)), name + ": " + TypeText(m) + ";"], "\n")
  }

  /** `createInterfaceProperty`: an optional member of the properties interface. */
  function CreateInterfaceProperty(name: string, m: Member): string
  {
    Join([DocText(CreateDoc(m.doc, None)), name + "?: " + TypeText(m) + ";"], "\n")
  }

  /** `def.returns || 'void'`. */
  function ReturnText(o: Overload): string
  {
    if o.returnType != "" then o.returnType else "void"
  }

  /** `createMethod`: one overload. */
  function CreateMethod(name: string, o: Overload): string
  {
    Join([DocText(CreateDoc(o.doc, Some(o.parameters))),
          name + "(" + ParamList(o.parameters) + "): " + ReturnText(o) + ";"], "\n")
  }

  function CreateOffMethod(name: string): string
  {
    "off(event: \"" + name + "\", listener?: Function, context?: this): this;"
  }

  function CreateOnMethod(name: string, e: Event): string
  {
    "on(event: \"" + name + "\", listener: (" + ParamList(e.parameters) + ") => any): this;"
  }

  function CreateOnceMethod(name: string, e: Event): string
  {
    "once(event: \"" + name + "\", listener: (" + ParamList(e.parameters) + ", context?: this) => any): this;"
  }

  /** `include.filter(sup => sup !== 'NativeObject')`. */
  function NonBase(includes: seq<string>): (r: seq<string>)
    ensures NativeObject !in r
    ensures forall x :: x != NativeObject ==> multiset(r)[x] == multiset(includes)[x]
  {
    if includes == [] then []
    else
      assert includes == [includes[0]] + includes[1..];
      (if includes[0] == NativeObject then [] else [includes[0]]) + NonBase(includes[1..])
  }

  /** `getSuperClass`: `None` stands for `null`. */
  function GetSuperClass(name: string, c: Component): Result<Option<string>, Error>
  {
    if c.includes.None? then Ok(None)
    else
      var others := NonBase(c.includes.value);
      if |others| > 1 then Err(MultipleInheritance(name))
      else if |others| == 1 then Ok(Some(others[0]))
      else Ok(None)
  }

  /** `createClassDef`: an empty superclass name is falsy and adds no `extends`. */
  function CreateClassDef(name: string, c: Component): Result<string, Error>
  {
    match GetSuperClass(name, c)
    case Err(e) => Err(e)
    case Ok(sup) =>
      if sup.Some? && sup.value != "" then Ok("export class " + name + " extends " + sup.value + " {")
      else Ok("export class " + name + " {")
  }

  /** `include.map(sup => sup + 'Properties')`. */
  function PropertiesNames(includes: seq<string>): (r: seq<string>)
    ensures |r| == |includes|
    ensures forall i :: 0 <= i < |includes| ==> r[i] == includes[i] + "Properties"
  {
    seq(|includes|, i requires 0 <= i < |includes| => includes[i] + "Properties")
  }

  /** `createPropertyInterfaceDef`. */
  function CreatePropertyInterfaceDef(name: string, c: Component): string
  {
    "interface " + name + "Properties"
    + (if c.includes.Some? then " extends " + Join(PropertiesNames(c.includes.value), ", ") else "")
    + " {"
  }

  // ----- Properties -----

  /**
    A comment splits back into its lines: the opening line, each line
    behind ` * `, and the closing line, provided no line contains a newline.
  */
  lemma CommentLines(lines: seq<string>)
    requires SingleLines(lines)
    ensures Split(CreateComment(lines), '\n') == ["/**"] + Starred(lines) + [" */"]
  {
    var all := ["/**"] + Starred(lines) + [" */"];
    forall i | 0 <= i < |all| ensures '\n' !in all[i] {
      if 0 < i < |all| - 1 {
        assert all[i] == " * " + lines[i - 1];
      }
    }
    SplitJoin(all, '\n');
  }

  /** No parameter name or description contains a newline. */
  ghost predicate SingleLineParams(params: Option<seq<Param>>)
  {
    params.Some? ==> forall i :: 0 <= i < |params.value| ==>
      '\n' !in params.value[i].name && '\n' !in params.value[i].description
  }

  /** No line contains a newline. */
  ghost predicate SingleLines(lines: seq<string>)
  {
    forall i :: 0 <= i < |lines| ==> '\n' !in lines[i]
  }

  lemma SingleLinesConcat(a: seq<string>, b: seq<string>)
    requires SingleLines(a) && SingleLines(b)
    ensures SingleLines(a + b)
  {
    forall i | 0 <= i < |a + b| ensures '\n' !in (a + b)[i] {
      if i >= |a| {
        assert (a + b)[i] == b[i - |a|];
      }
    }
  }

  lemma AnnotationsSingle(params: seq<Param>)
    requires SingleLineParams(Some(params))
    ensures SingleLines(ParamAnnotations(params))
  {
    var ann := ParamAnnotations(params);
    forall k | 0 <= k < |ann| ensures '\n' !in ann[k] {
      assert ann[k] == "@param " + params[k].name + " " + params[k].description;
    }
  }

  lemma DocLinesSingle(doc: DocInfo, params: Option<seq<Param>>)
    requires SingleLineParams(params)
    ensures SingleLines(DocLines(doc, params))
  {
    var wrapped := if doc.description != "" then WrapText(doc.description, DocWidth) else [];
    var ann := if params.Some? then ParamAnnotations(params.value) else [];
    var st := if doc.isStatic then ["@static"] else [];
    var pr := if doc.provisional then ["@provisional"] else [];
    WrapTextFits(doc.description, DocWidth);
    assert SingleLines(wrapped);
    if params.Some? {
      AnnotationsSingle(params.value);
    }
    assert SingleLines(st) && SingleLines(pr);
    SingleLinesConcat(wrapped, ann);
    SingleLinesConcat(wrapped + ann, st);
    SingleLinesConcat(wrapped + ann + st, pr);
  }

  /**
    `createDoc` yields a comment exactly when the description, `static` or
    `provisional` is set, and then the comment's lines are the wrapped
    description, the `@param` lines, `@static` and `@provisional`, each
    behind ` * `, between the opening and the closing line.
  */
  lemma DocComment(doc: DocInfo, params: Option<seq<Param>>)
    requires SingleLineParams(params)
    ensures CreateDoc(doc, params).Some? <==> doc.description != "" || doc.isStatic || doc.provisional
    ensures CreateDoc(doc, params).Some? ==>
      Split(CreateDoc(doc, params).value, '\n') == ["/**"] + Starred(DocLines(doc, params)) + [" */"]
  {
    DocLinesSingle(doc, params);
    CommentLines(DocLines(doc, params));
  }

  /** Every description line in a doc comment fits the width of 100 (plus the uncounted space). */
  lemma DocDescriptionFits(doc: DocInfo, params: Option<seq<Param>>)
    requires doc.description != ""
    ensures forall i :: 0 <= i < |WrapText(doc.description, DocWidth)| ==>
      DocLines(doc, params)[i] == WrapText(doc.description, DocWidth)[i] &&
      Fits(DocLines(doc, params)[i], DocWidth)
  {
    WrapTextFits(doc.description, DocWidth);
  }

  /** A parameter list is its first parameter, `, `, and the list of the rest. */
  lemma {:induction false} ParamListCons(p: Param, rest: seq<Param>)
    requires rest != []
    ensures ParamList([p] + rest) == p.name + ": " + p.typeExpr + ", " + ParamList(rest)
  {
    var all := [p] + rest;
    var parts := seq(|all|, i requires 0 <= i < |all| => all[i].name + ": " + all[i].typeExpr);
    var restParts := seq(|rest|, i requires 0 <= i < |rest| => rest[i].name + ": " + rest[i].typeExpr);
    assert parts[1..] == restParts;
  }

  /**
    The literal union depends only on the values, not on their order: two
    value lists with the same elements give the same union.
  */
  lemma UnionOrderFree(v1: seq<string>, v2: seq<string>)
    requires multiset(v1) == multiset(v2)
    ensures LiteralUnion(v1) == LiteralUnion(v2)
  {
    SortCanonical(v1, v2);
  }

  /**
    The union lists the values in ascending order: it is the quoted join of
    every sorted arrangement of the same values, whatever order they were
    declared in.
  */
  lemma UnionSorted(values: seq<string>, s: seq<string>)
    requires Sorted(s) && multiset(s) == multiset(values)
    ensures LiteralUnion(values) == Join(QuoteAll(s), " | ")
  {
    SortedUnique(Sort(values), s);
  }

  /** Two strings joined. */
  lemma JoinPair(a: string, b: string, sep: string)
    ensures Join([a, b], sep) == a + sep + b
  {
    assert [a, b][1..] == [b];
  }

  /**
    The emitted type is the literal union exactly when there are values
    (the union then starts with a double quote), and `def.type` otherwise.
  */
  lemma TypeTextChoice(m: Member)
    ensures m.values == [] ==> TypeText(m) == m.typeExpr
    ensures m.values != [] ==> TypeText(m) == LiteralUnion(m.values) && TypeText(m)[0] == '"'
  {
    var sorted := Sort(m.values);
    var quoted := QuoteAll(sorted);
    if m.values != [] {
      assert quoted[0][0] == '"';
      if |quoted| > 1 {
        assert Join(quoted, " | ") == quoted[0] + " | " + Join(quoted[1..], " | ");
      }
    } else {
      assert sorted == [];
    }
  }

  /**
    An undocumented member still gets the separator of `join('\n')`: its
    text is an empty line followed by the declaration.
  */
  lemma UndocumentedMember(name: string, m: Member, o: Overload)
    requires m.doc.description == "" && !m.doc.isStatic && !m.doc.provisional
    requires o.doc.description == "" && !o.doc.isStatic && !o.doc.provisional
    ensures CreateField(name, m) == "\n" + (name + ": " + m.typeExpr + ";")
    ensures CreateProperty(name, m) == "\n" + (name + ": " + TypeText(m) + ";")
    ensures CreateInterfaceProperty(name, m) == "\n" + (name + "?: " + TypeText(m) + ";")
    ensures CreateMethod(name, o) == "\n" + (name + "(" + ParamList(o.parameters) + "): " + ReturnText(o) + ";")
  {
    NoDocJoin(name + ": " + m.typeExpr + ";");
    NoDocJoin(name + ": " + TypeText(m) + ";");
    NoDocJoin(name + "?: " + TypeText(m) + ";");
    NoDocJoin(name + "(" + ParamList(o.parameters) + "): " + ReturnText(o) + ";");
  }

  /** `[undefined, declaration].join('\n')`: a newline, then the declaration. */
  lemma NoDocJoin(decl: string)
    ensures Join(["", decl], "\n") == "\n" + decl
  {
    JoinPair("", decl, "\n");
    assert "" + "\n" == "\n";
  }

  /** A method without `returns` is declared to return `void`: its text ends in `): void;`. */
  lemma MissingReturnIsVoid(name: string, o: Overload)
    requires o.returnType == ""
    ensures CreateMethod(name, o) ==
      DocText(CreateDoc(o.doc, Some(o.parameters))) + "\n" + (name + "(" + ParamList(o.parameters) + "): " + "void" + ";")
  {
    JoinPair(DocText(CreateDoc(o.doc, Some(o.parameters))), name + "(" + ParamList(o.parameters) + "): " + ReturnText(o) + ";", "\n");
  }

  /**
    The `once` listener takes the event's parameters followed by a
    `context` parameter; for an event without parameters the list starts
    with a bare comma.
  */
  lemma OnceListenerContext(name: string, e: Event)
    ensures e.parameters == [] ==>
      CreateOnceMethod(name, e) == "once(event: \"" + name + "\", listener: (" + ", context?: this) => any): this;"
    ensures e.parameters != [] ==>
      CreateOnceMethod(name, e) == "once(event: \"" + name + "\", listener: (" + ParamList(e.parameters) + ", context?: this) => any): this;"
  {
    if e.parameters == [] {
      assert ParamList(e.parameters) == "";
    }
  }

  /**
    `getSuperClass`: with no `include`, or only `NativeObject` in it, there
    is no superclass; more than one other include is an error; otherwise the
    one other include is the superclass, wherever it stands in the list.
  */
  lemma SuperClassCases(name: string, c: Component)
    ensures c.includes.None? ==> GetSuperClass(name, c) == Ok(None)
    ensures c.includes.Some? && (forall x :: x in c.includes.value ==> x == NativeObject) ==>
      GetSuperClass(name, c) == Ok(None)
    ensures GetSuperClass(name, c).Err? <==>
      c.includes.Some? && |NonBase(c.includes.value)| > 1
    ensures GetSuperClass(name, c).Err? ==> GetSuperClass(name, c).error == MultipleInheritance(name)
    ensures forall s :: GetSuperClass(name, c) == Ok(Some(s)) ==>
      s != NativeObject && s in c.includes.value &&
      forall x :: x in c.includes.value ==> x == NativeObject || x == s
  {
    if c.includes.Some? {
      var incs := c.includes.value;
      var others := NonBase(incs);
      if others != [] {
        var y := others[0];
        assert multiset(others)[y] > 0;
        assert y in incs && y != NativeObject;
      }
      if |others| == 1 {
        var s := others[0];
        assert multiset(others)[s] > 0;
        forall x | x in incs ensures x == NativeObject || x == s {
          if x != NativeObject {
            assert multiset(incs)[x] > 0;
            assert x in multiset(others);
            assert x in others;
          }
        }
      }
    }
  }

  /**
    The class header: `export class Name {` with ` extends S` exactly when
    one include other than `NativeObject` (and not empty) remains, and the
    multiple-inheritance error when more than one does.
  */
  lemma ClassHeader(name: string, c: Component)
    ensures CreateClassDef(name, c).Err? <==> GetSuperClass(name, c).Err?
    ensures forall s :: GetSuperClass(name, c) == Ok(Some(s)) && s != "" ==>
      CreateClassDef(name, c) == Ok("export class " + name + " extends " + s + " {")
    ensures GetSuperClass(name, c) == Ok(None) ==> CreateClassDef(name, c) == Ok("export class " + name + " {")
  {
  }

  /**
    `NativeObject` is dropped from the class header but kept in the
    interface header: a component that includes only `NativeObject` is a
    root class whose properties interface still extends
    `NativeObjectProperties`.
  */
  lemma NativeObjectOnlyInInterface(name: string, c: Component)
    requires c.includes == Some([NativeObject])
    ensures CreateClassDef(name, c) == Ok("export class " + name + " {")
    ensures CreatePropertyInterfaceDef(name, c) == "interface " + name + "Properties" + (" extends " + (NativeObject + "Properties")) + " {"
  {
    RootHasNoSuperClass(name, c);
    RootInterfaceExtendsBase(name, c);
  }

  lemma RootHasNoSuperClass(name: string, c: Component)
    requires c.includes == Some([NativeObject])
    ensures GetSuperClass(name, c) == Ok(None)
  {
    assert NonBase([NativeObject]) == [];
  }

  lemma RootInterfaceExtendsBase(name: string, c: Component)
    requires c.includes == Some([NativeObject])
    ensures CreatePropertyInterfaceDef(name, c) == "interface " + name + "Properties" + (" extends " + (NativeObject + "Properties")) + " {"
  {
    assert PropertiesNames([NativeObject]) == [NativeObject + "Properties"];
  }

  /**
    The interface header extends the `Properties` interface of every
    include, in declared order: one more include adds `, <include>Properties`
    at the end of the list.
  */
  lemma {:induction false} InterfaceHeaderExtends(name: string, c: Component, extra: string)
    requires c.includes.Some? && c.includes.value != []
    ensures CreatePropertyInterfaceDef(name, c.(includes := Some(c.includes.value + [extra])))
      == CreatePropertyInterfaceDef(name, c)[..|CreatePropertyInterfaceDef(name, c)| - 2] + ", " + extra + "Properties {"
  {
    var incs := c.includes.value;
    var parts := PropertiesNames(incs);
    assert PropertiesNames(incs + [extra]) == parts + [extra + "Properties"];
    JoinSnoc(parts, extra + "Properties", ", ");
    var head := "interface " + name + "Properties" + " extends " + Join(parts, ", ");
    assert CreatePropertyInterfaceDef(name, c) == head + " {";
    assert (head + " {")[..|head + " {"| - 2] == head;
    assert head + ", " + extra + "Properties {" == head + ", " + (extra + "Properties") + " {";
  }

  lemma {:induction false} JoinSnoc(xs: seq<string>, x: string, sep: string)
    requires xs != []
    ensures Join(xs + [x], sep) == Join(xs, sep) + sep + x
  {
    if |xs| == 1 {
      assert (xs + [x])[1..] == [x];
    } else {
      assert (xs + [x])[1..] == xs[1..] + [x];
      JoinSnoc(xs[1..], x, sep);
    }
  }
}
