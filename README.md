# tabris-js TypeScript declaration generator, modelled in Dafny

`grunt/grunt-generate-ts.js` turns the JSON definitions of the tabris.js
components into one TypeScript declaration file. Beneath the Grunt task it
is a sequential generator with four parts, and this project models each
part and proves what the generated text looks like:

- **Include resolution** (`applyIncludes`). Events are propagated breadth first
  along `include` references, starting from the frontier `['NativeObject']`.
  The definitions are updated in place. The model is an `Includes.Definitions`
  object whose entries the methods overwrite. The recursive function
  `Frontier` and the ghost functions `Resolve` and `Later` specify that
  object, and the lemmas are about them.
- **Declaration emission.** These are the string builders: headers,
  members, literal-value unions, doc comments and the event accessors
  (`Declarations`). Next come the emitters that write a component into the
  buffer (`Emitter`). Like the code's `add…` functions, which take the
  buffer as their `result` argument, each emitter is a method of the
  `Emitter` module with a `result: Text` parameter. Its contract says
  exactly which chunks it appends to `result`: a chunk is one `append`
  argument.
  The chunk functions are the specification that the layout, failure and
  order lemmas in `EmitterFacts` are about.
- **`splitIntoLines`** (`Wrap`). This is the greedy word wrapper, as two nested
  loops proved against a functional specification (`WrapText`). The
  specification is then proved to keep every word in order and to bound
  the line length.
- **The `Text` line buffer** (`LineBuffer`). It holds an array of lines and
  an indentation level. `append` splits on `\n` and indents non-empty lines
  by two spaces per level.

JavaScript objects are association lists `Dict<T> = seq<(string, T)>`, in
key insertion order (`Schema`). `Lookup` finds the first entry with a given
key. `SortedEntries` is what `Object.keys(o).sort()` iterates over.

Three behaviours of the code are worth noting. The model follows the code
in each:

- `splitIntoLines` tests `lineOut.length + word.length > maxlen`
  (grunt/grunt-generate-ts.js:455), which does not count the space that
  joins the word to the line. A kept line can therefore be `maxlen + 1`
  characters long (`Wrap.SpaceNotCounted`). A first word longer than the
  width pushes the still empty line before it, and every later word of
  that input line is too long to join it, so it stands alone
  (`Wrap.OverlongFirstWord`). `Wrap.Fits` states the bound the code keeps.
- `createOnceMethod` puts `, context?: this` inside the listener's
  parameter list (grunt/grunt-generate-ts.js:326-328). For an event without
  parameters, the list then starts with a bare comma
  (`Declarations.OnceListenerContext`).
- `addEvents` tests only `if (def.events)` (grunt/grunt-generate-ts.js:262),
  so it emits the whole accessor family for any `events` object, even an
  empty one.

## Model

| member | source | states |
|---|---|---|
| Strings.Split | grunt/grunt-generate-ts.js:480 | `split` gives at least one piece, and no piece contains the separator |
| Strings.JoinSplit | grunt/grunt-generate-ts.js:480-488 | joining the pieces of a split with the separator gives back the string |
| Strings.SplitJoin | grunt/grunt-generate-ts.js:480-488 | splitting a join of separator-free pieces gives back the pieces |
| Strings.SplitAround | grunt/grunt-generate-ts.js:480 | splitting `a + sep + b` is splitting `a` followed by splitting `b` |
| Strings.Repeat | grunt/grunt-generate-ts.js:492 | `'  '.repeat(n)` has length `n` times two |
| Strings.LessEqTotal | grunt/grunt-generate-ts.js:222 | the string order used by `sort()` is total |
| Strings.LessEqAntisymmetric | grunt/grunt-generate-ts.js:222 | the order is antisymmetric |
| Strings.LessEqTransitive | grunt/grunt-generate-ts.js:222 | the order is transitive |
| Strings.Insert | grunt/grunt-generate-ts.js:222 | inserting into a sorted list keeps it sorted and adds exactly that element |
| Strings.Sort | grunt/grunt-generate-ts.js:376 | `sort()` returns a sorted permutation of its input |
| Strings.SortedUnique | grunt/grunt-generate-ts.js:376 | two sorted permutations of the same elements are equal, so the sorting algorithm does not matter |
| Strings.SortCanonical | grunt/grunt-generate-ts.js:376 | sorting depends only on the multiset of elements |
| Strings.SortDistinct | grunt/grunt-generate-ts.js:240 | sorting distinct keys gives a strictly ascending list |
| Schema.Lookup | grunt/grunt-generate-ts.js:243 | a lookup finds a value exactly when the key is present |
| Schema.LookupAt | grunt/grunt-generate-ts.js:243 | with distinct keys, looking up an entry's key gives that entry's value |
| Schema.LookupUpdate | grunt/grunt-generate-ts.js:151 | assigning `def.events` changes that key's value and no other |
| Schema.SortedEntries | grunt/grunt-generate-ts.js:240-243 | the sorted keys are a sorted permutation of the keys, each paired with its own value |
| Schema.SortedEntriesCanonical | grunt/grunt-generate-ts.js:240-243 | two objects with the same entries in any insertion order iterate identically and in strictly ascending key order |
| Schema.SameKeysSameOrder | grunt/grunt-generate-ts.js:240 | such objects' sorted keys are the sort of either one's keys |
| Schema.Overwrite | grunt/grunt-generate-ts.js:151 | `Object.assign` keeps the target's key order for keys it already has |
| Schema.Fresh | grunt/grunt-generate-ts.js:151 | the keys `Object.assign` appends are exactly the source's keys the target lacks |
| Schema.LookupOverwrite | grunt/grunt-generate-ts.js:151 | an existing key takes the source's value when the source has that key |
| Schema.LookupFresh | grunt/grunt-generate-ts.js:151 | a key the target lacks reads as in the source |
| Schema.AssignLookup | grunt/grunt-generate-ts.js:151 | after `Object.assign(a, b)` a key reads as in `b` if `b` has it, otherwise as in `a` |
| LineBuffer.RenderConcat | grunt/grunt-generate-ts.js:478-485 | appending chunks one after another is appending them together |
| LineBuffer.BlockRoundTrip | grunt/grunt-generate-ts.js:478-493 | every appended line is empty or starts with two spaces per level, and removing that indentation and joining gives back the appended string |
| LineBuffer.IndentLineRoundTrip | grunt/grunt-generate-ts.js:491-493 | `_indentLine` leaves an empty line alone, prefixes others, and the prefix can be removed again |
| LineBuffer.JoinConcat | grunt/grunt-generate-ts.js:488 | joining two non-empty line lists is joining each with a separator between |
| LineBuffer.BlockAtZero | grunt/grunt-generate-ts.js:480-492 | at level zero `append` stores exactly the pieces of the split |
| LineBuffer.RenderAtZero | grunt/grunt-generate-ts.js:487-488 | at level zero the buffer's text is the appended strings joined by newlines |
| LineBuffer.Text.constructor | grunt/grunt-generate-ts.js:473-476 | a new buffer has no lines and level zero |
| LineBuffer.Text.Append | grunt/grunt-generate-ts.js:478-485 | `append(s)` pushes the indented pieces of `s` split on newlines, and keeps the level |
| Wrap.FillLine | grunt/grunt-generate-ts.js:453-464 | the inner loop produces exactly the greedy placement of the words |
| Wrap.SplitIntoLines | grunt/grunt-generate-ts.js:445-469 | the nested loops produce exactly `WrapText`: each input line wrapped on its own, in order |
| Wrap.PlaceAllGood | grunt/grunt-generate-ts.js:453-464 | placing words keeps every line within the width plus the uncounted space, or a single overlong word |
| Wrap.WrapLineShape | grunt/grunt-generate-ts.js:453-467 | every line of a wrapped line fits, and every break was forced: the next line's first word would not have fit by the code's count |
| Wrap.WrapTextFits | grunt/grunt-generate-ts.js:445-469 | every output line fits the width in the code's sense |
| Wrap.WrapLinesFit | grunt/grunt-generate-ts.js:450-467 | wrapping several lines keeps every output line fitting |
| Wrap.BlankLineVanishes | grunt/grunt-generate-ts.js:452-466 | a blank or all-space input line produces no output |
| Wrap.EmptyWordsPlaceNothing | grunt/grunt-generate-ts.js:454-462 | placing only empty words, as a line of spaces splits into, leaves the line empty |
| Wrap.PlaceAllWords | grunt/grunt-generate-ts.js:453-464 | placement keeps every non-empty word, in order, and adds none |
| Wrap.WrapLineWords | grunt/grunt-generate-ts.js:453-467 | the words of a wrapped line are exactly the line's non-empty words, in order |
| Wrap.WrapKeepsWords | grunt/grunt-generate-ts.js:445-469 | wrapping keeps every word of the text in its original order |
| Wrap.WrapLinesWords | grunt/grunt-generate-ts.js:450-467 | wrapping lines keeps their words |
| Wrap.OverlongFirstWord | grunt/grunt-generate-ts.js:453-462 | for every line whose first word is longer than the width, the wrap starts with an empty line and then that word alone |
| Wrap.TwoWordsLine | grunt/grunt-generate-ts.js:453-466 | two space-free words whose lengths add up to at most the width share one output line, joined by a space |
| Wrap.SpaceNotCounted | grunt/grunt-generate-ts.js:445-469 | for all non-empty words `a` and `b` without spaces or newlines whose lengths add up to the width, the text `a b` is kept as one line, one character longer than the width |
| Declarations.ParamAnnotations | grunt/grunt-generate-ts.js:441-443 | one `@param` line per parameter |
| Declarations.ParamListCons | grunt/grunt-generate-ts.js:410-412 | a parameter list is `name: type` for each parameter, separated by `, ` |
| Declarations.Starred | grunt/grunt-generate-ts.js:439 | one ` * ` line per comment line |
| Declarations.CommentLines | grunt/grunt-generate-ts.js:438-440 | a comment's lines are `/**`, each line behind ` * `, then ` */` |
| Declarations.DocComment | grunt/grunt-generate-ts.js:414-436 | `createDoc` yields a comment exactly when description, static or provisional is set; its lines are then the wrapped description, the `@param` lines, `@static` and `@provisional`, in that order, inside the comment frame |
| Declarations.DocDescriptionFits | grunt/grunt-generate-ts.js:419-423 | the description comes first, wrapped at width 100 |
| Declarations.UnionOrderFree | grunt/grunt-generate-ts.js:374-380 | the literal union depends only on the values, not on their order |
| Declarations.UnionSorted | grunt/grunt-generate-ts.js:374-380 | the union is the join, by a vertical bar between spaces, of the quoted values of every sorted arrangement of the values, whatever their declared order |
| Declarations.TypeTextChoice | grunt/grunt-generate-ts.js:379-380 | the type is the literal union when values exist, otherwise the declared type |
| Declarations.UndocumentedMember | grunt/grunt-generate-ts.js:372-408 | without documentation each member declaration starts with an empty line; the interface property is written `name?:` |
| Declarations.MissingReturnIsVoid | grunt/grunt-generate-ts.js:403-408 | a method without `returns` is declared to return `void` |
| Declarations.OnceListenerContext | grunt/grunt-generate-ts.js:326-328 | the `once` listener's parameters are the event's, followed by `context?: this` |
| Declarations.NonBase | grunt/grunt-generate-ts.js:209 | the filter drops every `NativeObject` and keeps every other include, with its multiplicity |
| Declarations.SuperClassCases | grunt/grunt-generate-ts.js:205-217 | no superclass without includes or with only `NativeObject`; `multiple inheritance: name` exactly when more than one other include remains; otherwise the single other include |
| Declarations.NativeObjectOnlyInInterface | grunt/grunt-generate-ts.js:196-236 | `NativeObject` is absent from the class header but present in the interface header |
| Declarations.RootHasNoSuperClass | grunt/grunt-generate-ts.js:205-217 | a component including only `NativeObject` has no superclass |
| Declarations.RootInterfaceExtendsBase | grunt/grunt-generate-ts.js:230-236 | its properties interface extends `NativeObjectProperties` |
| Declarations.InterfaceHeaderExtends | grunt/grunt-generate-ts.js:230-236 | each further include adds `, XProperties` to the interface header |
| Includes.InFrontier | grunt/grunt-generate-ts.js:145 | the filtered includes are exactly those in the current frontier |
| Includes.MergeAll | grunt/grunt-generate-ts.js:149-152 | merging never changes names, order or include lists |
| Includes.PassFrom | grunt/grunt-generate-ts.js:141-154 | a pass never changes names, order or include lists |
| Includes.FrontierRule | grunt/grunt-generate-ts.js:141-148 | a definition enters the next frontier exactly when it includes a member of the current one |
| Includes.FrontierRises | grunt/grunt-generate-ts.js:155-157 | under a ranking of the names reached from `NativeObject`, each frontier ranks strictly higher than the last, so the recursion ends |
| Includes.FrontierIncludes | grunt/grunt-generate-ts.js:141-148 | a name joins the next frontier exactly when its definition includes a member of the current one |
| Includes.Resolve | grunt/grunt-generate-ts.js:139-158 | the passes repeat until the frontier is empty, never changing names, order or include lists |
| Includes.Definitions.constructor | grunt/grunt-generate-ts.js:128 | the definitions object holds the given entries |
| Includes.RunPass | grunt/grunt-generate-ts.js:140-154 | one pass over the definitions in place yields the next frontier, or the error of a missing include |
| Includes.MergeIncludes | grunt/grunt-generate-ts.js:149-152 | the `includes.forEach` loop merges each included event map in place |
| Includes.ApplyIncludes | grunt/grunt-generate-ts.js:139-158 | `applyIncludes` leaves the definitions as `Resolve` says, or stops with its error |
| Includes.InheritFacts | grunt/grunt-generate-ts.js:151 | a merge keeps every own event unchanged and gains every included event name |
| Includes.ResolveOwnEventsWin | grunt/grunt-generate-ts.js:151 | after resolution every definition still has each of its own events, with its own definition |
| Includes.ResolveUntouched | grunt/grunt-generate-ts.js:141-157 | a definition that never joins a frontier is left unchanged |
| Includes.ResolveInherits | grunt/grunt-generate-ts.js:139-158 | when a definition includes one that is or becomes a frontier member, it ends up with every event the included one ends up with |
| Schema.LookupFound | grunt/grunt-generate-ts.js:150 | a found `defs[include]` is the value of an entry with that key |
| Includes.InheritSourced | grunt/grunt-generate-ts.js:150-151 | merging an include keeps every event either the definition's own or equal to that event in an included definition |
| Includes.MergeAllSourced | grunt/grunt-generate-ts.js:149-152 | the same for all includes of one definition |
| Includes.PassSourced | grunt/grunt-generate-ts.js:141-154 | the same for a whole pass |
| Includes.ResolveSourced | grunt/grunt-generate-ts.js:139-158 | the same for all passes: every event is own, or reads as in the final events of an included definition |
| Includes.LaterHasChain | grunt/grunt-generate-ts.js:141-157 | every name in a later frontier has an include chain down to the first frontier |
| Includes.ChainInLater | grunt/grunt-generate-ts.js:141-157 | when resolution succeeds, every name with an include chain down to the first frontier joins a later frontier |
| Includes.LaterReach | grunt/grunt-generate-ts.js:139-158 | when resolution succeeds, the later frontiers hold exactly the names with an include chain down to the first frontier |
| Includes.IncludesResolved | grunt/grunt-generate-ts.js:128-158 | from the frontier `NativeObject`: every definition keeps its own events; every other event it gets reads as in the final events of one of its includes; and when it includes `NativeObject`, or a definition with an include chain down to `NativeObject`, it has every event of that include |
| Emitter.MethodChunks | grunt/grunt-generate-ts.js:247-259 | the only failure is a method definition that is not an array |
| Emitter.AddConstructor | grunt/grunt-generate-ts.js:191-194 | appends an empty line and `constructor(properties?: NameProperties);` |
| Emitter.AddFields | grunt/grunt-generate-ts.js:238-245 | appends each field, in sorted key order, behind an empty line |
| Emitter.AddOverloads | grunt/grunt-generate-ts.js:254-257 | appends each overload in declared order, behind an empty line |
| Emitter.AddMethodList | grunt/grunt-generate-ts.js:249-258 | appends the overloads of each method in key order, or fails on a method that is not an array |
| Emitter.AddMethods | grunt/grunt-generate-ts.js:247-259 | the same over the sorted methods |
| Emitter.AddOffMethods | grunt/grunt-generate-ts.js:270-290 | the generic `off` behind its comment, then one `off` per sorted event |
| Emitter.AddOnMethods | grunt/grunt-generate-ts.js:292-310 | the generic `on` behind its comment, then one `on` per sorted event |
| Emitter.AddOnceMethods | grunt/grunt-generate-ts.js:312-328 | the generic `once` behind its comment, then one `once` per sorted event |
| Emitter.AddTriggerMethod | grunt/grunt-generate-ts.js:330-339 | one `trigger` behind its comment |
| Emitter.AddEvents | grunt/grunt-generate-ts.js:261-268 | the whole family when `events` is present, nothing otherwise |
| Emitter.AddPropertyApi | grunt/grunt-generate-ts.js:341-363 | `get`, `set` and the typed `set(properties)`, only when `properties` is present |
| Emitter.AddProperties | grunt/grunt-generate-ts.js:365-370 | appends each class property in sorted key order |
| Emitter.AddClass | grunt/grunt-generate-ts.js:177-189 | appends the doc comment and the declaration, or fails when there is no doc or on an error from the header or a method |
| Emitter.AddDeclaration | grunt/grunt-generate-ts.js:179-188 | appends the header, the body one level deeper and the closing brace, restoring the level |
| Emitter.AddClassBody | grunt/grunt-generate-ts.js:181-186 | appends the constructor, fields, methods, events, property API and properties in that order |
| Emitter.AddPropertyInterface | grunt/grunt-generate-ts.js:219-228 | appends the interface header, the sorted optional properties one level deeper, and the brace |
| Emitter.AddInstance | grunt/grunt-generate-ts.js:170-175 | appends `declare let obj: Name;` behind an empty line only for a singleton |
| Emitter.CreateTypeDef | grunt/grunt-generate-ts.js:160-168 | appends the name comment, the class, the interface and the instance, separated as in the source |
| Emitter.AddTypeDefs | grunt/grunt-generate-ts.js:132-134 | emits every definition in key order; the first failure stops it |
| Emitter.CreateTypeDefs | grunt/grunt-generate-ts.js:127-137 | resolves includes, then returns the header, an empty line, every type definition and an empty line, joined by newlines |
| EmitterFacts.EachLength | grunt/grunt-generate-ts.js:240-244 | a loop writing the same number of chunks per entry writes that many per entry in total |
| EmitterFacts.EachAt | grunt/grunt-generate-ts.js:240-244 | the chunks of the i-th entry stand right after those of the earlier entries |
| EmitterFacts.FieldLayout | grunt/grunt-generate-ts.js:238-245 | the fields give two chunks each: an empty one, then the i-th field in sorted key order |
| EmitterFacts.PropertyLayout | grunt/grunt-generate-ts.js:365-370 | the same for the class properties |
| EmitterFacts.InterfacePropertyLayout | grunt/grunt-generate-ts.js:221-225 | the same for the interface properties |
| EmitterFacts.OverloadLayout | grunt/grunt-generate-ts.js:254-257 | a method's overloads keep their declared order, each behind an empty chunk |
| EmitterFacts.OffLayout | grunt/grunt-generate-ts.js:270-286 | an empty chunk, the comment, the generic `off`, then the i-th sorted event's `off` |
| EmitterFacts.OnLayout | grunt/grunt-generate-ts.js:292-306 | the same for `on` |
| EmitterFacts.OnceLayout | grunt/grunt-generate-ts.js:312-324 | the same for `once` |
| EmitterFacts.EventFamilyLayout | grunt/grunt-generate-ts.js:261-339 | with n events: the off, on and once groups in that order, each with one line per sorted event, then exactly one trigger line |
| EmitterFacts.MethodsFailIff | grunt/grunt-generate-ts.js:249-253 | method emission fails exactly when some entry is not an array |
| EmitterFacts.SortedMethodsFailIff | grunt/grunt-generate-ts.js:247-259 | the same, stated over the key lookup rather than the sorted order |
| EmitterFacts.SortedPosition | grunt/grunt-generate-ts.js:240 | every key has a position in the sorted iteration, carrying its value |
| EmitterFacts.ClassFailures | grunt/grunt-generate-ts.js:177-259 | `addClass` fails on a missing doc first, then on multiple inheritance, then exactly when a method is not an array |
| EmitterFacts.BodyOrderFree | grunt/grunt-generate-ts.js:222-366 | the class body and the interface members do not depend on key insertion order |
| EmitterFacts.TypeDefOrderFree | grunt/grunt-generate-ts.js:160-370 | a component's whole declaration does not depend on the insertion order of its fields, methods, properties or events |
| EmitterFacts.RenderIndented | grunt/grunt-generate-ts.js:491-493 | every line written at a level is empty or starts with two spaces per level |
| EmitterFacts.ClosingBrace | grunt/grunt-generate-ts.js:187-188 | the closing brace is written at the restored level |
| EmitterFacts.NestedShape | grunt/grunt-generate-ts.js:177-228 | `addClass` and `addPropertyInterface` write the header at the entry level, every body line empty or one level deeper, and the brace back at the entry level |
| EmitterFacts.HeaderFirst | grunt/grunt-generate-ts.js:130-136 | the text starts with the header followed by a newline |
| EmitterFacts.EachOkIff | grunt/grunt-generate-ts.js:132-134 | emitting a list succeeds exactly when every element emits, and otherwise fails with the first failing element's error |
| EmitterFacts.TypeDefsFailures | grunt/grunt-generate-ts.js:132-134 | all type definitions emit exactly when each does; otherwise the first failing definition, in key order, gives the error |
| EmitterFacts.DocumentFailures | grunt/grunt-generate-ts.js:127-137 | the file is produced exactly when includes resolve and every resolved definition emits; otherwise, after a successful resolution, the first failing definition gives the error |
| EmitterFacts.DocumentStartsWithHeader | grunt/grunt-generate-ts.js:127-137 | the file starts with the header, on lines of its own |

## Left out

- The Grunt task, `readJsonDefs` with its glob expansion, reading the JSON files and writing the output file (grunt/grunt-generate-ts.js:109-125) are file I/O. The definitions are an input sequence of name and record pairs, in key insertion order.
- The header template (grunt/grunt-generate-ts.js:4-105) and its `${VERSION}` substitution are task wiring. The header is a parameter of `CreateTypeDefs`.
- JSON typing: definitions are typed records. A non-string description cannot occur, so `splitIntoLines`' `not a string` error is not modelled. An absent `parameters` array is modelled only where the code tests for it: `createDoc` (grunt/grunt-generate-ts.js:424) takes an optional list.
- Overload and event parameters: `Overload.parameters` and `Event.parameters` are always present lists. `createParamList` (grunt/grunt-generate-ts.js:410-412) calls `parameters.map`, which throws a TypeError for a method overload or an event without a `parameters` array (grunt/grunt-generate-ts.js:309, 327, 406). The model does not produce that failure.
- Wrap.SplitIntoLines: lengths are counted in characters, that is code points. JavaScript's `.length` counts UTF-16 code units (grunt/grunt-generate-ts.js:455, 459, 464), so a description with characters outside the Basic Multilingual Plane may wrap at different places than the model says.
- Falsy strings: an absent `description`, `returns` or `object` is the empty string, because the code tests only these for truth (grunt/grunt-generate-ts.js:171, 406, 415, 419). An absent `type`, parameter `name` or parameter `type` is never tested: a template string prints it as the text `undefined` (grunt/grunt-generate-ts.js:380, 387, 399, 411, 442). In the model these fields are always strings, so such an input stands as the string `"undefined"`; an empty string would print nothing, where the code prints `undefined`. An absent `include`, `properties` or `events` is `None`, because the code treats an empty one differently from a missing one.
- Includes.ApplyIncludes: an include cycle reached from `NativeObject` is excluded by requiring a ranking of the reached names under which every include ranks below its includer. On such a cycle the code recurses without end, unless `NativeObject` itself has no definition: then the first pass throws on `defs['NativeObject'].events` (grunt/grunt-generate-ts.js:150-151), and the model, which excludes the input, does not describe that failure. Every later frontier holds names of definitions, so `NativeObject` is the only include that can be missing. Cycles among definitions that are never reached are allowed, as in the code.
- Sorting compares strings by Unicode code point. JavaScript compares UTF-16 code units, which differs only between astral characters and U+E000 to U+FFFF. Keys that look like array indices, which JavaScript enumerates first, are not modelled.
- `values.sort()` sorts the definition's array in place. The model sorts a copy, so the reordering of the input is not visible.
- `Text.append` with several arguments or an array argument is not modelled. Every call in the generator passes one string. Passing `undefined`, which throws, is modelled as the missing-doc error of `AddClass`.
- Emitter.AddClass: after a failure the buffer's contents are not specified. The code has already appended part of the class when it throws.
- Emitter.AddDeclaration: after a failure the buffer's contents are not specified.
- Emitter.AddClassBody: after a failure the buffer's contents are not specified.
- Emitter.AddMethods: after a failure the buffer's contents are not specified. The code has appended the methods before the failing one.
- Emitter.CreateTypeDef: after a failure the buffer's contents are not specified.
- Emitter.AddTypeDefs: after a failure the buffer's contents are not specified.
- Includes.ApplyIncludes: after a failure the definitions' contents are not specified.
- Includes.MergeIncludes: after a failure the definitions' contents are not specified.
- Includes.RunPass: after a failure (a missing include) the definitions' contents are not specified. The code has merged part of the pass before it throws.
- The exception messages are modelled by error values (`MultipleInheritance(name)`, `MethodNotArray`, `UnknownInclude(name)`, `ClassDocMissing(name)`), not by their text.
