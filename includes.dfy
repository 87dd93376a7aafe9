/**
  `applyIncludes`: before anything is emitted, events are propagated along
  `include` references, breadth first from the frontier `['NativeObject']`.
  A pass visits every definition in key order; a definition with an
  `include` list merges the events of each of its includes that is in the
  current frontier into its own (its own events win on a name clash). The
  definitions that included a frontier member form the next frontier, and
  passes repeat until a frontier comes out empty.

  The code has no cycle check: when an include cycle is reached from
  `NativeObject`, the frontiers never come out empty and it recurses without
  end. The model therefore asks for a ranking (`rank`) of the names reached
  from `NativeObject`, under which every such include ranks strictly below
  its includer; definitions that are never reached, cyclic or not, are left
  unconstrained, as they are by the code.
*/
module Includes {
  import opened Wrappers
  import opened Strings
  import opened Schema

  /** `include.filter(include => parents.indexOf(include) !== -1)`. */
  function InFrontier(incs: seq<string>, parents: seq<string>): (r: seq<string>)
    ensures forall x :: x in r <==> x in incs && x in parents
  {
    if incs == [] then []
    else
      assert incs == [incs[0]] + incs[1..];
      (if incs[0] in parents then [incs[0]] else []) + InFrontier(incs[1..], parents)
  }

  /** Whether a definition includes a member of the frontier (and so joins the next one). */
  predicate Included(c: Component, parents: seq<string>)
  {
    c.includes.Some? && InFrontier(c.includes.value, parents) != []
  }

  /** `events || {}`. */
  function EventsOr(events: Option<Dict<Event>>): Dict<Event>
  {
    if events.Some? then events.value else []
  }

  /** `def.events = Object.assign({}, incl.events || {}, def.events)`. */
  function Inherit(def: Component, incl: Component): Component
  {
    def.(events := Some(Assign(EventsOr(incl.events), EventsOr(def.events))))
  }

  /** Same names in the same order, with the same `include` lists: what a pass never changes. */
  ghost predicate SameShape(a: Dict<Component>, b: Dict<Component>)
  {
    |a| == |b| && forall k :: 0 <= k < |a| ==> a[k].0 == b[k].0 && a[k].1.includes == b[k].1.includes
  }

  lemma SameShapeKeys(a: Dict<Component>, b: Dict<Component>)
    requires SameShape(a, b)
    ensures Keys(a) == Keys(b)
  {
  }

  /** The `includes.forEach` loop for the definition at index `i`; a missing include is an error. */
  function MergeAll(T: Dict<Component>, i: nat, incs: seq<string>): (r: Result<Dict<Component>, Error>)
    requires i < |T|
    ensures r.Ok? ==> SameShape(T, r.value)
    decreases |incs|
  {
    if incs == [] then Ok(T)
    else
      match Lookup(T, incs[0])
      case None => Err(UnknownInclude(incs[0]))
      case Some(incl) => MergeAll(T[i := (T[i].0, Inherit(T[i].1, incl))], i, incs[1..])
  }

  /** One pass over the definitions, from index `i` on. */
  function PassFrom(T: Dict<Component>, P: seq<string>, i: nat): (r: Result<Dict<Component>, Error>)
    ensures r.Ok? ==> SameShape(T, r.value)
    decreases |T| - i
  {
    if i >= |T| then Ok(T)
    else if T[i].1.includes.None? then PassFrom(T, P, i + 1)
    else
      match MergeAll(T, i, InFrontier(T[i].1.includes.value, P))
      case Err(e) => Err(e)
      case Ok(T') => PassFrom(T', P, i + 1)
  }

  /** `newParents` from index `i` on: the names of the definitions that include a frontier member. */
  function FrontierFrom(S: Dict<Component>, P: seq<string>, i: nat): seq<string>
    decreases |S| - i
  {
    if i >= |S| then [] else (if Included(S[i].1, P) then [S[i].0] else []) + FrontierFrom(S, P, i + 1)
  }

  function Frontier(S: Dict<Component>, P: seq<string>): seq<string>
  {
    FrontierFrom(S, P, 0)
  }

  /**
    A ranking of the names reached from `NativeObject`: `NativeObject` is
    ranked, and a definition that includes a ranked name is ranked above
    it. Such a ranking exists exactly when no include cycle is reached
    from `NativeObject`; definitions outside that part are unconstrained.
  */
  ghost predicate RankedBy(S: Dict<Component>, rank: map<string, nat>)
  {
    NativeObject in rank &&
    forall k, x :: 0 <= k < |S| && IncludesName(S[k].1, x) && x in rank ==> S[k].0 in rank && rank[x] < rank[S[k].0]
  }

  /** Every member of the frontier is ranked, at least at `level`. */
  ghost predicate LevelOk(P: seq<string>, rank: map<string, nat>, level: nat)
  {
    forall p :: p in P ==> p in rank && rank[p] >= level
  }

  /** The largest rank. */
  ghost function Ceiling(rank: map<string, nat>): (r: nat)
    ensures forall k :: k in rank ==> rank[k] <= r
    decreases |rank|
  {
    if rank == map[] then 0
    else
      var k :| k in rank;
      var rest := rank - {k};
      assert rest.Keys == rank.Keys - {k};
      assert |rest.Keys| < |rank.Keys|;
      var c := Ceiling(rest);
      assert forall j :: j in rank && j != k ==> j in rest && rest[j] == rank[j];
      if rank[k] > c then rank[k] else c
  }

  lemma RankedSameShape(S: Dict<Component>, T: Dict<Component>, rank: map<string, nat>)
    requires RankedBy(S, rank) && SameShape(S, T)
    ensures RankedBy(T, rank)
  {
    forall k, x | 0 <= k < |T| && IncludesName(T[k].1, x) && x in rank
      ensures T[k].0 in rank && rank[x] < rank[T[k].0]
    {
      assert S[k].0 == T[k].0 && S[k].1.includes == T[k].1.includes;
      assert IncludesName(S[k].1, x);
    }
  }

  /**
    A definition enters the next frontier exactly when it includes a member
    of the current one.
  */
  lemma {:induction false} FrontierFromRule(S: Dict<Component>, P: seq<string>, i: nat)
    ensures forall n :: n in FrontierFrom(S, P, i) <==> exists k :: i <= k < |S| && S[k].0 == n && Included(S[k].1, P)
    decreases |S| - i
  {
    if i < |S| {
      FrontierFromRule(S, P, i + 1);
      FrontierStep(S, P, i);
      forall n ensures n in FrontierFrom(S, P, i) <==> exists k :: i <= k < |S| && S[k].0 == n && Included(S[k].1, P) {
        if exists k :: i <= k < |S| && S[k].0 == n && Included(S[k].1, P) {
          var k :| i <= k < |S| && S[k].0 == n && Included(S[k].1, P);
          if k > i {
            assert n in FrontierFrom(S, P, i + 1);
          }
        }
      }
    }
  }

  lemma FrontierRule(S: Dict<Component>, P: seq<string>)
    ensures forall n :: n in Frontier(S, P) <==> exists k :: 0 <= k < |S| && S[k].0 == n && Included(S[k].1, P)
  {
    FrontierFromRule(S, P, 0);
  }

  /** The next frontier ranks above the current level, which bounds the recursion. */
  lemma FrontierRises(S: Dict<Component>, P: seq<string>, rank: map<string, nat>, level: nat)
    requires RankedBy(S, rank) && LevelOk(P, rank, level)
    ensures LevelOk(Frontier(S, P), rank, level + 1)
    ensures forall n :: n in Frontier(S, P) ==> n in rank && rank[n] <= Ceiling(rank) && rank[n] >= level + 1
  {
    FrontierRule(S, P);
    forall n | n in Frontier(S, P) ensures n in rank && rank[n] >= level + 1 {
      var k :| 0 <= k < |S| && S[k].0 == n && Included(S[k].1, P);
      var x := InFrontier(S[k].1.includes.value, P)[0];
      assert x in S[k].1.includes.value && x in P;
      assert IncludesName(S[k].1, x);
    }
  }

  /**
    The outcome of `applyIncludes(defs, parents)`: the definitions after all
    passes, or the error of the first include that has no definition.
  */
  ghost function Resolve(S: Dict<Component>, P: seq<string>, rank: map<string, nat>, level: nat): (r: Result<Dict<Component>, Error>)
    requires RankedBy(S, rank) && LevelOk(P, rank, level)
    ensures r.Ok? ==> SameShape(S, r.value)
    decreases Ceiling(rank) - level
  {
    match PassFrom(S, P, 0)
    case Err(e) => Err(e)
    case Ok(T) =>
      var N := Frontier(S, P);
      if N == [] then Ok(T)
      else
        FrontierRises(S, P, rank, level);
        RankedSameShape(S, T, rank);
        assert N[0] in N;
        Resolve(T, N, rank, level + 1)
  }

  /** The names of all frontiers after `P`. */
  ghost function Later(S: Dict<Component>, P: seq<string>, rank: map<string, nat>, level: nat): set<string>
    requires RankedBy(S, rank) && LevelOk(P, rank, level)
    decreases Ceiling(rank) - level
  {
    match PassFrom(S, P, 0)
    case Err(_) => {}
    case Ok(T) =>
      var N := Frontier(S, P);
      if N == [] then {}
      else
        FrontierRises(S, P, rank, level);
        RankedSameShape(S, T, rank);
        assert N[0] in N;
        (set n | n in N) + Later(T, N, rank, level + 1)
  }

  /** The definitions the generator works on, updated in place. */
  class Definitions {
    var entries: Dict<Component>

    constructor (entries: Dict<Component>)
      ensures this.entries == entries
    {
      this.entries := entries;
    }
  }

  lemma PassSkip(T: Dict<Component>, P: seq<string>, i: nat)
    requires i < |T| && T[i].1.includes.None?
    ensures PassFrom(T, P, i) == PassFrom(T, P, i + 1)
  {
  }

  lemma PassMerge(T: Dict<Component>, P: seq<string>, i: nat, T': Dict<Component>)
    requires i < |T| && T[i].1.includes.Some?
    requires MergeAll(T, i, InFrontier(T[i].1.includes.value, P)) == Ok(T')
    ensures PassFrom(T, P, i) == PassFrom(T', P, i + 1)
  {
  }

  lemma PassFail(T: Dict<Component>, P: seq<string>, i: nat, e: Error)
    requires i < |T| && T[i].1.includes.Some?
    requires MergeAll(T, i, InFrontier(T[i].1.includes.value, P)) == Err(e)
    ensures PassFrom(T, P, i) == Err(e)
  {
  }

  lemma MergeStep(T: Dict<Component>, i: nat, incs: seq<string>, j: nat, incl: Component)
    requires i < |T| && j < |incs| && Lookup(T, incs[j]) == Some(incl)
    ensures MergeAll(T, i, incs[j..]) == MergeAll(T[i := (T[i].0, Inherit(T[i].1, incl))], i, incs[j + 1..])
  {
    assert incs[j..][1..] == incs[j + 1..];
  }

  lemma MergeMissing(T: Dict<Component>, i: nat, incs: seq<string>, j: nat)
    requires i < |T| && j < |incs| && Lookup(T, incs[j]) == None
    ensures MergeAll(T, i, incs[j..]) == Err(UnknownInclude(incs[j]))
  {
  }

  lemma ResolveFail(S: Dict<Component>, P: seq<string>, rank: map<string, nat>, level: nat, e: Error)
    requires RankedBy(S, rank) && LevelOk(P, rank, level)
    requires PassFrom(S, P, 0) == Err(e)
    ensures Resolve(S, P, rank, level) == Err(e)
  {
  }

  lemma ResolveDone(S: Dict<Component>, P: seq<string>, rank: map<string, nat>, level: nat, T: Dict<Component>)
    requires RankedBy(S, rank) && LevelOk(P, rank, level)
    requires PassFrom(S, P, 0) == Ok(T) && Frontier(S, P) == []
    ensures Resolve(S, P, rank, level) == Ok(T)
  {
  }

  lemma ResolveNext(S: Dict<Component>, P: seq<string>, rank: map<string, nat>, level: nat, T: Dict<Component>)
    requires RankedBy(S, rank) && LevelOk(P, rank, level)
    requires PassFrom(S, P, 0) == Ok(T) && Frontier(S, P) != []
    ensures RankedBy(T, rank) && LevelOk(Frontier(S, P), rank, level + 1)
    ensures Resolve(S, P, rank, level) == Resolve(T, Frontier(S, P), rank, level + 1)
  {
    FrontierRises(S, P, rank, level);
    RankedSameShape(S, T, rank);
  }

  lemma FrontierStep(S: Dict<Component>, P: seq<string>, i: nat)
    requires i < |S|
    ensures FrontierFrom(S, P, i) == (if Included(S[i].1, P) then [S[i].0] else []) + FrontierFrom(S, P, i + 1)
  {
  }

  /**
    One pass of `applyIncludes`: the `Object.keys(defs).forEach` loop, which
    merges events in place and collects `newParents`.
  */
  method RunPass(defs: Definitions, parents: seq<string>) returns (newParents: seq<string>, outcome: Outcome<Error>)
    modifies defs
    ensures PassFrom(old(defs.entries), parents, 0).Err? ==>
      outcome == Fail(PassFrom(old(defs.entries), parents, 0).error)
    ensures PassFrom(old(defs.entries), parents, 0).Ok? ==>
      outcome == Pass && defs.entries == PassFrom(old(defs.entries), parents, 0).value
    ensures newParents == Frontier(old(defs.entries), parents) || outcome.Fail?
  {
    ghost var S := defs.entries;
    newParents := [];
    var i := 0;
    while i < |defs.entries|
      invariant SameShape(S, defs.entries)
      invariant 0 <= i <= |defs.entries|
      invariant PassFrom(defs.entries, parents, i) == PassFrom(S, parents, 0)
      invariant newParents + FrontierFrom(S, parents, i) == Frontier(S, parents)
      decreases |defs.entries| - i
    {
      var name := defs.entries[i].0;
      var def := defs.entries[i].1;
      ghost var before := newParents;
      assert name == S[i].0 && def.includes == S[i].1.includes;
      if def.includes.Some? {
        var includes := InFrontier(def.includes.value, parents);
        if |includes| > 0 {
          newParents := newParents + [name];
        }
        ghost var T0 := defs.entries;
        var merged := MergeIncludes(defs, i, includes);
        if merged.Fail? {
          PassFail(T0, parents, i, merged.error);
          return newParents, merged;
        }
        PassMerge(T0, parents, i, defs.entries);
      } else {
        PassSkip(defs.entries, parents, i);
      }
      ghost var added := if Included(S[i].1, parents) then [S[i].0] else [];
      assert newParents == before + added;
      FrontierStep(S, parents, i);
      ConcatAssoc(before, added, FrontierFrom(S, parents, i + 1));
      i := i + 1;
    }
    outcome := Pass;
  }

  /** The `includes.forEach` loop for the definition at index `i`, merging in place. */
  method MergeIncludes(defs: Definitions, i: nat, includes: seq<string>) returns (outcome: Outcome<Error>)
    requires i < |defs.entries|
    modifies defs
    ensures MergeAll(old(defs.entries), i, includes).Err? ==>
      outcome == Fail(MergeAll(old(defs.entries), i, includes).error)
    ensures MergeAll(old(defs.entries), i, includes).Ok? ==>
      outcome == Pass && defs.entries == MergeAll(old(defs.entries), i, includes).value
  {
    ghost var T0 := defs.entries;
    assert includes[0..] == includes;
    for j := 0 to |includes|
      invariant i < |defs.entries|
      invariant MergeAll(defs.entries, i, includes[j..]) == MergeAll(T0, i, includes)
    {
      var incl := Lookup(defs.entries, includes[j]);
      if incl.None? {
        MergeMissing(defs.entries, i, includes, j);
        return Fail(UnknownInclude(includes[j]));
      }
      MergeStep(defs.entries, i, includes, j, incl.value);
      defs.entries := defs.entries[i := (defs.entries[i].0, Inherit(defs.entries[i].1, incl.value))];
    }
    assert includes[|includes|..] == [];
    outcome := Pass;
  }

  /** `applyIncludes(defs, parents)`; `Fail` stands for the `TypeError` of a missing include. */
  method ApplyIncludes(defs: Definitions, parents: seq<string>, ghost rank: map<string, nat>, ghost level: nat)
    returns (outcome: Outcome<Error>)
    requires RankedBy(defs.entries, rank) && LevelOk(parents, rank, level)
    modifies defs
    ensures Resolve(old(defs.entries), parents, rank, level).Err? ==>
      outcome == Fail(Resolve(old(defs.entries), parents, rank, level).error)
    ensures Resolve(old(defs.entries), parents, rank, level).Ok? ==>
      outcome == Pass && defs.entries == Resolve(old(defs.entries), parents, rank, level).value
    decreases Ceiling(rank) - level
  {
    ghost var S := defs.entries;
    var newParents;
    newParents, outcome := RunPass(defs, parents);
    if outcome.Fail? {
      ResolveFail(S, parents, rank, level, outcome.error);
      return;
    }
    if |newParents| > 0 {
      ResolveNext(S, parents, rank, level, defs.entries);
      FrontierRises(S, parents, rank, level);
      assert newParents[0] in newParents;
      outcome := ApplyIncludes(defs, newParents, rank, level + 1);
    } else {
      ResolveDone(S, parents, rank, level, defs.entries);
    }
  }

  // ----- What resolution guarantees -----

  /** `after` keeps every event of `before`, with the same definition. */
  ghost predicate Extends(before: Component, after: Component)
  {
    forall e :: e in Keys(EventsOr(before.events)) ==> Lookup(EventsOr(after.events), e) == Lookup(EventsOr(before.events), e)
  }

  ghost predicate AllExtend(a: Dict<Component>, b: Dict<Component>)
  {
    |a| == |b| && forall k :: 0 <= k < |a| ==> Extends(a[k].1, b[k].1)
  }

  /** Every event name of `sub` is an event name of `sup`. */
  ghost predicate Covers(sup: Component, sub: Component)
  {
    forall e :: e in Keys(EventsOr(sub.events)) ==> e in Keys(EventsOr(sup.events))
  }

  /** `c` lists `x` in its `include`. */
  predicate IncludesName(c: Component, x: string)
  {
    c.includes.Some? && x in c.includes.value
  }

  /** One merge keeps the includer's own events and adds every event of the include. */
  lemma InheritFacts(def: Component, incl: Component)
    ensures Extends(def, Inherit(def, incl))
    ensures Covers(Inherit(def, incl), incl)
  {
    forall e {
      AssignLookup(EventsOr(incl.events), EventsOr(def.events), e);
    }
  }

  lemma ExtendsCovers(a: Component, b: Component)
    requires Extends(a, b)
    ensures Covers(b, a)
  {
  }

  /** A pass never loses an event name. */
  lemma PassCovers(T: Dict<Component>, P: seq<string>, i: nat, k: nat)
    requires PassFrom(T, P, i).Ok? && k < |T|
    ensures Covers(PassFrom(T, P, i).value[k].1, T[k].1)
  {
    PassExtends(T, P, i);
    ExtendsCovers(T[k].1, PassFrom(T, P, i).value[k].1);
  }

  lemma CoversTrans(a: Component, b: Component, c: Component)
    requires Covers(a, b) && Covers(b, c)
    ensures Covers(a, c)
  {
  }

  lemma AllExtendTrans(a: Dict<Component>, b: Dict<Component>, c: Dict<Component>)
    requires AllExtend(a, b) && AllExtend(b, c)
    ensures AllExtend(a, c)
  {
    forall k | 0 <= k < |a| ensures Extends(a[k].1, c[k].1) {
      assert Extends(a[k].1, b[k].1) && Extends(b[k].1, c[k].1);
    }
  }

  lemma {:induction false} MergeAllExtends(T: Dict<Component>, i: nat, incs: seq<string>)
    requires i < |T| && MergeAll(T, i, incs).Ok?
    ensures AllExtend(T, MergeAll(T, i, incs).value)
    ensures forall k :: 0 <= k < |T| && k != i ==> MergeAll(T, i, incs).value[k] == T[k]
    decreases |incs|
  {
    if incs != [] {
      var incl := Lookup(T, incs[0]).value;
      var T' := T[i := (T[i].0, Inherit(T[i].1, incl))];
      InheritFacts(T[i].1, incl);
      assert AllExtend(T, T');
      MergeAllExtends(T', i, incs[1..]);
      AllExtendTrans(T, T', MergeAll(T, i, incs).value);
    } else {
      assert AllExtend(T, T);
    }
  }

  /**
    A pass only adds events, keeps every definition's own ones, and leaves
    alone the definitions before `i` and those that include no frontier
    member.
  */
  lemma {:induction false} PassExtends(T: Dict<Component>, P: seq<string>, i: nat)
    requires PassFrom(T, P, i).Ok?
    ensures AllExtend(T, PassFrom(T, P, i).value)
    ensures forall k :: 0 <= k < |T| && (k < i || !Included(T[k].1, P)) ==> PassFrom(T, P, i).value[k] == T[k]
    decreases |T| - i
  {
    var R := PassFrom(T, P, i).value;
    if i >= |T| {
      assert AllExtend(T, T);
    } else if T[i].1.includes.None? {
      PassExtends(T, P, i + 1);
    } else {
      var incs := InFrontier(T[i].1.includes.value, P);
      var T' := MergeAll(T, i, incs).value;
      MergeAllExtends(T, i, incs);
      PassExtends(T', P, i + 1);
      AllExtendTrans(T, T', R);
      forall k | 0 <= k < |T| && (k < i || !Included(T[k].1, P)) ensures R[k] == T[k] {
        if k == i {
          assert incs == [];
        } else {
          assert T'[k] == T[k];
        }
      }
    }
  }

  /** Resolution only adds events: every definition keeps its own events, and they win every clash. */
  lemma {:induction false} ResolveOwnEventsWin(S: Dict<Component>, P: seq<string>, rank: map<string, nat>, level: nat)
    requires RankedBy(S, rank) && LevelOk(P, rank, level)
    requires Resolve(S, P, rank, level).Ok?
    ensures AllExtend(S, Resolve(S, P, rank, level).value)
    decreases Ceiling(rank) - level
  {
    var T := PassFrom(S, P, 0).value;
    PassExtends(S, P, 0);
    if Frontier(S, P) != [] {
      ResolveNext(S, P, rank, level, T);
      FrontierRises(S, P, rank, level);
      assert Frontier(S, P)[0] in Frontier(S, P);
      ResolveOwnEventsWin(T, Frontier(S, P), rank, level + 1);
      AllExtendTrans(S, T, Resolve(S, P, rank, level).value);
    }
  }

  /** A definition not in any later frontier includes nothing from the current one. */
  lemma NotLaterNotIncluded(S: Dict<Component>, P: seq<string>, rank: map<string, nat>, level: nat, k: nat)
    requires RankedBy(S, rank) && LevelOk(P, rank, level)
    requires PassFrom(S, P, 0).Ok? && k < |S|
    requires S[k].0 !in Later(S, P, rank, level)
    ensures !Included(S[k].1, P)
  {
    FrontierRule(S, P);
    var entry := S[k];
    assert Included(entry.1, P) ==> entry.0 in Frontier(S, P);
  }

  /** A definition that is in no later frontier keeps its state through all later passes. */
  lemma {:induction false} ResolveUntouched(S: Dict<Component>, P: seq<string>, rank: map<string, nat>, level: nat, k: nat)
    requires RankedBy(S, rank) && LevelOk(P, rank, level)
    requires Resolve(S, P, rank, level).Ok? && k < |S|
    requires S[k].0 !in Later(S, P, rank, level)
    ensures Resolve(S, P, rank, level).value[k] == S[k]
    decreases Ceiling(rank) - level
  {
    var T := PassFrom(S, P, 0).value;
    NotLaterNotIncluded(S, P, rank, level, k);
    PassExtends(S, P, 0);
    var N := Frontier(S, P);
    if N != [] {
      ResolveNext(S, P, rank, level, T);
      FrontierRises(S, P, rank, level);
      assert N[0] in N;
      assert T[k].0 == S[k].0;
      ResolveUntouched(T, N, rank, level + 1, k);
    }
  }

  /** Merging the includes of entry `i` gives it every event of each include that is defined. */
  lemma {:induction false} MergeAllInherits(T: Dict<Component>, i: nat, incs: seq<string>, j: nat)
    requires i < |T| && j < |T| && j != i && DistinctKeys(T)
    requires T[j].0 in incs && MergeAll(T, i, incs).Ok?
    ensures Covers(MergeAll(T, i, incs).value[i].1, T[j].1)
    decreases |incs|
  {
    var incl := Lookup(T, incs[0]).value;
    var T' := T[i := (T[i].0, Inherit(T[i].1, incl))];
    var R := MergeAll(T, i, incs).value;
    MergeAllExtends(T', i, incs[1..]);
    ExtendsCovers(T'[i].1, R[i].1);
    if incs[0] == T[j].0 {
      LookupAt(T, j);
      InheritFacts(T[i].1, incl);
    } else {
      assert T[j].0 in incs[1..];
      assert Keys(T') == Keys(T);
      MergeAllInherits(T', i, incs[1..], j);
    }
  }

  /**
    In a pass, a definition `T[k]` (from `i` on) that includes a frontier
    member `T[j]` which the pass leaves alone ends up with all of its events.
  */
  lemma {:induction false} PassInherits(T: Dict<Component>, P: seq<string>, i: nat, j: nat, k: nat)
    requires DistinctKeys(T) && j < |T| && !Included(T[j].1, P)
    requires PassFrom(T, P, i).Ok?
    requires i <= k < |T| && IncludesName(T[k].1, T[j].0) && T[j].0 in P
    ensures Covers(PassFrom(T, P, i).value[k].1, T[j].1)
    decreases |T| - i
  {
    if T[i].1.includes.None? {
      PassSkip(T, P, i);
      PassInherits(T, P, i + 1, j, k);
    } else {
      var incs := InFrontier(T[i].1.includes.value, P);
      var T' := MergeAll(T, i, incs).value;
      PassMerge(T, P, i, T');
      if k == i {
        MergedCovers(T, P, i, j, T');
      } else {
        MergeAllExtends(T, i, incs);
        SameShapeKeys(T, T');
        assert IncludesName(T'[k].1, T'[j].0);
        PassInherits(T', P, i + 1, j, k);
      }
    }
  }

  lemma MergedCovers(T: Dict<Component>, P: seq<string>, i: nat, j: nat, T': Dict<Component>)
    requires DistinctKeys(T) && i < |T| && j < |T| && !Included(T[j].1, P)
    requires IncludesName(T[i].1, T[j].0) && T[j].0 in P
    requires MergeAll(T, i, InFrontier(T[i].1.includes.value, P)) == Ok(T')
    requires PassFrom(T', P, i + 1).Ok?
    ensures Covers(PassFrom(T', P, i + 1).value[i].1, T[j].1)
  {
    MergeCovers(T, P, i, j, T');
    PassCovers(T', P, i + 1, i);
    CoversTrans(PassFrom(T', P, i + 1).value[i].1, T'[i].1, T[j].1);
  }

  lemma MergeCovers(T: Dict<Component>, P: seq<string>, i: nat, j: nat, T': Dict<Component>)
    requires DistinctKeys(T) && i < |T| && j < |T| && !Included(T[j].1, P)
    requires IncludesName(T[i].1, T[j].0) && T[j].0 in P
    requires MergeAll(T, i, InFrontier(T[i].1.includes.value, P)) == Ok(T')
    ensures i < |T'| && Covers(T'[i].1, T[j].1)
  {
    var incs := InFrontier(T[i].1.includes.value, P);
    assert T[j].0 in incs;
    assert Included(T[i].1, P);
    MergeAllInherits(T, i, incs, j);
  }

  /**
    Every definition that includes a member of the current frontier or of a
    later one ends up with all of that include's final events.
  */
  lemma {:induction false} ResolveInherits(S: Dict<Component>, P: seq<string>, rank: map<string, nat>, level: nat, k: nat, j: nat)
    requires RankedBy(S, rank) && LevelOk(P, rank, level) && DistinctKeys(S)
    requires Resolve(S, P, rank, level).Ok? && k < |S| && j < |S|
    requires IncludesName(S[k].1, S[j].0) && (S[j].0 in P || S[j].0 in Later(S, P, rank, level))
    ensures Covers(Resolve(S, P, rank, level).value[k].1, Resolve(S, P, rank, level).value[j].1)
    decreases Ceiling(rank) - level, 2
  {
    if Frontier(S, P) == [] {
      FinalFrontierCovers(S, P, rank, level, k, j);
    } else {
      ResolveInheritsNext(S, P, rank, level, k, j);
    }
  }

  /** The case where a further pass follows the current one. */
  lemma {:induction false} ResolveInheritsNext(S: Dict<Component>, P: seq<string>, rank: map<string, nat>, level: nat, k: nat, j: nat)
    requires RankedBy(S, rank) && LevelOk(P, rank, level) && DistinctKeys(S)
    requires Resolve(S, P, rank, level).Ok? && k < |S| && j < |S| && Frontier(S, P) != []
    requires IncludesName(S[k].1, S[j].0) && (S[j].0 in P || S[j].0 in Later(S, P, rank, level))
    ensures Covers(Resolve(S, P, rank, level).value[k].1, Resolve(S, P, rank, level).value[j].1)
    decreases Ceiling(rank) - level, 1
  {
    var T := PassFrom(S, P, 0).value;
    var N := Frontier(S, P);
    ResolveNext(S, P, rank, level, T);
    FrontierRises(S, P, rank, level);
    assert N[0] in N;
    if S[j].0 in N || S[j].0 in Later(T, N, rank, level + 1) {
      InheritsFurther(S, P, rank, level, k, j, T);
    } else {
      FinalFrontierCovers(S, P, rank, level, k, j);
    }
  }

  /** The include belongs to a later frontier: the next pass's resolution covers it. */
  lemma {:induction false} InheritsFurther(S: Dict<Component>, P: seq<string>, rank: map<string, nat>, level: nat, k: nat, j: nat, T: Dict<Component>)
    requires RankedBy(S, rank) && LevelOk(P, rank, level) && DistinctKeys(S)
    requires PassFrom(S, P, 0) == Ok(T) && Frontier(S, P) != []
    requires RankedBy(T, rank) && LevelOk(Frontier(S, P), rank, level + 1) && level + 1 <= Ceiling(rank)
    requires Resolve(T, Frontier(S, P), rank, level + 1).Ok? && k < |S| && j < |S|
    requires IncludesName(S[k].1, S[j].0) && (S[j].0 in Frontier(S, P) || S[j].0 in Later(T, Frontier(S, P), rank, level + 1))
    ensures Covers(Resolve(T, Frontier(S, P), rank, level + 1).value[k].1, Resolve(T, Frontier(S, P), rank, level + 1).value[j].1)
    decreases Ceiling(rank) - level, 0
  {
    assert T[j].0 == S[j].0 && T[k].1.includes == S[k].1.includes;
    SameShapeKeys(S, T);
    ResolveInherits(T, Frontier(S, P), rank, level + 1, k, j);
  }

  /** The case of an include in the current frontier that no later pass touches. */
  lemma FinalFrontierCovers(S: Dict<Component>, P: seq<string>, rank: map<string, nat>, level: nat, k: nat, j: nat)
    requires RankedBy(S, rank) && LevelOk(P, rank, level) && DistinctKeys(S)
    requires Resolve(S, P, rank, level).Ok? && k < |S| && j < |S|
    requires IncludesName(S[k].1, S[j].0) && S[j].0 in P && S[j].0 !in Later(S, P, rank, level)
    ensures Covers(Resolve(S, P, rank, level).value[k].1, Resolve(S, P, rank, level).value[j].1)
  {
    var T := PassFrom(S, P, 0).value;
    var N := Frontier(S, P);
    var R := Resolve(S, P, rank, level).value;
    NotLaterNotIncluded(S, P, rank, level, j);
    PassInherits(S, P, 0, j, k);
    PassExtends(S, P, 0);
    assert Covers(T[k].1, S[j].1);
    assert T[j] == S[j];
    if N != [] {
      ResolveNext(S, P, rank, level, T);
      FrontierRises(S, P, rank, level);
      assert N[0] in N;
      ResolveUntouched(T, N, rank, level + 1, j);
      ResolveOwnEventsWin(T, N, rank, level + 1);
      ExtendsCovers(T[k].1, R[k].1);
    } else {
      ResolveDone(S, P, rank, level, T);
    }
  }

  // ----- Where an inherited event comes from -----

  /**
    Every event of `T[k]` is an own event of `S[k]`, or reads exactly as it
    reads in the events of some `T[j]` that `S[k]` includes.
  */
  ghost predicate Sourced(S: Dict<Component>, T: Dict<Component>)
  {
    SameShape(S, T) &&
    forall k, e :: 0 <= k < |T| && e in Keys(EventsOr(T[k].1.events)) ==>
      e in Keys(EventsOr(S[k].1.events)) ||
      exists j :: 0 <= j < |T| && IncludesName(S[k].1, T[j].0) &&
        Lookup(EventsOr(T[k].1.events), e) == Lookup(EventsOr(T[j].1.events), e)
  }

  /** Merging the events of a definition that `S[i]` includes keeps every event sourced. */
  lemma InheritSourced(S: Dict<Component>, T: Dict<Component>, i: nat, j: nat)
    requires Sourced(S, T) && i < |T| && j < |T| && IncludesName(S[i].1, T[j].0)
    ensures Sourced(S, T[i := (T[i].0, Inherit(T[i].1, T[j].1))])
  {
    var T' := T[i := (T[i].0, Inherit(T[i].1, T[j].1))];
    InheritFacts(T[i].1, T[j].1);
    assert AllExtend(T, T');
    assert SameShape(S, T');
    forall k, e | 0 <= k < |T'| && e in Keys(EventsOr(T'[k].1.events)) && e !in Keys(EventsOr(S[k].1.events))
      ensures exists j' :: (0 <= j' < |T'| && IncludesName(S[k].1, T'[j'].0) &&
        Lookup(EventsOr(T'[k].1.events), e) == Lookup(EventsOr(T'[j'].1.events), e))
    {
      if k == i && e !in Keys(EventsOr(T[i].1.events)) {
        AssignLookup(EventsOr(T[j].1.events), EventsOr(T[i].1.events), e);
        assert Extends(T[j].1, T'[j].1);
        assert IncludesName(S[k].1, T'[j].0);
      } else {
        assert Lookup(EventsOr(T'[k].1.events), e) == Lookup(EventsOr(T[k].1.events), e);
        var j' :| 0 <= j' < |T| && IncludesName(S[k].1, T[j'].0) &&
          Lookup(EventsOr(T[k].1.events), e) == Lookup(EventsOr(T[j'].1.events), e);
        assert Extends(T[j'].1, T'[j'].1);
        assert IncludesName(S[k].1, T'[j'].0);
      }
    }
  }

  lemma {:induction false} MergeAllSourced(S: Dict<Component>, T: Dict<Component>, i: nat, incs: seq<string>)
    requires Sourced(S, T) && i < |T| && MergeAll(T, i, incs).Ok?
    requires forall x :: x in incs ==> IncludesName(S[i].1, x)
    ensures Sourced(S, MergeAll(T, i, incs).value)
    decreases |incs|
  {
    if incs != [] {
      var incl := Lookup(T, incs[0]).value;
      LookupFound(T, incs[0], incl);
      var j :| 0 <= j < |T| && T[j] == (incs[0], incl);
      InheritSourced(S, T, i, j);
      MergeAllSourced(S, T[i := (T[i].0, Inherit(T[i].1, T[j].1))], i, incs[1..]);
    }
  }

  lemma {:induction false} PassSourced(S: Dict<Component>, T: Dict<Component>, P: seq<string>, i: nat)
    requires Sourced(S, T) && PassFrom(T, P, i).Ok?
    ensures Sourced(S, PassFrom(T, P, i).value)
    decreases |T| - i
  {
    if i < |T| {
      if T[i].1.includes.None? {
        PassSourced(S, T, P, i + 1);
      } else {
        var incs := InFrontier(T[i].1.includes.value, P);
        assert forall x :: x in incs ==> IncludesName(S[i].1, x);
        MergeAllSourced(S, T, i, incs);
        PassSourced(S, MergeAll(T, i, incs).value, P, i + 1);
      }
    }
  }

  /** Resolution from `S` keeps every event sourced with respect to the original definitions `S0`. */
  lemma {:induction false} ResolveSourced(S0: Dict<Component>, S: Dict<Component>, P: seq<string>, rank: map<string, nat>, level: nat)
    requires RankedBy(S, rank) && LevelOk(P, rank, level)
    requires Sourced(S0, S) && Resolve(S, P, rank, level).Ok?
    ensures Sourced(S0, Resolve(S, P, rank, level).value)
    decreases Ceiling(rank) - level
  {
    var T := PassFrom(S, P, 0).value;
    PassSourced(S0, S, P, 0);
    if Frontier(S, P) != [] {
      ResolveNext(S, P, rank, level, T);
      FrontierRises(S, P, rank, level);
      assert Frontier(S, P)[0] in Frontier(S, P);
      ResolveSourced(S0, T, Frontier(S, P), rank, level + 1);
    }
  }

  // ----- Which definitions the passes reach -----

  /** The definition named `a` lists `b` in its `include`. */
  ghost predicate DefIncludes(S: Dict<Component>, a: string, b: string)
  {
    exists k :: 0 <= k < |S| && S[k].0 == a && IncludesName(S[k].1, b)
  }

  /** An include chain: the definition of each name includes the next name. */
  ghost predicate Chain(S: Dict<Component>, c: seq<string>)
  {
    |c| >= 2 && forall i :: 0 <= i < |c| - 1 ==> DefIncludes(S, c[i], c[i + 1])
  }

  lemma ChainSameShape(S: Dict<Component>, T: Dict<Component>, c: seq<string>)
    requires SameShape(S, T)
    ensures Chain(S, c) <==> Chain(T, c)
  {
    forall a, b ensures DefIncludes(S, a, b) <==> DefIncludes(T, a, b) {
      if DefIncludes(S, a, b) {
        var k :| 0 <= k < |S| && S[k].0 == a && IncludesName(S[k].1, b);
        assert T[k].0 == a && IncludesName(T[k].1, b);
      }
      if DefIncludes(T, a, b) {
        var k :| 0 <= k < |T| && T[k].0 == a && IncludesName(T[k].1, b);
        assert S[k].0 == a && IncludesName(S[k].1, b);
      }
    }
  }

  lemma ChainSnoc(S: Dict<Component>, c: seq<string>, x: string)
    requires Chain(S, c) && DefIncludes(S, c[|c| - 1], x)
    ensures Chain(S, c + [x])
  {
    var d := c + [x];
    forall i | 0 <= i < |d| - 1 ensures DefIncludes(S, d[i], d[i + 1]) {
      if i < |c| - 1 {
        assert d[i] == c[i] && d[i + 1] == c[i + 1];
      }
    }
  }

  lemma ChainInit(S: Dict<Component>, c: seq<string>)
    requires Chain(S, c) && |c| > 2
    ensures Chain(S, c[..|c| - 1])
  {
    var d := c[..|c| - 1];
    forall i | 0 <= i < |d| - 1 ensures DefIncludes(S, d[i], d[i + 1]) {
      assert d[i] == c[i] && d[i + 1] == c[i + 1];
    }
  }

  /** The next frontier holds exactly the names whose definition includes a member of `P`. */
  lemma FrontierIncludes(S: Dict<Component>, P: seq<string>, n: string)
    ensures n in Frontier(S, P) <==> exists x :: x in P && DefIncludes(S, n, x)
  {
    FrontierRule(S, P);
    if n in Frontier(S, P) {
      var k :| 0 <= k < |S| && S[k].0 == n && Included(S[k].1, P);
      var incs := InFrontier(S[k].1.includes.value, P);
      assert incs[0] in incs;
      assert DefIncludes(S, n, incs[0]);
    }
    if exists x :: x in P && DefIncludes(S, n, x) {
      var x :| x in P && DefIncludes(S, n, x);
      var k :| 0 <= k < |S| && S[k].0 == n && IncludesName(S[k].1, x);
      assert x in InFrontier(S[k].1.includes.value, P);
    }
  }

  /** The last link of a chain that ends in `P` lies in the next frontier. */
  lemma ChainEndInFrontier(S: Dict<Component>, P: seq<string>, c: seq<string>)
    requires Chain(S, c) && c[|c| - 1] in P
    ensures c[|c| - 2] in Frontier(S, P)
  {
    assert DefIncludes(S, c[|c| - 2], c[|c| - 2 + 1]);
    FrontierIncludes(S, P, c[|c| - 2]);
  }

  /** A name in a later frontier was in the next frontier or in one after it. */
  lemma LaterUnfold(S: Dict<Component>, P: seq<string>, rank: map<string, nat>, level: nat)
    requires RankedBy(S, rank) && LevelOk(P, rank, level)
    requires Later(S, P, rank, level) != {}
    ensures PassFrom(S, P, 0).Ok? && Frontier(S, P) != []
    ensures RankedBy(PassFrom(S, P, 0).value, rank) && LevelOk(Frontier(S, P), rank, level + 1) && level + 1 <= Ceiling(rank)
    ensures Later(S, P, rank, level) == (set m | m in Frontier(S, P)) + Later(PassFrom(S, P, 0).value, Frontier(S, P), rank, level + 1)
  {
    LaterStep(S, P, rank, level);
  }

  /** After a pass that leaves a frontier, the later frontiers are that frontier and the ones after it. */
  lemma LaterStep(S: Dict<Component>, P: seq<string>, rank: map<string, nat>, level: nat)
    requires RankedBy(S, rank) && LevelOk(P, rank, level)
    requires PassFrom(S, P, 0).Ok? && Frontier(S, P) != []
    ensures RankedBy(PassFrom(S, P, 0).value, rank) && LevelOk(Frontier(S, P), rank, level + 1) && level + 1 <= Ceiling(rank)
    ensures Later(S, P, rank, level) == (set m | m in Frontier(S, P)) + Later(PassFrom(S, P, 0).value, Frontier(S, P), rank, level + 1)
  {
    var T := PassFrom(S, P, 0).value;
    var N := Frontier(S, P);
    FrontierRises(S, P, rank, level);
    RankedSameShape(S, T, rank);
    assert N[0] in N;
  }

  /** A name in a later frontier has an include chain down to a member of `P`. */
  lemma {:induction false} LaterHasChain(S: Dict<Component>, P: seq<string>, rank: map<string, nat>, level: nat, n: string)
    requires RankedBy(S, rank) && LevelOk(P, rank, level)
    requires n in Later(S, P, rank, level)
    ensures exists c :: Chain(S, c) && c[0] == n && c[|c| - 1] in P
    decreases Ceiling(rank) - level
  {
    LaterUnfold(S, P, rank, level);
    var T := PassFrom(S, P, 0).value;
    var N := Frontier(S, P);
    if n in N {
      FrontierChain(S, P, n);
    } else {
      LaterHasChain(T, N, rank, level + 1, n);
      ChainThroughFrontier(S, T, P, n);
    }
  }

  /** A member of the next frontier has a chain of one link down to `P`. */
  lemma FrontierChain(S: Dict<Component>, P: seq<string>, n: string)
    requires n in Frontier(S, P)
    ensures exists c :: Chain(S, c) && c[0] == n && c[|c| - 1] in P
  {
    FrontierIncludes(S, P, n);
    var x :| x in P && DefIncludes(S, n, x);
    assert DefIncludes(S, [n, x][0], [n, x][1]);
    assert Chain(S, [n, x]);
  }

  /** A chain, after a pass, down to the next frontier extends by one link to a chain down to `P`. */
  lemma ChainThroughFrontier(S: Dict<Component>, T: Dict<Component>, P: seq<string>, n: string)
    requires SameShape(S, T)
    requires exists c :: Chain(T, c) && c[0] == n && c[|c| - 1] in Frontier(S, P)
    ensures exists c :: Chain(S, c) && c[0] == n && c[|c| - 1] in P
  {
    var c :| Chain(T, c) && c[0] == n && c[|c| - 1] in Frontier(S, P);
    ChainSameShape(S, T, c);
    FrontierIncludes(S, P, c[|c| - 1]);
    var x :| x in P && DefIncludes(S, c[|c| - 1], x);
    ChainSnoc(S, c, x);
    assert (c + [x])[0] == n;
  }

  /** A name with an include chain down to a member of `P` is in a later frontier, when resolution succeeds. */
  lemma {:induction false} ChainInLater(S: Dict<Component>, P: seq<string>, rank: map<string, nat>, level: nat, c: seq<string>)
    requires RankedBy(S, rank) && LevelOk(P, rank, level)
    requires Resolve(S, P, rank, level).Ok?
    requires Chain(S, c) && c[|c| - 1] in P
    ensures c[0] in Later(S, P, rank, level)
    decreases Ceiling(rank) - level
  {
    var T := PassFrom(S, P, 0).value;
    var N := Frontier(S, P);
    ChainEndInFrontier(S, P, c);
    LaterStep(S, P, rank, level);
    ResolveNext(S, P, rank, level, T);
    if |c| > 2 {
      var d := c[..|c| - 1];
      ChainInit(S, c);
      ChainSameShape(S, T, d);
      ChainInLater(T, N, rank, level + 1, d);
      assert d[0] == c[0];
    }
  }

  /**
    When resolution succeeds, the later frontiers hold exactly the names
    that have an include chain down to a member of `P`.
  */
  lemma LaterReach(S: Dict<Component>, P: seq<string>, rank: map<string, nat>, level: nat, n: string)
    requires RankedBy(S, rank) && LevelOk(P, rank, level)
    requires Resolve(S, P, rank, level).Ok?
    ensures n in Later(S, P, rank, level) <==> exists c :: Chain(S, c) && c[0] == n && c[|c| - 1] in P
  {
    if n in Later(S, P, rank, level) {
      LaterHasChain(S, P, rank, level, n);
    }
    forall c | Chain(S, c) && c[0] == n && c[|c| - 1] in P ensures n in Later(S, P, rank, level) {
      ChainInLater(S, P, rank, level, c);
    }
  }

  /**
    What `applyIncludes(defs, ['NativeObject'])` achieves: every definition
    keeps its own events (they win every clash with an inherited one);
    every other event it ends up with reads as it does in the final events of
    one of its includes; and a definition that includes `NativeObject`, or
    any definition with an include chain down to `NativeObject`, has every
    event of that include.
  */
  lemma IncludesResolved(S: Dict<Component>, rank: map<string, nat>)
    requires RankedBy(S, rank) && DistinctKeys(S)
    requires Resolve(S, [NativeObject], rank, 0).Ok?
    ensures AllExtend(S, Resolve(S, [NativeObject], rank, 0).value)
    ensures Sourced(S, Resolve(S, [NativeObject], rank, 0).value)
    ensures forall k, j ::
      0 <= k < |S| && 0 <= j < |S| && IncludesName(S[k].1, S[j].0) &&
      (S[j].0 == NativeObject || exists c :: Chain(S, c) && c[0] == S[j].0 && c[|c| - 1] == NativeObject)
      ==> Covers(Resolve(S, [NativeObject], rank, 0).value[k].1, Resolve(S, [NativeObject], rank, 0).value[j].1)
  {
    ResolveOwnEventsWin(S, [NativeObject], rank, 0);
    assert Sourced(S, S);
    ResolveSourced(S, S, [NativeObject], rank, 0);
    forall k, j | 0 <= k < |S| && 0 <= j < |S| && IncludesName(S[k].1, S[j].0) &&
      (S[j].0 == NativeObject || exists c :: Chain(S, c) && c[0] == S[j].0 && c[|c| - 1] == NativeObject)
      ensures Covers(Resolve(S, [NativeObject], rank, 0).value[k].1, Resolve(S, [NativeObject], rank, 0).value[j].1)
    {
      LaterReach(S, [NativeObject], rank, 0, S[j].0);
      ResolveInherits(S, [NativeObject], rank, 0, k, j);
    }
  }
}
