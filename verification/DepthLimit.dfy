/**
 The query depth rule of api/src/depthLimit.ts: a recursive walk that steps into fragment definitions and keeps a
 set of the fragments it is inside of, compared with the depth of the operation after inlining every fragment.
 */
module DepthLimit {
  import opened Wrappers

  // A field without or with a selection set, an inline fragment, a fragment spread.
  datatype Selection =
    | Leaf(name: string)
    | Field(name: string, selections: seq<Selection>)
    | Inline(selections: seq<Selection>)
    | Spread(name: string)

  type Fragments = map<string, seq<Selection>>

  // Introspection fields are skipped with all they select.
  predicate IsIntrospection(name: string) {
    "__" <= name
  }

  // ----- The walk -----

  function WalkOne(s: Selection, fragments: Fragments, visited: set<string>): nat
    decreases |fragments.Keys - visited|, s
  {
    match s
    case Leaf(name) => if IsIntrospection(name) then 0 else 1
    case Field(name, sub) => if IsIntrospection(name) then 0 else 1 + WalkDepth(sub, fragments, visited)
    case Inline(sub) => WalkDepth(sub, fragments, visited)
    case Spread(name) =>
      if name !in fragments || name in visited then 0
      else
        FewerUnvisited(fragments.Keys, visited, name);
        WalkDepth(fragments[name], fragments, visited + {name})
  }

  function WalkDepth(sels: seq<Selection>, fragments: Fragments, visited: set<string>): nat
    decreases |fragments.Keys - visited|, sels
  {
    if sels == [] then 0
    else Max(WalkDepth(sels[..|sels| - 1], fragments, visited), WalkOne(sels[|sels| - 1], fragments, visited))
  }

  lemma FewerUnvisited(names: set<string>, visited: set<string>, name: string)
    requires name in names && name !in visited
    ensures |names - (visited + {name})| < |names - visited|
  {
    assert names - visited == (names - (visited + {name})) + {name};
  }

  class VisitedSet {
    var names: set<string>

    constructor ()
      ensures names == {}
    {
      names := {};
    }
  }

  // selectionDepth: terminates for every fragment map, cyclic ones included, and leaves `visited` as it found it.
  method SelectionDepth(selections: seq<Selection>, fragments: Fragments, visited: VisitedSet) returns (max: nat)
    modifies visited
    ensures visited.names == old(visited.names)
    ensures max == WalkDepth(selections, fragments, old(visited.names))
    decreases |fragments.Keys - visited.names|, selections
  {
    max := 0;
    for i := 0 to |selections|
      invariant visited.names == old(visited.names)
      invariant max == WalkDepth(selections[..i], fragments, old(visited.names))
    {
      var selection := selections[i];
      assert selections[..i + 1][..i] == selections[..i];
      var depth := 0;
      match selection {
        case Leaf(name) =>
          if IsIntrospection(name) {
            continue;
          }
          depth := 1;
        case Field(name, sub) =>
          if IsIntrospection(name) {
            continue;
          }
          var below := SelectionDepth(sub, fragments, visited);
          depth := 1 + below;
        case Inline(sub) =>
          depth := SelectionDepth(sub, fragments, visited);
        case Spread(name) =>
          if name !in fragments || name in visited.names {
            continue;
          }
          FewerUnvisited(fragments.Keys, visited.names, name);
          visited.names := visited.names + {name};
          depth := SelectionDepth(fragments[name], fragments, visited);
          visited.names := visited.names - {name};
      }
      max := Max(max, depth);
    }
    assert selections[..|selections|] == selections;
  }

  // ----- Inlining -----

  // The selections with every fragment replaced by its contents, to a nesting of at most `fuel` spreads.
  function InlineOne(s: Selection, fragments: Fragments, fuel: nat): seq<Selection>
    decreases fuel, s
  {
    match s
    case Leaf(_) => [s]
    case Field(name, sub) => [Field(name, InlineAll(sub, fragments, fuel))]
    case Inline(sub) => InlineAll(sub, fragments, fuel)
    case Spread(name) => if name in fragments && fuel > 0 then InlineAll(fragments[name], fragments, fuel - 1) else [s]
  }

  function InlineAll(sels: seq<Selection>, fragments: Fragments, fuel: nat): seq<Selection>
    decreases fuel, sels
  {
    if sels == [] then []
    else InlineAll(sels[..|sels| - 1], fragments, fuel) + InlineOne(sels[|sels| - 1], fragments, fuel)
  }

  // No fragments left, apart from spreads of fragments that do not exist.
  predicate FullyInlined(sels: seq<Selection>, fragments: Fragments) {
    forall s <- sels ::
      match s
      case Leaf(_) => true
      case Field(_, sub) => FullyInlined(sub, fragments)
      case Inline(_) => false
      case Spread(name) => name !in fragments
  }

  // Nesting of fields, introspection aside.
  function FieldDepthOne(s: Selection): nat {
    match s
    case Leaf(name) => if IsIntrospection(name) then 0 else 1
    case Field(name, sub) => if IsIntrospection(name) then 0 else 1 + FieldDepth(sub)
    case Inline(sub) => FieldDepth(sub)
    case Spread(_) => 0
  }

  function FieldDepth(sels: seq<Selection>): nat {
    if sels == [] then 0 else Max(FieldDepth(sels[..|sels| - 1]), FieldDepthOne(sels[|sels| - 1]))
  }

  lemma {:induction false} FieldDepthAppend(a: seq<Selection>, b: seq<Selection>)
    ensures FieldDepth(a + b) == Max(FieldDepth(a), FieldDepth(b))
    decreases |b|
  {
    if b == [] {
      assert a + b == a;
    } else {
      assert (a + b)[..|a + b| - 1] == a + b[..|b| - 1];
      FieldDepthAppend(a, b[..|b| - 1]);
    }
  }

  lemma FieldDepthSingle(s: Selection)
    ensures FieldDepth([s]) == FieldDepthOne(s)
  {
    assert [s][..0] == [];
  }

  // ----- Depth is the longest path of visible fields -----

  // A name that starts with two underscores is introspection.
  predicate Visible(name: string) {
    |name| < 2 || name[0] != '_' || name[1] != '_'
  }

  lemma IntrospectionNames(name: string)
    ensures Visible(name) <==> !IsIntrospection(name)
  {
    assert |"__"| == 2 && "__"[0] == '_' && "__"[1] == '_';
  }

  // The names are those of fields nested in each other somewhere in the selections, from the outside in.
  ghost predicate IsPath(sels: seq<Selection>, path: seq<string>) {
    path == [] || exists s <- sels :: IsPathOne(s, path)
  }

  ghost predicate IsPathOne(s: Selection, path: seq<string>)
    requires path != []
  {
    match s
    case Leaf(name) => path == [name]
    case Field(name, sub) => path[0] == name && IsPath(sub, path[1..])
    case Inline(sub) => IsPath(sub, path)
    case Spread(_) => false
  }

  ghost predicate AllVisible(path: seq<string>) {
    forall i :: 0 <= i < |path| ==> Visible(path[i])
  }

  lemma {:induction false} PathFits(sels: seq<Selection>, path: seq<string>)
    requires IsPath(sels, path) && AllVisible(path)
    ensures |path| <= FieldDepth(sels)
    decreases sels
  {
    if path != [] {
      var s :| s in sels && IsPathOne(s, path);
      PathFitsOne(s, path);
      DepthOfMember(sels, s);
    }
  }

  lemma {:induction false} PathFitsOne(s: Selection, path: seq<string>)
    requires path != [] && IsPathOne(s, path) && AllVisible(path)
    ensures |path| <= FieldDepthOne(s)
    decreases s
  {
    match s
    case Leaf(name) =>
      assert Visible(path[0]);
      IntrospectionNames(name);
    case Field(name, sub) =>
      assert Visible(path[0]);
      IntrospectionNames(name);
      PathFits(sub, path[1..]);
    case Inline(sub) => PathFits(sub, path);
    case Spread(_) =>
  }

  lemma {:induction false} DepthOfMember(sels: seq<Selection>, s: Selection)
    requires s in sels
    ensures FieldDepthOne(s) <= FieldDepth(sels)
    decreases |sels|
  {
    if s != sels[|sels| - 1] {
      DepthOfMember(sels[..|sels| - 1], s);
    }
  }

  lemma {:induction false} DeepestPath(sels: seq<Selection>) returns (path: seq<string>)
    ensures IsPath(sels, path) && AllVisible(path) && |path| == FieldDepth(sels)
    decreases sels
  {
    path := [];
    if sels != [] {
      var front, last := sels[..|sels| - 1], sels[|sels| - 1];
      if FieldDepthOne(last) >= FieldDepth(front) && FieldDepthOne(last) > 0 {
        path := DeepestPathOne(last);
        assert last in sels;
      } else {
        path := DeepestPath(front);
        if path != [] {
          var s :| s in front && IsPathOne(s, path);
          assert s in sels;
        }
      }
    }
  }

  lemma {:induction false} DeepestPathOne(s: Selection) returns (path: seq<string>)
    requires FieldDepthOne(s) > 0
    ensures path != [] && IsPathOne(s, path) && AllVisible(path) && |path| == FieldDepthOne(s)
    decreases s
  {
    match s
    case Leaf(name) =>
      path := [name];
      IntrospectionNames(name);
    case Field(name, sub) =>
      IntrospectionNames(name);
      var below := DeepestPath(sub);
      path := [name] + below;
      assert path[1..] == below;
    case Inline(sub) => path := DeepestPath(sub);
  }

  // What the depth of inlined selections means: as many fields are nested in each other, none of them introspection,
  // and no more.
  lemma DepthIsLongestPath(sels: seq<Selection>, n: nat)
    ensures n <= FieldDepth(sels) <==> exists path :: IsPath(sels, path) && AllVisible(path) && |path| >= n
  {
    var path := DeepestPath(sels);
    if exists longer :: IsPath(sels, longer) && AllVisible(longer) && |longer| >= n {
      var longer :| IsPath(sels, longer) && AllVisible(longer) && |longer| >= n;
      PathFits(sels, longer);
    }
  }

  // ----- Cycles -----

  // The fragments spread anywhere inside the selections.
  function SpreadsOne(s: Selection): set<string> {
    match s
    case Leaf(_) => {}
    case Field(_, sub) => Spreads(sub)
    case Inline(sub) => Spreads(sub)
    case Spread(name) => {name}
  }

  function Spreads(sels: seq<Selection>): set<string> {
    if sels == [] then {} else Spreads(sels[..|sels| - 1]) + SpreadsOne(sels[|sels| - 1])
  }

  // Each fragment of the chain spreads the next one.
  ghost predicate Chain(fragments: Fragments, p: seq<string>) {
    && (forall i :: 0 <= i < |p| ==> p[i] in fragments)
    && (forall i :: 0 <= i < |p| - 1 ==> p[i + 1] in Spreads(fragments[p[i]]))
  }

  // Fragment spreads must not form cycles (section 5.5.2.2 of the GraphQL specification, October 2021).
  ghost predicate Acyclic(fragments: Fragments) {
    forall p :: |p| >= 2 && Chain(fragments, p) ==> p[0] != p[|p| - 1]
  }

  function Names(p: seq<string>): set<string> {
    set x | x in p
  }

  lemma ChainExtends(fragments: Fragments, p: seq<string>, name: string)
    requires Chain(fragments, p) && name in fragments
    requires p == [] || name in Spreads(fragments[p[|p| - 1]])
    ensures Chain(fragments, p + [name])
  {
  }

  // In an acyclic map a chain has no repetition, and cannot be extended by one of its members.
  lemma ChainIsFresh(fragments: Fragments, p: seq<string>, i: nat, j: nat)
    requires Acyclic(fragments) && Chain(fragments, p) && i < j < |p|
    ensures p[i] != p[j]
  {
    var q := p[i..j + 1];
    forall k | 0 <= k < |q| - 1 ensures q[k + 1] in Spreads(fragments[q[k]]) {
      assert p[i + k + 1] in Spreads(fragments[p[i + k]]);
    }
    assert Chain(fragments, q);
  }

  lemma {:induction false} DistinctCount(p: seq<string>)
    requires forall i, j :: 0 <= i < j < |p| ==> p[i] != p[j]
    ensures |Names(p)| == |p|
    decreases |p|
  {
    if p != [] {
      var rest := p[..|p| - 1];
      DistinctCount(rest);
      assert Names(p) == Names(rest) + {p[|p| - 1]};
    }
  }

  // So a chain that does not contain some fragment is shorter than the number of fragments.
  lemma ChainIsShort(fragments: Fragments, p: seq<string>, name: string)
    requires Acyclic(fragments) && Chain(fragments, p + [name])
    ensures name !in p && |p| < |fragments.Keys|
  {
    var q := p + [name];
    forall i, j | 0 <= i < j < |q| ensures q[i] != q[j] {
      ChainIsFresh(fragments, q, i, j);
    }
    forall i | 0 <= i < |p| ensures p[i] != name {
      assert q[i] != q[|p|];
    }
    DistinctCount(q);
    forall x | x in Names(q) ensures x in fragments.Keys {
      var i :| 0 <= i < |q| && q[i] == x;
    }
    SubsetSize(Names(q), fragments.Keys);
  }

  // ----- The walk measures the inlined operation -----

  // The selections belong to the body of the last fragment of the chain (or to the operation, if it is empty).
  ghost predicate Inside(sels: set<string>, fragments: Fragments, p: seq<string>) {
    Chain(fragments, p) && (p == [] || sels <= Spreads(fragments[p[|p| - 1]]))
  }

  // Stepping into a fragment that the last one of the chain spreads.
  lemma NextFragment(fragments: Fragments, p: seq<string>, name: string)
    requires Acyclic(fragments) && Inside({name}, fragments, p) && name in fragments
    ensures Inside(Spreads(fragments[name]), fragments, p + [name])
    ensures name !in Names(p) && Names(p + [name]) == Names(p) + {name} && |p| < |fragments.Keys|
  {
    assert name in {name};
    ChainExtends(fragments, p, name);
    ChainIsShort(fragments, p, name);
  }

  lemma {:induction false} WalkOneIsInlinedDepth(s: Selection, fragments: Fragments, p: seq<string>, fuel: nat)
    requires Acyclic(fragments) && Inside(SpreadsOne(s), fragments, p) && fuel + |p| >= |fragments.Keys|
    ensures WalkOne(s, fragments, Names(p)) == FieldDepth(InlineOne(s, fragments, fuel))
    decreases fuel, s
  {
    match s
    case Leaf(_) => FieldDepthSingle(s);
    case Field(name, sub) =>
      WalkIsInlinedDepth(sub, fragments, p, fuel);
      FieldDepthSingle(Field(name, InlineAll(sub, fragments, fuel)));
    case Inline(sub) => WalkIsInlinedDepth(sub, fragments, p, fuel);
    case Spread(name) =>
      FieldDepthSingle(s);
      if name in fragments {
        NextFragment(fragments, p, name);
        WalkIsInlinedDepth(fragments[name], fragments, p + [name], fuel - 1);
      }
  }

  lemma {:induction false} WalkIsInlinedDepth(sels: seq<Selection>, fragments: Fragments, p: seq<string>, fuel: nat)
    requires Acyclic(fragments) && Inside(Spreads(sels), fragments, p) && fuel + |p| >= |fragments.Keys|
    ensures WalkDepth(sels, fragments, Names(p)) == FieldDepth(InlineAll(sels, fragments, fuel))
    decreases fuel, sels
  {
    if sels != [] {
      var front, last := sels[..|sels| - 1], sels[|sels| - 1];
      WalkIsInlinedDepth(front, fragments, p, fuel);
      WalkOneIsInlinedDepth(last, fragments, p, fuel);
      FieldDepthAppend(InlineAll(front, fragments, fuel), InlineOne(last, fragments, fuel));
    }
  }

  lemma FullyInlinedAppend(a: seq<Selection>, b: seq<Selection>, fragments: Fragments)
    requires FullyInlined(a, fragments) && FullyInlined(b, fragments)
    ensures FullyInlined(a + b, fragments)
  {
  }

  lemma {:induction false} InlineOneIsComplete(s: Selection, fragments: Fragments, p: seq<string>, fuel: nat)
    requires Acyclic(fragments) && Inside(SpreadsOne(s), fragments, p) && fuel + |p| >= |fragments.Keys|
    ensures FullyInlined(InlineOne(s, fragments, fuel), fragments)
    decreases fuel, s
  {
    match s
    case Leaf(_) =>
    case Field(_, sub) => InlineIsComplete(sub, fragments, p, fuel);
    case Inline(sub) => InlineIsComplete(sub, fragments, p, fuel);
    case Spread(name) =>
      if name in fragments {
        ChainExtends(fragments, p, name);
        ChainIsShort(fragments, p, name);
        InlineIsComplete(fragments[name], fragments, p + [name], fuel - 1);
      }
  }

  lemma {:induction false} InlineIsComplete(sels: seq<Selection>, fragments: Fragments, p: seq<string>, fuel: nat)
    requires Acyclic(fragments) && Inside(Spreads(sels), fragments, p) && fuel + |p| >= |fragments.Keys|
    ensures FullyInlined(InlineAll(sels, fragments, fuel), fragments)
    decreases fuel, sels
  {
    if sels != [] {
      var front, last := sels[..|sels| - 1], sels[|sels| - 1];
      InlineIsComplete(front, fragments, p, fuel);
      InlineOneIsComplete(last, fragments, p, fuel);
      FullyInlinedAppend(InlineAll(front, fragments, fuel), InlineOne(last, fragments, fuel), fragments);
    }
  }

  // Cycles or not, the walk never sees more than the inlining to a nesting of all fragments: it cuts a branch
  // only at a fragment it is already inside of.
  lemma {:induction false} WalkOneWithinInlining(s: Selection, fragments: Fragments, visited: set<string>, fuel: nat)
    requires fuel >= |fragments.Keys - visited|
    ensures WalkOne(s, fragments, visited) <= FieldDepth(InlineOne(s, fragments, fuel))
    decreases fuel, s
  {
    match s
    case Leaf(_) => FieldDepthSingle(s);
    case Field(name, sub) =>
      WalkWithinInlining(sub, fragments, visited, fuel);
      FieldWithinInlining(name, sub, fragments, visited, fuel);
    case Inline(sub) => WalkWithinInlining(sub, fragments, visited, fuel);
    case Spread(name) =>
      if name in fragments && name !in visited {
        FewerUnvisited(fragments.Keys, visited, name);
        WalkWithinInlining(fragments[name], fragments, visited + {name}, fuel - 1);
        SpreadWithinInlining(name, fragments, visited, fuel);
      }
  }

  lemma FieldWithinInlining(name: string, sub: seq<Selection>, fragments: Fragments, visited: set<string>, fuel: nat)
    requires WalkDepth(sub, fragments, visited) <= FieldDepth(InlineAll(sub, fragments, fuel))
    ensures WalkOne(Field(name, sub), fragments, visited) <= FieldDepth(InlineOne(Field(name, sub), fragments, fuel))
  {
    FieldDepthSingle(Field(name, InlineAll(sub, fragments, fuel)));
  }

  lemma SpreadWithinInlining(name: string, fragments: Fragments, visited: set<string>, fuel: nat)
    requires name in fragments && name !in visited && fuel > 0
    requires WalkDepth(fragments[name], fragments, visited + {name})
             <= FieldDepth(InlineAll(fragments[name], fragments, fuel - 1))
    ensures WalkOne(Spread(name), fragments, visited) <= FieldDepth(InlineOne(Spread(name), fragments, fuel))
  {
  }

  lemma {:induction false} WalkWithinInlining(sels: seq<Selection>, fragments: Fragments, visited: set<string>,
                                              fuel: nat)
    requires fuel >= |fragments.Keys - visited|
    ensures WalkDepth(sels, fragments, visited) <= FieldDepth(InlineAll(sels, fragments, fuel))
    decreases fuel, sels
  {
    if sels != [] {
      var front, last := sels[..|sels| - 1], sels[|sels| - 1];
      WalkWithinInlining(front, fragments, visited, fuel);
      WalkOneWithinInlining(last, fragments, visited, fuel);
      FieldDepthAppend(InlineAll(front, fragments, fuel), InlineOne(last, fragments, fuel));
    }
  }

  // ----- The rule -----

  datatype Definition =
    | FragmentDefinition(name: string, selections: seq<Selection>)
    | OperationDefinition(operation: Option<string>, selections: seq<Selection>)
    | OtherDefinition

  datatype DepthError = DepthError(operation: string, depth: nat)

  // The last definition of a name wins.
  function FragmentsOf(definitions: seq<Definition>): Fragments {
    if definitions == [] then map[]
    else
      var rest := FragmentsOf(definitions[..|definitions| - 1]);
      match definitions[|definitions| - 1]
      case FragmentDefinition(name, selections) => rest[name := selections]
      case _ => rest
  }

  predicate Defines(d: Definition, name: string) {
    d.FragmentDefinition? && d.name == name
  }

  // Position i holds the last definition of the name.
  predicate LastDefines(definitions: seq<Definition>, i: nat, name: string) {
    && i < |definitions| && Defines(definitions[i], name)
    && forall j :: i < j < |definitions| ==> !Defines(definitions[j], name)
  }

  // The map of a document: a name is in it exactly if some definition has it, with the selections of the last one.
  ghost predicate IsFragmentMap(definitions: seq<Definition>, fragments: Fragments) {
    && (forall name :: name in fragments <==> exists i :: 0 <= i < |definitions| && Defines(definitions[i], name))
    && (forall i: nat, name :: LastDefines(definitions, i, name) ==>
          name in fragments && fragments[name] == definitions[i].selections)
  }

  lemma {:induction false} LastDefinitionsCount(definitions: seq<Definition>)
    ensures IsFragmentMap(definitions, FragmentsOf(definitions))
    decreases |definitions|
  {
    if definitions != [] {
      var k := |definitions| - 1;
      var before, rest := definitions[..k], FragmentsOf(definitions[..k]);
      LastDefinitionsCount(before);
      var fragments := FragmentsOf(definitions);
      forall name ensures name in fragments <==> exists i :: 0 <= i < |definitions| && Defines(definitions[i], name) {
        if name in rest {
          var i :| 0 <= i < |before| && Defines(before[i], name);
          assert Defines(definitions[i], name);
        }
        if i :| 0 <= i < |definitions| && Defines(definitions[i], name) && i < k {
          assert Defines(before[i], name);
        }
      }
      forall i: nat, name | LastDefines(definitions, i, name)
        ensures name in fragments && fragments[name] == definitions[i].selections
      {
        if i < k {
          assert LastDefines(before, i, name) && !Defines(definitions[k], name);
        }
      }
    }
  }

  // A document has only one map.
  lemma FragmentMapUnique(definitions: seq<Definition>, a: Fragments, b: Fragments)
    requires IsFragmentMap(definitions, a) && IsFragmentMap(definitions, b)
    ensures a == b
  {
    forall name
      ensures name in a <==> name in b
      ensures name in a ==> a[name] == b[name]
    {
      if name in a {
        var i :| 0 <= i < |definitions| && Defines(definitions[i], name);
        var last := LastOne(definitions, i, name);
        assert LastDefines(definitions, last, name);
      }
    }
  }

  lemma {:induction false} LastOne(definitions: seq<Definition>, i: nat, name: string) returns (last: nat)
    requires i < |definitions| && Defines(definitions[i], name)
    ensures LastDefines(definitions, last, name)
    decreases |definitions| - i
  {
    if j :| i < j < |definitions| && Defines(definitions[j], name) {
      last := LastOne(definitions, j, name);
    } else {
      last := i;
    }
  }

  function OperationName(name: Option<string>): string {
    if name.Some? then name.value else "anonymous"
  }

  // One error for each operation that the walk measures as deeper than allowed, in document order.
  function Reported(definitions: seq<Definition>, fragments: Fragments, maxDepth: int): seq<DepthError> {
    if definitions == [] then []
    else
      var rest := Reported(definitions[..|definitions| - 1], fragments, maxDepth);
      match definitions[|definitions| - 1]
      case OperationDefinition(name, selections) =>
        var depth := WalkDepth(selections, fragments, {});
        if depth > maxDepth then rest + [DepthError(OperationName(name), depth)] else rest
      case _ => rest
  }

  // The error that the walk of definition i leads to, under the name of its operation or as anonymous.
  predicate IsErrorOf(e: DepthError, d: Definition, fragments: Fragments, maxDepth: int) {
    && d.OperationDefinition?
    && e.depth == WalkDepth(d.selections, fragments, {}) > maxDepth
    && match d.operation
       case Some(name) => e.operation == name
       case None => e.operation == "anonymous"
  }

  // The errors in document order: `at` gives the position of the operation of each, and no operation that is too deep
  // is left out.
  lemma {:induction false} ReportedInOrder(definitions: seq<Definition>, fragments: Fragments, maxDepth: int)
    returns (at: seq<nat>)
    ensures |at| == |Reported(definitions, fragments, maxDepth)|
    ensures forall k :: 0 <= k < |at| ==> at[k] < |definitions|
    ensures forall k :: 0 <= k < |at| ==>
              IsErrorOf(Reported(definitions, fragments, maxDepth)[k], definitions[at[k]], fragments, maxDepth)
    ensures forall j, k :: 0 <= j < k < |at| ==> at[j] < at[k]
    ensures forall i: nat ::
              i < |definitions| && definitions[i].OperationDefinition?
              && WalkDepth(definitions[i].selections, fragments, {}) > maxDepth ==>
                i in at
    decreases |definitions|
  {
    at := [];
    if definitions != [] {
      var k := |definitions| - 1;
      at := ReportedInOrder(definitions[..k], fragments, maxDepth);
      assert forall i :: 0 <= i < k ==> definitions[..k][i] == definitions[i];
      var last := definitions[k];
      if last.OperationDefinition? && WalkDepth(last.selections, fragments, {}) > maxDepth {
        at := at + [k];
      }
    }
  }

  // depthLimit: one error for each operation that its walk measures as too deep, over the last definition of every
  // fragment; without fragment cycles, for exactly those that are too deep once inlined.
  method ValidateDepth(definitions: seq<Definition>, maxDepth: int) returns (errors: seq<DepthError>)
    ensures errors == Reported(definitions, FragmentsOf(definitions), maxDepth)
    ensures forall fragments :: IsFragmentMap(definitions, fragments) && Acyclic(fragments) ==>
              errors == TooDeep(definitions, fragments, maxDepth)
  {
    var fragments: Fragments := map[];
    for i := 0 to |definitions|
      invariant fragments == FragmentsOf(definitions[..i])
    {
      assert definitions[..i + 1][..i] == definitions[..i];
      match definitions[i] {
        case FragmentDefinition(name, selections) => fragments := fragments[name := selections];
        case _ =>
      }
    }
    assert definitions[..|definitions|] == definitions;
    errors := [];
    for i := 0 to |definitions|
      invariant errors == Reported(definitions[..i], fragments, maxDepth)
    {
      assert definitions[..i + 1][..i] == definitions[..i];
      match definitions[i] {
        case OperationDefinition(name, selections) =>
          var visited := new VisitedSet();
          var depth := SelectionDepth(selections, fragments, visited);
          if depth > maxDepth {
            errors := errors + [DepthError(OperationName(name), depth)];
          }
        case _ =>
      }
    }
    LastDefinitionsCount(definitions);
    forall m | IsFragmentMap(definitions, m) && Acyclic(m) ensures errors == TooDeep(definitions, m, maxDepth) {
      FragmentMapUnique(definitions, m, fragments);
      ReportsExactlyTooDeep(definitions, maxDepth);
    }
  }

  // How deep an operation is with every fragment inlined.
  function InlinedDepth(selections: seq<Selection>, fragments: Fragments): nat {
    FieldDepth(InlineAll(selections, fragments, |fragments.Keys|))
  }

  // The operations whose fully inlined depth exceeds the limit, with that depth.
  function TooDeep(definitions: seq<Definition>, fragments: Fragments, maxDepth: int): seq<DepthError> {
    if definitions == [] then []
    else
      var rest := TooDeep(definitions[..|definitions| - 1], fragments, maxDepth);
      match definitions[|definitions| - 1]
      case OperationDefinition(name, selections) =>
        if InlinedDepth(selections, fragments) > maxDepth
          then rest + [DepthError(OperationName(name), InlinedDepth(selections, fragments))]
        else rest
      case _ => rest
  }

  lemma {:induction false} SameReports(definitions: seq<Definition>, fragments: Fragments, maxDepth: int)
    requires Acyclic(fragments)
    ensures Reported(definitions, fragments, maxDepth) == TooDeep(definitions, fragments, maxDepth)
    decreases |definitions|
  {
    if definitions != [] {
      var last := definitions[|definitions| - 1];
      SameReports(definitions[..|definitions| - 1], fragments, maxDepth);
      if last.OperationDefinition? {
        InlinedOperation(last.selections, fragments);
      }
    }
  }

  // Main result: in a document without fragment cycles the rule reports exactly the operations that are too deep once
  // every fragment is inlined, where the last definition of a name counts.
  lemma ReportsExactlyTooDeep(definitions: seq<Definition>, maxDepth: int)
    requires Acyclic(FragmentsOf(definitions))
    ensures IsFragmentMap(definitions, FragmentsOf(definitions))
    ensures Reported(definitions, FragmentsOf(definitions), maxDepth)
         == TooDeep(definitions, FragmentsOf(definitions), maxDepth)
  {
    LastDefinitionsCount(definitions);
    SameReports(definitions, FragmentsOf(definitions), maxDepth);
  }

  // Main result: without cycles the walk of an operation measures its full inlining, which is complete.
  lemma InlinedOperation(selections: seq<Selection>, fragments: Fragments)
    requires Acyclic(fragments)
    ensures WalkDepth(selections, fragments, {}) == InlinedDepth(selections, fragments)
    ensures FullyInlined(InlineAll(selections, fragments, |fragments.Keys|), fragments)
  {
    assert Names([]) == {};
    WalkIsInlinedDepth(selections, fragments, [], |fragments.Keys|);
    InlineIsComplete(selections, fragments, [], |fragments.Keys|);
  }

  // ----- Paths through fragments -----

  // The names are those of nested fields, where a spread stands for the contents of its fragment, at most `hops` deep.
  ghost predicate PathThrough(sels: seq<Selection>, fragments: Fragments, hops: nat, path: seq<string>)
    decreases hops, sels
  {
    path == [] || exists s <- sels :: PathThroughOne(s, fragments, hops, path)
  }

  ghost predicate PathThroughOne(s: Selection, fragments: Fragments, hops: nat, path: seq<string>)
    requires path != []
    decreases hops, s
  {
    match s
    case Leaf(name) => path == [name]
    case Field(name, sub) => path[0] == name && PathThrough(sub, fragments, hops, path[1..])
    case Inline(sub) => PathThrough(sub, fragments, hops, path)
    case Spread(name) => name in fragments && hops > 0 && PathThrough(fragments[name], fragments, hops - 1, path)
  }

  lemma PathAppend(a: seq<Selection>, b: seq<Selection>, path: seq<string>)
    ensures IsPath(a + b, path) <==> IsPath(a, path) || IsPath(b, path)
  {
    if path != [] {
      assert forall s :: s in a + b <==> s in a || s in b;
    }
  }

  // Inlining keeps the paths.
  lemma {:induction false} InliningKeepsPaths(sels: seq<Selection>, fragments: Fragments, hops: nat, path: seq<string>)
    ensures IsPath(InlineAll(sels, fragments, hops), path) <==> PathThrough(sels, fragments, hops, path)
    decreases hops, sels
  {
    if sels != [] && path != [] {
      var front, last := sels[..|sels| - 1], sels[|sels| - 1];
      InliningKeepsPaths(front, fragments, hops, path);
      InliningKeepsPathsOne(last, fragments, hops, path);
      PathAppend(InlineAll(front, fragments, hops), InlineOne(last, fragments, hops), path);
      assert forall s :: s in sels <==> s in front || s == last;
    }
  }

  lemma {:induction false} InliningKeepsPathsOne(s: Selection, fragments: Fragments, hops: nat, path: seq<string>)
    requires path != []
    ensures IsPath(InlineOne(s, fragments, hops), path) <==> PathThroughOne(s, fragments, hops, path)
    decreases hops, s
  {
    match s
    case Leaf(_) => assert s in [s];
    case Field(name, sub) =>
      var inlined := Field(name, InlineAll(sub, fragments, hops));
      InliningKeepsPaths(sub, fragments, hops, path[1..]);
      assert InlineOne(s, fragments, hops) == [inlined] && inlined in [inlined];
    case Inline(sub) => InliningKeepsPaths(sub, fragments, hops, path);
    case Spread(name) =>
      if name in fragments && hops > 0 {
        InliningKeepsPaths(fragments[name], fragments, hops - 1, path);
      }
  }

  // Main result: without cycles the walk of an operation finds depth n exactly if n visible fields are nested in each
  // other somewhere in it, through however many fragments.
  lemma WalkIsLongestPath(selections: seq<Selection>, fragments: Fragments, n: nat)
    requires Acyclic(fragments)
    ensures n <= WalkDepth(selections, fragments, {})
       <==> exists path, hops: nat :: PathThrough(selections, fragments, hops, path) && AllVisible(path) && |path| >= n
  {
    if exists path, hops: nat :: PathThrough(selections, fragments, hops, path) && AllVisible(path) && |path| >= n {
      var path, hops: nat :| PathThrough(selections, fragments, hops, path) && AllVisible(path) && |path| >= n;
      var fuel := Max(hops, |fragments.Keys|);
      MoreHops(selections, fragments, hops, fuel, path);
      InliningKeepsPaths(selections, fragments, fuel, path);
      PathFits(InlineAll(selections, fragments, fuel), path);
      assert Names([]) == {};
      WalkIsInlinedDepth(selections, fragments, [], fuel);
    }
    InlinedOperation(selections, fragments);
    var path := DeepestPath(InlineAll(selections, fragments, |fragments.Keys|));
    InliningKeepsPaths(selections, fragments, |fragments.Keys|, path);
  }

  lemma {:induction false} MoreHops(sels: seq<Selection>, fragments: Fragments, hops: nat, more: nat, path: seq<string>)
    requires hops <= more && PathThrough(sels, fragments, hops, path)
    ensures PathThrough(sels, fragments, more, path)
    decreases hops, sels
  {
    if path != [] {
      var s :| s in sels && PathThroughOne(s, fragments, hops, path);
      MoreHopsOne(s, fragments, hops, more, path);
    }
  }

  lemma {:induction false} MoreHopsOne(s: Selection, fragments: Fragments, hops: nat, more: nat, path: seq<string>)
    requires path != [] && hops <= more && PathThroughOne(s, fragments, hops, path)
    ensures PathThroughOne(s, fragments, more, path)
    decreases hops, s
  {
    match s
    case Leaf(_) =>
    case Field(_, sub) => MoreHops(sub, fragments, hops, more, path[1..]);
    case Inline(sub) => MoreHops(sub, fragments, hops, more, path);
    case Spread(name) => MoreHops(fragments[name], fragments, hops - 1, more - 1, path);
  }
}
