/** The contract checker: a worklist over the schemas of a document, and a cycle
    test over the references found on the way. */
module Contracts {
  import opened Wrappers
  import opened JsonPointer
  import Graphs

  const MAX_NODES := 10000

  /** Identity of a visited value. Objects are identified by their place in the
      document; the two boolean constants are shared by all their occurrences. */
  datatype Node = Shared(b: bool) | Place(path: Path)

  datatype ContractError =
    | BadSchema
    | TooComplex
    | ReferenceNotString
    | BadReference(error: PointerError)
    | BadTarget
    | UnsupportedKeyword(key: string)
    | WrongDraft
    | ReferenceLoop

  /** A document, and what the Draft 7 meta-schema says of a value. */
  datatype Contract = Contract(doc: Json, meta: Json -> bool)

  function ValueAt(c: Contract, p: Path): Json {
    match At(c.doc, p)
    case Some(v) => v
    case None => Null
  }

  function NodeAt(c: Contract, p: Path): Node {
    var v := ValueAt(c, p);
    if v.Bool? then Shared(v.b) else Place(p)
  }

  // ----- one value

  const UNSUPPORTED := {"$id", "$dynamicRef", "$recursiveRef", "$anchor", "$dynamicAnchor", "$recursiveAnchor"}

  const DRAFT7 := {"http://json-schema.org/draft-07/schema#", "https://json-schema.org/draft-07/schema"}

  function ResolveTarget(c: Contract, value: Json): Result<Path, ContractError> {
    if !value.String? then Err(ReferenceNotString)
    else
      match Resolve(c.doc, value.text)
      case Err(e) => Err(BadReference(e))
      case Ok(p) => if c.meta(ValueAt(c, p)) then Ok(p) else Err(BadTarget)
  }

  /** The keywords of one object, in order; the path of its reference, if any. */
  function Scan(c: Contract, fields: seq<Field>): Result<Option<Path>, ContractError> {
    if fields == [] then Ok(None)
    else
      var key, value := fields[0].key, fields[0].value;
      var target :- if key == "$ref" then TargetOf(c, value) else Ok(None);
      if key in UNSUPPORTED then Err(UnsupportedKeyword(key))
      else if key == "$schema" && !(value.String? && value.text in DRAFT7) then Err(WrongDraft)
      else
        var rest :- Scan(c, fields[1..]);
        Ok(if rest.Some? then rest else target)
  }

  function TargetOf(c: Contract, value: Json): Result<Option<Path>, ContractError> {
    match ResolveTarget(c, value)
    case Err(e) => Err(e)
    case Ok(p) => Ok(Some(p))
  }

  function KeyPaths(base: Path, fields: seq<Field>): seq<Path> {
    seq(|fields|, i requires 0 <= i < |fields| => base + [Key(fields[i].key)])
  }

  function IndexPaths(base: Path, items: seq<Json>): seq<Path> {
    seq(|items|, i requires 0 <= i < |items| => base + [Index(i)])
  }

  function SchemaFields(fields: seq<Field>): seq<Field> {
    if fields == [] then []
    else (if IsSchema(fields[0].value) then [fields[0]] else []) + SchemaFields(fields[1..])
  }

  /** Children under a keyword whose value is a map of schemas. */
  function MapChildren(p: Path, v: seq<Field>, key: string): seq<Path> {
    match Lookup(v, key)
    case Some(Object(fields)) => KeyPaths(p + [Key(key)], fields)
    case _ => []
  }

  function SingleChild(p: Path, v: seq<Field>, key: string): seq<Path> {
    if Lookup(v, key).Some? then [p + [Key(key)]] else []
  }

  function ListChildren(p: Path, v: seq<Field>, key: string): seq<Path> {
    match Lookup(v, key)
    case Some(Array(items)) => IndexPaths(p + [Key(key)], items)
    case _ => []
  }

  function ItemsChildren(p: Path, v: seq<Field>): seq<Path> {
    match Lookup(v, "items")
    case None => []
    case Some(Array(items)) => IndexPaths(p + [Key("items")], items)
    case Some(_) => [p + [Key("items")]]
  }

  function DependencyChildren(p: Path, v: seq<Field>): seq<Path> {
    match Lookup(v, "dependencies")
    case Some(Object(fields)) => KeyPaths(p + [Key("dependencies")], SchemaFields(fields))
    case _ => []
  }

  function EachKey(p: Path, v: seq<Field>, keys: seq<string>,
                   children: (Path, seq<Field>, string) -> seq<Path>): seq<Path> {
    if keys == [] then [] else children(p, v, keys[0]) + EachKey(p, v, keys[1..], children)
  }

  const MAP_KEYS := ["definitions", "properties", "patternProperties"]
  const SINGLE_KEYS := ["additionalProperties", "additionalItems", "contains", "propertyNames", "not", "if", "then",
                        "else"]
  const LIST_KEYS := ["allOf", "anyOf", "oneOf"]

  /** The schema-bearing children of an object; property names and plain data are not followed. */
  function Children(p: Path, v: seq<Field>): seq<Path> {
    EachKey(p, v, MAP_KEYS, MapChildren)
    + EachKey(p, v, SINGLE_KEYS, SingleChild)
    + EachKey(p, v, LIST_KEYS, ListChildren)
    + ItemsChildren(p, v)
    + DependencyChildren(p, v)
  }

  /** What visiting a node finds: its reference target and everything to visit next. */
  datatype Found = Found(target: Option<Path>, next: seq<Path>)

  function Inspect(c: Contract, n: Node): Result<Found, ContractError> {
    match n
    case Shared(_) => Ok(Found(None, []))
    case Place(p) =>
      match ValueAt(c, p)
      case Object(fields) =>
        var target :- Scan(c, fields);
        Ok(Found(target, (if target.Some? then [target.value] else []) + Children(p, fields)))
      case _ => Ok(Found(None, []))
  }

  // ----- the closure

  ghost predicate Leads(c: Contract, a: Node, b: Node) {
    Inspect(c, a).Ok? && exists p :: p in Inspect(c, a).value.next && NodeAt(c, p) == b
  }

  ghost predicate IsTrail(c: Contract, ns: seq<Node>) {
    |ns| > 0 && ns[0] == NodeAt(c, []) && forall i :: 0 <= i < |ns| - 1 ==> Leads(c, ns[i], ns[i + 1])
  }

  /** In the closure of the root under schema-bearing children and references. */
  ghost predicate InClosure(c: Contract, n: Node) {
    exists ns :: IsTrail(c, ns) && ns[|ns| - 1] == n
  }

  lemma RootInClosure(c: Contract)
    ensures InClosure(c, NodeAt(c, []))
  {
    assert IsTrail(c, [NodeAt(c, [])]);
  }

  lemma ClosureStep(c: Contract, a: Node, p: Path)
    requires InClosure(c, a) && Inspect(c, a).Ok? && p in Inspect(c, a).value.next
    ensures InClosure(c, NodeAt(c, p))
  {
    hide Inspect, NodeAt;
    var ns :| IsTrail(c, ns) && ns[|ns| - 1] == a;
    var ms := ns + [NodeAt(c, p)];
    forall i | 0 <= i < |ms| - 1 ensures Leads(c, ms[i], ms[i + 1]) {
      if i < |ns| - 1 {
        assert ms[i] == ns[i] && ms[i + 1] == ns[i + 1];
      } else {
        assert ms[i] == a && ms[i + 1] == NodeAt(c, p);
      }
    }
    assert IsTrail(c, ms);
  }

  /** A set of nodes that contains the root and everything its members lead to. */
  ghost predicate ClosedSet(c: Contract, visited: set<Node>) {
    && NodeAt(c, []) in visited
    && forall n, p :: n in visited && Inspect(c, n).Ok? && p in Inspect(c, n).value.next ==> NodeAt(c, p) in visited
  }

  lemma {:induction false} ClosureWithin(c: Contract, visited: set<Node>, ns: seq<Node>)
    requires ClosedSet(c, visited) && IsTrail(c, ns)
    ensures ns[|ns| - 1] in visited
    decreases |ns|
  {
    if |ns| > 1 {
      var ms := ns[..|ns| - 1];
      forall i | 0 <= i < |ms| - 1 ensures Leads(c, ms[i], ms[i + 1]) {
        assert ms[i] == ns[i] && ms[i + 1] == ns[i + 1];
      }
      ClosureWithin(c, visited, ms);
      assert Leads(c, ns[|ns| - 2], ns[|ns| - 1]);
    }
  }

  /** The verdict of the worklist, stated on the closure alone. */
  ghost predicate ClosureOk(c: Contract) {
    && (forall n :: InClosure(c, n) ==> Inspect(c, n).Ok?)
    && (forall ns: set<Node> :: (forall n :: n in ns ==> InClosure(c, n)) ==> |ns| <= MAX_NODES)
  }

  ghost predicate IsClosure(c: Contract, visited: set<Node>) {
    forall n :: n in visited <==> InClosure(c, n)
  }

  type Edges = map<Node, Node>

  /** The reference edges of the visited nodes. */
  ghost predicate EdgesOf(c: Contract, visited: set<Node>, edges: Edges) {
    && (forall n :: n in edges <==> n in visited && Inspect(c, n).Ok? && Inspect(c, n).value.target.Some?)
    && (forall n :: n in edges ==> edges[n] == NodeAt(c, Inspect(c, n).value.target.value))
  }

  ghost predicate WorkInv(c: Contract, visited: set<Node>, pending: seq<Path>, edges: Edges) {
    && (forall n :: n in visited ==> InClosure(c, n) && Inspect(c, n).Ok?)
    && (forall p :: p in pending ==> InClosure(c, NodeAt(c, p)))
    && (forall n, p :: n in visited && p in Inspect(c, n).value.next ==> NodeAt(c, p) in visited || p in pending)
    && (NodeAt(c, []) in visited || [] in pending)
    && EdgesOf(c, visited, edges)
    && |visited| <= MAX_NODES
  }

  /** An error of the worklist is one that a node of the closure gives, or tells its size. */
  ghost predicate ErrorIn(c: Contract, e: ContractError) {
    || (exists n :: InClosure(c, n) && Inspect(c, n) == Err(e))
    || (e == TooComplex && exists ns: set<Node> :: WithinClosure(c, ns) && |ns| > MAX_NODES)
  }

  ghost predicate WithinClosure(c: Contract, ns: set<Node>) {
    forall n :: n in ns ==> InClosure(c, n)
  }

  lemma TooMany(c: Contract, ns: set<Node>)
    requires WithinClosure(c, ns) && |ns| > MAX_NODES
    ensures !ClosureOk(c) && ErrorIn(c, TooComplex)
  {
  }

  lemma BadNode(c: Contract, n: Node)
    requires InClosure(c, n) && Inspect(c, n).Err?
    ensures !ClosureOk(c) && ErrorIn(c, Inspect(c, n).error)
  {
  }

  lemma Complete(c: Contract, visited: set<Node>, edges: Edges)
    requires WorkInv(c, visited, [], edges)
    ensures ClosureOk(c) && IsClosure(c, visited)
  {
    assert ClosedSet(c, visited);
    forall n | InClosure(c, n) ensures n in visited {
      var ns :| IsTrail(c, ns) && ns[|ns| - 1] == n;
      ClosureWithin(c, visited, ns);
    }
    forall ns: set<Node> | forall n :: n in ns ==> InClosure(c, n) ensures |ns| <= MAX_NODES {
      assert ns <= visited;
      Graphs.SubsetSize(ns, visited);
    }
  }

  /** Taking one value off the stack and visiting it. */
  lemma VisitOne(c: Contract, seen: set<Node>, before: seq<Path>, edges: Edges, n: Node)
    requires WorkInv(c, seen, before, edges) && before != [] && n == NodeAt(c, before[|before| - 1])
    requires n !in seen && Inspect(c, n).Ok? && |seen + {n}| <= MAX_NODES
    ensures var found := Inspect(c, n).value;
            WorkInv(c, seen + {n}, before[..|before| - 1] + found.next,
                    if found.target.Some? then edges[n := NodeAt(c, found.target.value)] else edges)
  {
    hide Inspect, InClosure, NodeAt;
    var found, rest := Inspect(c, n).value, before[..|before| - 1];
    assert InClosure(c, n);
    forall p | p in found.next ensures InClosure(c, NodeAt(c, p)) {
      ClosureStep(c, n, p);
    }
    PopOne(before);
  }

  lemma SkipOne(c: Contract, seen: set<Node>, before: seq<Path>, edges: Edges)
    requires WorkInv(c, seen, before, edges) && before != [] && NodeAt(c, before[|before| - 1]) in seen
    ensures WorkInv(c, seen, before[..|before| - 1], edges)
  {
    hide Inspect, InClosure, NodeAt;
    PopOne(before);
  }

  lemma PopOne(s: seq<Path>)
    requires s != []
    ensures forall p :: p in s <==> p == s[|s| - 1] || p in s[..|s| - 1]
  {
    assert s == s[..|s| - 1] + [s[|s| - 1]];
  }

  lemma PendingIsInClosure(c: Contract, seen: set<Node>, pending: seq<Path>, edges: Edges)
    requires WorkInv(c, seen, pending, edges) && pending != []
    ensures var n := NodeAt(c, pending[|pending| - 1]); InClosure(c, n) && WithinClosure(c, seen + {n})
  {
    hide Inspect, InClosure, NodeAt;
  }

  lemma StartWork(c: Contract)
    ensures WorkInv(c, {}, [[]], map[])
  {
    RootInClosure(c);
  }

  /** Visits the closure depth first from an explicit stack. */
  method Worklist(c: Contract) returns (r: Result<Edges, ContractError>, ghost visited: set<Node>)
    ensures r.Ok? <==> ClosureOk(c)
    ensures r.Ok? ==> IsClosure(c, visited) && EdgesOf(c, visited, r.value)
    ensures r.Err? ==> ErrorIn(c, r.error)
  {
    hide Inspect, InClosure, NodeAt, ClosureOk, ErrorIn, EdgesOf, IsClosure;
    var pending: seq<Path>, seen: set<Node>, edges: Edges := [[]], {}, map[];
    StartWork(c);
    while pending != []
      invariant WorkInv(c, seen, pending, edges)
      decreases MAX_NODES + 1 - |seen|, |pending|
    {
      var current := pending[|pending| - 1];
      ghost var before := pending;
      pending := pending[..|pending| - 1];
      var n := NodeAt(c, current);
      if n in seen {
        SkipOne(c, seen, before, edges);
      } else {
        if |seen + {n}| > MAX_NODES {
          PendingIsInClosure(c, seen, before, edges);
          TooMany(c, seen + {n});
          return Err(TooComplex), seen;
        }
        var found := Inspect(c, n);
        if found.Err? {
          PendingIsInClosure(c, seen, before, edges);
          BadNode(c, n);
          return Err(found.error), seen;
        }
        VisitOne(c, seen, before, edges, n);
        seen := seen + {n};
        if found.value.target.Some? {
          edges := edges[n := NodeAt(c, found.value.target.value)];
        }
        pending := pending + found.value.next;
      }
    }
    Complete(c, seen, edges);
    return Ok(edges), seen;
  }

  // ----- reference-only cycles

  /** Following references from `n` leaves the references within `k` steps. */
  ghost predicate Ends(edges: Edges, n: Node, k: nat)
    decreases k
  {
    n !in edges || (k > 0 && Ends(edges, edges[n], k - 1))
  }

  ghost predicate EndsEventually(edges: Edges, n: Node) {
    exists k: nat :: Ends(edges, n, k)
  }

  ghost predicate NoReferenceLoop(edges: Edges) {
    forall n :: n in edges ==> EndsEventually(edges, n)
  }

  lemma EndsBefore(edges: Edges, n: Node)
    requires n in edges && EndsEventually(edges, edges[n])
    ensures EndsEventually(edges, n)
  {
    var k: nat :| Ends(edges, edges[n], k);
    assert Ends(edges, n, k + 1);
  }

  /** The nodes passed since the start of a chain, in order. */
  ghost predicate IsWalk(edges: Edges, walk: seq<Node>, node: Node) {
    forall i :: 0 <= i < |walk| ==> walk[i] in edges && edges[walk[i]] == NextOf(walk, node, i)
  }

  ghost function NextOf(walk: seq<Node>, node: Node, i: nat): Node {
    if i + 1 < |walk| then walk[i + 1] else node
  }

  lemma ExtendWalk(edges: Edges, walk: seq<Node>, node: Node)
    requires IsWalk(edges, walk, node) && node in edges
    ensures IsWalk(edges, walk + [node], edges[node])
  {
    var longer := walk + [node];
    forall i | 0 <= i < |longer| ensures longer[i] in edges && edges[longer[i]] == NextOf(longer, edges[node], i) {
      if i < |walk| {
        assert longer[i] == walk[i] && edges[walk[i]] == NextOf(walk, node, i);
      }
    }
  }

  lemma {:induction false} WalkEnds(edges: Edges, walk: seq<Node>, node: Node, i: nat)
    requires IsWalk(edges, walk, node) && EndsEventually(edges, node) && i < |walk|
    ensures EndsEventually(edges, walk[i])
    decreases |walk| - i
  {
    if i + 1 < |walk| {
      WalkEnds(edges, walk, node, i + 1);
    }
    assert edges[walk[i]] == NextOf(walk, node, i);
    EndsBefore(edges, walk[i]);
  }

  lemma {:induction false} LoopNeverEnds(edges: Edges, walk: seq<Node>, node: Node, i: nat, j: nat, k: nat)
    requires IsWalk(edges, walk, node) && i < |walk| && walk[i] == node && i <= j < |walk|
    ensures !Ends(edges, walk[j], k)
    decreases k
  {
    assert walk[j] in edges && edges[walk[j]] == NextOf(walk, node, j);
    if k > 0 {
      if j + 1 < |walk| {
        LoopNeverEnds(edges, walk, node, i, j + 1, k - 1);
      } else {
        LoopNeverEnds(edges, walk, node, i, i, k - 1);
      }
    }
  }

  ghost predicate AllEnd(edges: Edges, completed: set<Node>) {
    completed <= edges.Keys && forall n :: n in completed ==> EndsEventually(edges, n)
  }

  /** One chain from `start`: until it leaves the references, reaches a completed
      node, or returns to itself. */
  method FollowChain(edges: Edges, start: Node, completed: set<Node>)
    returns (ok: bool, chain: set<Node>, ghost walk: seq<Node>)
    requires AllEnd(edges, completed) && start in edges
    ensures ok ==> AllEnd(edges, completed + chain) && start in completed + chain
    ensures !ok ==> !NoReferenceLoop(edges)
    ensures chain !! completed && chain <= edges.Keys
    ensures NoneTwice(walk) && (forall n :: n in chain <==> n in walk) && Follows(edges, walk)
    ensures ok && walk != [] ==> edges[walk[|walk| - 1]] !in edges || edges[walk[|walk| - 1]] in completed
  {
    hide IsWalk, NoneTwice, Follows, Ends, EndsEventually, NoReferenceLoop, AllEnd;
    chain := {};
    var node := start;
    walk := [];
    NoWalk(edges, start);
    while node in edges && node !in completed
      invariant chain <= edges.Keys && chain !! completed
      invariant IsWalk(edges, walk, node) && (forall n :: n in chain <==> n in walk)
      invariant if walk == [] then node == start else walk[0] == start && edges[walk[|walk| - 1]] == node
      invariant NoneTwice(walk) && Follows(edges, walk)
      decreases |edges.Keys - chain|
    {
      if node in chain {
        BackOnWalk(edges, walk, node);
        return false, chain, walk;
      }
      OneMore(edges.Keys, chain, walk, node);
      chain := chain + {node};
      ExtendWalk(edges, walk, node);
      WalkOn(edges, walk, node);
      walk := walk + [node];
      node := edges[node];
    }
    WalkedAllEnd(edges, completed, chain, walk, node);
    ok := true;
  }

  lemma OneMore(all: set<Node>, chain: set<Node>, walk: seq<Node>, node: Node)
    requires node in all && node !in chain && chain <= all && forall n :: n in chain <==> n in walk
    ensures |all - (chain + {node})| < |all - chain|
    ensures chain + {node} <= all && forall n :: n in chain + {node} <==> n in walk + [node]
  {
    assert all - (chain + {node}) == (all - chain) - {node};
  }

  lemma NoWalk(edges: Edges, start: Node)
    ensures IsWalk(edges, [], start) && NoneTwice([]) && Follows(edges, [])
  {
  }

  lemma BackOnWalk(edges: Edges, walk: seq<Node>, node: Node)
    requires IsWalk(edges, walk, node) && node in walk && node in edges
    ensures !NoReferenceLoop(edges)
  {
    var i :| 0 <= i < |walk| && walk[i] == node;
    forall k: nat ensures !Ends(edges, node, k) {
      LoopNeverEnds(edges, walk, node, i, i, k);
    }
  }

  lemma WalkOn(edges: Edges, walk: seq<Node>, node: Node)
    requires NoneTwice(walk) && Follows(edges, walk) && node in edges && node !in walk
    requires walk != [] ==> edges[walk[|walk| - 1]] == node
    ensures NoneTwice(walk + [node]) && Follows(edges, walk + [node])
  {
  }

  lemma WalkedAllEnd(edges: Edges, completed: set<Node>, chain: set<Node>, walk: seq<Node>, node: Node)
    requires AllEnd(edges, completed) && IsWalk(edges, walk, node) && (node !in edges || node in completed)
    requires chain <= edges.Keys && forall n :: n in chain <==> n in walk
    ensures AllEnd(edges, completed + chain)
  {
    assert EndsEventually(edges, node) by {
      if node !in edges {
        assert Ends(edges, node, 0);
      }
    }
    forall n | n in chain ensures EndsEventually(edges, n) {
      var i :| 0 <= i < |walk| && walk[i] == n;
      WalkEnds(edges, walk, node, i);
    }
  }

  ghost predicate NoneTwice(trail: seq<Node>) {
    forall i, j :: 0 <= i < j < |trail| ==> trail[i] != trail[j]
  }

  /** Every node is the reference target of the one before it. */
  ghost predicate Follows(edges: Edges, walk: seq<Node>) {
    && (forall n :: n in walk ==> n in edges)
    && forall i :: 0 <= i < |walk| - 1 ==> walk[i + 1] == edges[walk[i]]
  }

  /** The nodes passed over all chains, in order: a chain goes on with the reference target
      and stops only where it leaves the references or meets a node passed before. */
  ghost predicate IsPassed(edges: Edges, trail: seq<Node>) {
    && (forall n :: n in trail ==> n in edges)
    && forall i :: 0 <= i < |trail| - 1 ==> trail[i + 1] == edges[trail[i]] || Stops(edges, trail, i)
  }

  ghost predicate Stops(edges: Edges, trail: seq<Node>, i: nat)
    requires i < |trail| && trail[i] in edges
  {
    edges[trail[i]] !in edges || edges[trail[i]] in trail[..i + 1]
  }

  lemma TrailGrows(edges: Edges, trail: seq<Node>, walk: seq<Node>)
    requires IsPassed(edges, trail) && NoneTwice(trail) && Follows(edges, walk) && NoneTwice(walk)
    requires trail != [] ==> Stops(edges, trail, |trail| - 1)
    requires forall n :: n in walk ==> n !in trail
    ensures IsPassed(edges, trail + walk) && NoneTwice(trail + walk)
  {
    var whole := trail + walk;
    forall i | 0 <= i < |whole| - 1 ensures whole[i + 1] == edges[whole[i]] || Stops(edges, whole, i) {
      if i < |trail| {
        assert whole[i] == trail[i] && whole[..i + 1] == trail[..i + 1];
      } else {
        assert whole[i] == walk[i - |trail|] && whole[i + 1] == walk[i + 1 - |trail|];
      }
    }
    forall i, j | 0 <= i < j < |whole| ensures whole[i] != whole[j] {
      if i < |trail| <= j {
        assert whole[j] == walk[j - |trail|] && whole[j] in walk && whole[i] in trail;
      }
    }
  }

  lemma TrailStops(edges: Edges, trail: seq<Node>, walk: seq<Node>)
    requires IsPassed(edges, trail) && Follows(edges, walk)
    requires trail != [] ==> Stops(edges, trail, |trail| - 1)
    requires walk != [] ==> edges[walk[|walk| - 1]] !in edges || edges[walk[|walk| - 1]] in trail
    ensures trail + walk != [] ==>
              && (trail + walk)[|trail + walk| - 1] in edges
              && Stops(edges, trail + walk, |trail + walk| - 1)
  {
    var whole := trail + walk;
    if walk != [] {
      assert whole[|whole| - 1] == walk[|walk| - 1] && whole[..|whole|] == whole;
    } else {
      assert whole == trail;
    }
  }

  /** Accepts exactly when following references alone always ends; no node is passed
      twice, over all chains together, and acceptance has passed every one. */
  method CheckChains(edges: Edges) returns (ok: bool, ghost trail: seq<Node>)
    ensures ok <==> NoReferenceLoop(edges)
    ensures IsPassed(edges, trail) && NoneTwice(trail)
    ensures ok ==> forall n :: n in edges ==> n in trail
  {
    var completed: set<Node>, todo := {}, edges.Keys;
    trail := [];
    while todo != {}
      invariant todo <= edges.Keys && AllEnd(edges, completed)
      invariant edges.Keys - todo <= completed
      invariant IsPassed(edges, trail) && NoneTwice(trail) && forall n :: n in trail <==> n in completed
      invariant trail != [] ==> Stops(edges, trail, |trail| - 1)
    {
      var start :| start in todo;
      var chain;
      ghost var walk;
      ok, chain, walk := FollowChain(edges, start, completed);
      TrailGrows(edges, trail, walk);
      if !ok {
        trail := trail + walk;
        return;
      }
      TrailStops(edges, trail, walk);
      trail := trail + walk;
      completed := completed + chain;
      todo := todo - {start};
    }
    ok := true;
  }

  // ----- the whole check

  /** A contract is accepted exactly when it is a Draft 7 schema, everything in its
      closure is well formed and small enough, and references alone never loop. */
  ghost predicate ContractOk(c: Contract) {
    && c.meta(c.doc)
    && ClosureOk(c)
    && forall edges :: ReferencesOf(c, edges) ==> NoReferenceLoop(edges)
  }

  /** The reference edges of the closure. */
  ghost predicate ReferencesOf(c: Contract, edges: Edges) {
    exists visited :: IsClosure(c, visited) && EdgesOf(c, visited, edges)
  }

  lemma EdgesUnique(c: Contract, v1: set<Node>, v2: set<Node>, e1: Edges, e2: Edges)
    requires IsClosure(c, v1) && IsClosure(c, v2)
    requires EdgesOf(c, v1, e1) && EdgesOf(c, v2, e2)
    ensures v1 == v2 && e1 == e2
  {
    hide Inspect, InClosure;
    assert forall n :: n in v1 <==> n in v2;
    assert e1.Keys == e2.Keys;
  }

  lemma OneReferenceMap(c: Contract, visited: set<Node>, edges: Edges)
    requires IsClosure(c, visited) && EdgesOf(c, visited, edges)
    ensures ReferencesOf(c, edges) && forall other :: ReferencesOf(c, other) ==> other == edges
  {
    forall other | ReferencesOf(c, other) ensures other == edges {
      var v2 :| IsClosure(c, v2) && EdgesOf(c, v2, other);
      EdgesUnique(c, visited, v2, edges, other);
    }
  }
}
