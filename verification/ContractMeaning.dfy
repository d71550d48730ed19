/** What the contract checker accepts, told on the document: the places that hold
    schemas, what an object may say, and where its reference leads. */
module ContractMeaning {
  import opened Wrappers
  import opened JsonPointer
  import opened Contracts
  import Graphs

  /** No object of the document lists a key twice. */
  ghost predicate Dictionaries(doc: Json) {
    forall p :: At(doc, p).Some? && At(doc, p).value.Object? ==> DistinctKeys(At(doc, p).value.fields)
  }

  ghost predicate DistinctKeys(fields: seq<Field>) {
    forall i, j :: 0 <= i < j < |fields| ==> fields[i].key != fields[j].key
  }

  // ----- the rules

  /** A place below an object, by the way from the object, where `v` is a schema to visit. */
  ghost predicate SchemaPlace(way: Path, v: Json) {
    && |way| > 0
    && way[0].Key?
    && match way[0].name
       case "definitions" | "properties" | "patternProperties" => |way| == 2 && way[1].Key?
       case "additionalProperties" | "additionalItems" | "contains" | "propertyNames" => |way| == 1
       case "not" | "if" | "then" | "else" => |way| == 1
       case "allOf" | "anyOf" | "oneOf" => |way| == 2 && way[1].Index?
       case "items" => if |way| == 1 then !v.Array? else |way| == 2 && way[1].Index?
       case "dependencies" => |way| == 2 && way[1].Key? && IsSchema(v)
       case _ => false
  }

  ghost predicate ObjectAt(doc: Json, p: Path) {
    At(doc, p).Some? && At(doc, p).value.Object?
  }

  ghost predicate ChildOf(doc: Json, p: Path, q: Path) {
    && ObjectAt(doc, p)
    && At(doc, q).Some?
    && |q| >= |p|
    && q[..|p|] == p
    && SchemaPlace(q[|p|..], At(doc, q).value)
  }

  /** The object at `p` has a reference to the schema at `q`. */
  ghost predicate RefersTo(c: Contract, p: Path, q: Path) {
    && ObjectAt(c.doc, p)
    && At(c.doc, p + [Key("$ref")]).Some?
    && At(c.doc, p + [Key("$ref")]).value.String?
    && Resolve(c.doc, At(c.doc, p + [Key("$ref")]).value.text) == Ok(q)
    && At(c.doc, q).Some?
    && c.meta(At(c.doc, q).value)
  }

  /** An object without unsupported keywords, of no other draft, whose reference is in order. */
  ghost predicate ObjectOk(c: Contract, p: Path) {
    && At(c.doc, p + [Key("$id")]).None?
    && At(c.doc, p + [Key("$dynamicRef")]).None?
    && At(c.doc, p + [Key("$recursiveRef")]).None?
    && At(c.doc, p + [Key("$anchor")]).None?
    && At(c.doc, p + [Key("$dynamicAnchor")]).None?
    && At(c.doc, p + [Key("$recursiveAnchor")]).None?
    && (At(c.doc, p + [Key("$schema")]) in {
          None,
          Some(String("http://json-schema.org/draft-07/schema#")),
          Some(String("https://json-schema.org/draft-07/schema"))
        })
    && (At(c.doc, p + [Key("$ref")]).Some? ==> exists q :: RefersTo(c, p, q))
  }

  /** Has the root, and with every object the schemas below it and the target of its reference. */
  ghost predicate Closed(c: Contract, visited: set<Node>) {
    && NodeAt(c, []) in visited
    && forall p, q :: Place(p) in visited && (ChildOf(c.doc, p, q) || RefersTo(c, p, q)) ==> NodeAt(c, q) in visited
  }

  /** References alone that lead from the object at the first path back to it. */
  ghost predicate IsLoop(c: Contract, ps: seq<Path>) {
    && |ps| >= 2
    && ps[0] == ps[|ps| - 1]
    && forall i :: 0 <= i < |ps| - 1 ==> RefersTo(c, ps[i], ps[i + 1])
  }

  ghost predicate Sound(c: Contract, visited: set<Node>) {
    && |visited| <= 10000
    && (forall p :: Place(p) in visited && ObjectAt(c.doc, p) ==> ObjectOk(c, p))
    && (forall ps :: IsLoop(c, ps) ==> Place(ps[0]) !in visited)
  }

  // ----- values and their identity

  /** Every value is its own node, except that equal booleans share one. */
  lemma SameNodeIff(c: Contract, p: Path, q: Path)
    requires At(c.doc, p).Some? && At(c.doc, q).Some?
    ensures NodeAt(c, p) == NodeAt(c, q) <==> p == q || (At(c.doc, p) == At(c.doc, q) && At(c.doc, p).value.Bool?)
    ensures NodeAt(c, p) == Place(p) <==> !At(c.doc, p).value.Bool?
  {
  }

  lemma {:induction false} NothingBelow(doc: Json, path: Path, t: Token)
    requires At(doc, path).None?
    ensures At(doc, path + [t]).None?
    decreases |path|
  {
    assert (path + [t])[0] == path[0] && (path + [t])[1..] == path[1..] + [t];
    if Member(doc, path[0]).Some? {
      NothingBelow(Member(doc, path[0]).value, path[1..], t);
    }
  }

  lemma BelowOne(doc: Json, p: Path, t: Token)
    requires At(doc, p).Some?
    ensures At(doc, p + [t]) == Member(At(doc, p).value, t)
  {
    Extend(doc, p, t);
  }

  lemma BelowTwo(doc: Json, p: Path, t: Token, u: Token)
    requires At(doc, p).Some?
    ensures At(doc, p + [t, u]) ==
            if Member(At(doc, p).value, t).Some? then Member(Member(At(doc, p).value, t).value, u) else None
  {
    assert p + [t, u] == p + [t] + [u];
    Extend(doc, p, t);
    if At(doc, p + [t]).Some? {
      Extend(doc, p + [t], u);
    } else {
      NothingBelow(doc, p + [t], u);
    }
  }

  // ----- the children

  lemma {:induction false} LookupIff(fields: seq<Field>, key: string)
    ensures Lookup(fields, key).Some? <==> exists i :: 0 <= i < |fields| && fields[i].key == key
  {
    if fields != [] {
      LookupIff(fields[1..], key);
      assert forall i :: 0 <= i < |fields| - 1 ==> fields[1..][i] == fields[i + 1];
      assert forall i :: 0 < i < |fields| ==> fields[i] == fields[1..][i - 1];
    }
  }

  lemma KeyPathsIff(base: Path, fields: seq<Field>, q: Path)
    ensures q in KeyPaths(base, fields) <==>
            |q| > 0 && q[..|q| - 1] == base && q[|q| - 1].Key? && Lookup(fields, q[|q| - 1].name).Some?
  {
    if q in KeyPaths(base, fields) {
      var i :| 0 <= i < |fields| && q == base + [Key(fields[i].key)];
      assert q[..|q| - 1] == base;
      LookupIff(fields, fields[i].key);
    }
    if |q| > 0 && q[..|q| - 1] == base && q[|q| - 1].Key? && Lookup(fields, q[|q| - 1].name).Some? {
      LookupIff(fields, q[|q| - 1].name);
      var i :| 0 <= i < |fields| && fields[i].key == q[|q| - 1].name;
      assert q == base + [Key(fields[i].key)];
      assert KeyPaths(base, fields)[i] == q;
    }
  }

  lemma IndexPathsIff(base: Path, items: seq<Json>, q: Path)
    ensures q in IndexPaths(base, items) <==>
            |q| > 0 && q[..|q| - 1] == base && q[|q| - 1].Index? && q[|q| - 1].i < |items|
  {
    if q in IndexPaths(base, items) {
      var i :| 0 <= i < |items| && q == base + [Index(i)];
      assert q[..|q| - 1] == base;
    }
    if |q| > 0 && q[..|q| - 1] == base && q[|q| - 1].Index? && q[|q| - 1].i < |items| {
      var i := q[|q| - 1].i;
      assert q == base + [Index(i)];
      assert IndexPaths(base, items)[i] == q;
    }
  }

  lemma {:induction false} SchemaFieldsIff(fields: seq<Field>, key: string)
    requires DistinctKeys(fields)
    ensures Lookup(SchemaFields(fields), key).Some? <==>
            Lookup(fields, key).Some? && IsSchema(Lookup(fields, key).value)
  {
    if fields != [] {
      SchemaFieldsIff(fields[1..], key);
      LookupIff(fields[1..], key);
      if IsSchema(fields[0].value) {
        assert SchemaFields(fields)[1..] == SchemaFields(fields[1..]);
      } else {
        assert SchemaFields(fields) == SchemaFields(fields[1..]);
      }
    }
  }

  lemma {:induction false} EachKeyIff(p: Path, v: seq<Field>, keys: seq<string>,
                                      children: (Path, seq<Field>, string) -> seq<Path>, q: Path)
    ensures q in EachKey(p, v, keys, children) <==> exists k :: k in keys && q in children(p, v, k)
  {
    if keys != [] {
      EachKeyIff(p, v, keys[1..], children, q);
      assert forall k :: k in keys <==> k == keys[0] || k in keys[1..];
    }
  }

  /** `q` lies `n` steps below `p`, the first of them to the key. */
  ghost predicate Below(p: Path, key: string, n: nat, q: Path) {
    |q| == |p| + n && n > 0 && q[..|p|] == p && q[|p|] == Key(key)
  }

  lemma SplitTwo(p: Path, key: string, q: Path)
    requires Below(p, key, 2, q)
    ensures |q| == |p| + 2 && q == p + [Key(key), q[|p| + 1]]
    ensures q[..|q| - 1] == p + [Key(key)]
  {
    var r := p + [Key(key), q[|p| + 1]];
    forall i | 0 <= i < |q| ensures q[i] == r[i] {
      if i < |p| {
        assert q[..|p|][i] == p[i];
      }
    }
  }

  lemma TwoBelow(doc: Json, p: Path, key: string, q: Path)
    requires ObjectAt(doc, p) && |q| == |p| + 2 && Below(p, key, 2, q)
    ensures q[..|q| - 1] == p + [Key(key)]
    ensures At(doc, q) == match Lookup(At(doc, p).value.fields, key)
                          case Some(v) => Member(v, q[|p| + 1])
                          case None => None
  {
    hide At, Lookup, Below;
    SplitTwo(p, key, q);
    BelowTwo(doc, p, Key(key), q[|p| + 1]);
  }

  lemma OneBelow(doc: Json, p: Path, key: string, q: Path)
    requires ObjectAt(doc, p) && Below(p, key, 1, q)
    ensures q == p + [Key(key)] && At(doc, q) == Lookup(At(doc, p).value.fields, key)
  {
    assert q == p + [Key(key)];
    BelowOne(doc, p, Key(key));
  }

  /** A path with all but its last step below `p` at a key. */
  lemma BelowKey(p: Path, key: string, q: Path)
    ensures |q| > 0 && q[..|q| - 1] == p + [Key(key)] <==> Below(p, key, 2, q)
  {
    if |q| > 0 && q[..|q| - 1] == p + [Key(key)] {
      assert q[..|p|] == q[..|q| - 1][..|p|] && q[|p|] == q[..|q| - 1][|p|];
    }
    if Below(p, key, 2, q) {
      assert q[..|q| - 1] == p + [Key(key)];
    }
  }

  lemma MapChildrenIff(doc: Json, p: Path, key: string, q: Path)
    requires ObjectAt(doc, p)
    ensures q in MapChildren(p, At(doc, p).value.fields, key) <==>
            Below(p, key, 2, q) && q[|p| + 1].Key? && At(doc, q).Some?
  {
    BelowKey(p, key, q);
    if Below(p, key, 2, q) {
      TwoBelow(doc, p, key, q);
    }
    match Lookup(At(doc, p).value.fields, key)
    case Some(Object(fields)) => KeyPathsIff(p + [Key(key)], fields, q);
    case _ =>
  }

  lemma SingleChildIff(doc: Json, p: Path, key: string, q: Path)
    requires ObjectAt(doc, p)
    ensures q in SingleChild(p, At(doc, p).value.fields, key) <==> Below(p, key, 1, q) && At(doc, q).Some?
  {
    BelowOne(doc, p, Key(key));
    if Below(p, key, 1, q) {
      OneBelow(doc, p, key, q);
    }
    assert Below(p, key, 1, p + [Key(key)]);
  }

  lemma ListChildrenIff(doc: Json, p: Path, key: string, q: Path)
    requires ObjectAt(doc, p)
    ensures q in ListChildren(p, At(doc, p).value.fields, key) <==>
            Below(p, key, 2, q) && q[|p| + 1].Index? && At(doc, q).Some?
  {
    BelowKey(p, key, q);
    if Below(p, key, 2, q) {
      TwoBelow(doc, p, key, q);
    }
    match Lookup(At(doc, p).value.fields, key)
    case Some(Array(items)) => IndexPathsIff(p + [Key(key)], items, q);
    case _ =>
  }

  lemma ItemsChildrenIff(doc: Json, p: Path, q: Path)
    requires ObjectAt(doc, p)
    ensures q in ItemsChildren(p, At(doc, p).value.fields) <==>
            && At(doc, q).Some?
            && if |q| == |p| + 1 then Below(p, "items", 1, q) && !At(doc, q).value.Array?
               else Below(p, "items", 2, q) && q[|p| + 1].Index?
  {
    var fields := At(doc, p).value.fields;
    ListChildrenIff(doc, p, "items", q);
    SingleChildIff(doc, p, "items", q);
    if Below(p, "items", 1, q) {
      OneBelow(doc, p, "items", q);
    }
    if Below(p, "items", 2, q) {
      TwoBelow(doc, p, "items", q);
    }
  }

  lemma DependencyChildrenIff(doc: Json, p: Path, q: Path)
    requires ObjectAt(doc, p) && Dictionaries(doc)
    ensures q in DependencyChildren(p, At(doc, p).value.fields) <==>
            && At(doc, q).Some?
            && Below(p, "dependencies", 2, q)
            && q[|p| + 1].Key?
            && IsSchema(At(doc, q).value)
  {
    var key := "dependencies";
    BelowKey(p, key, q);
    BelowOne(doc, p, Key(key));
    if Below(p, key, 2, q) {
      TwoBelow(doc, p, key, q);
    }
    match Lookup(At(doc, p).value.fields, key)
    case Some(Object(fields)) =>
      KeyPathsIff(p + [Key(key)], SchemaFields(fields), q);
      assert ObjectAt(doc, p + [Key(key)]);
      if Below(p, key, 2, q) && q[|p| + 1].Key? {
        SchemaFieldsIff(fields, q[|p| + 1].name);
      }
    case _ =>
  }

  /** The places below an object, keyword by keyword. */
  lemma PlacesBelow(doc: Json, p: Path, q: Path)
    requires ObjectAt(doc, p)
    ensures ChildOf(doc, p, q) <==>
            && At(doc, q).Some?
            && (|| (exists k :: k in MAP_KEYS && Below(p, k, 2, q) && q[|p| + 1].Key?)
                || (exists k :: k in SINGLE_KEYS && Below(p, k, 1, q))
                || (exists k :: k in LIST_KEYS && Below(p, k, 2, q) && q[|p| + 1].Index?)
                || (if |q| == |p| + 1 then Below(p, "items", 1, q) && !At(doc, q).value.Array?
                    else Below(p, "items", 2, q) && q[|p| + 1].Index?)
                || (Below(p, "dependencies", 2, q) && q[|p| + 1].Key? && IsSchema(At(doc, q).value)))
  {
    if |q| > |p| && q[..|p|] == p && q[|p|].Key? {
      var way, name := q[|p|..], q[|p|].name;
      assert way[0] == q[|p|];
      assert |way| == 2 ==> way[1] == q[|p| + 1];
      assert forall k, n: nat :: Below(p, k, n, q) <==> k == name && |way| == n;
      KeysAre(name);
    }
  }

  lemma KeysAre(key: string)
    ensures key in MAP_KEYS <==> key == "definitions" || key == "properties" || key == "patternProperties"
    ensures key in LIST_KEYS <==> key == "allOf" || key == "anyOf" || key == "oneOf"
    ensures key in SINGLE_KEYS <==>
            || key == "additionalProperties" || key == "additionalItems" || key == "contains"
            || key == "propertyNames" || key == "not" || key == "if" || key == "then" || key == "else"
  {
  }

  /** The checker's list of children has exactly the schemas below the object. */
  lemma ChildrenIff(doc: Json, p: Path, q: Path)
    requires ObjectAt(doc, p) && Dictionaries(doc)
    ensures q in Children(p, At(doc, p).value.fields) <==> ChildOf(doc, p, q)
  {
    hide Dictionaries, MapChildren, SingleChild, ListChildren, ItemsChildren, DependencyChildren, EachKey, At, ChildOf,
         IsSchema;
    PlacesBelow(doc, p, q);
    var v := At(doc, p).value.fields;
    EachKeyIff(p, v, MAP_KEYS, MapChildren, q);
    EachKeyIff(p, v, SINGLE_KEYS, SingleChild, q);
    EachKeyIff(p, v, LIST_KEYS, ListChildren, q);
    forall k ensures q in MapChildren(p, v, k) <==> Below(p, k, 2, q) && q[|p| + 1].Key? && At(doc, q).Some? {
      MapChildrenIff(doc, p, k, q);
    }
    forall k ensures q in SingleChild(p, v, k) <==> Below(p, k, 1, q) && At(doc, q).Some? {
      SingleChildIff(doc, p, k, q);
    }
    forall k ensures q in ListChildren(p, v, k) <==> Below(p, k, 2, q) && q[|p| + 1].Index? && At(doc, q).Some? {
      ListChildrenIff(doc, p, k, q);
    }
    ItemsChildrenIff(doc, p, q);
    DependencyChildrenIff(doc, p, q);
  }

  // ----- the keywords

  /** The reference that the field leads to, when it is one. */
  ghost predicate FieldOk(c: Contract, f: Field) {
    && f.key !in UNSUPPORTED
    && (f.key == "$schema" ==> f.value.String? && f.value.text in DRAFT7)
    && (f.key == "$ref" ==> ResolveTarget(c, f.value).Ok?)
  }

  lemma {:induction false} ScanIff(c: Contract, fields: seq<Field>)
    requires DistinctKeys(fields)
    ensures Scan(c, fields).Ok? <==> forall i :: 0 <= i < |fields| ==> FieldOk(c, fields[i])
    ensures Scan(c, fields).Ok? && Lookup(fields, "$ref").None? ==> Scan(c, fields).value == None
    ensures Scan(c, fields).Ok? && Lookup(fields, "$ref").Some? ==>
              && ResolveTarget(c, Lookup(fields, "$ref").value).Ok?
              && Scan(c, fields).value == Some(ResolveTarget(c, Lookup(fields, "$ref").value).value)
  {
    hide ResolveTarget;
    if fields != [] {
      ScanIff(c, fields[1..]);
      LookupIff(fields[1..], "$ref");
      assert forall i :: 0 < i < |fields| ==> fields[i] == fields[1..][i - 1];
      assert (forall i :: 0 <= i < |fields| ==> FieldOk(c, fields[i])) <==>
             FieldOk(c, fields[0]) && forall i :: 0 <= i < |fields[1..]| ==> FieldOk(c, fields[1..][i]);
    }
  }

  lemma {:induction false} LookupField(fields: seq<Field>, i: nat)
    requires DistinctKeys(fields) && i < |fields|
    ensures Lookup(fields, fields[i].key) == Some(fields[i].value)
  {
    if i > 0 {
      LookupField(fields[1..], i - 1);
    }
  }

  lemma {:induction false} FieldOf(fields: seq<Field>, key: string) returns (i: nat)
    requires Lookup(fields, key).Some?
    ensures i < |fields| && fields[i] == Field(key, Lookup(fields, key).value)
  {
    if fields[0].key == key {
      i := 0;
    } else {
      i := FieldOf(fields[1..], key);
      i := i + 1;
    }
  }

  ghost predicate KeyOk(c: Contract, fields: seq<Field>, key: string) {
    Lookup(fields, key).Some? ==> FieldOk(c, Field(key, Lookup(fields, key).value))
  }

  ghost predicate KeysOk(c: Contract, fields: seq<Field>) {
    forall key :: KeyOk(c, fields, key)
  }

  /** Key by key instead of field by field. */
  lemma FieldsOkIff(c: Contract, fields: seq<Field>)
    requires DistinctKeys(fields)
    ensures (forall i :: 0 <= i < |fields| ==> FieldOk(c, fields[i])) <==> KeysOk(c, fields)
  {
    hide FieldOk, DistinctKeys;
    if forall i :: 0 <= i < |fields| ==> FieldOk(c, fields[i]) {
      forall key ensures KeyOk(c, fields, key) {
        if Lookup(fields, key).Some? {
          var i := FieldOf(fields, key);
        }
      }
    }
    forall i | 0 <= i < |fields| ensures Lookup(fields, fields[i].key) == Some(fields[i].value) {
      LookupField(fields, i);
    }
    if KeysOk(c, fields) {
      forall i | 0 <= i < |fields| ensures FieldOk(c, fields[i]) {
        assert KeyOk(c, fields, fields[i].key);
      }
    }
  }

  lemma RefersIff(c: Contract, p: Path, q: Path)
    requires ObjectAt(c.doc, p)
    ensures RefersTo(c, p, q) <==>
            var v := Lookup(At(c.doc, p).value.fields, "$ref");
            v.Some? && ResolveTarget(c, v.value) == Ok(q)
  {
    hide Resolve, At, Lookup;
    BelowOne(c.doc, p, Key("$ref"));
    var v := Lookup(At(c.doc, p).value.fields, "$ref");
    if v.Some? && v.value.String? && Resolve(c.doc, v.value.text) == Ok(q) {
      AcceptedReference(c.doc, v.value.text);
    }
  }

  lemma ObjectOkIff(c: Contract, p: Path)
    requires ObjectAt(c.doc, p)
    ensures ObjectOk(c, p) <==> KeysOk(c, At(c.doc, p).value.fields)
  {
    hide RefersTo, ResolveTarget, At, Lookup;
    var fields := At(c.doc, p).value.fields;
    forall key ensures At(c.doc, p + [Key(key)]) == Lookup(fields, key) {
      BelowOne(c.doc, p, Key(key));
    }
    ReferenceOk(c, p);
    if ObjectOk(c, p) {
      forall key ensures KeyOk(c, fields, key) {
        assert At(c.doc, p + [Key(key)]) == Lookup(fields, key);
        KeywordsAre(key);
      }
    }
    if KeysOk(c, fields) {
      forall key | key in UNSUPPORTED ensures At(c.doc, p + [Key(key)]).None? {
        assert KeyOk(c, fields, key);
      }
      assert KeyOk(c, fields, "$schema") && KeyOk(c, fields, "$ref");
    }
  }

  lemma ReferenceOk(c: Contract, p: Path)
    requires ObjectAt(c.doc, p)
    ensures var v := Lookup(At(c.doc, p).value.fields, "$ref");
            v.Some? ==> (ResolveTarget(c, v.value).Ok? <==> exists q :: RefersTo(c, p, q))
  {
    hide RefersTo, ResolveTarget, At, Lookup;
    var v := Lookup(At(c.doc, p).value.fields, "$ref");
    if v.Some? && ResolveTarget(c, v.value).Ok? {
      RefersIff(c, p, ResolveTarget(c, v.value).value);
    }
    forall q | RefersTo(c, p, q) ensures v.Some? && ResolveTarget(c, v.value) == Ok(q) {
      RefersIff(c, p, q);
    }
  }

  lemma KeywordsAre(key: string)
    ensures key in UNSUPPORTED <==>
            || key == "$id" || key == "$dynamicRef" || key == "$recursiveRef" || key == "$anchor"
            || key == "$dynamicAnchor" || key == "$recursiveAnchor"
  {
  }

  /** What a visit of an object finds. */
  lemma InspectIff(c: Contract, p: Path)
    requires ObjectAt(c.doc, p) && Dictionaries(c.doc)
    ensures Inspect(c, Place(p)).Ok? <==> ObjectOk(c, p)
    ensures Inspect(c, Place(p)).Ok? ==>
              var found := Inspect(c, Place(p)).value;
              && (forall q :: q in found.next <==> ChildOf(c.doc, p, q) || RefersTo(c, p, q))
              && (forall q :: found.target == Some(q) <==> RefersTo(c, p, q))
  {
    hide ObjectOk, FieldOk, RefersTo, ChildOf, Scan, Children, ResolveTarget, At, Lookup;
    var fields := At(c.doc, p).value.fields;
    ScanIff(c, fields);
    FieldsOkIff(c, fields);
    ObjectOkIff(c, p);
    forall q ensures q in Children(p, fields) <==> ChildOf(c.doc, p, q) {
      ChildrenIff(c.doc, p, q);
    }
    forall q ensures RefersTo(c, p, q) <==>
                     Lookup(fields, "$ref").Some? && ResolveTarget(c, Lookup(fields, "$ref").value) == Ok(q) {
      RefersIff(c, p, q);
    }
  }

  /** Nothing is found anywhere else. */
  lemma InspectOther(c: Contract, n: Node)
    requires n.Place? ==> !ObjectAt(c.doc, n.path)
    ensures Inspect(c, n) == Ok(Found(None, []))
    ensures n.Place? ==> forall q :: !ChildOf(c.doc, n.path, q) && !RefersTo(c, n.path, q)
  {
  }

  // ----- the closure

  lemma {:induction false} GrowClosure(c: Contract, part: set<Node>) returns (all: set<Node>)
    requires ClosureOk(c) && forall n :: n in part ==> InClosure(c, n)
    ensures IsClosure(c, all)
    decreases MAX_NODES - |part|
  {
    if exists n :: InClosure(c, n) && n !in part {
      var n :| InClosure(c, n) && n !in part;
      assert |part + {n}| <= MAX_NODES;
      all := GrowClosure(c, part + {n});
    } else {
      all := part;
    }
  }

  lemma FindsPlaces(c: Contract, n: Node, q: Path)
    requires Dictionaries(c.doc) && Inspect(c, n).Ok?
    ensures q in Inspect(c, n).value.next <==> n.Place? && (ChildOf(c.doc, n.path, q) || RefersTo(c, n.path, q))
    ensures Inspect(c, n).value.target == Some(q) <==> n.Place? && RefersTo(c, n.path, q)
  {
    hide Inspect, ChildOf, RefersTo, Dictionaries;
    if n.Place? && ObjectAt(c.doc, n.path) {
      InspectIff(c, n.path);
    } else {
      InspectOther(c, n);
    }
  }

  /** The visited nodes are the smallest set that is closed. */
  lemma VisitedIsLeast(c: Contract, visited: set<Node>)
    requires Dictionaries(c.doc) && ClosureOk(c) && IsClosure(c, visited)
    ensures Closed(c, visited)
    ensures forall p :: Place(p) in visited && ObjectAt(c.doc, p) ==> ObjectOk(c, p)
    ensures forall other: set<Node> :: Closed(c, other) ==> visited <= other
  {
    hide InClosure, Inspect, ChildOf, RefersTo, NodeAt, Dictionaries, ObjectOk, ObjectAt;
    RootInClosure(c);
    forall p | Place(p) in visited && ObjectAt(c.doc, p) ensures ObjectOk(c, p) {
      InspectIff(c, p);
    }
    forall p, q | Place(p) in visited && (ChildOf(c.doc, p, q) || RefersTo(c, p, q)) ensures NodeAt(c, q) in visited {
      FindsPlaces(c, Place(p), q);
      ClosureStep(c, Place(p), q);
    }
    forall other: set<Node> | Closed(c, other) ensures visited <= other {
      forall n | n in visited ensures n in other {
        VisitedWithin(c, other, n);
      }
    }
  }

  lemma VisitedWithin(c: Contract, other: set<Node>, n: Node)
    requires Dictionaries(c.doc) && Closed(c, other) && InClosure(c, n)
    ensures n in other
  {
    hide Inspect, ChildOf, RefersTo, NodeAt, Dictionaries;
    forall a, p | a in other && Inspect(c, a).Ok? && p in Inspect(c, a).value.next ensures NodeAt(c, p) in other {
      FindsPlaces(c, a, p);
    }
    var ns :| IsTrail(c, ns) && ns[|ns| - 1] == n;
    ClosureWithin(c, other, ns);
  }

  /** A closed set of objects in order, of at most 10000 nodes, makes the closure so. */
  lemma ClosedIsEnough(c: Contract, visited: set<Node>)
    requires Dictionaries(c.doc) && Closed(c, visited) && Sound(c, visited)
    ensures ClosureOk(c)
  {
    hide InClosure, Inspect, Closed, Dictionaries, ObjectOk, ObjectAt;
    forall n | InClosure(c, n) ensures n in visited && Inspect(c, n).Ok? {
      VisitedWithin(c, visited, n);
      if n.Place? && ObjectAt(c.doc, n.path) {
        InspectIff(c, n.path);
      } else {
        InspectOther(c, n);
      }
    }
    forall ns: set<Node> | forall n :: n in ns ==> InClosure(c, n) ensures |ns| <= MAX_NODES {
      Graphs.SubsetSize(ns, visited);
    }
  }

  // ----- loops

  lemma {:induction false} LongWalk(edges: Edges, n: Node, k: nat) returns (walk: seq<Node>)
    requires !Ends(edges, n, k)
    ensures |walk| == k + 1 && walk[0] == n && Follows(edges, walk)
    decreases k
  {
    if k == 0 {
      walk := [n];
    } else {
      var rest := LongWalk(edges, edges[n], k - 1);
      walk := [n] + rest;
    }
  }

  lemma {:induction false} NoneTwiceFits(walk: seq<Node>, all: set<Node>)
    requires NoneTwice(walk) && forall n :: n in walk ==> n in all
    ensures |walk| <= |all|
    decreases |walk|
  {
    if walk != [] {
      var rest, last := walk[..|walk| - 1], walk[|walk| - 1];
      assert walk == rest + [last];
      NoneTwiceFits(rest, all - {last});
    }
  }

  /** References that never end come back to where they were. */
  lemma EndlessLoops(edges: Edges, n: Node) returns (loop: seq<Node>)
    requires n in edges && !EndsEventually(edges, n)
    ensures |loop| >= 2 && loop[0] == loop[|loop| - 1] && Follows(edges, loop)
  {
    assert !Ends(edges, n, |edges.Keys|);
    var walk := LongWalk(edges, n, |edges.Keys|);
    if NoneTwice(walk) {
      NoneTwiceFits(walk, edges.Keys);
      assert false;
    }
    var i, j :| 0 <= i < j < |walk| && walk[i] == walk[j];
    loop := walk[i..j + 1];
  }

  /** On the edges of the visited nodes a step is a reference. */
  lemma EdgeIsReference(c: Contract, visited: set<Node>, edges: Edges, n: Node)
    requires Dictionaries(c.doc) && EdgesOf(c, visited, edges)
    requires forall v :: v in visited ==> Inspect(c, v).Ok?
    ensures n in edges ==> n in visited && n.Place? && exists q :: RefersTo(c, n.path, q) && edges[n] == NodeAt(c, q)
    ensures n in visited && n.Place? ==>
              forall q :: RefersTo(c, n.path, q) ==> n in edges && edges[n] == NodeAt(c, q)
  {
    hide Inspect, RefersTo, NodeAt, Dictionaries;
    if n in edges {
      FindsPlaces(c, n, Inspect(c, n).value.target.value);
    }
    if n in visited && n.Place? {
      forall q | RefersTo(c, n.path, q) ensures n in edges && edges[n] == NodeAt(c, q) {
        FindsPlaces(c, n, q);
      }
    }
  }

  lemma LoopOnPaths(c: Contract, visited: set<Node>, edges: Edges, loop: seq<Node>) returns (ps: seq<Path>)
    requires Dictionaries(c.doc) && EdgesOf(c, visited, edges)
    requires forall v :: v in visited ==> Inspect(c, v).Ok?
    requires |loop| >= 2 && loop[0] == loop[|loop| - 1] && Follows(edges, loop)
    ensures IsLoop(c, ps) && Place(ps[0]) in visited
  {
    hide Inspect, RefersTo, Dictionaries, EdgesOf;
    forall n | n in loop ensures n in visited && n.Place? {
      EdgeIsReference(c, visited, edges, n);
    }
    ps := seq(|loop|, i requires 0 <= i < |loop| => loop[i].path);
    forall i | 0 <= i < |ps| - 1 ensures RefersTo(c, ps[i], ps[i + 1]) {
      EdgeIsReference(c, visited, edges, loop[i]);
      var q :| RefersTo(c, ps[i], q) && edges[loop[i]] == NodeAt(c, q);
      assert loop[i + 1] in loop;
      assert loop[i + 1] == NodeAt(c, q);
    }
    assert loop[0] in loop && ps[0] == loop[0].path;
  }

  lemma {:induction false} LoopIsVisited(c: Contract, visited: set<Node>, ps: seq<Path>, i: nat)
    requires Closed(c, visited) && IsLoop(c, ps) && Place(ps[0]) in visited && i < |ps|
    ensures Place(ps[i]) in visited
  {
    hide Resolve;
    if i > 0 {
      LoopIsVisited(c, visited, ps, i - 1);
      assert RefersTo(c, ps[i - 1], ps[i]);
      if i < |ps| - 1 {
        assert RefersTo(c, ps[i], ps[i + 1]);
      }
    }
  }

  lemma LoopOnEdges(c: Contract, visited: set<Node>, edges: Edges, ps: seq<Path>)
    requires Dictionaries(c.doc) && EdgesOf(c, visited, edges) && Closed(c, visited)
    requires forall v :: v in visited ==> Inspect(c, v).Ok?
    requires IsLoop(c, ps) && Place(ps[0]) in visited
    ensures !NoReferenceLoop(edges)
  {
    hide Inspect, RefersTo, Dictionaries, EdgesOf, Closed;
    var walk := seq(|ps| - 1, i requires 0 <= i < |ps| - 1 => Place(ps[i]));
    forall i | 0 <= i < |walk|
      ensures walk[i] in edges && edges[walk[i]] == NextOf(walk, Place(ps[0]), i)
    {
      LoopIsVisited(c, visited, ps, i);
      LoopIsVisited(c, visited, ps, i + 1);
      EdgeIsReference(c, visited, edges, walk[i]);
      assert RefersTo(c, ps[i], ps[i + 1]);
      RefersFrom(c, ps, i + 1);
    }
    assert walk[0] == Place(ps[0]) && walk[0] in edges;
    forall k: nat ensures !Ends(edges, walk[0], k) {
      LoopNeverEnds(edges, walk, Place(ps[0]), 0, 0, k);
    }
  }

  lemma RefersFrom(c: Contract, ps: seq<Path>, i: nat)
    requires IsLoop(c, ps) && i < |ps|
    ensures NodeAt(c, ps[i]) == Place(ps[i])
  {
    hide Resolve;
    assert RefersTo(c, ps[0], ps[1]);
    if i < |ps| - 1 {
      assert RefersTo(c, ps[i], ps[i + 1]);
    }
  }

  lemma LoopsIff(c: Contract, visited: set<Node>, edges: Edges)
    requires Dictionaries(c.doc) && EdgesOf(c, visited, edges) && Closed(c, visited)
    requires forall v :: v in visited ==> Inspect(c, v).Ok?
    ensures NoReferenceLoop(edges) <==> forall ps :: IsLoop(c, ps) ==> Place(ps[0]) !in visited
  {
    hide Inspect, RefersTo, Dictionaries, EdgesOf, Closed, EndsEventually;
    if !NoReferenceLoop(edges) {
      var n :| n in edges && !EndsEventually(edges, n);
      var loop := EndlessLoops(edges, n);
      var ps := LoopOnPaths(c, visited, edges, loop);
    }
    forall ps | IsLoop(c, ps) && Place(ps[0]) in visited ensures !NoReferenceLoop(edges) {
      LoopOnEdges(c, visited, edges, ps);
    }
  }

  // ----- the whole check

  /** The value is a Draft 7 schema and the nodes to visit are in order: at most 10000 of
      them, no object with an unsupported keyword, another draft or a reference in error,
      and no loop of references alone. */
  ghost predicate Acceptable(c: Contract) {
    c.meta(c.doc) && exists visited :: Closed(c, visited) && Sound(c, visited)
  }

  lemma ReferenceMap(c: Contract, visited: set<Node>) returns (edges: Edges)
    ensures EdgesOf(c, visited, edges)
  {
    hide Inspect, NodeAt;
    edges := map n | n in visited && Inspect(c, n).Ok? && Inspect(c, n).value.target.Some? ::
      NodeAt(c, Inspect(c, n).value.target.value);
  }

  lemma AcceptedIff(c: Contract)
    requires Dictionaries(c.doc)
    ensures ContractOk(c) <==> Acceptable(c)
  {
    hide Inspect, RefersTo, Dictionaries, EdgesOf, Closed, InClosure, NoReferenceLoop, IsLoop, ObjectOk, ObjectAt;
    if ClosureOk(c) {
      var visited := GrowClosure(c, {});
      VisitedIsLeast(c, visited);
      var edges := ReferenceMap(c, visited);
      LoopsIff(c, visited, edges);
      OneReferenceMap(c, visited, edges);
      assert ContractOk(c) <==> c.meta(c.doc) && NoReferenceLoop(edges);
      assert |visited| <= MAX_NODES;
      assert NoReferenceLoop(edges) <==> Sound(c, visited);
    }
    forall other | Closed(c, other) && Sound(c, other) ensures ClosureOk(c) {
      ClosedIsEnough(c, other);
    }
  }

  // ----- every refusal has its reason in the document

  /** From the root through schemas and references, place by place. */
  ghost predicate IsWay(c: Contract, ps: seq<Path>) {
    && |ps| > 0 && ps[0] == []
    && forall i :: 0 <= i < |ps| - 1 ==> ChildOf(c.doc, ps[i], ps[i + 1]) || RefersTo(c, ps[i], ps[i + 1])
  }

  ghost predicate Comes(c: Contract, p: Path) {
    exists ps :: IsWay(c, ps) && ps[|ps| - 1] == p
  }

  /** What is wrong with one entry of an object. */
  ghost predicate Faulty(c: Contract, key: string, v: Json, e: ContractError) {
    match e
    case UnsupportedKeyword(k) =>
      k == key && key in ["$id", "$dynamicRef", "$recursiveRef", "$anchor", "$dynamicAnchor", "$recursiveAnchor"]
    case WrongDraft =>
      && key == "$schema"
      && v != String("http://json-schema.org/draft-07/schema#")
      && v != String("https://json-schema.org/draft-07/schema")
    case ReferenceNotString => key == "$ref" && !v.String?
    case BadReference(why) => key == "$ref" && v.String? && Resolve(c.doc, v.text) == Err(why)
    case BadTarget =>
      && key == "$ref" && v.String?
      && exists q :: Resolve(c.doc, v.text) == Ok(q) && At(c.doc, q).Some? && !c.meta(At(c.doc, q).value)
    case _ => false
  }

  ghost predicate FaultyAt(c: Contract, p: Path, key: string, e: ContractError) {
    Comes(c, p) && ObjectAt(c.doc, p) && At(c.doc, p + [Key(key)]).Some?
    && Faulty(c, key, At(c.doc, p + [Key(key)]).value, e)
  }

  ghost predicate AllCome(c: Contract, ns: set<Node>) {
    forall n :: n in ns ==> NodeComes(c, n)
  }

  ghost predicate NodeComes(c: Contract, n: Node) {
    exists p :: Comes(c, p) && NodeAt(c, p) == n
  }

  /** What each error says of the document. */
  ghost predicate Justified(c: Contract, e: ContractError) {
    match e
    case BadSchema => !c.meta(c.doc)
    case TooComplex =>
      exists ns: set<Node> :: |ns| > 10000 && AllCome(c, ns)
    case ReferenceLoop => exists ps :: IsLoop(c, ps) && Comes(c, ps[0])
    case _ => exists p, key :: FaultyAt(c, p, key, e)
  }

  lemma WayGrows(c: Contract, p: Path, q: Path)
    requires Comes(c, p) && (ChildOf(c.doc, p, q) || RefersTo(c, p, q))
    ensures Comes(c, q)
  {
    hide ChildOf, RefersTo;
    var ps :| IsWay(c, ps) && ps[|ps| - 1] == p;
    var qs := ps + [q];
    forall i | 0 <= i < |qs| - 1 ensures ChildOf(c.doc, qs[i], qs[i + 1]) || RefersTo(c, qs[i], qs[i + 1]) {
      if i < |ps| - 1 {
        assert qs[i] == ps[i] && qs[i + 1] == ps[i + 1];
      }
    }
    assert IsWay(c, qs) && qs[|qs| - 1] == q;
  }

  lemma {:induction false} TrailComes(c: Contract, ns: seq<Node>) returns (p: Path)
    requires Dictionaries(c.doc) && IsTrail(c, ns)
    ensures Comes(c, p) && NodeAt(c, p) == ns[|ns| - 1]
    decreases |ns|
  {
    hide Inspect, Dictionaries, ChildOf, RefersTo, NodeAt;
    if |ns| == 1 {
      p := [];
      assert IsWay(c, [[]]);
    } else {
      var ms := ns[..|ns| - 1];
      forall i | 0 <= i < |ms| - 1 ensures Leads(c, ms[i], ms[i + 1]) {
        assert ms[i] == ns[i] && ms[i + 1] == ns[i + 1];
      }
      var q := TrailComes(c, ms);
      var n := ns[|ns| - 2];
      assert Leads(c, n, ns[|ns| - 1]);
      p :| p in Inspect(c, n).value.next && NodeAt(c, p) == ns[|ns| - 1];
      FindsPlaces(c, n, p);
      PlaceOf(c, q, n);
      WayGrows(c, q, p);
    }
  }

  lemma PlaceOf(c: Contract, q: Path, n: Node)
    requires NodeAt(c, q) == n && n.Place?
    ensures n.path == q
  {
  }

  lemma ClosureComes(c: Contract, n: Node) returns (p: Path)
    requires Dictionaries(c.doc) && InClosure(c, n)
    ensures Comes(c, p) && NodeAt(c, p) == n
  {
    hide Dictionaries, Leads, Comes, NodeAt;
    var ns :| IsTrail(c, ns) && ns[|ns| - 1] == n;
    p := TrailComes(c, ns);
  }

  lemma {:induction false} ScanError(c: Contract, fields: seq<Field>) returns (i: nat)
    requires Scan(c, fields).Err?
    ensures i < |fields| && Faulty(c, fields[i].key, fields[i].value, Scan(c, fields).error)
  {
    var key, value := fields[0].key, fields[0].value;
    if key == "$ref" && TargetOf(c, value).Err? {
      i := 0;
      TargetError(c, value);
    } else if key in UNSUPPORTED {
      i := 0;
      KeywordsAre(key);
    } else if key == "$schema" && !(value.String? && value.text in DRAFT7) {
      i := 0;
    } else {
      i := ScanError(c, fields[1..]);
      i := i + 1;
    }
  }

  lemma TargetError(c: Contract, value: Json)
    requires TargetOf(c, value).Err?
    ensures Faulty(c, "$ref", value, TargetOf(c, value).error)
  {
    hide Resolve;
    if value.String? && Resolve(c.doc, value.text).Ok? {
      AcceptedReference(c.doc, value.text);
    }
  }

  lemma InspectError(c: Contract, n: Node)
    requires Dictionaries(c.doc) && InClosure(c, n) && Inspect(c, n).Err?
    ensures Justified(c, Inspect(c, n).error)
  {
    hide InClosure, Scan, Children, Faulty, Resolve, At;
    var p := ClosureComes(c, n);
    PlaceOf(c, p, n);
    var fields := ValueAt(c, p).fields;
    var i := ScanError(c, fields);
    LookupField(fields, i);
    BelowOne(c.doc, p, Key(fields[i].key));
    assert FaultyAt(c, p, fields[i].key, Inspect(c, n).error);
    ScanErrors(c, fields);
  }

  /** A scan gives no error of the other kinds. */
  lemma {:induction false} ScanErrors(c: Contract, fields: seq<Field>)
    ensures Scan(c, fields).Err? ==>
              var e := Scan(c, fields).error; !e.BadSchema? && !e.TooComplex? && !e.ReferenceLoop?
  {
    if fields != [] {
      ScanErrors(c, fields[1..]);
    }
  }

  lemma ErrorMeans(c: Contract, e: ContractError)
    requires Dictionaries(c.doc) && ErrorIn(c, e)
    ensures Justified(c, e)
  {
    hide Inspect, InClosure, Dictionaries, NodeAt, Comes;
    if exists n :: InClosure(c, n) && Inspect(c, n) == Err(e) {
      var n :| InClosure(c, n) && Inspect(c, n) == Err(e);
      InspectError(c, n);
    } else {
      var ns: set<Node> :| WithinClosure(c, ns) && |ns| > MAX_NODES;
      forall n | n in ns ensures NodeComes(c, n) {
        var p := ClosureComes(c, n);
      }
    }
  }

  lemma LoopMeans(c: Contract, visited: set<Node>, edges: Edges)
    requires Dictionaries(c.doc) && ClosureOk(c) && IsClosure(c, visited) && EdgesOf(c, visited, edges)
    requires !NoReferenceLoop(edges)
    ensures Justified(c, ReferenceLoop)
  {
    hide Inspect, InClosure, Dictionaries, EdgesOf, Closed, NoReferenceLoop, RefersTo, Comes, NodeAt;
    VisitedIsLeast(c, visited);
    LoopsIff(c, visited, edges);
    var ps :| IsLoop(c, ps) && Place(ps[0]) in visited;
    var p := ClosureComes(c, Place(ps[0]));
    PlaceOf(c, p, Place(ps[0]));
  }

  /** The program's check. Its verdict is that of the rules above, and an error says what is
      wrong; a document with a key listed twice cannot be read into its dictionaries. */
  method ValidateContract(c: Contract) returns (error: Option<ContractError>)
    ensures error.None? <==> ContractOk(c)
    ensures Dictionaries(c.doc) ==> (error.None? <==> Acceptable(c))
    ensures Dictionaries(c.doc) && error.Some? ==> Justified(c, error.value)
  {
    hide Justified, Acceptable, Dictionaries, ClosureOk, NoReferenceLoop, EdgesOf, IsClosure, ErrorIn;
    if Dictionaries(c.doc) {
      AcceptedIff(c);
    }
    if !c.meta(c.doc) {
      NoSchema(c);
      return Some(BadSchema);
    }
    var r, visited := Worklist(c);
    if r.Err? {
      if Dictionaries(c.doc) {
        ErrorMeans(c, r.error);
      }
      return Some(r.error);
    }
    var ok, trail := CheckChains(r.value);
    OneReferenceMap(c, visited, r.value);
    if !ok {
      if Dictionaries(c.doc) {
        LoopMeans(c, visited, r.value);
      }
      return Some(ReferenceLoop);
    }
    return None;
  }

  lemma NoSchema(c: Contract)
    requires !c.meta(c.doc)
    ensures Justified(c, BadSchema)
  {
  }
}
