/** Which definitions a schema needs: the worklists, and the pruning built on them. */
module DefinitionGraph {
  import opened Wrappers
  import opened Strings
  import opened Json
  import opened References

  type Graph = map<string, set<string>>

  /** Every name of `names` that has an entry has all its successors in `names`. */
  ghost predicate Closed(graph: Graph, names: set<string>) {
    forall n | n in names && n in graph :: graph[n] <= names
  }

  /** `names` is the least closed set that contains `start`. */
  ghost predicate LeastClosed(graph: Graph, start: set<string>, names: set<string>) {
    && start <= names
    && Closed(graph, names)
    && forall other | start <= other && Closed(graph, other) :: names <= other
  }

  lemma LeastClosedUnique(graph: Graph, start: set<string>, a: set<string>, b: set<string>)
    requires LeastClosed(graph, start, a) && LeastClosed(graph, start, b)
    ensures a == b
  {
    assert a <= b && b <= a;
  }

  function DependencyGraph(definitions: seq<Entry>): Graph {
    map n | n in Keys(definitions) ::
      match Get(definitions, n) { case Some(schema) => NonV2Names(RefsIn(schema)) case None => {} }
  }

  function LocalGraph(definitions: seq<Entry>): Graph {
    map n | n in Keys(definitions) ::
      match Get(definitions, n) { case Some(schema) => LocalNames(RefsIn(schema)) case None => {} }
  }

  function Successors(graph: Graph, name: string): set<string> {
    if name in graph then graph[name] else {}
  }

  // ---------------------------------------------------------------------------------------
  // The worklists
  // ---------------------------------------------------------------------------------------

  /** A search that has met `met` and followed the names in `followed` is on its way. */
  ghost predicate Searching(graph: Graph, start: set<string>, followed: set<string>, met: set<string>) {
    && start <= met
    && (forall n | n in followed && n in graph :: graph[n] <= met)
    && forall other | start <= other && Closed(graph, other) :: met <= other
  }

  /** Following one more name adds its successors to what is met. */
  lemma FollowOne(graph: Graph, start: set<string>, followed: set<string>, met: set<string>, name: string)
    requires Searching(graph, start, followed, met) && name in met
    ensures Searching(graph, start, followed + {name}, met + Successors(graph, name))
  {
  }

  lemma SearchDone(graph: Graph, start: set<string>, met: set<string>)
    requires Searching(graph, start, met, met)
    ensures LeastClosed(graph, start, met)
  {
  }

  /** Everything a search can meet: the bound that makes the worklists end. */
  function Universe(graph: Graph, start: set<string>): set<string> {
    start + set n, m | n in graph && m in graph[n] :: m
  }

  lemma MetInUniverse(graph: Graph, start: set<string>, followed: set<string>, met: set<string>)
    requires Searching(graph, start, followed, met)
    ensures met <= Universe(graph, start)
  {
    assert Closed(graph, Universe(graph, start));
  }

  function Members(list: seq<string>): set<string> {
    set n | n in list
  }

  lemma MembersAppend(list: seq<string>, name: string)
    ensures Members(list + [name]) == Members(list) + {name}
  {
  }

  /** The members of a hash set, in whatever order it yields them. */
  method Listed(names: set<string>) returns (list: seq<string>)
    ensures Members(list) == names
  {
    list := [];
    var todo := names;
    while todo != {}
      invariant todo <= names
      invariant Members(list) == names - todo
    {
      var n :| n in todo;
      MembersAppend(list, n);
      list := list + [n];
      todo := todo - {n};
    }
  }

  /** Pushes the names not yet seen. */
  method PushUnseen(toProcess: seq<string>, names: set<string>, seen: set<string>) returns (r: seq<string>)
    ensures Members(r) == Members(toProcess) + (names - seen)
  {
    var deps := Listed(names);
    r := toProcess;
    for i := 0 to |deps|
      invariant Members(r) == Members(toProcess) + (Members(deps[..i]) - seen)
    {
      MembersAppend(deps[..i], deps[i]);
      assert deps[..i + 1] == deps[..i] + [deps[i]];
      if deps[i] !in seen {
        MembersAppend(r, deps[i]);
        r := r + [deps[i]];
      }
    }
    assert deps[..|deps|] == deps;
  }

  /** `collect_definition_dependencies`. */
  method CollectDefinitionDependencies(definitions: seq<Entry>, names: set<string>)
    returns (seen: set<string>)
    ensures LeastClosed(DependencyGraph(definitions), names, seen)
  {
    ghost var graph := DependencyGraph(definitions);
    seen := {};
    var toProcess := Listed(names);
    while toProcess != []
      invariant Searching(graph, names, seen, seen + Members(toProcess))
      decreases Universe(graph, names) - seen, |toProcess|
    {
      ghost var met, before := seen + Members(toProcess), toProcess;
      var name := toProcess[|toProcess| - 1];
      toProcess := toProcess[..|toProcess| - 1];
      assert before == toProcess + [name];
      MembersAppend(toProcess, name);
      MetInUniverse(graph, names, seen, met);
      if name !in seen {
        FollowOne(graph, names, seen, met, name);
        seen := seen + {name};
        GetFinds(definitions, name);
        match Get(definitions, name) {
          case None =>
          case Some(schema) => toProcess := PushUnseen(toProcess, NonV2Names(RefsIn(schema)), seen);
        }
        assert seen + Members(toProcess) == met + Successors(graph, name);
      } else {
        assert seen + Members(toProcess) == met;
      }
    }
    assert seen + Members(toProcess) == seen;
    SearchDone(graph, names, seen);
  }

  /** Marks the names not yet reached and puts them on the queue. */
  method Enqueue(names: set<string>, queue: seq<string>, reachable: set<string>)
    returns (queue': seq<string>, reachable': set<string>)
    ensures reachable' == reachable + names
    ensures Members(queue') == Members(queue) + (names - reachable)
    ensures names - reachable == {} ==> queue' == queue
  {
    queue', reachable' := queue, reachable;
    var list := Listed(names);
    for i := 0 to |list|
      invariant reachable' == reachable + Members(list[..i])
      invariant Members(queue') == Members(queue) + (Members(list[..i]) - reachable)
      invariant names - reachable == {} ==> queue' == queue
    {
      var name := list[i];
      MembersAppend(list[..i], name);
      assert list[..i + 1] == list[..i] + [name];
      if name !in reachable' {
        assert name in Members(list) - reachable;
        MembersAppend(queue', name);
        reachable' := reachable' + {name};
        queue' := queue' + [name];
      }
    }
    assert list[..|list|] == list;
  }

  /** `reachable_local_definitions` for the key `definitions`. */
  method ReachableLocalDefinitions(root: seq<Entry>) returns (reachable: set<string>)
    ensures match Get(root, DEFINITIONS)
      case Some(Object(definitions)) =>
        LeastClosed(LocalGraph(definitions), LocalNames(RefsOutside(Object(root))), reachable)
      case _ => reachable == {}
  {
    match Get(root, DEFINITIONS) {
      case Some(Object(definitions)) =>
        reachable := Reach(definitions, LocalNames(RefsOutside(Object(root))));
      case _ => reachable := {};
    }
  }

  method Reach(definitions: seq<Entry>, start: set<string>) returns (reachable: set<string>)
    ensures LeastClosed(LocalGraph(definitions), start, reachable)
  {
    ghost var graph := LocalGraph(definitions);
    var queue;
    queue, reachable := Enqueue(start, [], {});
    ghost var followed := {};
    MetInUniverse(graph, start, followed, reachable);
    while queue != []
      invariant Following(graph, start, followed, Members(queue), reachable)
      decreases Universe(graph, start) - reachable, |queue|
    {
      var name := queue[|queue| - 1];
      queue, reachable := FollowLast(definitions, start, followed, queue, reachable);
      followed := followed + {name};
    }
    SearchDone(graph, start, reachable);
  }

  /** What was met is followed or queued. */
  ghost predicate Following(
    graph: Graph, start: set<string>, followed: set<string>, queued: set<string>, met: set<string>)
  {
    followed + queued == met <= Universe(graph, start) && Searching(graph, start, followed, met)
  }

  lemma FollowStep(
    graph: Graph, start: set<string>, followed: set<string>, queued: set<string>, name: string, met: set<string>)
    requires Following(graph, start, followed, queued + {name}, met)
    ensures var names := Successors(graph, name);
      && Following(graph, start, followed + {name}, queued + (names - met), met + names)
      && (names - met != {} ==> Universe(graph, start) - (met + names) < Universe(graph, start) - met)
  {
    FollowOne(graph, start, followed, met, name);
    MetInUniverse(graph, start, followed + {name}, met + Successors(graph, name));
  }

  /** One turn of the loop. */
  method FollowLast(
    definitions: seq<Entry>, ghost start: set<string>, ghost followed: set<string>, queue: seq<string>,
    reachable: set<string>)
    returns (queue': seq<string>, reachable': set<string>)
    requires queue != [] && Following(LocalGraph(definitions), start, followed, Members(queue), reachable)
    ensures Following(
      LocalGraph(definitions), start, followed + {queue[|queue| - 1]}, Members(queue'), reachable')
    ensures
      || (|queue'| < |queue| && reachable' == reachable)
      || Universe(LocalGraph(definitions), start) - reachable' < Universe(LocalGraph(definitions), start) - reachable
  {
    var popped, name := queue[..|queue| - 1], queue[|queue| - 1];
    assert queue == popped + [name];
    MembersAppend(popped, name);
    queue', reachable' := FollowLocal(definitions, name, popped, reachable);
    FollowStep(LocalGraph(definitions), start, followed, Members(popped), name, reachable);
  }

  /** The local references of one definition. */
  method FollowLocal(definitions: seq<Entry>, name: string, queue: seq<string>, reachable: set<string>)
    returns (queue': seq<string>, reachable': set<string>)
    ensures var unmet := Successors(LocalGraph(definitions), name) - reachable;
      && reachable' == reachable + Successors(LocalGraph(definitions), name)
      && Members(queue') == Members(queue) + unmet
      && (unmet == {} ==> queue' == queue)
  {
    queue', reachable' := queue, reachable;
    GetFinds(definitions, name);
    match Get(definitions, name) {
      case None =>
      case Some(schema) => queue', reachable' := Enqueue(LocalNames(RefsIn(schema)), queue, reachable);
    }
  }

  // ---------------------------------------------------------------------------------------
  // Stripping method variants
  // ---------------------------------------------------------------------------------------

  function StringLiteral(v: Value): Option<string> {
    if !v.Object? then None
    else if GetString(v.entries, "const").Some? then GetString(v.entries, "const")
    else match Get(v.entries, "enum")
         case Some(Array(values)) => if values != [] && values[0].String? then Some(values[0].s) else None
         case _ => None
  }

  predicate IsMethodVariantIn(v: Value, methods: set<string>) {
    v.Object? &&
    match Get(v.entries, "properties")
    case Some(Object(properties)) =>
      (match Get(properties, "method")
       case Some(schema) => StringLiteral(schema).Some? && StringLiteral(schema).value in methods
       case None => false)
    case _ => false
  }

  function Unlisted(variants: seq<Value>, methods: set<string>): seq<Value> {
    if variants == [] then []
    else (if IsMethodVariantIn(variants[0], methods) then [] else [variants[0]])
         + Unlisted(variants[1..], methods)
  }

  /** A variant is for the string under its method's `const` or, without one, the first of its `enum`. */
  lemma VariantIsFor(v: Value, properties: seq<Entry>, schema: seq<Entry>, methods: set<string>)
    requires v.Object? && Get(v.entries, "properties") == Some(Object(properties))
    requires Get(properties, "method") == Some(Object(schema))
    ensures forall name :: Get(schema, "const") == Some(String(name)) ==>
      (IsMethodVariantIn(v, methods) <==> name in methods)
    ensures forall name, more |
      GetString(schema, "const").None? && Get(schema, "enum") == Some(Array([String(name)] + more)) ::
      IsMethodVariantIn(v, methods) <==> name in methods
  {
    forall name, more | GetString(schema, "const").None? && Get(schema, "enum") == Some(Array([String(name)] + more))
      ensures IsMethodVariantIn(v, methods) <==> name in methods
    {
      assert ([String(name)] + more)[0] == String(name);
    }
  }

  /** The schema of a variant's method, and the method that it is for. */
  ghost predicate IsFor(v: Value, properties: seq<Entry>, schema: seq<Entry>, name: string) {
    && v.Object? && Get(v.entries, "properties") == Some(Object(properties))
    && Get(properties, "method") == Some(Object(schema))
    && (Get(schema, "const") == Some(String(name))
        || (GetString(schema, "const").None?
            && exists more: seq<Value> :: Get(schema, "enum") == Some(Array([String(name)] + more))))
  }

  /** Exactly the variants for a listed method are listed; what is no variant is not. */
  lemma ListedExactly(v: Value, methods: set<string>)
    ensures IsMethodVariantIn(v, methods) <==>
      exists properties, schema, name :: name in methods && IsFor(v, properties, schema, name)
  {
    if IsMethodVariantIn(v, methods) {
      var properties := Get(v.entries, "properties").value.entries;
      var schema := Get(properties, "method").value.entries;
      var name := StringLiteral(Object(schema)).value;
      if GetString(schema, "const").None? {
        var values := Get(schema, "enum").value.items;
        assert values == [String(name)] + values[1..];
      }
      assert IsFor(v, properties, schema, name);
    }
    forall properties, schema, name | name in methods && IsFor(v, properties, schema, name)
      ensures IsMethodVariantIn(v, methods)
    {
      VariantIsFor(v, properties, schema, methods);
    }
  }

  /** The unlisted variants are all those that are not listed, in order. */
  lemma {:induction false} UnlistedConcat(a: seq<Value>, b: seq<Value>, methods: set<string>)
    ensures Unlisted(a + b, methods) == Unlisted(a, methods) + Unlisted(b, methods)
    ensures forall v :: Unlisted([v], methods) == if IsMethodVariantIn(v, methods) then [] else [v]
  {
    forall v ensures Unlisted([v], methods) == if IsMethodVariantIn(v, methods) then [] else [v] {
      assert [v][1..] == [];
    }
    if a == [] {
      assert a + b == b;
    } else {
      assert (a + b)[1..] == a[1..] + b;
      UnlistedConcat(a[1..], b, methods);
    }
  }

  /** The schema's `oneOf` array and its definitions, where it has them. */
  function Variants(schema: Value): Option<seq<Value>> {
    if !schema.Object? then None
    else match Get(schema.entries, "oneOf")
         case Some(Array(variants)) => Some(variants)
         case _ => None
  }

  function Definitions(schema: Value): Option<seq<Entry>> {
    if !schema.Object? then None
    else match Get(schema.entries, DEFINITIONS)
         case Some(Object(definitions)) => Some(definitions)
         case _ => None
  }

  /** The variants are the items of an array under `oneOf`, the definitions an object under `definitions`. */
  lemma PartsExactly(schema: Value, variants: seq<Value>, definitions: seq<Entry>)
    ensures Variants(schema) == Some(variants) <==>
      schema.Object? && Get(schema.entries, "oneOf") == Some(Array(variants))
    ensures Definitions(schema) == Some(definitions) <==>
      schema.Object? && Get(schema.entries, "definitions") == Some(Object(definitions))
  {
  }

  /** The schema once its listed variants are gone and nothing else has changed. */
  function WithoutVariants(schema: Value, methods: set<string>): Value
    requires Variants(schema).Some?
  {
    Object(Replace(schema.entries, "oneOf", Array(Unlisted(Variants(schema).value, methods))))
  }

  /**
   * `strip_method_variants_from_json_schema`: drops the listed variants, then exactly the
   * definitions that nothing left in the schema needs.
   */
  method StripMethodVariants(schema: Value, methods: set<string>) returns (r: Value)
    ensures Variants(schema).None? ==> r == schema
    ensures Variants(schema).Some? ==>
      && Variants(r) == Some(Unlisted(Variants(schema).value, methods))
      && forall key | key != "oneOf" && key != DEFINITIONS ::
           Get(r.entries, key) == Get(schema.entries, key)
    ensures Variants(schema).Some? ==>
      match Definitions(schema)
      case None => r == WithoutVariants(schema, methods)
      case Some(definitions) =>
        exists kept ::
          && LeastClosed(LocalGraph(definitions), LocalNames(RefsOutside(WithoutVariants(schema, methods))), kept)
          && r == Object(Replace(WithoutVariants(schema, methods).entries, DEFINITIONS,
                                 Object(Retain(definitions, kept))))
  {
    if Variants(schema).None? {
      return schema;
    }
    r := WithoutVariants(schema, methods);
    var filtered := Array(Unlisted(Variants(schema).value, methods));
    forall key
      ensures Get(r.entries, key) == if key == "oneOf" then Some(filtered) else Get(schema.entries, key)
    {
      GetReplaced(schema.entries, "oneOf", filtered, key);
    }
    var reachable := ReachableLocalDefinitions(r.entries);
    match Get(r.entries, DEFINITIONS) {
      case Some(Object(definitions)) =>
        var kept := Object(Retain(definitions, reachable));
        ghost var before := r.entries;
        r := Object(Replace(r.entries, DEFINITIONS, kept));
        forall key
          ensures Get(r.entries, key) == if key == DEFINITIONS then Some(kept) else Get(before, key)
        {
          GetReplaced(before, DEFINITIONS, kept, key);
        }
      case _ =>
    }
  }

  // ---------------------------------------------------------------------------------------
  // Nothing dangles
  // ---------------------------------------------------------------------------------------

  /** Every local reference, outside the definitions or in one of them, names a definition. */
  ghost predicate NothingDangles(schema: Value) {
    && Definitions(schema).Some?
    && var definitions := Definitions(schema).value;
       && LocalNames(RefsOutside(schema)) <= Keys(definitions)
       && forall n | n in LocalGraph(definitions) :: LocalGraph(definitions)[n] <= Keys(definitions)
  }

  lemma {:induction false} UnlistedRefs(variants: seq<Value>, methods: set<string>)
    ensures RefsOutsideItems(Unlisted(variants, methods)) <= RefsOutsideItems(variants)
  {
    if variants != [] {
      UnlistedRefs(variants[1..], methods);
      var rest := Unlisted(variants[1..], methods);
      if IsMethodVariantIn(variants[0], methods) {
        assert Unlisted(variants, methods) == rest;
      } else {
        assert Unlisted(variants, methods)[1..] == rest;
      }
    }
  }

  /** Replacing a value by one with fewer references adds none. */
  lemma {:induction false} ReplacedRefs(entries: seq<Entry>, key: string, value: Value)
    requires match Get(entries, key)
      case Some(v) => key == DEFINITIONS || RefsOutside(value) <= RefsOutside(v)
      case None => true
    ensures RefsOutsideEntries(Replace(entries, key, value)) <= RefsOutsideEntries(entries)
    ensures key == DEFINITIONS ==>
      RefsOutsideEntries(Replace(entries, key, value)) == RefsOutsideEntries(entries)
  {
    if entries != [] {
      if entries[0].key == key {
        assert Replace(entries, key, value)[1..] == entries[1..];
      } else {
        ReplacedRefs(entries[1..], key, value);
        assert Replace(entries, key, value)[1..] == Replace(entries[1..], key, value);
      }
    }
  }

  lemma WithoutVariantsRefs(schema: Value, methods: set<string>)
    requires Variants(schema).Some?
    ensures RefsOutside(WithoutVariants(schema, methods)) <= RefsOutside(schema)
    ensures Definitions(WithoutVariants(schema, methods)) == Definitions(schema)
  {
    var filtered := Array(Unlisted(Variants(schema).value, methods));
    UnlistedRefs(Variants(schema).value, methods);
    ReplacedRefs(schema.entries, "oneOf", filtered);
    GetReplaced(schema.entries, "oneOf", filtered, "$ref");
    GetReplaced(schema.entries, "oneOf", filtered, DEFINITIONS);
  }

  /** Keeping exactly the definitions that are needed leaves no reference without its target. */
  lemma RetainNeeded(schema: Value, kept: set<string>)
    requires NothingDangles(schema)
    requires LeastClosed(LocalGraph(Definitions(schema).value), LocalNames(RefsOutside(schema)), kept)
    ensures NothingDangles(
      Object(Replace(schema.entries, DEFINITIONS, Object(Retain(Definitions(schema).value, kept)))))
  {
    var definitions := Definitions(schema).value;
    var retained := Retain(definitions, kept);
    var r := Object(Replace(schema.entries, DEFINITIONS, Object(retained)));
    GetReplaced(schema.entries, DEFINITIONS, Object(retained), DEFINITIONS);
    GetReplaced(schema.entries, DEFINITIONS, Object(retained), "$ref");
    ReplacedRefs(schema.entries, DEFINITIONS, Object(retained));
    assert RefsOutside(r) == RefsOutside(schema);
    forall n ensures n in Keys(retained) <==> n in kept && n in Keys(definitions) {
      GetRetained(definitions, kept, n);
      GetFinds(definitions, n);
      GetFinds(retained, n);
    }
    forall n | n in LocalGraph(retained) ensures LocalGraph(retained)[n] <= Keys(retained) {
      GetRetained(definitions, kept, n);
      assert LocalGraph(retained)[n] == LocalGraph(definitions)[n];
    }
  }

  function OtherEntries(entries: seq<Entry>): seq<Entry> {
    if entries == [] then []
    else (if entries[0].key == DEFINITIONS then [] else [entries[0]]) + OtherEntries(entries[1..])
  }

  /** As `NothingDangles`, for the references in the whole of the schema, skipped maps included. */
  ghost predicate NothingDanglesAnywhere(schema: Value) {
    && Definitions(schema).Some?
    && var definitions := Definitions(schema).value;
       && LocalNames(RefHere(schema.entries) + RefsInEntries(OtherEntries(schema.entries))) <= Keys(definitions)
       && forall n | n in LocalGraph(definitions) :: LocalGraph(definitions)[n] <= Keys(definitions)
  }

  /** `definitions` at the root is the only map of its kind. */
  predicate OneMap(schema: Value) {
    schema.Object? && NoMapsInEntries(OtherEntries(schema.entries))
  }

  lemma {:induction false} ElsewhereIsOutside(entries: seq<Entry>)
    requires NoMapsInEntries(OtherEntries(entries))
    ensures RefsOutsideEntries(entries) == RefsInEntries(OtherEntries(entries))
  {
    if entries != [] {
      if entries[0].key == DEFINITIONS {
        assert OtherEntries(entries) == OtherEntries(entries[1..]);
      } else {
        assert OtherEntries(entries)[1..] == OtherEntries(entries[1..]);
        NothingSkipped(entries[0].value);
      }
      ElsewhereIsOutside(entries[1..]);
    }
  }

  lemma {:induction false} ReplacedOneMap(entries: seq<Entry>, key: string, value: Value)
    requires NoMapsInEntries(OtherEntries(entries))
    requires key == DEFINITIONS || (key != DEFS && NoMaps(value))
    ensures NoMapsInEntries(OtherEntries(Replace(entries, key, value)))
  {
    if entries != [] {
      var replaced := Replace(entries, key, value);
      if entries[0].key == DEFINITIONS {
        assert OtherEntries(entries) == OtherEntries(entries[1..]);
      } else {
        assert OtherEntries(entries)[1..] == OtherEntries(entries[1..]);
      }
      if entries[0].key == key {
        assert replaced[1..] == entries[1..];
      } else {
        ReplacedOneMap(entries[1..], key, value);
        assert replaced[1..] == Replace(entries[1..], key, value);
      }
      if replaced[0].key == DEFINITIONS {
        assert OtherEntries(replaced) == OtherEntries(replaced[1..]);
      } else {
        assert OtherEntries(replaced)[1..] == OtherEntries(replaced[1..]);
      }
    }
  }

  lemma {:induction false} UnlistedOneMap(variants: seq<Value>, methods: set<string>)
    requires NoMapsInItems(variants)
    ensures NoMapsInItems(Unlisted(variants, methods))
  {
    if variants != [] {
      UnlistedOneMap(variants[1..], methods);
      var rest := Unlisted(variants[1..], methods);
      if IsMethodVariantIn(variants[0], methods) {
        assert Unlisted(variants, methods) == rest;
      } else {
        assert Unlisted(variants, methods)[1..] == rest;
      }
    }
  }

  lemma {:induction false} NoMapsInGet(entries: seq<Entry>, key: string)
    requires NoMapsInEntries(OtherEntries(entries)) && key != DEFINITIONS && HasKey(entries, key)
    ensures NoMaps(Get(entries, key).value)
  {
    if entries[0].key == DEFINITIONS {
      assert OtherEntries(entries) == OtherEntries(entries[1..]);
      NoMapsInGet(entries[1..], key);
    } else {
      assert OtherEntries(entries)[1..] == OtherEntries(entries[1..]);
      if entries[0].key != key {
        NoMapsInGet(entries[1..], key);
      }
    }
  }

  lemma WithoutVariantsOneMap(schema: Value, methods: set<string>)
    requires Variants(schema).Some? && OneMap(schema)
    ensures OneMap(WithoutVariants(schema, methods))
  {
    NoMapsInGet(schema.entries, "oneOf");
    UnlistedOneMap(Variants(schema).value, methods);
    ReplacedOneMap(schema.entries, "oneOf", Array(Unlisted(Variants(schema).value, methods)));
  }

  /** What the schema refers to, outside its own definitions, skipped maps included. */
  function Named(schema: Value): set<string>
    requires schema.Object?
  {
    LocalNames(RefHere(schema.entries) + RefsInEntries(OtherEntries(schema.entries)))
  }

  lemma {:induction false} OtherEntriesKept(entries: seq<Entry>, value: Value)
    ensures OtherEntries(Replace(entries, DEFINITIONS, value)) == OtherEntries(entries)
  {
    if entries != [] {
      var replaced := Replace(entries, DEFINITIONS, value);
      if entries[0].key == DEFINITIONS {
        assert replaced[1..] == entries[1..];
      } else {
        OtherEntriesKept(entries[1..], value);
        assert replaced[1..] == Replace(entries[1..], DEFINITIONS, value);
      }
    }
  }

  /**
   * When keeping the definitions that the search reaches leaves nothing dangling anywhere:
   * exactly if the search reaches all that the schema refers to.
   */
  lemma RetainAnywhere(schema: Value, kept: set<string>)
    requires NothingDanglesAnywhere(schema)
    requires LeastClosed(LocalGraph(Definitions(schema).value), LocalNames(RefsOutside(schema)), kept)
    ensures NothingDanglesAnywhere(
        Object(Replace(schema.entries, DEFINITIONS, Object(Retain(Definitions(schema).value, kept)))))
      <==> Named(schema) <= kept
  {
    var definitions := Definitions(schema).value;
    var retained := Retain(definitions, kept);
    var r := Object(Replace(schema.entries, DEFINITIONS, Object(retained)));
    OtherEntriesKept(schema.entries, Object(retained));
    GetReplaced(schema.entries, DEFINITIONS, Object(retained), DEFINITIONS);
    GetReplaced(schema.entries, DEFINITIONS, Object(retained), "$ref");
    assert Named(r) == Named(schema);
    forall n ensures n in Keys(retained) <==> n in kept && n in Keys(definitions) {
      GetRetained(definitions, kept, n);
      GetFinds(definitions, n);
      GetFinds(retained, n);
    }
    forall n | n in LocalGraph(retained) ensures LocalGraph(retained)[n] <= Keys(retained) {
      GetRetained(definitions, kept, n);
      assert LocalGraph(retained)[n] == LocalGraph(definitions)[n];
    }
  }

  /** Dropping variants drops references, and leaves none of them without its target. */
  lemma {:induction false} UnlistedRefsIn(variants: seq<Value>, methods: set<string>)
    ensures RefsInItems(Unlisted(variants, methods)) <= RefsInItems(variants)
  {
    if variants != [] {
      UnlistedRefsIn(variants[1..], methods);
      var rest := Unlisted(variants[1..], methods);
      if IsMethodVariantIn(variants[0], methods) {
        assert Unlisted(variants, methods) == rest;
      } else {
        assert Unlisted(variants, methods)[1..] == rest;
      }
    }
  }

  lemma {:induction false} ReplacedRefsIn(entries: seq<Entry>, key: string, value: Value)
    requires key != DEFINITIONS
    requires HasKey(entries, key) && RefsIn(value) <= RefsIn(Get(entries, key).value)
    ensures RefsInEntries(OtherEntries(Replace(entries, key, value))) <= RefsInEntries(OtherEntries(entries))
  {
    var replaced := Replace(entries, key, value);
    if entries[0].key == key {
      assert replaced[1..] == entries[1..];
    } else {
      ReplacedRefsIn(entries[1..], key, value);
      assert replaced[1..] == Replace(entries[1..], key, value);
    }
    OtherHead(entries);
    OtherHead(replaced);
  }

  lemma OtherHead(entries: seq<Entry>)
    requires entries != []
    ensures RefsInEntries(OtherEntries(entries)) ==
      (if entries[0].key == DEFINITIONS then {} else RefsIn(entries[0].value))
      + RefsInEntries(OtherEntries(entries[1..]))
  {
    if entries[0].key == DEFINITIONS {
      assert OtherEntries(entries) == OtherEntries(entries[1..]);
    } else {
      assert OtherEntries(entries)[1..] == OtherEntries(entries[1..]);
    }
  }

  lemma WithoutVariantsNamed(schema: Value, methods: set<string>)
    requires Variants(schema).Some?
    ensures Named(WithoutVariants(schema, methods)) <= Named(schema)
    ensures NothingDanglesAnywhere(schema) ==> NothingDanglesAnywhere(WithoutVariants(schema, methods))
  {
    var filtered := Array(Unlisted(Variants(schema).value, methods));
    UnlistedRefsIn(Variants(schema).value, methods);
    ReplacedRefsIn(schema.entries, "oneOf", filtered);
    GetReplaced(schema.entries, "oneOf", filtered, "$ref");
    WithoutVariantsRefs(schema, methods);
  }

  /** What the references outside the maps of the stripped schema reach. */
  ghost predicate Reached(schema: Value, methods: set<string>, kept: set<string>)
    requires Variants(schema).Some? && Definitions(schema).Some?
  {
    LeastClosed(LocalGraph(Definitions(schema).value), LocalNames(RefsOutside(WithoutVariants(schema, methods))), kept)
  }

  lemma OneMapNamed(schema: Value)
    requires OneMap(schema)
    ensures Named(schema) == LocalNames(RefsOutside(schema))
  {
    ElsewhereIsOutside(schema.entries);
  }

  /**
   * If nothing dangled before the variants were stripped, nothing dangles after: among the
   * references that the search sees, always; anywhere in the schema, exactly if the search
   * reaches all that the stripped schema refers to.  With only one map of definitions it does.
   */
  method StripWithoutDangling(schema: Value, methods: set<string>) returns (r: Value)
    ensures NothingDangles(schema) ==> NothingDangles(r)
    ensures Variants(schema).Some? && Definitions(schema).Some? ==> exists kept :: Reached(schema, methods, kept)
    ensures NothingDanglesAnywhere(schema) && Variants(schema).Some? ==>
      forall kept | Reached(schema, methods, kept) ::
        (NothingDanglesAnywhere(r) <==> Named(WithoutVariants(schema, methods)) <= kept)
    ensures NothingDanglesAnywhere(schema) && OneMap(schema) ==> NothingDanglesAnywhere(r)
    ensures Variants(schema).None? ==> r == schema
  {
    r := StripMethodVariants(schema, methods);
    if Variants(schema).Some? && Definitions(schema).Some? {
      ghost var stripped := WithoutVariants(schema, methods);
      ghost var definitions := Definitions(schema).value;
      ghost var kept :| Reached(schema, methods, kept)
        && r == Object(Replace(stripped.entries, DEFINITIONS, Object(Retain(definitions, kept))));
      WithoutVariantsRefs(schema, methods);
      WithoutVariantsNamed(schema, methods);
      StrippedDangles(schema, methods, kept);
      forall other | Reached(schema, methods, other) ensures other == kept {
        LeastClosedUnique(LocalGraph(definitions), LocalNames(RefsOutside(stripped)), other, kept);
      }
    }
  }

  lemma StrippedDangles(schema: Value, methods: set<string>, kept: set<string>)
    requires Variants(schema).Some? && Definitions(schema).Some? && Reached(schema, methods, kept)
    ensures var stripped := WithoutVariants(schema, methods);
      var r := Object(Replace(stripped.entries, DEFINITIONS, Object(Retain(Definitions(schema).value, kept))));
      && (NothingDangles(schema) ==> NothingDangles(r))
      && (NothingDanglesAnywhere(schema) ==> (NothingDanglesAnywhere(r) <==> Named(stripped) <= kept))
      && (OneMap(schema) ==> Named(stripped) <= kept)
  {
    var stripped := WithoutVariants(schema, methods);
    WithoutVariantsRefs(schema, methods);
    WithoutVariantsNamed(schema, methods);
    if NothingDangles(schema) {
      RetainNeeded(stripped, kept);
    }
    if NothingDanglesAnywhere(schema) {
      RetainAnywhere(stripped, kept);
    }
    if OneMap(schema) {
      WithoutVariantsOneMap(schema, methods);
      OneMapNamed(stripped);
    }
  }

  function Ref(target: string): Value {
    Object([Entry("$ref", String(target))])
  }

  const HIDDEN := Object([Entry(DEFINITIONS, Ref("#/definitions/A"))])

  function SchemaWithHidden(definitions: seq<Entry>): Value {
    Object([Entry("oneOf", Array([])), Entry(DEFINITIONS, Object(definitions)), Entry("properties", HIDDEN)])
  }

  /**
   * With a second map the search can miss a reference.  Here it sits in the schema of a property
   * that happens to be called `definitions`: nothing dangles before, the definition it names is
   * not in the least set, and without it the reference dangles.
   */
  lemma HiddenReferenceDangles()
    ensures NothingDanglesAnywhere(SchemaWithHidden([Entry("A", Null)]))
    ensures LeastClosed(LocalGraph([Entry("A", Null)]),
                        LocalNames(RefsOutside(SchemaWithHidden([Entry("A", Null)]))), {})
    ensures !NothingDanglesAnywhere(SchemaWithHidden(Retain([Entry("A", Null)], {})))
  {
    var a := Entry("A", Null);
    HiddenRefs();
    HiddenSchema([a]);
    HiddenSchema([]);
    assert Keys([a]) == {"A"} by {
      assert [a][0].key == "A";
    }
    assert Retain([a], {}) == [];
    assert "A" in {"A"};
  }

  lemma HiddenSchema(definitions: seq<Entry>)
    ensures var es := SchemaWithHidden(definitions).entries;
      && OtherEntries(es) == [es[0], es[2]]
      && RefsInEntries([es[0], es[2]]) == RefsIn(HIDDEN)
      && RefsOutside(SchemaWithHidden(definitions)) == RefsOutside(HIDDEN)
      && RefHere(es) == {}
      && Definitions(SchemaWithHidden(definitions)) == Some(definitions)
  {
    var first, last := Entry("oneOf", Array([])), Entry("properties", HIDDEN);
    var es := [first, Entry(DEFINITIONS, Object(definitions)), last];
    assert SchemaWithHidden(definitions).entries == es;
    OtherOfThree(first, Object(definitions), last);
    assert es[1..] == [Entry(DEFINITIONS, Object(definitions)), last];
    assert es[1..][1..] == [last];
    assert [last][1..] == [];
    assert Get([last], "$ref") == None;
    assert Get(es[1..], "$ref") == None;
    assert Get(es[1..], DEFINITIONS) == Some(Object(definitions));
    assert Get(es, DEFINITIONS) == Some(Object(definitions));
  }

  lemma HiddenRefs()
    ensures RefsIn(HIDDEN) == {"#/definitions/A"} && RefsOutside(HIDDEN) == {}
    ensures LocalNames({"#/definitions/A"}) == {"A"}
  {
    var target := "#/definitions/A";
    var inner, outer := Entry("$ref", String(target)), Entry(DEFINITIONS, Ref(target));
    assert GetString([inner], "$ref") == Some(target);
    SingleEntry(inner);
    assert RefsIn(Ref(target)) == {target};
    SingleEntry(outer);
    assert [outer][1..] == [];
    assert Get([outer], "$ref") == None;
    assert HIDDEN == Object([outer]);
    assert target[|LOCAL_PREFIX|..] == "A" && FirstSegment("A") == "A";
    assert StartsWith(target, LOCAL_PREFIX);
    forall n ensures n in LocalNames({target}) <==> n == "A" {
      assert target in {target};
    }
  }

  lemma SingleEntry(e: Entry)
    ensures RefsInEntries([e]) == RefsIn(e.value)
    ensures RefsOutsideEntries([e]) == if e.key == DEFINITIONS || e.key == DEFS then {} else RefsOutside(e.value)
    ensures NoMapsInEntries([e]) <==> e.key != DEFINITIONS && e.key != DEFS && NoMaps(e.value)
  {
    assert [e][1..] == [];
  }

  lemma OtherOfThree(first: Entry, definitions: Value, last: Entry)
    requires first.key != DEFINITIONS && last.key != DEFINITIONS && first.value == Array([])
    requires first.key != DEFS && last.key != DEFS
    ensures var es := [first, Entry(DEFINITIONS, definitions), last];
      && OtherEntries(es) == [first, last]
      && RefsOutsideEntries(es) == RefsOutside(last.value)
    ensures RefsInEntries([first, last]) == RefsIn(last.value)
    ensures NoMapsInEntries([first, last]) <==> NoMaps(last.value)
  {
    var es := [first, Entry(DEFINITIONS, definitions), last];
    assert es[1..] == [Entry(DEFINITIONS, definitions), last];
    assert es[1..][1..] == [last];
    assert [first, last][1..] == [last];
    assert [last][1..] == [];
    SingleEntry(last);
    assert OtherEntries([last]) == [last];
  }
}
