/** `build_flat_v2_schema`: moving the definitions of the `v2` namespace to the root. */
module FlatBundle {
  import opened Wrappers
  import opened Strings
  import opened Json
  import opened References
  import opened Sets
  import opened DefinitionGraph

  datatype FlattenError =
    | NoRootObject
    | NoDefinitions
    | NoV2Namespace
    | StillNamespaced(reference: string)
    | MissingDefinitions(names: set<string>)

  const V2 := "v2"
  const SHARED: seq<string> := ["ClientRequest", "ServerNotification"]

  // ---------------------------------------------------------------------------------------
  // Rewriting references
  // ---------------------------------------------------------------------------------------

  function NewRef(reference: string): string {
    ReplaceAll(reference, V2_PREFIX, LOCAL_PREFIX)
  }

  /** `rewrite_ref_prefix` from the namespaced to the plain prefix. */
  function Rewrite(v: Value): Value {
    match v
    case Object(entries) => Object(RewriteEntries(entries))
    case Array(items) => Array(RewriteItems(items))
    case _ => v
  }

  function RewriteEntry(e: Entry): Entry {
    if e.key == "$ref" && e.value.String? then Entry(e.key, String(NewRef(e.value.s)))
    else Entry(e.key, Rewrite(e.value))
  }

  function RewriteEntries(entries: seq<Entry>): seq<Entry> {
    if entries == [] then [] else [RewriteEntry(entries[0])] + RewriteEntries(entries[1..])
  }

  function RewriteItems(items: seq<Value>): seq<Value> {
    if items == [] then [] else [Rewrite(items[0])] + RewriteItems(items[1..])
  }

  lemma {:induction false} GetRewritten(entries: seq<Entry>, key: string)
    ensures Get(RewriteEntries(entries), key) ==
      match Get(entries, key)
      case None => None
      case Some(v) => Some(RewriteEntry(Entry(key, v)).value)
  {
    if entries != [] {
      GetRewritten(entries[1..], key);
      assert RewriteEntries(entries)[1..] == RewriteEntries(entries[1..]);
    }
  }

  function NewRefs(refs: set<string>): set<string> {
    set r | r in refs :: NewRef(r)
  }

  lemma NewRefsUnion(a: set<string>, b: set<string>)
    ensures NewRefs(a + b) == NewRefs(a) + NewRefs(b)
  {
  }

  lemma {:induction false} RewrittenRefs(v: Value)
    ensures RefsIn(Rewrite(v)) == NewRefs(RefsIn(v))
    decreases v
  {
    match v
    case Object(entries) =>
      RewrittenEntryRefs(entries);
      GetRewritten(entries, "$ref");
      assert RefHere(RewriteEntries(entries)) == NewRefs(RefHere(entries));
      NewRefsUnion(RefHere(entries), RefsInEntries(entries));
    case Array(items) => RewrittenItemRefs(items);
    case _ =>
  }

  lemma {:induction false} RewrittenEntryRefs(entries: seq<Entry>)
    ensures RefsInEntries(RewriteEntries(entries)) == NewRefs(RefsInEntries(entries))
    decreases entries
  {
    if entries != [] {
      RewrittenRefs(entries[0].value);
      RewrittenEntryRefs(entries[1..]);
      assert RewriteEntries(entries)[1..] == RewriteEntries(entries[1..]);
      NewRefsUnion(RefsIn(entries[0].value), RefsInEntries(entries[1..]));
    }
  }

  lemma {:induction false} RewrittenItemRefs(items: seq<Value>)
    ensures RefsInItems(RewriteItems(items)) == NewRefs(RefsInItems(items))
    decreases items
  {
    if items != [] {
      RewrittenRefs(items[0]);
      RewrittenItemRefs(items[1..]);
      assert RewriteItems(items)[1..] == RewriteItems(items[1..]);
      NewRefsUnion(RefsIn(items[0]), RefsInItems(items[1..]));
    }
  }

  // ---------------------------------------------------------------------------------------
  // The reference: what a schema means
  // ---------------------------------------------------------------------------------------

  /** A schema with the references unfolded to some depth. */
  datatype Tree =
    | Leaf(v: Value)
    | List(items: seq<Tree>)
    | Node(children: seq<(string, Tree)>)
    | Cut
    | Dangling(reference: string)

  function Walk(v: Value, path: seq<string>): Option<Value>
    decreases |path|
  {
    if path == [] then Some(v)
    else if !v.Object? then None
    else match Get(v.entries, path[0])
         case Some(child) => Walk(child, path[1..])
         case None => None
  }

  /** What a reference into the document leads to: the path behind `#/`, key by key. */
  function Resolve(root: Value, reference: string): Option<Value> {
    if StartsWith(reference, "#/") then Walk(root, Segments(reference[2..])) else None
  }

  /**
   * The schema with references replaced by what they lead to, `depth` times over.  As section
   * 8.3 of JSON Schema draft-07 core requires, what stands beside a `$ref` is ignored.
   */
  function Unfold(depth: nat, root: Value, v: Value): Tree
    decreases depth, v
  {
    match v
    case Object(entries) =>
      if GetString(entries, "$ref").None? then Node(UnfoldEntries(depth, root, entries))
      else
        var reference := GetString(entries, "$ref").value;
        if Resolve(root, reference).None? then Dangling(reference)
        else if depth == 0 then Cut
        else Unfold(depth - 1, root, Resolve(root, reference).value)
    case Array(items) => List(UnfoldItems(depth, root, items))
    case _ => Leaf(v)
  }

  function UnfoldEntries(depth: nat, root: Value, entries: seq<Entry>): seq<(string, Tree)>
    decreases depth, entries
  {
    if entries == [] then []
    else [(entries[0].key, Unfold(depth, root, entries[0].value))] + UnfoldEntries(depth, root, entries[1..])
  }

  function UnfoldItems(depth: nat, root: Value, items: seq<Value>): seq<Tree>
    decreases depth, items
  {
    if items == [] then [] else [Unfold(depth, root, items[0])] + UnfoldItems(depth, root, items[1..])
  }

  // ---------------------------------------------------------------------------------------
  // Plain names
  // ---------------------------------------------------------------------------------------

  /** A definition name that stands for itself in a reference. */
  predicate Plain(name: string) {
    Free(name, '/') && Free(name, '#') && name != "$ref"
  }

  function V2Refs(names: set<string>): set<string> {
    set n | n in names :: V2_PREFIX + n
  }

  function LocalRefs(names: set<string>): set<string> {
    set n | n in names :: LOCAL_PREFIX + n
  }

  lemma NewRefOfV2(name: string)
    requires Plain(name)
    ensures NewRef(V2_PREFIX + name) == LOCAL_PREFIX + name
  {
    assert (V2_PREFIX + name)[|V2_PREFIX|..] == name;
    assert StartsWith(V2_PREFIX + name, V2_PREFIX);
    NothingToReplace(name, V2_PREFIX, LOCAL_PREFIX);
  }

  lemma NotV2(name: string)
    requires Plain(name)
    ensures !StartsWith(LOCAL_PREFIX + name, V2_PREFIX)
    ensures StartsWith(LOCAL_PREFIX + name, LOCAL_PREFIX)
    ensures (LOCAL_PREFIX + name)[|LOCAL_PREFIX|..] == name
  {
    var r := LOCAL_PREFIX + name;
    if |name| > 2 {
      assert r[16] == name[2] && V2_PREFIX[16] == '/';
    }
  }

  lemma NewRefOfLocal(name: string)
    requires Plain(name)
    ensures NewRef(LOCAL_PREFIX + name) == LOCAL_PREFIX + name
  {
    var r := LOCAL_PREFIX + name;
    NotV2(name);
    assert r[1..] == LOCAL_PREFIX[1..] + name;
    assert Free(r[1..], '#');
    NothingToReplace(r[1..], V2_PREFIX, LOCAL_PREFIX);
    assert r == [r[0]] + r[1..];
  }

  lemma LocalSegments(name: string)
    requires Plain(name)
    ensures StartsWith(LOCAL_PREFIX + name, "#/")
    ensures Segments((LOCAL_PREFIX + name)[2..]) == [DEFINITIONS, name]
  {
    assert (LOCAL_PREFIX + name)[2..] == DEFINITIONS + ("/" + name);
    SegmentsOf(DEFINITIONS, "/" + name);
    assert ("/" + name)[1..] == name == name + "";
    SegmentsOf(name, "");
  }

  lemma V2Segments(name: string)
    requires Plain(name)
    ensures StartsWith(V2_PREFIX + name, "#/")
    ensures Segments((V2_PREFIX + name)[2..]) == [DEFINITIONS, V2, name]
  {
    var path := V2 + ("/" + name);
    assert (V2_PREFIX + name)[2..] == DEFINITIONS + ("/" + path);
    SegmentsOf(DEFINITIONS, "/" + path);
    assert ("/" + path)[1..] == path;
    SegmentsOf(V2, "/" + name);
    assert ("/" + name)[1..] == name == name + "";
    SegmentsOf(name, "");
    assert [DEFINITIONS] + ([V2] + [name]) == [DEFINITIONS, V2, name];
  }

  lemma WalkLast(v: Value, key: string)
    requires v.Object?
    ensures Walk(v, [key]) == Get(v.entries, key)
  {
    assert [key][1..] == [];
  }

  lemma ResolveLocal(root: Value, definitions: seq<Entry>, name: string)
    requires Plain(name) && Definitions(root) == Some(definitions)
    ensures Resolve(root, LOCAL_PREFIX + name) == Get(definitions, name)
  {
    LocalSegments(name);
    WalkLast(Object(definitions), name);
    assert [DEFINITIONS, name][1..] == [name];
  }

  lemma ResolveV2(root: Value, definitions: seq<Entry>, v2: seq<Entry>, name: string)
    requires Plain(name) && Definitions(root) == Some(definitions)
    requires Get(definitions, V2) == Some(Object(v2))
    ensures Resolve(root, V2_PREFIX + name) == Get(v2, name)
  {
    V2Segments(name);
    WalkLast(Object(v2), name);
    assert [DEFINITIONS, V2, name][1..] == [V2, name] && [V2, name][1..] == [name];
    assert Walk(Object(definitions), [V2, name]) == Walk(Object(v2), [name]);
  }

  // ---------------------------------------------------------------------------------------
  // The flat definitions
  // ---------------------------------------------------------------------------------------

  function Put(entries: seq<Entry>, key: string, value: Value): seq<Entry> {
    if HasKey(entries, key) then Replace(entries, key, value) else entries + [Entry(key, value)]
  }

  lemma {:induction false} GetAppended(entries: seq<Entry>, more: seq<Entry>, key: string)
    ensures Get(entries + more, key) == if HasKey(entries, key) then Get(entries, key) else Get(more, key)
  {
    if entries == [] {
      assert entries + more == more;
    } else {
      assert (entries + more)[1..] == entries[1..] + more;
      GetAppended(entries[1..], more, key);
    }
  }

  lemma GetPut(entries: seq<Entry>, key: string, value: Value, other: string)
    ensures Get(Put(entries, key, value), other) == if other == key then Some(value) else Get(entries, other)
  {
    GetReplaced(entries, key, value, other);
    GetAppended(entries, [Entry(key, value)], other);
  }

  /** What putting an entry leaves of a map: the new entry and those with other keys. */
  lemma {:induction false} ReplacedMembers(entries: seq<Entry>, key: string, value: Value)
    requires UniqueKeys(entries)
    ensures UniqueKeys(Replace(entries, key, value))
    ensures |Replace(entries, key, value)| == |entries|
    ensures forall i | 0 <= i < |entries| ::
      Replace(entries, key, value)[i] == if entries[i].key == key then Entry(key, value) else entries[i]
  {
    if entries != [] && entries[0].key != key {
      ReplacedMembers(entries[1..], key, value);
    }
  }

  lemma PutMembers(entries: seq<Entry>, key: string, value: Value)
    requires UniqueKeys(entries)
    ensures UniqueKeys(Put(entries, key, value))
    ensures forall e | e in Put(entries, key, value) ::
      e == Entry(key, value) || (e in entries && e.key != key)
  {
    ReplacedMembers(entries, key, value);
    GetFinds(entries, key);
  }

  /** The references of a map are those of its members. */
  lemma {:induction false} RefsOfMembers(entries: seq<Entry>, refs: set<string>)
    ensures RefsInEntries(entries) <= refs <==> forall e | e in entries :: RefsIn(e.value) <= refs
  {
    if entries != [] {
      RefsOfMembers(entries[1..], refs);
      assert forall e :: e in entries <==> e == entries[0] || e in entries[1..];
    }
  }

  /** What the flat definitions hold under a name, for the root names collected. */
  function FlatDefinition(
    definitions: seq<Entry>, v2: seq<Entry>, needed: set<string>, name: string): Option<Value>
  {
    if name in SHARED && HasKey(definitions, name) then Get(definitions, name)
    else if HasKey(v2, name) then Get(v2, name)
    else if name in needed && name != V2 then Get(definitions, name)
    else None
  }

  /** The references of the shared root schemas outside the `v2` namespace. */
  function SharedNames(definitions: seq<Entry>): set<string> {
    set i, n | 0 <= i < |SHARED| && HasKey(definitions, SHARED[i])
      && n in NonV2Names(RefsIn(Get(definitions, SHARED[i]).value)) :: n
  }

  /** The root definitions that the shared schemas need. */
  ghost predicate NeededNames(definitions: seq<Entry>, needed: set<string>) {
    LeastClosed(DependencyGraph(definitions), SharedNames(definitions), needed)
  }

  /** All schemas that may end up in the flat definitions refer only to `refs`. */
  ghost predicate SourcesRefer(
    definitions: seq<Entry>, v2: seq<Entry>, needed: set<string>, refs: set<string>)
  {
    && RefsInEntries(v2) <= refs
    && forall n | (n in needed || n in SHARED) && n != V2 && HasKey(definitions, n) ::
         RefsIn(Get(definitions, n).value) <= refs
  }

  /** The definitions of the flat bundle, before references are rewritten. */
  method CollectFlatDefinitions(definitions: seq<Entry>, v2: seq<Entry>)
    returns (flat: seq<Entry>, needed: set<string>)
    requires UniqueKeys(v2)
    ensures NeededNames(definitions, needed)
    ensures forall name :: Get(flat, name) == FlatDefinition(definitions, v2, needed, name)
    ensures forall refs | SourcesRefer(definitions, v2, needed, refs) :: RefsInEntries(flat) <= refs
  {
    var names := CollectDefinitionDependencies(definitions, SharedNames(definitions));
    needed := names;
    flat := v2;
    var order := Listed(names);
    for i := 0 to |order|
      invariant UniqueKeys(flat)
      invariant forall name :: (Get(flat, name) ==
        if HasKey(v2, name) then Get(v2, name)
        else if name in order[..i] && name != V2 then Get(definitions, name)
        else None)
      invariant forall refs | SourcesRefer(definitions, v2, needed, refs) :: RefsInEntries(flat) <= refs
    {
      var name := order[i];
      assert name in Members(order);
      if name != V2 && !HasKey(flat, name) && HasKey(definitions, name) {
        flat := CollectOne(definitions, flat, name);
      }
    }
    assert order[..|order|] == order;
    flat := CollectShared(definitions, flat);
    assert forall name :: name in order <==> name in Members(order);
  }

  /** Copies one root definition into the flat ones. */
  method CollectOne(definitions: seq<Entry>, flat: seq<Entry>, name: string) returns (r: seq<Entry>)
    requires HasKey(definitions, name) && UniqueKeys(flat)
    ensures UniqueKeys(r)
    ensures forall other :: (Get(r, other) ==
      if other == name then Get(definitions, name) else Get(flat, other))
    ensures forall refs | RefsIn(Get(definitions, name).value) <= refs && RefsInEntries(flat) <= refs ::
      RefsInEntries(r) <= refs
  {
    var schema := Get(definitions, name).value;
    r := Put(flat, name, schema);
    PutMembers(flat, name, schema);
    forall other
      ensures Get(r, other) == if other == name then Get(definitions, name) else Get(flat, other)
    {
      GetPut(flat, name, schema, other);
    }
    forall refs | RefsIn(schema) <= refs && RefsInEntries(flat) <= refs
      ensures RefsInEntries(r) <= refs
    {
      RefsOfMembers(flat, refs);
      RefsOfMembers(r, refs);
    }
  }

  method CollectShared(definitions: seq<Entry>, flat: seq<Entry>) returns (r: seq<Entry>)
    requires UniqueKeys(flat)
    ensures forall name :: (Get(r, name) ==
      if name in SHARED && HasKey(definitions, name) then Get(definitions, name) else Get(flat, name))
    ensures forall refs | RefsInEntries(flat) <= refs
      && (forall n | n in SHARED && HasKey(definitions, n) :: RefsIn(Get(definitions, n).value) <= refs) ::
      RefsInEntries(r) <= refs
  {
    r := flat;
    for i := 0 to |SHARED|
      invariant UniqueKeys(r)
      invariant forall name :: (Get(r, name) ==
        if name in SHARED[..i] && HasKey(definitions, name) then Get(definitions, name) else Get(flat, name))
      invariant forall refs | RefsInEntries(flat) <= refs
        && (forall n | n in SHARED && HasKey(definitions, n) :: RefsIn(Get(definitions, n).value) <= refs) ::
        RefsInEntries(r) <= refs
    {
      if HasKey(definitions, SHARED[i]) {
        r := CollectOne(definitions, r, SHARED[i]);
      }
    }
    assert SHARED[..|SHARED|] == SHARED;
  }

  // ---------------------------------------------------------------------------------------
  // Meaning is preserved
  // ---------------------------------------------------------------------------------------

  /** Each of the references leads, rewritten, to the rewritten target. */
  ghost predicate Faithful(bundle: Value, flat: Value, refs: set<string>) {
    forall r | r in refs ::
      && Resolve(bundle, r).Some?
      && WellFormed(Resolve(bundle, r).value)
      && RefsIn(Resolve(bundle, r).value) <= refs
      && Resolve(flat, NewRef(r)) == Some(Rewrite(Resolve(bundle, r).value))
  }

  lemma {:induction false} UnfoldSame(depth: nat, bundle: Value, flat: Value, refs: set<string>, v: Value)
    requires Faithful(bundle, flat, refs) && RefsIn(v) <= refs && WellFormed(v)
    ensures Unfold(depth, flat, Rewrite(v)) == Unfold(depth, bundle, v)
    decreases depth, v
  {
    match v
    case Object(entries) =>
      if GetString(entries, "$ref").Some? {
        var target := TargetOf(bundle, flat, refs, entries);
        if depth > 0 {
          UnfoldSame(depth - 1, bundle, flat, refs, target);
        }
        UnfoldSameRef(depth, bundle, flat, refs, entries);
      } else {
        NoReference(entries);
        UnfoldSameEntries(depth, bundle, flat, refs, entries);
        UnfoldSameNode(depth, bundle, flat, entries);
      }
    case Array(items) => UnfoldSameItems(depth, bundle, flat, refs, items);
    case _ =>
  }

  lemma TargetOf(bundle: Value, flat: Value, refs: set<string>, entries: seq<Entry>) returns (target: Value)
    requires Faithful(bundle, flat, refs) && RefsIn(Object(entries)) <= refs
    requires GetString(entries, "$ref").Some?
    ensures GetString(entries, "$ref").value in refs
    ensures Resolve(bundle, GetString(entries, "$ref").value) == Some(target)
    ensures RefsIn(target) <= refs && WellFormed(target)
  {
    assert GetString(entries, "$ref").value in RefHere(entries);
    target := Resolve(bundle, GetString(entries, "$ref").value).value;
  }

  lemma NoReference(entries: seq<Entry>)
    requires UniqueKeys(entries) && GetString(entries, "$ref").None?
    ensures forall i | 0 <= i < |entries| && entries[i].key == "$ref" :: !entries[i].value.String?
  {
    forall i | 0 <= i < |entries| && entries[i].key == "$ref" ensures !entries[i].value.String? {
      GetAt(entries, i);
    }
  }

  lemma UnfoldSameNode(depth: nat, bundle: Value, flat: Value, entries: seq<Entry>)
    requires GetString(entries, "$ref").None?
    requires UnfoldEntries(depth, flat, RewriteEntries(entries)) == UnfoldEntries(depth, bundle, entries)
    ensures Unfold(depth, flat, Rewrite(Object(entries))) == Unfold(depth, bundle, Object(entries))
  {
    GetRewritten(entries, "$ref");
    assert GetString(RewriteEntries(entries), "$ref").None?;
  }

  lemma UnfoldSameRef(depth: nat, bundle: Value, flat: Value, refs: set<string>, entries: seq<Entry>)
    requires GetString(entries, "$ref").Some? && GetString(entries, "$ref").value in refs
    requires Faithful(bundle, flat, refs)
    requires var target := Resolve(bundle, GetString(entries, "$ref").value).value;
      depth > 0 ==> Unfold(depth - 1, flat, Rewrite(target)) == Unfold(depth - 1, bundle, target)
    ensures Unfold(depth, flat, Rewrite(Object(entries))) == Unfold(depth, bundle, Object(entries))
  {
    var r := GetString(entries, "$ref").value;
    GetRewritten(entries, "$ref");
    assert GetString(RewriteEntries(entries), "$ref") == Some(NewRef(r));
  }

  lemma {:induction false} UnfoldSameEntries(
    depth: nat, bundle: Value, flat: Value, refs: set<string>, entries: seq<Entry>)
    requires Faithful(bundle, flat, refs) && RefsInEntries(entries) <= refs
    requires forall i | 0 <= i < |entries| :: WellFormed(entries[i].value)
    requires forall i | 0 <= i < |entries| && entries[i].key == "$ref" :: !entries[i].value.String?
    ensures UnfoldEntries(depth, flat, RewriteEntries(entries)) == UnfoldEntries(depth, bundle, entries)
    decreases depth, entries
  {
    if entries != [] {
      assert RewriteEntries(entries)[1..] == RewriteEntries(entries[1..]);
      UnfoldSame(depth, bundle, flat, refs, entries[0].value);
      UnfoldSameEntries(depth, bundle, flat, refs, entries[1..]);
    }
  }

  lemma {:induction false} UnfoldSameItems(
    depth: nat, bundle: Value, flat: Value, refs: set<string>, items: seq<Value>)
    requires Faithful(bundle, flat, refs) && RefsInItems(items) <= refs
    requires forall i | 0 <= i < |items| :: WellFormed(items[i])
    ensures UnfoldItems(depth, flat, RewriteItems(items)) == UnfoldItems(depth, bundle, items)
    decreases depth, items
  {
    if items != [] {
      assert RewriteItems(items)[1..] == RewriteItems(items[1..]);
      UnfoldSame(depth, bundle, flat, refs, items[0]);
      UnfoldSameItems(depth, bundle, flat, refs, items[1..]);
    }
  }

  // ---------------------------------------------------------------------------------------
  // The premises, and what follows from them
  // ---------------------------------------------------------------------------------------

  /**
   * A namespaced bundle whose references all resolve: `v2` schemas refer only to `v2` names,
   * other schemas to names of either kind; the two kinds share no name, and no `v2` definition
   * is itself called `v2`.
   */
  ghost predicate Bundle(bundle: Value, definitions: seq<Entry>, v2: seq<Entry>) {
    && WellFormed(bundle)
    && Definitions(bundle) == Some(definitions)
    && Get(definitions, V2) == Some(Object(v2))
    && (forall n | n in Keys(definitions) + Keys(v2) :: Plain(n))
    && V2 !in Keys(v2) && Keys(v2) !! Keys(definitions)
    && RefsInEntries(v2) <= V2Refs(Keys(v2))
    && (forall n | n in Keys(definitions) - {V2} && HasKey(definitions, n) ::
          RefsIn(Get(definitions, n).value) <= V2Refs(Keys(v2)) + LocalRefs(Keys(definitions) - {V2}))
    && RefHere(bundle.entries) <= V2Refs(Keys(v2))
    && forall e | e in bundle.entries && e.key != DEFINITIONS :: RefsIn(e.value) <= V2Refs(Keys(v2))
  }

  /** The root names that the flat bundle keeps. */
  function KeptNames(definitions: seq<Entry>, needed: set<string>): set<string> {
    set n | n in Keys(definitions) && n != V2 && (n in needed || n in SHARED)
  }

  function KeptRefs(definitions: seq<Entry>, v2: seq<Entry>, needed: set<string>): set<string> {
    V2Refs(Keys(v2)) + LocalRefs(KeptNames(definitions, needed))
  }

  /** A root schema that is kept refers only to what is kept. */
  lemma KeptRefersToKept(bundle: Value, definitions: seq<Entry>, v2: seq<Entry>, needed: set<string>, n: string)
    requires Bundle(bundle, definitions, v2) && NeededNames(definitions, needed)
    requires n in KeptNames(definitions, needed)
    ensures HasKey(definitions, n)
    ensures RefsIn(Get(definitions, n).value) <= KeptRefs(definitions, v2, needed)
  {
    GetFinds(definitions, n);
    var refs := RefsIn(Get(definitions, n).value);
    assert NonV2Names(refs) <= needed by {
      if n in needed {
        assert DependencyGraph(definitions)[n] <= needed;
      } else {
        var i :| 0 <= i < |SHARED| && SHARED[i] == n;
        assert NonV2Names(refs) <= SharedNames(definitions);
      }
    }
    forall r | r in refs ensures r in KeptRefs(definitions, v2, needed) {
      if r !in V2Refs(Keys(v2)) {
        var m :| m in Keys(definitions) - {V2} && r == LOCAL_PREFIX + m;
        NotV2(m);
        assert m in NonV2Names(refs);
        assert m in KeptNames(definitions, needed);
      }
    }
  }

  lemma SourcesReferToKept(bundle: Value, definitions: seq<Entry>, v2: seq<Entry>, needed: set<string>)
    requires Bundle(bundle, definitions, v2) && NeededNames(definitions, needed)
    ensures SourcesRefer(definitions, v2, needed, KeptRefs(definitions, v2, needed))
  {
    forall n | (n in needed || n in SHARED) && n != V2 && HasKey(definitions, n)
      ensures RefsIn(Get(definitions, n).value) <= KeptRefs(definitions, v2, needed)
    {
      GetFinds(definitions, n);
      KeptRefersToKept(bundle, definitions, v2, needed, n);
    }
  }

  lemma GetWellFormed(entries: seq<Entry>, key: string)
    requires WellFormed(Object(entries)) && HasKey(entries, key)
    ensures WellFormed(Get(entries, key).value)
  {
    GetFinds(entries, key);
  }

  /** The flat bundle before references are rewritten. */
  function FlatRoot(entries: seq<Entry>, flat: seq<Entry>): seq<Entry> {
    var title := if GetString(entries, "title").Some? then GetString(entries, "title").value
                 else "CodexAppServerProtocol";
    Put(Put(entries, "title", String(title + "V2")), DEFINITIONS, Object(flat))
  }

  lemma FlatRootGet(entries: seq<Entry>, flat: seq<Entry>, key: string)
    ensures key != "title" ==> (Get(FlatRoot(entries, flat), key) ==
      if key == DEFINITIONS then Some(Object(flat)) else Get(entries, key))
    ensures Definitions(Rewrite(Object(FlatRoot(entries, flat)))) == Some(RewriteEntries(flat))
  {
    var title := if GetString(entries, "title").Some? then GetString(entries, "title").value
                 else "CodexAppServerProtocol";
    var titled := Put(entries, "title", String(title + "V2"));
    forall k
      ensures Get(FlatRoot(entries, flat), k) == if k == DEFINITIONS then Some(Object(flat)) else Get(titled, k)
    {
      GetPut(titled, DEFINITIONS, Object(flat), k);
    }
    GetPut(entries, "title", String(title + "V2"), key);
    GetRewritten(FlatRoot(entries, flat), DEFINITIONS);
  }

  lemma FlatRootRefs(
    bundle: Value, definitions: seq<Entry>, v2: seq<Entry>, flat: seq<Entry>, refs: set<string>)
    requires Bundle(bundle, definitions, v2) && V2Refs(Keys(v2)) <= refs
    requires RefsInEntries(flat) <= refs && RefHere(flat) == {}
    ensures RefsIn(Object(FlatRoot(bundle.entries, flat))) <= refs
  {
    var entries := bundle.entries;
    var title := if GetString(entries, "title").Some? then GetString(entries, "title").value
                 else "CodexAppServerProtocol";
    var titled := Put(entries, "title", String(title + "V2"));
    PutMembers(entries, "title", String(title + "V2"));
    PutMembers(titled, DEFINITIONS, Object(flat));
    RefsOfMembers(FlatRoot(entries, flat), refs);
    FlatRootGet(entries, flat, "$ref");
  }

  /** The flat bundle resolves every kept reference to what it stood for. */
  lemma FlatIsFaithful(
    bundle: Value, definitions: seq<Entry>, v2: seq<Entry>, needed: set<string>, flat: seq<Entry>)
    requires Bundle(bundle, definitions, v2) && NeededNames(definitions, needed)
    requires forall name :: Get(flat, name) == FlatDefinition(definitions, v2, needed, name)
    ensures Faithful(bundle, Rewrite(Object(FlatRoot(bundle.entries, flat))), KeptRefs(definitions, v2, needed))
  {
    var after := Rewrite(Object(FlatRoot(bundle.entries, flat)));
    FlatRootGet(bundle.entries, flat, "$ref");
    forall r | r in KeptRefs(definitions, v2, needed)
      ensures
        && Resolve(bundle, r).Some?
        && WellFormed(Resolve(bundle, r).value)
        && RefsIn(Resolve(bundle, r).value) <= KeptRefs(definitions, v2, needed)
        && Resolve(after, NewRef(r)) == Some(Rewrite(Resolve(bundle, r).value))
    {
      if r in V2Refs(Keys(v2)) {
        var n :| n in Keys(v2) && r == V2_PREFIX + n;
        V2Faithful(bundle, definitions, v2, needed, flat, n);
      } else {
        var n :| n in KeptNames(definitions, needed) && r == LOCAL_PREFIX + n;
        RootFaithful(bundle, definitions, v2, needed, flat, n);
      }
    }
  }

  lemma V2Faithful(
    bundle: Value, definitions: seq<Entry>, v2: seq<Entry>, needed: set<string>, flat: seq<Entry>, n: string)
    requires Bundle(bundle, definitions, v2) && n in Keys(v2)
    requires forall name :: Get(flat, name) == FlatDefinition(definitions, v2, needed, name)
    ensures var after, r := Rewrite(Object(FlatRoot(bundle.entries, flat))), V2_PREFIX + n;
      && Resolve(bundle, r).Some?
      && WellFormed(Resolve(bundle, r).value)
      && RefsIn(Resolve(bundle, r).value) <= V2Refs(Keys(v2))
      && Resolve(after, NewRef(r)) == Some(Rewrite(Resolve(bundle, r).value))
  {
    FlatRootGet(bundle.entries, flat, "$ref");
    GetFinds(v2, n);
    GetFinds(definitions, n);
    ResolveV2(bundle, definitions, v2, n);
    NewRefOfV2(n);
    ResolveLocal(Rewrite(Object(FlatRoot(bundle.entries, flat))), RewriteEntries(flat), n);
    GetRewritten(flat, n);
    RefsOfGet(v2, n);
    GetWellFormed(bundle.entries, DEFINITIONS);
    GetWellFormed(definitions, V2);
    GetWellFormed(v2, n);
  }

  lemma RootFaithful(
    bundle: Value, definitions: seq<Entry>, v2: seq<Entry>, needed: set<string>, flat: seq<Entry>, n: string)
    requires Bundle(bundle, definitions, v2) && NeededNames(definitions, needed)
    requires n in KeptNames(definitions, needed)
    requires forall name :: Get(flat, name) == FlatDefinition(definitions, v2, needed, name)
    ensures var after, r := Rewrite(Object(FlatRoot(bundle.entries, flat))), LOCAL_PREFIX + n;
      && Resolve(bundle, r).Some?
      && WellFormed(Resolve(bundle, r).value)
      && RefsIn(Resolve(bundle, r).value) <= KeptRefs(definitions, v2, needed)
      && Resolve(after, NewRef(r)) == Some(Rewrite(Resolve(bundle, r).value))
  {
    FlatRootGet(bundle.entries, flat, "$ref");
    KeptRefersToKept(bundle, definitions, v2, needed, n);
    GetFinds(v2, n);
    GetFinds(definitions, n);
    ResolveLocal(bundle, definitions, n);
    NewRefOfLocal(n);
    ResolveLocal(Rewrite(Object(FlatRoot(bundle.entries, flat))), RewriteEntries(flat), n);
    GetRewritten(flat, n);
    GetWellFormed(bundle.entries, DEFINITIONS);
    GetWellFormed(definitions, n);
  }

  lemma FlatKeys(definitions: seq<Entry>, v2: seq<Entry>, needed: set<string>, flat: seq<Entry>)
    requires V2 !in Keys(v2)
    requires forall name :: Get(flat, name) == FlatDefinition(definitions, v2, needed, name)
    ensures Keys(RewriteEntries(flat)) == Keys(v2) + KeptNames(definitions, needed)
  {
    forall n ensures n in Keys(RewriteEntries(flat)) <==> n in Keys(v2) + KeptNames(definitions, needed) {
      GetFinds(RewriteEntries(flat), n);
      GetRewritten(flat, n);
      GetFinds(definitions, n);
      GetFinds(v2, n);
    }
  }

  /** Rewritten, the kept references name kept definitions in the plain way. */
  lemma KeptRefsRewritten(bundle: Value, definitions: seq<Entry>, v2: seq<Entry>, needed: set<string>, r: string)
    requires Bundle(bundle, definitions, v2) && r in KeptRefs(definitions, v2, needed)
    ensures exists n | n in Keys(v2) + KeptNames(definitions, needed) ::
      Plain(n) && NewRef(r) == LOCAL_PREFIX + n
  {
    if r in V2Refs(Keys(v2)) {
      var n :| n in Keys(v2) && r == V2_PREFIX + n;
      NewRefOfV2(n);
      assert n in Keys(v2) + KeptNames(definitions, needed);
    } else {
      var n :| n in KeptNames(definitions, needed) && r == LOCAL_PREFIX + n;
      NewRefOfLocal(n);
      assert n in Keys(v2) + KeptNames(definitions, needed);
    }
  }

  lemma PlainRef(n: string)
    requires Plain(n)
    ensures !StartsWith(LOCAL_PREFIX + n, V2_PREFIX)
    ensures FirstSegment((LOCAL_PREFIX + n)[|LOCAL_PREFIX|..]) == n
  {
    NotV2(n);
    FirstSegmentOf(n, "");
    assert n + "" == n;
  }

  /** Under the premises both checks at the end pass. */
  lemma ChecksPass(
    bundle: Value, definitions: seq<Entry>, v2: seq<Entry>, needed: set<string>, refs: set<string>)
    requires Bundle(bundle, definitions, v2)
    requires refs <= NewRefs(KeptRefs(definitions, v2, needed))
    ensures forall r | r in refs :: !StartsWith(r, V2_PREFIX)
    ensures LocalNames(refs) <= Keys(v2) + KeptNames(definitions, needed)
  {
    forall r | r in refs
      ensures !StartsWith(r, V2_PREFIX)
      ensures StartsWith(r, LOCAL_PREFIX)
      ensures FirstSegment(r[|LOCAL_PREFIX|..]) in Keys(v2) + KeptNames(definitions, needed)
    {
      var was :| was in KeptRefs(definitions, v2, needed) && r == NewRef(was);
      KeptRefsRewritten(bundle, definitions, v2, needed, was);
      var n :| n in Keys(v2) + KeptNames(definitions, needed) && Plain(n) && r == LOCAL_PREFIX + n;
      PlainRef(n);
    }
  }

  // ---------------------------------------------------------------------------------------
  // The algorithm
  // ---------------------------------------------------------------------------------------

  /** No reference of the flat bundle is namespaced, and each names a definition that is there. */
  ghost predicate SelfContained(flat: Value) {
    && (forall r | r in RefsIn(flat) :: !StartsWith(r, V2_PREFIX))
    && Definitions(flat).Some?
    && LocalNames(RefsIn(flat)) <= Keys(Definitions(flat).value)
  }

  /**
   * The flat bundle has the `v2` definitions and the root definitions that the shared schemas
   * need, and under either name every reference unfolds, to any depth, to the same tree.
   */
  ghost predicate SameMeaning(
    bundle: Value, definitions: seq<Entry>, v2: seq<Entry>, needed: set<string>, flat: Value)
  {
    && Definitions(flat).Some?
    && Keys(Definitions(flat).value) == Keys(v2) + KeptNames(definitions, needed)
    && (forall depth: nat, n | n in Keys(v2) ::
          Unfold(depth, flat, Ref(LOCAL_PREFIX + n)) == Unfold(depth, bundle, Ref(V2_PREFIX + n)))
    && (forall depth: nat, n | n in KeptNames(definitions, needed) ::
          Unfold(depth, flat, Ref(LOCAL_PREFIX + n)) == Unfold(depth, bundle, Ref(LOCAL_PREFIX + n)))
  }

  lemma RewrittenRef(r: string)
    ensures RefsIn(Ref(r)) == {r} && Rewrite(Ref(r)) == Ref(NewRef(r)) && WellFormed(Ref(r))
  {
    var e := Entry("$ref", String(r));
    assert [e][1..] == [];
    assert GetString([e], "$ref") == Some(r);
    SingleEntry(e);
    assert RefHere([e]) == {r};
    assert RewriteEntries([e][1..]) == [];
    assert RewriteEntries([e]) == [RewriteEntry(e)];
  }

  lemma FaithfulMeansSame(
    bundle: Value, definitions: seq<Entry>, v2: seq<Entry>, needed: set<string>, flat: Value)
    requires Bundle(bundle, definitions, v2)
    requires Faithful(bundle, flat, KeptRefs(definitions, v2, needed))
    requires Definitions(flat).Some?
    requires Keys(Definitions(flat).value) == Keys(v2) + KeptNames(definitions, needed)
    ensures SameMeaning(bundle, definitions, v2, needed, flat)
  {
    var refs := KeptRefs(definitions, v2, needed);
    forall depth: nat, n | n in Keys(v2)
      ensures Unfold(depth, flat, Ref(LOCAL_PREFIX + n)) == Unfold(depth, bundle, Ref(V2_PREFIX + n))
    {
      RewrittenRef(V2_PREFIX + n);
      NewRefOfV2(n);
      UnfoldSame(depth, bundle, flat, refs, Ref(V2_PREFIX + n));
    }
    forall depth: nat, n | n in KeptNames(definitions, needed)
      ensures Unfold(depth, flat, Ref(LOCAL_PREFIX + n)) == Unfold(depth, bundle, Ref(LOCAL_PREFIX + n))
    {
      RewrittenRef(LOCAL_PREFIX + n);
      NewRefOfLocal(n);
      UnfoldSame(depth, bundle, flat, refs, Ref(LOCAL_PREFIX + n));
    }
  }

  /** Everything the premises give for the assembled bundle. */
  lemma AssembledIsSame(
    bundle: Value, definitions: seq<Entry>, v2: seq<Entry>, needed: set<string>, collected: seq<Entry>)
    requires Bundle(bundle, definitions, v2) && NeededNames(definitions, needed)
    requires forall name :: Get(collected, name) == FlatDefinition(definitions, v2, needed, name)
    requires forall refs | SourcesRefer(definitions, v2, needed, refs) :: RefsInEntries(collected) <= refs
    ensures SelfContained(Rewrite(Object(FlatRoot(bundle.entries, collected))))
    ensures SameMeaning(bundle, definitions, v2, needed, Rewrite(Object(FlatRoot(bundle.entries, collected))))
  {
    var before := Object(FlatRoot(bundle.entries, collected));
    var refs := KeptRefs(definitions, v2, needed);
    SourcesReferToKept(bundle, definitions, v2, needed);
    assert RefHere(collected) == {} by {
      GetFinds(v2, "$ref");
      GetFinds(definitions, "$ref");
    }
    FlatRootRefs(bundle, definitions, v2, collected, refs);
    FlatRootGet(bundle.entries, collected, "$ref");
    RewrittenRefs(before);
    FlatKeys(definitions, v2, needed, collected);
    ChecksPass(bundle, definitions, v2, needed, RefsIn(Rewrite(before)));
    FlatIsFaithful(bundle, definitions, v2, needed, collected);
    FaithfulMeansSame(bundle, definitions, v2, needed, Rewrite(before));
  }

  function V2Definitions(bundle: Value): Option<seq<Entry>> {
    match Definitions(bundle)
    case None => None
    case Some(definitions) =>
      match Get(definitions, V2)
      case Some(Object(v2)) => Some(v2)
      case _ => None
  }

  /** The definitions of the namespace are an object under `v2` among the definitions. */
  lemma V2Exactly(bundle: Value, v2: seq<Entry>)
    ensures V2Definitions(bundle) == Some(v2) <==>
      exists definitions ::
        && bundle.Object? && Get(bundle.entries, "definitions") == Some(Object(definitions))
        && Get(definitions, "v2") == Some(Object(v2))
  {
  }

  ghost predicate IsBundle(bundle: Value) {
    && Definitions(bundle).Some? && V2Definitions(bundle).Some?
    && Bundle(bundle, Definitions(bundle).value, V2Definitions(bundle).value)
  }

  /**
   * Without any premise: the shared schemas and the `v2` definitions are in the flat bundle with
   * their references rewritten, a shared schema rather than a `v2` definition of its name; the
   * title says which bundle it is, and the other entries are those of the bundle.
   */
  ghost predicate Published(bundle: Value, flat: Value) {
    && Definitions(bundle).Some? && V2Definitions(bundle).Some? && Definitions(flat).Some?
    && var definitions, v2, out := Definitions(bundle).value, V2Definitions(bundle).value, Definitions(flat).value;
       && (forall name | HasKey(definitions, name) && (name == "ClientRequest" || name == "ServerNotification") ::
             Get(out, name) == Some(Rewrite(Get(definitions, name).value)))
       && (forall name | HasKey(v2, name) && name != "$ref"
             && !(HasKey(definitions, name) && (name == "ClientRequest" || name == "ServerNotification")) ::
             Get(out, name) == Some(Rewrite(Get(v2, name).value)))
       && GetString(flat.entries, "title") ==
            (match GetString(bundle.entries, "title")
             case Some(title) => Some(title + "V2")
             case None => Some("CodexAppServerProtocolV2"))
       && forall key | key != "title" && key != DEFINITIONS && key != "$ref" ::
            Get(flat.entries, key) ==
            (match Get(bundle.entries, key) case Some(v) => Some(Rewrite(v)) case None => None)
  }

  lemma CollectedIsPublished(
    bundle: Value, definitions: seq<Entry>, v2: seq<Entry>, needed: set<string>, collected: seq<Entry>)
    requires Definitions(bundle) == Some(definitions) && V2Definitions(bundle) == Some(v2)
    requires forall name :: Get(collected, name) == FlatDefinition(definitions, v2, needed, name)
    ensures Published(bundle, Rewrite(Object(FlatRoot(bundle.entries, collected))))
  {
    var root := FlatRoot(bundle.entries, collected);
    FlatRootGet(bundle.entries, collected, "title");
    FlatTitle(bundle.entries, collected);
    forall key ensures Get(RewriteEntries(collected), key) ==
      match Get(collected, key) { case None => None case Some(v) => Some(RewriteEntry(Entry(key, v)).value) }
    {
      GetRewritten(collected, key);
    }
    forall key | key != "title" && key != DEFINITIONS && key != "$ref"
      ensures Get(RewriteEntries(root), key) ==
        match Get(bundle.entries, key) { case Some(v) => Some(Rewrite(v)) case None => None }
    {
      FlatRootGet(bundle.entries, collected, key);
      GetRewritten(root, key);
    }
    assert SHARED[0] == "ClientRequest" && SHARED[1] == "ServerNotification";
    assert forall name | name in SHARED :: name == SHARED[0] || name == SHARED[1];
  }

  lemma FlatTitle(entries: seq<Entry>, flat: seq<Entry>)
    ensures GetString(RewriteEntries(FlatRoot(entries, flat)), "title") ==
      match GetString(entries, "title")
      case Some(title) => Some(title + "V2")
      case None => Some("CodexAppServerProtocolV2")
  {
    var title := if GetString(entries, "title").Some? then GetString(entries, "title").value
                 else "CodexAppServerProtocol";
    var titled := Put(entries, "title", String(title + "V2"));
    GetPut(entries, "title", String(title + "V2"), "title");
    GetPut(titled, DEFINITIONS, Object(flat), "title");
    GetRewritten(FlatRoot(entries, flat), "title");
    assert "CodexAppServerProtocol" + "V2" == "CodexAppServerProtocolV2";
  }

  /** `ensure_no_ref_prefix` and `ensure_referenced_definitions_present`. */
  method CheckFlat(flat: Value) returns (error: Option<FlattenError>)
    requires Definitions(flat).Some?
    ensures error.None? <==> SelfContained(flat)
    ensures match error
      case None => true
      case Some(StillNamespaced(reference)) => reference in RefsIn(flat) && StartsWith(reference, V2_PREFIX)
      case Some(MissingDefinitions(names)) =>
        && names == LocalNames(RefsIn(flat)) - Keys(Definitions(flat).value) != {}
        && forall r | r in RefsIn(flat) :: !StartsWith(r, V2_PREFIX)
      case Some(_) => false
  {
    var namespaced := set r | r in RefsIn(flat) && StartsWith(r, V2_PREFIX);
    if namespaced != {} {
      var reference :| reference in namespaced;
      return Some(StillNamespaced(reference));
    }
    assert forall r | r in RefsIn(flat) && StartsWith(r, V2_PREFIX) :: r in namespaced;
    var names, keys := LocalNames(RefsIn(flat)), Keys(Definitions(flat).value);
    if names <= keys {
      return None;
    }
    NothingOver(names, keys);
    error := Some(MissingDefinitions(names - keys));
  }

  /**
   * `build_flat_v2_schema`.  What it returns is always self-contained; from a bundle that meets
   * the premises it always returns something, and that means the same.
   */
  method BuildFlatV2Schema(bundle: Value) returns (r: Result<Value, FlattenError>)
    requires WellFormed(bundle)
    ensures !bundle.Object? ==> r == Err(NoRootObject)
    ensures bundle.Object? && Definitions(bundle).None? ==> r == Err(NoDefinitions)
    ensures Definitions(bundle).Some? && V2Definitions(bundle).None? ==> r == Err(NoV2Namespace)
    ensures r.Ok? ==> SelfContained(r.value) && Published(bundle, r.value)
    ensures IsBundle(bundle) ==>
      && r.Ok?
      && exists needed ::
           && NeededNames(Definitions(bundle).value, needed)
           && SameMeaning(bundle, Definitions(bundle).value, V2Definitions(bundle).value, needed, r.value)
  {
    if !bundle.Object? {
      return Err(NoRootObject);
    }
    if Definitions(bundle).None? {
      return Err(NoDefinitions);
    }
    if V2Definitions(bundle).None? {
      return Err(NoV2Namespace);
    }
    var definitions, v2 := Definitions(bundle).value, V2Definitions(bundle).value;
    GetWellFormed(bundle.entries, DEFINITIONS);
    GetWellFormed(definitions, V2);
    var collected, needed := CollectFlatDefinitions(definitions, v2);
    var flat := Rewrite(Object(FlatRoot(bundle.entries, collected)));
    FlatRootGet(bundle.entries, collected, "$ref");
    CollectedIsPublished(bundle, definitions, v2, needed, collected);
    if IsBundle(bundle) {
      AssembledIsSame(bundle, definitions, v2, needed, collected);
    }
    var error := CheckFlat(flat);
    r := match error { case Some(e) => Err(e) case None => Ok(flat) };
  }
}
