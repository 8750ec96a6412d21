/** `rewrite_refs_to_namespace`, and how flattening undoes it. */
module Namespaces {
  import opened Wrappers
  import opened Strings
  import opened Json
  import opened References
  import opened FlatBundle

  function NamespacedRef(ns: string, reference: string): string {
    match StripPrefix(reference, LOCAL_PREFIX)
    case None => reference
    case Some(suffix) =>
      if StartsWith(suffix, ns + "/") then reference else LOCAL_PREFIX + (ns + "/" + suffix)
  }

  function IntoNamespace(ns: string, v: Value): Value {
    match v
    case Object(entries) => Object(EntriesIntoNamespace(ns, entries))
    case Array(items) => Array(ItemsIntoNamespace(ns, items))
    case _ => v
  }

  function EntryIntoNamespace(ns: string, e: Entry): Entry {
    if e.key == "$ref" && e.value.String? then Entry(e.key, String(NamespacedRef(ns, e.value.s)))
    else Entry(e.key, IntoNamespace(ns, e.value))
  }

  function EntriesIntoNamespace(ns: string, entries: seq<Entry>): seq<Entry> {
    if entries == [] then [] else [EntryIntoNamespace(ns, entries[0])] + EntriesIntoNamespace(ns, entries[1..])
  }

  function ItemsIntoNamespace(ns: string, items: seq<Value>): seq<Value> {
    if items == [] then [] else [IntoNamespace(ns, items[0])] + ItemsIntoNamespace(ns, items[1..])
  }

  /** A local reference gets the namespace unless it has it; any other reference stays. */
  lemma NamespacedIs(ns: string, name: string, reference: string)
    ensures StartsWith(name, ns + "/") ==> NamespacedRef(ns, LOCAL_PREFIX + name) == LOCAL_PREFIX + name
    ensures !StartsWith(name, ns + "/") ==>
      NamespacedRef(ns, "#/definitions/" + name) == "#/definitions/" + ns + "/" + name
    ensures !StartsWith(reference, "#/definitions/") ==> NamespacedRef(ns, reference) == reference
  {
    assert (LOCAL_PREFIX + name)[|LOCAL_PREFIX|..] == name;
    assert LOCAL_PREFIX + (ns + "/" + name) == LOCAL_PREFIX + ns + "/" + name;
  }

  function NamespacedRefs(ns: string, refs: set<string>): set<string> {
    set r | r in refs :: NamespacedRef(ns, r)
  }

  lemma NamespacedUnion(ns: string, a: set<string>, b: set<string>)
    ensures NamespacedRefs(ns, a + b) == NamespacedRefs(ns, a) + NamespacedRefs(ns, b)
  {
  }

  lemma {:induction false} GetNamespaced(ns: string, entries: seq<Entry>, key: string)
    ensures Get(EntriesIntoNamespace(ns, entries), key) ==
      match Get(entries, key)
      case None => None
      case Some(v) => Some(EntryIntoNamespace(ns, Entry(key, v)).value)
  {
    if entries != [] {
      GetNamespaced(ns, entries[1..], key);
      assert EntriesIntoNamespace(ns, entries)[1..] == EntriesIntoNamespace(ns, entries[1..]);
    }
  }

  /** The references of the schema, at every depth, are those it had, moved into the namespace. */
  lemma {:induction false} RefsMoved(ns: string, v: Value)
    ensures RefsIn(IntoNamespace(ns, v)) == NamespacedRefs(ns, RefsIn(v))
    decreases v
  {
    match v
    case Object(entries) =>
      EntryRefsMoved(ns, entries);
      GetNamespaced(ns, entries, "$ref");
      assert RefHere(EntriesIntoNamespace(ns, entries)) == NamespacedRefs(ns, RefHere(entries));
      NamespacedUnion(ns, RefHere(entries), RefsInEntries(entries));
    case Array(items) => ItemRefsMoved(ns, items);
    case _ =>
  }

  lemma {:induction false} EntryRefsMoved(ns: string, entries: seq<Entry>)
    ensures RefsInEntries(EntriesIntoNamespace(ns, entries)) == NamespacedRefs(ns, RefsInEntries(entries))
    decreases entries
  {
    if entries != [] {
      RefsMoved(ns, entries[0].value);
      EntryRefsMoved(ns, entries[1..]);
      assert EntriesIntoNamespace(ns, entries)[1..] == EntriesIntoNamespace(ns, entries[1..]);
      NamespacedUnion(ns, RefsIn(entries[0].value), RefsInEntries(entries[1..]));
    }
  }

  lemma {:induction false} ItemRefsMoved(ns: string, items: seq<Value>)
    ensures RefsInItems(ItemsIntoNamespace(ns, items)) == NamespacedRefs(ns, RefsInItems(items))
    decreases items
  {
    if items != [] {
      RefsMoved(ns, items[0]);
      ItemRefsMoved(ns, items[1..]);
      assert ItemsIntoNamespace(ns, items)[1..] == ItemsIntoNamespace(ns, items[1..]);
      NamespacedUnion(ns, RefsIn(items[0]), RefsInItems(items[1..]));
    }
  }

  lemma NamespacedOnce(ns: string, reference: string)
    ensures NamespacedRef(ns, NamespacedRef(ns, reference)) == NamespacedRef(ns, reference)
  {
    if StartsWith(reference, LOCAL_PREFIX) {
      var suffix := reference[|LOCAL_PREFIX|..];
      assert (LOCAL_PREFIX + (ns + "/" + suffix))[|LOCAL_PREFIX|..] == ns + "/" + suffix;
    }
  }

  /** Namespacing twice is namespacing once, for every schema and every namespace. */
  lemma {:induction false} IntoNamespaceIdempotent(ns: string, v: Value)
    ensures IntoNamespace(ns, IntoNamespace(ns, v)) == IntoNamespace(ns, v)
    decreases v
  {
    match v
    case Object(entries) => EntriesIdempotent(ns, entries);
    case Array(items) => ItemsIdempotent(ns, items);
    case _ =>
  }

  lemma {:induction false} EntriesIdempotent(ns: string, entries: seq<Entry>)
    ensures EntriesIntoNamespace(ns, EntriesIntoNamespace(ns, entries)) == EntriesIntoNamespace(ns, entries)
    decreases entries
  {
    if entries != [] {
      var e := entries[0];
      if e.key == "$ref" && e.value.String? {
        NamespacedOnce(ns, e.value.s);
      } else {
        IntoNamespaceIdempotent(ns, e.value);
      }
      EntriesIdempotent(ns, entries[1..]);
      assert EntriesIntoNamespace(ns, entries)[1..] == EntriesIntoNamespace(ns, entries[1..]);
    }
  }

  lemma {:induction false} ItemsIdempotent(ns: string, items: seq<Value>)
    ensures ItemsIntoNamespace(ns, ItemsIntoNamespace(ns, items)) == ItemsIntoNamespace(ns, items)
    decreases items
  {
    if items != [] {
      IntoNamespaceIdempotent(ns, items[0]);
      ItemsIdempotent(ns, items[1..]);
      assert ItemsIntoNamespace(ns, items)[1..] == ItemsIntoNamespace(ns, items[1..]);
    }
  }

  lemma RefRoundTrip(name: string)
    requires Plain(name)
    ensures NewRef(NamespacedRef(V2, LOCAL_PREFIX + name)) == LOCAL_PREFIX + name
  {
    NotV2(name);
    NewRefOfV2(name);
    assert V2_PREFIX == LOCAL_PREFIX + (V2 + "/");
    assert LOCAL_PREFIX + (V2 + "/" + name) == V2_PREFIX + name;
    assert !StartsWith(name, V2 + "/") by {
      assert Free(name, '/');
      assert (V2 + "/")[2] == '/';
    }
  }

  predicate AllPlain(names: set<string>) {
    forall n | n in names :: Plain(n)
  }

  /** Flattening gives back a schema that was moved into the `v2` namespace. */
  lemma {:induction false} FlattenUndoesNamespace(v: Value, names: set<string>)
    requires WellFormed(v) && AllPlain(names) && RefsIn(v) <= LocalRefs(names)
    ensures Rewrite(IntoNamespace(V2, v)) == v
    decreases v
  {
    match v
    case Object(entries) =>
      forall i | 0 <= i < |entries| && entries[i].key == "$ref" && entries[i].value.String?
        ensures entries[i].value.s in LocalRefs(names)
      {
        GetAt(entries, i);
      }
      EntriesRoundTrip(entries, names);
    case Array(items) => ItemsRoundTrip(items, names);
    case _ =>
  }

  lemma {:induction false} EntriesRoundTrip(entries: seq<Entry>, names: set<string>)
    requires AllPlain(names) && RefsInEntries(entries) <= LocalRefs(names)
    requires forall e | e in entries :: WellFormed(e.value)
    requires forall i | 0 <= i < |entries| && entries[i].key == "$ref" && entries[i].value.String? ::
      entries[i].value.s in LocalRefs(names)
    ensures RewriteEntries(EntriesIntoNamespace(V2, entries)) == entries
    decreases entries
  {
    if entries != [] {
      EntryRoundTrip(entries[0], names);
      EntriesRoundTrip(entries[1..], names);
      assert EntriesIntoNamespace(V2, entries)[1..] == EntriesIntoNamespace(V2, entries[1..]);
    }
  }

  lemma {:induction false} EntryRoundTrip(e: Entry, names: set<string>)
    requires AllPlain(names) && RefsIn(e.value) <= LocalRefs(names) && WellFormed(e.value)
    requires e.key == "$ref" && e.value.String? ==> e.value.s in LocalRefs(names)
    ensures RewriteEntry(EntryIntoNamespace(V2, e)) == e
    decreases e
  {
    if e.key == "$ref" && e.value.String? {
      var n :| n in names && e.value.s == LOCAL_PREFIX + n;
      RefRoundTrip(n);
    } else {
      FlattenUndoesNamespace(e.value, names);
    }
  }

  lemma {:induction false} ItemsRoundTrip(items: seq<Value>, names: set<string>)
    requires AllPlain(names) && RefsInItems(items) <= LocalRefs(names)
    requires forall x | x in items :: WellFormed(x)
    ensures RewriteItems(ItemsIntoNamespace(V2, items)) == items
    decreases items
  {
    if items != [] {
      FlattenUndoesNamespace(items[0], names);
      ItemsRoundTrip(items[1..], names);
      assert ItemsIntoNamespace(V2, items)[1..] == ItemsIntoNamespace(V2, items[1..]);
    }
  }
}
