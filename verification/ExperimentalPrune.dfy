/** `prune_experimental_methods`: dropping the variants of experimental methods at every depth. */
module ExperimentalPrune {
  import opened Wrappers
  import opened Json

  /** The method that a variant is for, under its `const` or its one-element `enum`. */
  function VariantMethod(v: Value): Option<string> {
    match MethodSchema(v)
    case None => None
    case Some(schema) =>
      if GetString(schema, "const").Some? then GetString(schema, "const")
      else if EnumOf(schema).Some? && |EnumOf(schema).value| == 1 && EnumOf(schema).value[0].String?
      then Some(EnumOf(schema).value[0].s)
      else None
  }

  function MethodSchema(v: Value): Option<seq<Entry>> {
    if !v.Object? then None
    else match Get(v.entries, "properties")
         case Some(Object(properties)) =>
           (match Get(properties, "method")
            case Some(Object(schema)) => Some(schema)
            case _ => None)
         case _ => None
  }

  function EnumOf(schema: seq<Entry>): Option<seq<Value>> {
    match Get(schema, "enum")
    case Some(Array(values)) => Some(values)
    case _ => None
  }

  /** `is_experimental_method_variant`. */
  predicate Listed(v: Value, methods: set<string>) {
    VariantMethod(v).Some? && VariantMethod(v).value in methods
  }

  function Unlisted(items: seq<Value>, methods: set<string>): seq<Value> {
    if items == [] then []
    else (if Listed(items[0], methods) then [] else [items[0]]) + Unlisted(items[1..], methods)
  }

  /** A variant is for the string under its method's `const` or, without one, the one element of its `enum`. */
  lemma VariantIsFor(v: Value, properties: seq<Entry>, schema: seq<Entry>, methods: set<string>)
    requires v.Object? && Get(v.entries, "properties") == Some(Object(properties))
    requires Get(properties, "method") == Some(Object(schema))
    ensures forall name :: Get(schema, "const") == Some(String(name)) ==> (Listed(v, methods) <==> name in methods)
    ensures forall name :: GetString(schema, "const").None? && Get(schema, "enum") == Some(Array([String(name)])) ==>
      (Listed(v, methods) <==> name in methods)
  {
  }

  /** The schema of a variant's method, and the method that it is for. */
  ghost predicate IsFor(v: Value, properties: seq<Entry>, schema: seq<Entry>, name: string) {
    && v.Object? && Get(v.entries, "properties") == Some(Object(properties))
    && Get(properties, "method") == Some(Object(schema))
    && (Get(schema, "const") == Some(String(name))
        || (GetString(schema, "const").None? && Get(schema, "enum") == Some(Array([String(name)]))))
  }

  /** Exactly the variants for a listed method are listed; what is no variant is not. */
  lemma ListedExactly(v: Value, methods: set<string>)
    ensures Listed(v, methods) <==>
      exists properties, schema, name :: name in methods && IsFor(v, properties, schema, name)
  {
    if Listed(v, methods) {
      var properties := Get(v.entries, "properties").value.entries;
      var schema := Get(properties, "method").value.entries;
      var name := VariantMethod(v).value;
      if GetString(schema, "const").None? {
        assert EnumOf(schema).value == [String(name)];
      }
      assert IsFor(v, properties, schema, name);
    }
    forall properties, schema, name | name in methods && IsFor(v, properties, schema, name)
      ensures Listed(v, methods)
    {
      VariantIsFor(v, properties, schema, methods);
    }
  }

  /** The unlisted items are all those that are not listed, in order. */
  lemma {:induction false} UnlistedConcat(a: seq<Value>, b: seq<Value>, methods: set<string>)
    ensures Unlisted(a + b, methods) == Unlisted(a, methods) + Unlisted(b, methods)
    ensures forall v :: Unlisted([v], methods) == if Listed(v, methods) then [] else [v]
  {
    forall v ensures Unlisted([v], methods) == if Listed(v, methods) then [] else [v] {
      assert [v][1..] == [];
    }
    if a == [] {
      assert a + b == b;
    } else {
      assert (a + b)[1..] == a[1..] + b;
      UnlistedConcat(a[1..], b, methods);
    }
  }

  /** `prune_experimental_methods_inner`. */
  function Prune(v: Value, methods: set<string>): Value {
    match v
    case Array(items) => Array(PruneItems(items, methods))
    case Object(entries) => Object(PruneEntries(entries, methods))
    case _ => v
  }

  function PruneItems(items: seq<Value>, methods: set<string>): seq<Value> {
    if items == [] then []
    else (if Listed(items[0], methods) then [] else [Prune(items[0], methods)])
         + PruneItems(items[1..], methods)
  }

  function PruneEntries(entries: seq<Entry>, methods: set<string>): seq<Entry> {
    if entries == [] then []
    else [Entry(entries[0].key, Prune(entries[0].value, methods))] + PruneEntries(entries[1..], methods)
  }

  /** No array at any depth has a listed variant. */
  predicate NoneListed(v: Value, methods: set<string>) {
    match v
    case Array(items) => NoneListedInItems(items, methods)
    case Object(entries) => NoneListedInEntries(entries, methods)
    case _ => true
  }

  predicate NoneListedInItems(items: seq<Value>, methods: set<string>) {
    items != [] ==>
      !Listed(items[0], methods) && NoneListed(items[0], methods) && NoneListedInItems(items[1..], methods)
  }

  predicate NoneListedInEntries(entries: seq<Entry>, methods: set<string>) {
    entries != [] ==> NoneListed(entries[0].value, methods) && NoneListedInEntries(entries[1..], methods)
  }

  /**
   * A variant that pruning would turn into a listed one: it has no `const`, its `enum` has
   * several elements, and the only one that is not itself a listed variant is a listed name.
   */
  predicate Shrinks(v: Value, methods: set<string>) {
    match MethodSchema(v)
    case None => false
    case Some(schema) =>
      && GetString(schema, "const").None?
      && EnumOf(schema).Some?
      && |EnumOf(schema).value| > 1
      && var left := Unlisted(EnumOf(schema).value, methods);
         |left| == 1 && left[0].String? && left[0].s in methods
  }

  /** No surviving array item shrinks. */
  predicate NoneShrinks(v: Value, methods: set<string>) {
    match v
    case Array(items) => NoneShrinksInItems(items, methods)
    case Object(entries) => NoneShrinksInEntries(entries, methods)
    case _ => true
  }

  predicate NoneShrinksInItems(items: seq<Value>, methods: set<string>) {
    items != [] ==>
      && (Listed(items[0], methods) || (!Shrinks(items[0], methods) && NoneShrinks(items[0], methods)))
      && NoneShrinksInItems(items[1..], methods)
  }

  predicate NoneShrinksInEntries(entries: seq<Entry>, methods: set<string>) {
    entries != [] ==> NoneShrinks(entries[0].value, methods) && NoneShrinksInEntries(entries[1..], methods)
  }

  // ---------------------------------------------------------------------------------------
  // Lookups in pruned objects
  // ---------------------------------------------------------------------------------------

  lemma {:induction false} GetPruned(entries: seq<Entry>, methods: set<string>, key: string)
    ensures Get(PruneEntries(entries, methods), key) ==
      match Get(entries, key) { case Some(v) => Some(Prune(v, methods)) case None => None }
  {
    if entries != [] {
      GetPruned(entries[1..], methods, key);
      assert PruneEntries(entries, methods)[1..] == PruneEntries(entries[1..], methods);
    }
  }

  lemma {:induction false} PruneItemsAre(items: seq<Value>, methods: set<string>)
    ensures |PruneItems(items, methods)| == |Unlisted(items, methods)|
    ensures forall i | 0 <= i < |Unlisted(items, methods)| ::
      PruneItems(items, methods)[i] == Prune(Unlisted(items, methods)[i], methods)
  {
    if items != [] {
      PruneItemsAre(items[1..], methods);
    }
  }

  lemma MethodSchemaPruned(v: Value, methods: set<string>)
    ensures MethodSchema(Prune(v, methods)) ==
      match MethodSchema(v) { case Some(schema) => Some(PruneEntries(schema, methods)) case None => None }
  {
    if v.Object? {
      GetPruned(v.entries, methods, "properties");
      match Get(v.entries, "properties") {
        case Some(Object(properties)) => GetPruned(properties, methods, "method");
        case _ =>
      }
    }
  }

  lemma SchemaPruned(schema: seq<Entry>, methods: set<string>)
    ensures GetString(PruneEntries(schema, methods), "const") == GetString(schema, "const")
    ensures EnumOf(PruneEntries(schema, methods)) ==
      match EnumOf(schema) { case Some(values) => Some(PruneItems(values, methods)) case None => None }
  {
    GetPruned(schema, methods, "const");
    GetPruned(schema, methods, "enum");
  }

  lemma {:induction false} UnlistedShorter(items: seq<Value>, methods: set<string>)
    ensures |Unlisted(items, methods)| <= |items|
    ensures |items| == 1 && items[0].String? ==> Unlisted(items, methods) == items
  {
    if items != [] {
      UnlistedShorter(items[1..], methods);
    }
  }

  /** An unlisted item is listed once pruned exactly if it shrinks. */
  lemma PrunedListed(v: Value, methods: set<string>)
    requires !Listed(v, methods)
    ensures Listed(Prune(v, methods), methods) <==> Shrinks(v, methods)
  {
    MethodSchemaPruned(v, methods);
    if MethodSchema(v).Some? {
      var schema := MethodSchema(v).value;
      SchemaPruned(schema, methods);
      if EnumOf(schema).Some? {
        PruneItemsAre(EnumOf(schema).value, methods);
        UnlistedShorter(EnumOf(schema).value, methods);
        EnumPruned(EnumOf(schema).value, methods);
      }
    }
  }

  /** The one string left of an enum is a string before pruning too. */
  lemma EnumPruned(values: seq<Value>, methods: set<string>)
    ensures var left, pruned := Unlisted(values, methods), PruneItems(values, methods);
      && |pruned| == |left|
      && (|left| == 1 ==> pruned[0].String? == left[0].String?)
      && (|left| == 1 && left[0].String? ==> pruned[0] == left[0])
  {
    PruneItemsAre(values, methods);
  }

  // ---------------------------------------------------------------------------------------
  // Pruning removes every listed variant, exactly if nothing shrinks
  // ---------------------------------------------------------------------------------------

  lemma {:induction false} PruneExact(v: Value, methods: set<string>)
    ensures NoneListed(Prune(v, methods), methods) <==> NoneShrinks(v, methods)
    decreases v
  {
    match v
    case Array(items) => PruneItemsExact(items, methods);
    case Object(entries) => PruneEntriesExact(entries, methods);
    case _ =>
  }

  lemma {:induction false} PruneItemsExact(items: seq<Value>, methods: set<string>)
    ensures NoneListedInItems(PruneItems(items, methods), methods) <==> NoneShrinksInItems(items, methods)
    decreases items
  {
    if items != [] {
      PruneItemsExact(items[1..], methods);
      if Listed(items[0], methods) {
        assert PruneItems(items, methods) == PruneItems(items[1..], methods);
      } else {
        assert PruneItems(items, methods)[1..] == PruneItems(items[1..], methods);
        PruneExact(items[0], methods);
        PrunedListed(items[0], methods);
      }
    }
  }

  lemma {:induction false} PruneEntriesExact(entries: seq<Entry>, methods: set<string>)
    ensures NoneListedInEntries(PruneEntries(entries, methods), methods)
       <==> NoneShrinksInEntries(entries, methods)
    decreases entries
  {
    if entries != [] {
      PruneExact(entries[0].value, methods);
      PruneEntriesExact(entries[1..], methods);
      assert PruneEntries(entries, methods)[1..] == PruneEntries(entries[1..], methods);
    }
  }

  /** Pruning changes exactly the trees that have a listed variant in an array. */
  lemma {:induction false} PruneChanges(v: Value, methods: set<string>)
    ensures Prune(v, methods) == v <==> NoneListed(v, methods)
    decreases v
  {
    match v
    case Array(items) => PruneItemsChanges(items, methods);
    case Object(entries) => PruneEntriesChanges(entries, methods);
    case _ =>
  }

  lemma {:induction false} PruneItemsChanges(items: seq<Value>, methods: set<string>)
    ensures PruneItems(items, methods) == items <==> NoneListedInItems(items, methods)
    decreases items
  {
    if items != [] {
      PruneItemsChanges(items[1..], methods);
      if Listed(items[0], methods) {
        PruneItemsAre(items[1..], methods);
        UnlistedShorter(items[1..], methods);
        assert |PruneItems(items, methods)| < |items|;
      } else {
        var pruned := PruneItems(items, methods);
        assert pruned[1..] == PruneItems(items[1..], methods);
        assert items == [items[0]] + items[1..];
        PruneChanges(items[0], methods);
      }
    }
  }

  lemma {:induction false} PruneEntriesChanges(entries: seq<Entry>, methods: set<string>)
    ensures PruneEntries(entries, methods) == entries <==> NoneListedInEntries(entries, methods)
    decreases entries
  {
    if entries != [] {
      PruneChanges(entries[0].value, methods);
      PruneEntriesChanges(entries[1..], methods);
      assert PruneEntries(entries, methods)[1..] == PruneEntries(entries[1..], methods);
      assert entries == [entries[0]] + entries[1..];
    }
  }

  /** A second run changes nothing exactly if nothing shrinks in the first. */
  lemma PruneIdempotent(v: Value, methods: set<string>)
    ensures Prune(Prune(v, methods), methods) == Prune(v, methods) <==> NoneShrinks(v, methods)
  {
    PruneExact(v, methods);
    PruneChanges(Prune(v, methods), methods);
  }

  // ---------------------------------------------------------------------------------------
  // Enums of scalars never shrink
  // ---------------------------------------------------------------------------------------

  predicate ScalarEnums(v: Value) {
    match v
    case Array(items) => ScalarEnumsInItems(items)
    case Object(entries) => ScalarEnumsInEntries(entries)
    case _ => true
  }

  predicate ScalarEnumsInItems(items: seq<Value>) {
    items != [] ==> ScalarEnums(items[0]) && ScalarEnumsInItems(items[1..])
  }

  predicate ScalarEnumsInEntries(entries: seq<Entry>) {
    entries != [] ==>
      && (entries[0].key == "enum" && entries[0].value.Array? ==>
            forall i | 0 <= i < |entries[0].value.items| :: !entries[0].value.items[i].Object?)
      && ScalarEnums(entries[0].value)
      && ScalarEnumsInEntries(entries[1..])
  }

  lemma {:induction false} ScalarGet(entries: seq<Entry>, key: string)
    requires ScalarEnumsInEntries(entries) && HasKey(entries, key)
    ensures ScalarEnums(Get(entries, key).value)
    ensures key == "enum" && Get(entries, key).value.Array? ==>
      forall i | 0 <= i < |Get(entries, key).value.items| :: !Get(entries, key).value.items[i].Object?
  {
    if entries[0].key != key {
      ScalarGet(entries[1..], key);
    }
  }

  lemma {:induction false} ScalarsUnlisted(items: seq<Value>, methods: set<string>)
    requires forall i | 0 <= i < |items| :: !items[i].Object?
    ensures Unlisted(items, methods) == items
  {
    if items != [] {
      ScalarsUnlisted(items[1..], methods);
    }
  }

  lemma ScalarDoesNotShrink(v: Value, methods: set<string>)
    requires ScalarEnums(v)
    ensures !Shrinks(v, methods)
  {
    if MethodSchema(v).Some? && EnumOf(MethodSchema(v).value).Some? {
      var schema := MethodSchema(v).value;
      ScalarGet(v.entries, "properties");
      ScalarGet(Get(v.entries, "properties").value.entries, "method");
      ScalarGet(schema, "enum");
      ScalarsUnlisted(EnumOf(schema).value, methods);
    }
  }

  /** The shape that the schema generator emits: enums list only scalars, so pruning is exact. */
  lemma {:induction false} ScalarNoneShrinks(v: Value, methods: set<string>)
    requires ScalarEnums(v)
    ensures NoneShrinks(v, methods)
    decreases v
  {
    match v
    case Array(items) => ScalarNoneShrinksInItems(items, methods);
    case Object(entries) => ScalarNoneShrinksInEntries(entries, methods);
    case _ =>
  }

  lemma {:induction false} ScalarNoneShrinksInItems(items: seq<Value>, methods: set<string>)
    requires ScalarEnumsInItems(items)
    ensures NoneShrinksInItems(items, methods)
    decreases items
  {
    if items != [] {
      ScalarDoesNotShrink(items[0], methods);
      ScalarNoneShrinks(items[0], methods);
      ScalarNoneShrinksInItems(items[1..], methods);
    }
  }

  lemma {:induction false} ScalarNoneShrinksInEntries(entries: seq<Entry>, methods: set<string>)
    requires ScalarEnumsInEntries(entries)
    ensures NoneShrinksInEntries(entries, methods)
    decreases entries
  {
    if entries != [] {
      ScalarNoneShrinks(entries[0].value, methods);
      ScalarNoneShrinksInEntries(entries[1..], methods);
    }
  }

  lemma PruneScalarEnums(v: Value, methods: set<string>)
    requires ScalarEnums(v)
    ensures NoneListed(Prune(v, methods), methods)
    ensures Prune(Prune(v, methods), methods) == Prune(v, methods)
  {
    ScalarNoneShrinks(v, methods);
    PruneExact(v, methods);
    PruneIdempotent(v, methods);
  }

  // ---------------------------------------------------------------------------------------
  // An enum that shrinks
  // ---------------------------------------------------------------------------------------

  function Variant(schema: seq<Entry>): Value {
    Object([Entry("properties", Object([Entry("method", Object(schema))]))])
  }

  /** A listed variant inside the `enum` of another: removing it leaves a new listed variant. */
  lemma ShrinkingEnumSurvives()
    ensures var inner := Variant([Entry("const", String("m"))]);
      var outer := Variant([Entry("enum", Array([String("m"), inner]))]);
      && !NoneListed(Prune(Array([outer]), {"m"}), {"m"})
      && Prune(Prune(Array([outer]), {"m"}), {"m"}) != Prune(Array([outer]), {"m"})
  {
    var inner := Variant([Entry("const", String("m"))]);
    var values := [String("m"), inner];
    var schema := [Entry("enum", Array(values))];
    var outer := Variant(schema);
    SchemaOfVariant([Entry("const", String("m"))]);
    SchemaOfVariant(schema);
    assert GetString([Entry("const", String("m"))], "const") == Some("m");
    assert Listed(inner, {"m"});
    assert values[1..] == [inner] && [inner][1..] == [];
    assert Unlisted([inner], {"m"}) == [];
    assert Unlisted(values, {"m"}) == [String("m")];
    assert "const"[0] != "enum"[0];
    GetOne(Entry("enum", Array(values)), "const");
    GetOne(Entry("enum", Array(values)), "enum");
    assert GetString(schema, "const").None? && EnumOf(schema) == Some(values);
    assert Shrinks(outer, {"m"});
    PruneExact(Array([outer]), {"m"});
    PruneIdempotent(Array([outer]), {"m"});
  }

  lemma GetOne(e: Entry, key: string)
    ensures Get([e], key) == if e.key == key then Some(e.value) else None
  {
    assert [e][1..] == [];
  }

  lemma SchemaOfVariant(schema: seq<Entry>)
    ensures MethodSchema(Variant(schema)) == Some(schema)
  {
    assert Get(Variant(schema).entries, "properties") == Some(Object([Entry("method", Object(schema))]));
    assert Get([Entry("method", Object(schema))], "method") == Some(Object(schema));
  }
}
