/** `canonicalize_json`: the normal form in which schema fixtures are compared. */
module Canonical {
  import opened Wrappers
  import opened Strings
  import opened Sorting
  import opened Json
  import opened JsonPrinter

  function SortKey(item: Value): Option<string> {
    match item
    case Null => Some("null")
    case Bool(b) => Some(if b then "b:true" else "b:false")
    case Number(n) => Some("n:" + IntText(n))
    case String(s) => Some("s:" + s)
    case Object(entries) =>
      if GetString(entries, "$ref").Some? then Some("ref:" + GetString(entries, "$ref").value)
      else if GetString(entries, "title").Some? then Some("title:" + GetString(entries, "title").value)
      else None
    case Array(_) => None
  }

  predicate AllKeyed(items: seq<Value>) {
    forall i | 0 <= i < |items| :: SortKey(items[i]).Some?
  }

  /** Sort key first, compact text to break ties. */
  predicate ItemLe(x: Value, y: Value) {
    var k, l := KeyOrEmpty(x), KeyOrEmpty(y);
    if k == l then LexLe(Print(x), Print(y)) else LexLe(k, l)
  }

  function KeyOrEmpty(x: Value): string {
    if SortKey(x).Some? then SortKey(x).value else ""
  }

  predicate EntryLe(e: Entry, f: Entry) {
    LexLe(e.key, f.key)
  }

  function Canonicalize(v: Value): Value {
    match v
    case Array(items) =>
      var canonical := CanonicalItems(items);
      Array(if AllKeyed(canonical) then Sort(ItemLe, canonical) else canonical)
    case Object(entries) => Object(Sort(EntryLe, CanonicalEntries(entries)))
    case _ => v
  }

  function CanonicalItems(items: seq<Value>): seq<Value> {
    if items == [] then [] else [Canonicalize(items[0])] + CanonicalItems(items[1..])
  }

  function CanonicalEntries(entries: seq<Entry>): seq<Entry> {
    if entries == [] then []
    else [Entry(entries[0].key, Canonicalize(entries[0].value))] + CanonicalEntries(entries[1..])
  }

  // ---------------------------------------------------------------------------------------
  // The reference: which values count as the same
  // ---------------------------------------------------------------------------------------

  /**
   * `a` and `b` differ only in the order of object entries and, at any depth, in the order of
   * arrays all of whose items have a sort key.
   */
  ghost predicate Equivalent(a: Value, b: Value)
    decreases a
  {
    match a
    case Array(items) =>
      b.Array? && (SameItems(items, b.items) || (AllKeyed(items) && ReorderedItems(items, b.items)))
    case Object(entries) => b.Object? && ReorderedEntries(entries, b.entries)
    case _ => a == b
  }

  ghost predicate SameItems(xs: seq<Value>, ys: seq<Value>)
    decreases xs
  {
    |xs| == |ys| && forall i | 0 <= i < |xs| :: Equivalent(xs[i], ys[i])
  }

  /** `ys` lists, in some order, one equivalent item for each item of `xs`, and nothing else. */
  ghost predicate ReorderedItems(xs: seq<Value>, ys: seq<Value>)
    decreases xs
  {
    if xs == [] then ys == []
    else exists j | 0 <= j < |ys| ::
      Equivalent(xs[0], ys[j]) && ReorderedItems(xs[1..], ys[..j] + ys[j + 1..])
  }

  ghost predicate ReorderedEntries(es: seq<Entry>, fs: seq<Entry>)
    decreases es
  {
    if es == [] then fs == []
    else exists j | 0 <= j < |fs| ::
      && es[0].key == fs[j].key
      && Equivalent(es[0].value, fs[j].value)
      && ReorderedEntries(es[1..], fs[..j] + fs[j + 1..])
  }

  // ---------------------------------------------------------------------------------------
  // Sort keys
  // ---------------------------------------------------------------------------------------

  /** Every scalar has a key, no array has one, and an object has one if it is a reference or has a title. */
  lemma KeyedExactly(v: Value)
    ensures SortKey(v).Some? <==>
      match v
      case Array(_) => false
      case Object(entries) =>
        (exists r :: Get(entries, "$ref") == Some(String(r))) || (exists t :: Get(entries, "title") == Some(String(t)))
      case _ => true
  {
  }

  lemma {:induction false} SamePrefix(prefix: string, a: string, b: string)
    ensures LexLe(prefix + a, prefix + b) <==> LexLe(a, b)
    ensures prefix + a == prefix + b <==> a == b
  {
    if prefix == "" {
      assert prefix + a == a && prefix + b == b;
    } else {
      assert (prefix + a)[1..] == prefix[1..] + a && (prefix + b)[1..] == prefix[1..] + b;
      SamePrefix(prefix[1..], a, b);
      assert prefix + a == [prefix[0]] + (prefix[1..] + a) && prefix + b == [prefix[0]] + (prefix[1..] + b);
    }
  }

  predicate IsReference(v: Value, name: string) {
    v.Object? && GetString(v.entries, "$ref") == Some(name)
  }

  predicate IsTitled(v: Value, name: string) {
    v.Object? && GetString(v.entries, "$ref").None? && GetString(v.entries, "title") == Some(name)
  }

  /** Strings are put in the order of their characters, references and titles in that of their names. */
  lemma OrderOfNames(x: Value, y: Value, a: string, b: string)
    requires a != b
    requires
      || (x == String(a) && y == String(b))
      || (IsReference(x, a) && IsReference(y, b))
      || (IsTitled(x, a) && IsTitled(y, b))
    ensures ItemLe(x, y) <==> LexLe(a, b)
  {
    SamePrefix("s:", a, b);
    SamePrefix("ref:", a, b);
    SamePrefix("title:", a, b);
  }

  /** Items with the same key are put in the order of their text. */
  lemma TieIsByText(x: Value, y: Value)
    requires SortKey(x) == SortKey(y)
    ensures ItemLe(x, y) <==> LexLe(Print(x), Print(y))
  {
  }

  /** Truth values, numbers, nothing, references, strings, titled objects. */
  function Kind(v: Value): nat {
    match v
    case Bool(_) => 0
    case Number(_) => 1
    case Null => 2
    case Object(entries) => if GetString(entries, "$ref").Some? then 3 else 5
    case String(_) => 4
    case Array(_) => 6
  }

  /** Items of different kinds are put in this order. */
  lemma OrderOfKinds(x: Value, y: Value)
    requires SortKey(x).Some? && SortKey(y).Some? && Kind(x) < Kind(y)
    ensures ItemLe(x, y) && !ItemLe(y, x)
  {
    var k, l := SortKey(x).value, SortKey(y).value;
    assert k[0] <= l[0] && (k[0] == l[0] ==> k[0] == 'n' && k[1] < l[1]);
    if k[0] == l[0] {
      assert DiffersAt(k, l, 1);
      LexLeExactly(k, l);
      LexLeExactly(l, k);
      LexLeTotal(k, l);
    }
  }

  /** The keys of a canonical object ascend. */
  lemma KeysAscend(entries: seq<Entry>, i: nat, j: nat)
    requires i < j < |Canonicalize(Object(entries)).entries|
    ensures LexLe(Canonicalize(Object(entries)).entries[i].key, Canonicalize(Object(entries)).entries[j].key)
  {
    EntryLeOrder();
    SortSorts(EntryLe, CanonicalEntries(entries));
    assert EntryLe(Canonicalize(Object(entries)).entries[i], Canonicalize(Object(entries)).entries[j]);
  }

  // ---------------------------------------------------------------------------------------
  // The orders
  // ---------------------------------------------------------------------------------------

  lemma ItemLeOrder()
    ensures TotalPreorder(ItemLe)
  {
    forall x, y ensures ItemLe(x, y) || ItemLe(y, x) {
      LexLeTotal(KeyOrEmpty(x), KeyOrEmpty(y));
      LexLeTotal(Print(x), Print(y));
    }
    forall x, y, z | ItemLe(x, y) && ItemLe(y, z) ensures ItemLe(x, z) {
      var k, l, m := KeyOrEmpty(x), KeyOrEmpty(y), KeyOrEmpty(z);
      if k == l == m {
        LexLeTransitive(Print(x), Print(y), Print(z));
      } else if k != l && l != m {
        LexLeTransitive(k, l, m);
        LexLeTotal(k, l);
      }
    }
  }

  lemma ItemLeAntisymmetric(xs: seq<Value>)
    ensures AntisymmetricOn(ItemLe, xs)
  {
    forall x, y | ItemLe(x, y) && ItemLe(y, x) ensures x == y {
      LexLeTotal(KeyOrEmpty(x), KeyOrEmpty(y));
      LexLeTotal(Print(x), Print(y));
      PrintInjective(x, y);
    }
  }

  lemma EntryLeOrder()
    ensures TotalPreorder(EntryLe)
  {
    forall e, f ensures EntryLe(e, f) || EntryLe(f, e) {
      LexLeTotal(e.key, f.key);
    }
    forall e, f, g | EntryLe(e, f) && EntryLe(f, g) ensures EntryLe(e, g) {
      LexLeTransitive(e.key, f.key, g.key);
    }
  }

  lemma EntryLeAntisymmetric(es: seq<Entry>)
    requires UniqueKeys(es)
    ensures AntisymmetricOn(EntryLe, es)
  {
    forall e, f | e in es && f in es && EntryLe(e, f) && EntryLe(f, e) ensures e == f {
      LexLeTotal(e.key, f.key);
    }
  }

  // ---------------------------------------------------------------------------------------
  // Shape of the canonical form
  // ---------------------------------------------------------------------------------------

  lemma {:induction false} CanonicalItemsAt(items: seq<Value>)
    ensures |CanonicalItems(items)| == |items|
    ensures forall i | 0 <= i < |items| :: CanonicalItems(items)[i] == Canonicalize(items[i])
  {
    if items != [] {
      CanonicalItemsAt(items[1..]);
    }
  }

  lemma {:induction false} CanonicalEntriesAt(entries: seq<Entry>)
    ensures |CanonicalEntries(entries)| == |entries|
    ensures forall i | 0 <= i < |entries| ::
      CanonicalEntries(entries)[i] == Entry(entries[i].key, Canonicalize(entries[i].value))
    ensures UniqueKeys(entries) ==> UniqueKeys(CanonicalEntries(entries))
  {
    if entries != [] {
      CanonicalEntriesAt(entries[1..]);
    }
  }

  lemma UniqueKeysAnyOrder(es: seq<Entry>, fs: seq<Entry>)
    requires UniqueKeys(es) && multiset(es) == multiset(fs)
    ensures UniqueKeys(fs)
  {
    forall i, j | 0 <= i < j < |fs| ensures fs[i].key != fs[j].key {
      if fs[i].key == fs[j].key {
        assert fs[i] in multiset(es) && fs[j] in multiset(es);
        assert fs[i] == fs[j];
        assert fs == fs[..i] + [fs[i]] + fs[i + 1..j] + [fs[j]] + fs[j + 1..];
        assert multiset(es)[fs[i]] >= 2;
        AtMostOnce(es, fs[i]);
      }
    }
  }

  lemma {:induction false} AtMostOnce(es: seq<Entry>, e: Entry)
    requires UniqueKeys(es)
    ensures multiset(es)[e] <= 1
  {
    if es != [] {
      assert es == [es[0]] + es[1..];
      AtMostOnce(es[1..], e);
      if es[0] == e {
        assert e !in es[1..];
        assert e !in multiset(es[1..]);
      }
    }
  }

  /** Canonical objects hold the same keys, each once, with canonical values. */
  lemma CanonicalObject(entries: seq<Entry>)
    requires UniqueKeys(entries)
    ensures var sorted := Sort(EntryLe, CanonicalEntries(entries));
      && UniqueKeys(sorted)
      && multiset(sorted) == multiset(CanonicalEntries(entries))
      && Sorted(EntryLe, sorted)
  {
    EntryLeOrder();
    CanonicalEntriesAt(entries);
    SortSorts(EntryLe, CanonicalEntries(entries));
    UniqueKeysAnyOrder(CanonicalEntries(entries), Sort(EntryLe, CanonicalEntries(entries)));
  }

  lemma {:induction false} GetCanonical(entries: seq<Entry>, key: string)
    ensures Get(CanonicalEntries(entries), key) ==
      match Get(entries, key) { case Some(v) => Some(Canonicalize(v)) case None => None }
  {
    if entries != [] {
      GetCanonical(entries[1..], key);
      assert CanonicalEntries(entries)[1..] == CanonicalEntries(entries[1..]);
    }
  }

  lemma GetCanonicalObject(entries: seq<Entry>, key: string)
    requires UniqueKeys(entries)
    ensures Get(Sort(EntryLe, CanonicalEntries(entries)), key) ==
      match Get(entries, key) { case Some(v) => Some(Canonicalize(v)) case None => None }
  {
    CanonicalObject(entries);
    CanonicalEntriesAt(entries);
    GetAnyOrder(CanonicalEntries(entries), Sort(EntryLe, CanonicalEntries(entries)), key);
    GetCanonical(entries, key);
  }

  /** Canonicalising an item does not change its sort key. */
  lemma SortKeyOfCanonical(v: Value)
    requires WellFormed(v)
    ensures SortKey(Canonicalize(v)) == SortKey(v)
  {
    if v.Object? {
      GetCanonicalObject(v.entries, "$ref");
      GetCanonicalObject(v.entries, "title");
    }
  }

  lemma AllKeyedCanonical(items: seq<Value>)
    requires forall i | 0 <= i < |items| :: WellFormed(items[i])
    ensures AllKeyed(CanonicalItems(items)) <==> AllKeyed(items)
  {
    CanonicalItemsAt(items);
    forall i | 0 <= i < |items|
      ensures SortKey(CanonicalItems(items)[i]) == SortKey(items[i])
    {
      SortKeyOfCanonical(items[i]);
    }
  }

  lemma AllKeyedAnyOrder(xs: seq<Value>, ys: seq<Value>)
    requires multiset(xs) == multiset(ys) && AllKeyed(xs)
    ensures AllKeyed(ys)
  {
    forall i | 0 <= i < |ys| ensures SortKey(ys[i]).Some? {
      assert ys[i] in multiset(xs);
    }
  }

  lemma MultisetRemove<T>(ys: seq<T>, j: nat)
    requires j < |ys|
    ensures multiset(ys) == multiset(ys[..j] + ys[j + 1..]) + multiset{ys[j]}
  {
    assert ys == ys[..j] + [ys[j]] + ys[j + 1..];
  }

  lemma ConsMultiset<T>(x: T, xs: seq<T>)
    ensures multiset([x] + xs) == multiset(xs) + multiset{x}
  {
  }

  lemma MultisetCancel<T>(xs: seq<T>, ys: seq<T>, x: T)
    requires multiset([x] + xs) == multiset(ys) + multiset{x}
    ensures multiset(xs) == multiset(ys)
  {
    assert multiset(xs) == multiset([x] + xs) - multiset{x};
  }

  lemma {:induction false} CanonicalItemsSplit(xs: seq<Value>, ys: seq<Value>)
    ensures CanonicalItems(xs + ys) == CanonicalItems(xs) + CanonicalItems(ys)
  {
    if xs == [] {
      assert xs + ys == ys;
    } else {
      assert (xs + ys)[1..] == xs[1..] + ys;
      CanonicalItemsSplit(xs[1..], ys);
    }
  }

  lemma {:induction false} CanonicalEntriesSplit(xs: seq<Entry>, ys: seq<Entry>)
    ensures CanonicalEntries(xs + ys) == CanonicalEntries(xs) + CanonicalEntries(ys)
  {
    if xs == [] {
      assert xs + ys == ys;
    } else {
      assert (xs + ys)[1..] == xs[1..] + ys;
      CanonicalEntriesSplit(xs[1..], ys);
    }
  }

  lemma RemoveItem(ys: seq<Value>, j: nat)
    requires j < |ys|
    ensures |CanonicalItems(ys)| == |ys| && CanonicalItems(ys)[j] == Canonicalize(ys[j])
    ensures multiset(CanonicalItems(ys))
         == multiset(CanonicalItems(ys[..j] + ys[j + 1..])) + multiset{Canonicalize(ys[j])}
  {
    var all, less := CanonicalItems(ys), CanonicalItems(ys[..j] + ys[j + 1..]);
    CanonicalItemsAt(ys);
    CanonicalItemsAt(ys[..j] + ys[j + 1..]);
    assert less == all[..j] + all[j + 1..];
    MultisetRemove(all, j);
  }

  lemma RemoveEntry(fs: seq<Entry>, j: nat)
    requires j < |fs|
    ensures |CanonicalEntries(fs)| == |fs|
    ensures CanonicalEntries(fs)[j] == Entry(fs[j].key, Canonicalize(fs[j].value))
    ensures multiset(CanonicalEntries(fs))
         == multiset(CanonicalEntries(fs[..j] + fs[j + 1..])) + multiset{CanonicalEntries(fs)[j]}
  {
    CanonicalEntriesAt(fs);
    CanonicalEntriesWithout(fs, j);
    MultisetRemove(CanonicalEntries(fs), j);
  }

  lemma CanonicalEntriesWithout(fs: seq<Entry>, j: nat)
    requires j < |fs| == |CanonicalEntries(fs)|
    ensures CanonicalEntries(fs[..j] + fs[j + 1..])
         == CanonicalEntries(fs)[..j] + CanonicalEntries(fs)[j + 1..]
  {
    CanonicalEntriesAt(fs);
    CanonicalEntriesAt(fs[..j] + fs[j + 1..]);
  }

  // ---------------------------------------------------------------------------------------
  // Equivalent values have one canonical form
  // ---------------------------------------------------------------------------------------

  lemma {:induction false} EquivalentCanonical(a: Value, b: Value)
    requires WellFormed(a) && WellFormed(b) && Equivalent(a, b)
    ensures Canonicalize(a) == Canonicalize(b)
    decreases a
  {
    match a
    case Array(items) =>
      if SameItems(items, b.items) {
        CanonicalItemsAt(items);
        CanonicalItemsAt(b.items);
        forall i | 0 <= i < |items| ensures CanonicalItems(items)[i] == CanonicalItems(b.items)[i] {
          EquivalentCanonical(items[i], b.items[i]);
        }
        assert CanonicalItems(items) == CanonicalItems(b.items);
      } else {
        ReorderedItemsCanonical(items, b.items);
        AllKeyedCanonical(items);
        SameSorted(CanonicalItems(items), CanonicalItems(b.items));
      }
    case Object(entries) =>
      ReorderedEntriesCanonical(entries, b.entries);
      SameSortedEntries(entries, b.entries);
    case _ =>
  }

  lemma SameSorted(xs: seq<Value>, ys: seq<Value>)
    requires multiset(xs) == multiset(ys) && AllKeyed(xs)
    ensures AllKeyed(ys) && Sort(ItemLe, xs) == Sort(ItemLe, ys)
  {
    AllKeyedAnyOrder(xs, ys);
    ItemLeOrder();
    SortSorts(ItemLe, xs);
    SortSorts(ItemLe, ys);
    ItemLeAntisymmetric(Sort(ItemLe, xs));
    SortedUnique(ItemLe, Sort(ItemLe, xs), Sort(ItemLe, ys));
  }

  lemma SameSortedEntries(es: seq<Entry>, fs: seq<Entry>)
    requires UniqueKeys(es) && UniqueKeys(fs)
    requires multiset(CanonicalEntries(es)) == multiset(CanonicalEntries(fs))
    ensures Sort(EntryLe, CanonicalEntries(es)) == Sort(EntryLe, CanonicalEntries(fs))
  {
    CanonicalObject(es);
    CanonicalObject(fs);
    EntryLeOrder();
    EntryLeAntisymmetric(Sort(EntryLe, CanonicalEntries(es)));
    SortedUnique(EntryLe, Sort(EntryLe, CanonicalEntries(es)), Sort(EntryLe, CanonicalEntries(fs)));
  }

  lemma {:induction false} ReorderedItemsCanonical(xs: seq<Value>, ys: seq<Value>)
    requires forall i | 0 <= i < |xs| :: WellFormed(xs[i])
    requires forall i | 0 <= i < |ys| :: WellFormed(ys[i])
    requires ReorderedItems(xs, ys)
    ensures multiset(CanonicalItems(xs)) == multiset(CanonicalItems(ys))
    decreases xs
  {
    if xs != [] {
      var j :| 0 <= j < |ys| && Equivalent(xs[0], ys[j]) && ReorderedItems(xs[1..], ys[..j] + ys[j + 1..]);
      EquivalentCanonical(xs[0], ys[j]);
      ReorderedItemsCanonical(xs[1..], ys[..j] + ys[j + 1..]);
      RemoveItem(ys, j);
      ConsMultiset(Canonicalize(xs[0]), CanonicalItems(xs[1..]));
    }
  }

  lemma {:induction false} ReorderedEntriesCanonical(es: seq<Entry>, fs: seq<Entry>)
    requires forall i | 0 <= i < |es| :: WellFormed(es[i].value)
    requires forall i | 0 <= i < |fs| :: WellFormed(fs[i].value)
    requires ReorderedEntries(es, fs)
    ensures multiset(CanonicalEntries(es)) == multiset(CanonicalEntries(fs))
    decreases es
  {
    if es != [] {
      var j :| 0 <= j < |fs| && es[0].key == fs[j].key && Equivalent(es[0].value, fs[j].value)
        && ReorderedEntries(es[1..], fs[..j] + fs[j + 1..]);
      EquivalentCanonical(es[0].value, fs[j].value);
      ReorderedEntriesCanonical(es[1..], fs[..j] + fs[j + 1..]);
      RemoveEntry(fs, j);
      ConsMultiset(Entry(es[0].key, Canonicalize(es[0].value)), CanonicalEntries(es[1..]));
    }
  }

  // ---------------------------------------------------------------------------------------
  // One canonical form only for equivalent values
  // ---------------------------------------------------------------------------------------

  lemma {:induction false} CanonicalEquivalent(a: Value, b: Value)
    requires WellFormed(a) && WellFormed(b) && Canonicalize(a) == Canonicalize(b)
    ensures Equivalent(a, b)
    decreases a
  {
    match a
    case Array(items) =>
      var xs, ys := CanonicalItems(items), CanonicalItems(b.items);
      SortSorts(ItemLe, xs);
      SortSorts(ItemLe, ys);
      if AllKeyed(xs) {
        var form := Sort(ItemLe, xs);
        AllKeyedAnyOrder(xs, form);
        assert multiset(form) == multiset(ys);
        AllKeyedCanonical(items);
        CanonicalItemsReordered(items, b.items);
      } else {
        if AllKeyed(ys) {
          AllKeyedAnyOrder(ys, Sort(ItemLe, ys));
        }
        assert xs == ys;
        CanonicalItemsAt(items);
        CanonicalItemsAt(b.items);
        forall i | 0 <= i < |items| ensures Equivalent(items[i], b.items[i]) {
          assert xs[i] == ys[i];
          CanonicalEquivalent(items[i], b.items[i]);
        }
      }
    case Object(entries) =>
      SortSorts(EntryLe, CanonicalEntries(entries));
      SortSorts(EntryLe, CanonicalEntries(b.entries));
      CanonicalEntriesReordered(entries, b.entries);
    case _ =>
  }

  lemma {:induction false} CanonicalItemsReordered(xs: seq<Value>, ys: seq<Value>)
    requires forall i | 0 <= i < |xs| :: WellFormed(xs[i])
    requires forall i | 0 <= i < |ys| :: WellFormed(ys[i])
    requires multiset(CanonicalItems(xs)) == multiset(CanonicalItems(ys))
    ensures ReorderedItems(xs, ys)
    decreases xs
  {
    if xs == [] {
      CanonicalItemsAt(ys);
      assert |multiset(CanonicalItems(ys))| == |ys|;
    } else {
      var j := FindItem(xs[0], ys, CanonicalItems(xs[1..]));
      CanonicalEquivalent(xs[0], ys[j]);
      CanonicalItemsReordered(xs[1..], ys[..j] + ys[j + 1..]);
    }
  }

  /** An item of `ys` with the canonical form of `x`, when the two lists agree up to order. */
  lemma FindItem(x: Value, ys: seq<Value>, rest: seq<Value>) returns (j: nat)
    requires multiset([Canonicalize(x)] + rest) == multiset(CanonicalItems(ys))
    ensures j < |ys| && Canonicalize(x) == Canonicalize(ys[j])
    ensures multiset(rest) == multiset(CanonicalItems(ys[..j] + ys[j + 1..]))
  {
    CanonicalItemsAt(ys);
    assert Canonicalize(x) in multiset([Canonicalize(x)] + rest);
    j :| 0 <= j < |ys| && CanonicalItems(ys)[j] == Canonicalize(x);
    RemoveItem(ys, j);
    MultisetCancel(rest, CanonicalItems(ys[..j] + ys[j + 1..]), Canonicalize(x));
  }

  lemma {:induction false} CanonicalEntriesReordered(es: seq<Entry>, fs: seq<Entry>)
    requires forall i | 0 <= i < |es| :: WellFormed(es[i].value)
    requires forall i | 0 <= i < |fs| :: WellFormed(fs[i].value)
    requires multiset(CanonicalEntries(es)) == multiset(CanonicalEntries(fs))
    ensures ReorderedEntries(es, fs)
    decreases es
  {
    if es == [] {
      CanonicalEntriesAt(fs);
      assert |multiset(CanonicalEntries(fs))| == |fs|;
    } else {
      var j := FindEntry(es[0], fs, CanonicalEntries(es[1..]));
      CanonicalEquivalent(es[0].value, fs[j].value);
      CanonicalEntriesReordered(es[1..], fs[..j] + fs[j + 1..]);
    }
  }

  lemma FindEntry(e: Entry, fs: seq<Entry>, rest: seq<Entry>) returns (j: nat)
    requires multiset([Entry(e.key, Canonicalize(e.value))] + rest) == multiset(CanonicalEntries(fs))
    ensures j < |fs| && e.key == fs[j].key && Canonicalize(e.value) == Canonicalize(fs[j].value)
    ensures multiset(rest) == multiset(CanonicalEntries(fs[..j] + fs[j + 1..]))
  {
    var c := Entry(e.key, Canonicalize(e.value));
    CanonicalEntriesAt(fs);
    assert c in multiset([c] + rest);
    j :| 0 <= j < |fs| && CanonicalEntries(fs)[j] == c;
    RemoveEntry(fs, j);
    MultisetCancel(rest, CanonicalEntries(fs[..j] + fs[j + 1..]), c);
  }

  /** The fixture comparison is exactly equality up to the permitted reorderings. */
  lemma CanonicalDecidesEquivalence(a: Value, b: Value)
    requires WellFormed(a) && WellFormed(b)
    ensures Canonicalize(a) == Canonicalize(b) <==> Equivalent(a, b)
  {
    if Equivalent(a, b) {
      EquivalentCanonical(a, b);
    }
    if Canonicalize(a) == Canonicalize(b) {
      CanonicalEquivalent(a, b);
    }
  }

  // ---------------------------------------------------------------------------------------
  // Idempotence
  // ---------------------------------------------------------------------------------------

  /** Canonicalising twice is canonicalising once. */
  lemma {:induction false} CanonicalIdempotent(v: Value)
    requires WellFormed(v)
    ensures WellFormed(Canonicalize(v))
    ensures Canonicalize(Canonicalize(v)) == Canonicalize(v)
    decreases v
  {
    match v
    case Array(items) =>
      forall i | 0 <= i < |items| ensures IsCanonical(Canonicalize(items[i])) {
        CanonicalIdempotent(items[i]);
      }
      CanonicalArrayIdempotent(items);
    case Object(entries) =>
      forall i | 0 <= i < |entries| ensures IsCanonical(Canonicalize(entries[i].value)) {
        CanonicalIdempotent(entries[i].value);
      }
      CanonicalObjectIdempotent(entries);
    case _ =>
  }

  predicate IsCanonical(v: Value) {
    WellFormed(v) && Canonicalize(v) == v
  }

  /** Every value differs from its canonical form by permitted reorderings only. */
  lemma CanonicalIsReordering(v: Value)
    requires WellFormed(v)
    ensures Equivalent(v, Canonicalize(v))
  {
    CanonicalIdempotent(v);
    CanonicalDecidesEquivalence(v, Canonicalize(v));
  }

  lemma CanonicalArrayIdempotent(items: seq<Value>)
    requires forall i | 0 <= i < |items| :: IsCanonical(Canonicalize(items[i]))
    ensures IsCanonical(Canonicalize(Array(items)))
  {
    var xs := CanonicalItems(items);
    var form := Canonicalize(Array(items)).items;
    SortSorts(ItemLe, xs);
    forall i | 0 <= i < |form| ensures IsCanonical(form[i]) {
      assert form[i] in multiset(form);
      CanonicalItemFixed(items, form[i]);
    }
    CanonicalItemsFixed(form);
    SortedFormFixed(xs, form);
  }

  /** The items of a form are sorted already, or have no keys to be sorted by. */
  lemma SortedFormFixed(xs: seq<Value>, form: seq<Value>)
    requires CanonicalItems(form) == form && forall i | 0 <= i < |form| :: WellFormed(form[i])
    requires form == if AllKeyed(xs) then Sort(ItemLe, xs) else xs
    ensures IsCanonical(Array(form))
  {
    if AllKeyed(xs) {
      ItemLeOrder();
      SortSorts(ItemLe, xs);
      AllKeyedAnyOrder(xs, form);
      SortOfSorted(ItemLe, form);
    }
  }

  lemma CanonicalItemFixed(items: seq<Value>, item: Value)
    requires forall i | 0 <= i < |items| :: IsCanonical(Canonicalize(items[i]))
    requires item in multiset(CanonicalItems(items))
    ensures IsCanonical(item)
  {
    CanonicalItemsAt(items);
    var j :| 0 <= j < |items| && CanonicalItems(items)[j] == item;
    assert item == Canonicalize(items[j]);
  }

  lemma CanonicalItemsFixed(form: seq<Value>)
    requires forall i | 0 <= i < |form| :: IsCanonical(form[i])
    ensures CanonicalItems(form) == form
  {
    CanonicalItemsAt(form);
  }

  lemma CanonicalObjectIdempotent(entries: seq<Entry>)
    requires UniqueKeys(entries)
    requires forall i | 0 <= i < |entries| :: IsCanonical(Canonicalize(entries[i].value))
    ensures IsCanonical(Canonicalize(Object(entries)))
  {
    var form := Sort(EntryLe, CanonicalEntries(entries));
    CanonicalObject(entries);
    forall i | 0 <= i < |form| ensures IsCanonical(form[i].value) {
      CanonicalEntryFixed(entries, form[i]);
    }
    CanonicalEntriesFixed(form);
    EntryLeOrder();
    SortOfSorted(EntryLe, form);
    assert Canonicalize(Object(entries)) == Object(form);
    assert Canonicalize(Object(form)) == Object(Sort(EntryLe, form));
  }

  lemma CanonicalEntryFixed(entries: seq<Entry>, e: Entry)
    requires forall i | 0 <= i < |entries| :: IsCanonical(Canonicalize(entries[i].value))
    requires e in multiset(CanonicalEntries(entries))
    ensures IsCanonical(e.value)
  {
    CanonicalEntriesAt(entries);
    var j :| 0 <= j < |entries| && CanonicalEntries(entries)[j] == e;
    assert e.value == Canonicalize(entries[j].value);
  }

  lemma CanonicalEntriesFixed(form: seq<Entry>)
    requires forall i | 0 <= i < |form| :: IsCanonical(form[i].value)
    ensures CanonicalEntries(form) == form
  {
    CanonicalEntriesAt(form);
  }

  // ---------------------------------------------------------------------------------------
  // The algorithm
  // ---------------------------------------------------------------------------------------

  lemma {:induction false} InsertThenCanonical(e: Entry, es: seq<Entry>)
    ensures CanonicalEntries(Insert(EntryLe, e, es))
         == Insert(EntryLe, Entry(e.key, Canonicalize(e.value)), CanonicalEntries(es))
  {
    if es != [] && !EntryLe(e, es[0]) {
      InsertThenCanonical(e, es[1..]);
      assert CanonicalEntries(es)[1..] == CanonicalEntries(es[1..]);
      assert Insert(EntryLe, e, es)[1..] == Insert(EntryLe, e, es[1..]);
    } else {
      assert ([e] + es)[1..] == es;
    }
  }

  /** Entries may be sorted before or after their values are canonicalised. */
  lemma {:induction false} SortThenCanonical(es: seq<Entry>)
    ensures CanonicalEntries(Sort(EntryLe, es)) == Sort(EntryLe, CanonicalEntries(es))
  {
    if es != [] {
      SortThenCanonical(es[1..]);
      InsertThenCanonical(es[0], Sort(EntryLe, es[1..]));
      assert CanonicalEntries(es)[1..] == CanonicalEntries(es[1..]);
    }
  }

  method CanonicalizeJson(value: Value) returns (r: Value)
    ensures r == Canonicalize(value)
    decreases value, 1
  {
    match value {
      case Array(items) => r := CanonicalizeArray(items);
      case Object(entries) => r := CanonicalizeObject(entries);
      case _ => r := value;
    }
  }

  method CanonicalizeArray(items: seq<Value>) returns (r: Value)
    ensures r == Canonicalize(Array(items))
    decreases items, 0
  {
    var canonical := [];
    for i := 0 to |items|
      invariant canonical == CanonicalItems(items[..i])
    {
      var item := CanonicalizeJson(items[i]);
      canonical := canonical + [item];
      CanonicalItemsSplit(items[..i], [items[i]]);
      assert items[..i + 1] == items[..i] + [items[i]];
    }
    assert items[..|items|] == items;
    for i := 0 to |canonical|
      invariant forall k | 0 <= k < i :: SortKey(canonical[k]).Some?
    {
      if SortKey(canonical[i]).None? {
        return Array(canonical);
      }
    }
    r := Array(Sort(ItemLe, canonical));
  }

  method CanonicalizeObject(entries: seq<Entry>) returns (r: Value)
    ensures r == Canonicalize(Object(entries))
    decreases entries, 0
  {
    var ordered := Sort(EntryLe, entries);
    var sorted: seq<Entry> := [];
    for i := 0 to |ordered|
      invariant sorted == CanonicalEntries(ordered[..i])
    {
      SortedMember(entries, i);
      var child := CanonicalizeJson(ordered[i].value);
      sorted := sorted + [Entry(ordered[i].key, child)];
      CanonicalEntriesSplit(ordered[..i], [ordered[i]]);
      assert ordered[..i + 1] == ordered[..i] + [ordered[i]];
    }
    assert ordered[..|ordered|] == ordered;
    SortThenCanonical(entries);
    r := Object(sorted);
  }

  lemma SortedMember(entries: seq<Entry>, i: nat)
    requires i < |Sort(EntryLe, entries)|
    ensures exists j | 0 <= j < |entries| :: entries[j] == Sort(EntryLe, entries)[i]
  {
    SortSorts(EntryLe, entries);
    assert Sort(EntryLe, entries)[i] in multiset(entries);
  }
}
