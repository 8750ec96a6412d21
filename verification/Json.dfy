/** JSON values as `serde_json` holds them: an object is a list of entries with distinct keys. */
module Json {
  import opened Wrappers

  datatype Value =
    | Null
    | Bool(b: bool)
    | Number(n: int)
    | String(s: string)
    | Array(items: seq<Value>)
    | Object(entries: seq<Entry>)

  datatype Entry = Entry(key: string, value: Value)

  predicate UniqueKeys(entries: seq<Entry>) {
    forall i, j | 0 <= i < j < |entries| :: entries[i].key != entries[j].key
  }

  /** Every object in the tree has distinct keys. */
  predicate WellFormed(v: Value) {
    match v
    case Array(items) => forall i | 0 <= i < |items| :: WellFormed(items[i])
    case Object(entries) =>
      UniqueKeys(entries) && forall i | 0 <= i < |entries| :: WellFormed(entries[i].value)
    case _ => true
  }

  function Get(entries: seq<Entry>, key: string): Option<Value> {
    if entries == [] then None
    else if entries[0].key == key then Some(entries[0].value)
    else Get(entries[1..], key)
  }

  predicate HasKey(entries: seq<Entry>, key: string) {
    Get(entries, key).Some?
  }

  function Keys(entries: seq<Entry>): set<string> {
    set i | 0 <= i < |entries| :: entries[i].key
  }

  /** The string under `key`, when there is one and it is a string. */
  function GetString(entries: seq<Entry>, key: string): Option<string> {
    match Get(entries, key)
    case Some(String(s)) => Some(s)
    case _ => None
  }

  /** A lookup finds an entry of the list, and finds nothing only when no entry has the key. */
  lemma {:induction false} GetFinds(entries: seq<Entry>, key: string)
    ensures HasKey(entries, key) <==> key in Keys(entries)
    ensures HasKey(entries, key) ==>
      exists i | 0 <= i < |entries| :: entries[i] == Entry(key, Get(entries, key).value)
  {
    if entries != [] {
      GetFinds(entries[1..], key);
      if entries[0].key == key {
        assert entries[0] == Entry(key, Get(entries, key).value);
      } else if HasKey(entries[1..], key) {
        var i :| 0 <= i < |entries[1..]| && entries[1..][i] == Entry(key, Get(entries[1..], key).value);
        assert entries[i + 1] == Entry(key, Get(entries, key).value);
      } else {
        forall i | 0 <= i < |entries| ensures entries[i].key != key {
          if i > 0 {
            assert entries[1..][i - 1].key in Keys(entries[1..]);
          }
        }
      }
    }
  }

  /** With distinct keys a lookup finds exactly the entry that is there. */
  lemma {:induction false} GetAt(entries: seq<Entry>, i: nat)
    requires UniqueKeys(entries) && i < |entries|
    ensures Get(entries, entries[i].key) == Some(entries[i].value)
  {
    if i > 0 {
      GetAt(entries[1..], i - 1);
    }
  }

  lemma GetInRearranged(es: seq<Entry>, fs: seq<Entry>, key: string)
    requires UniqueKeys(fs) && multiset(es) == multiset(fs) && HasKey(es, key)
    ensures Get(fs, key) == Get(es, key)
  {
    GetFinds(es, key);
    var i :| 0 <= i < |es| && es[i] == Entry(key, Get(es, key).value);
    assert es[i] in multiset(fs);
    var j :| 0 <= j < |fs| && fs[j] == es[i];
    GetAt(fs, j);
  }

  /** A lookup does not depend on the order of the entries. */
  lemma GetAnyOrder(es: seq<Entry>, fs: seq<Entry>, key: string)
    requires UniqueKeys(es) && UniqueKeys(fs) && multiset(es) == multiset(fs)
    ensures Get(es, key) == Get(fs, key)
  {
    if HasKey(es, key) {
      GetInRearranged(es, fs, key);
    } else if HasKey(fs, key) {
      GetInRearranged(fs, es, key);
    }
  }

  /** The entries with the value under an existing key replaced in place. */
  function Replace(entries: seq<Entry>, key: string, value: Value): seq<Entry> {
    if entries == [] then []
    else if entries[0].key == key then [Entry(key, value)] + entries[1..]
    else [entries[0]] + Replace(entries[1..], key, value)
  }

  lemma {:induction false} GetReplaced(entries: seq<Entry>, key: string, value: Value, other: string)
    ensures Get(Replace(entries, key, value), other)
         == if other == key && HasKey(entries, key) then Some(value) else Get(entries, other)
  {
    if entries != [] && entries[0].key != key {
      GetReplaced(entries[1..], key, value, other);
      assert Replace(entries, key, value)[1..] == Replace(entries[1..], key, value);
    }
  }

  /** The entries whose key is in `names`, in order. */
  function Retain(entries: seq<Entry>, names: set<string>): seq<Entry> {
    if entries == [] then []
    else (if entries[0].key in names then [entries[0]] else []) + Retain(entries[1..], names)
  }

  lemma {:induction false} GetRetained(entries: seq<Entry>, names: set<string>, key: string)
    ensures Get(Retain(entries, names), key) == if key in names then Get(entries, key) else None
  {
    if entries != [] {
      GetRetained(entries[1..], names, key);
      if entries[0].key in names {
        assert Retain(entries, names)[1..] == Retain(entries[1..], names);
      } else {
        assert Retain(entries, names) == Retain(entries[1..], names);
      }
    }
  }
}
