/** The `$ref` strings in a schema (section 8.3 of JSON Schema draft-07 core) and what they name. */
module References {
  import opened Wrappers
  import opened Strings
  import opened Json

  const DEFINITIONS := "definitions"
  const DEFS := "$defs"
  const LOCAL_PREFIX := "#/definitions/"
  const V2_PREFIX := "#/definitions/v2/"

  function RefHere(entries: seq<Entry>): set<string> {
    match GetString(entries, "$ref")
    case Some(r) => {r}
    case None => {}
  }

  /** Every `$ref` string in the tree. */
  function RefsIn(v: Value): set<string> {
    match v
    case Object(entries) => RefHere(entries) + RefsInEntries(entries)
    case Array(items) => RefsInItems(items)
    case _ => {}
  }

  function RefsInEntries(entries: seq<Entry>): set<string> {
    if entries == [] then {} else RefsIn(entries[0].value) + RefsInEntries(entries[1..])
  }

  function RefsInItems(items: seq<Value>): set<string> {
    if items == [] then {} else RefsIn(items[0]) + RefsInItems(items[1..])
  }

  /** The `$ref` strings outside every `definitions` and `$defs` map. */
  function RefsOutside(v: Value): set<string> {
    match v
    case Object(entries) => RefHere(entries) + RefsOutsideEntries(entries)
    case Array(items) => RefsOutsideItems(items)
    case _ => {}
  }

  function RefsOutsideEntries(entries: seq<Entry>): set<string> {
    if entries == [] then {}
    else
      (if entries[0].key == DEFINITIONS || entries[0].key == DEFS then {} else RefsOutside(entries[0].value))
      + RefsOutsideEntries(entries[1..])
  }

  function RefsOutsideItems(items: seq<Value>): set<string> {
    if items == [] then {} else RefsOutside(items[0]) + RefsOutsideItems(items[1..])
  }

  /** What is under `definitions` or `$defs` is skipped, whatever it is, and what is under another key is not. */
  lemma MapsSkipped(key: string, value: Value)
    ensures RefsOutsideEntries([Entry(key, value)])
         == if key in {"definitions", "$defs"} then {} else RefsOutside(value)
  {
    assert [Entry(key, value)][1..] == [];
  }

  /** The definition a local reference leads to: the first segment behind `#/definitions/`. */
  function LocalNames(refs: set<string>): set<string> {
    set r | r in refs && StartsWith(r, LOCAL_PREFIX) :: FirstSegment(r[|LOCAL_PREFIX|..])
  }

  /** What local references outside the `v2` namespace name, the whole rest of the path. */
  function NonV2Names(refs: set<string>): set<string> {
    set r | r in refs && StartsWith(r, LOCAL_PREFIX) && !StartsWith(r, V2_PREFIX) :: r[|LOCAL_PREFIX|..]
  }

  /** What a local reference names: its first segment, or outside `v2` all of its path. */
  lemma NamesAre(name: string, rest: string)
    requires Free(name, '/')
    ensures LocalNames({"#/definitions/" + (name + ("/" + rest))}) == {name}
    ensures NonV2Names({"#/definitions/" + (name + ("/" + rest))})
         == if name == "v2" then {} else {name + ("/" + rest)}
  {
    var path := name + ("/" + rest);
    var r := LOCAL_PREFIX + path;
    assert r[|LOCAL_PREFIX|..] == path;
    FirstSegmentOf(name, "/" + rest);
    assert LocalNames({r}) == {name};
    V2PathExactly(name, rest);
    assert V2_PREFIX == LOCAL_PREFIX + "v2/";
    assert StartsWith(r, V2_PREFIX) <==> StartsWith(path, "v2/") by {
      assert r[..|LOCAL_PREFIX|] == LOCAL_PREFIX;
      if StartsWith(path, "v2/") {
        assert path == "v2/" + path[3..];
      }
      if StartsWith(r, V2_PREFIX) {
        assert r[|LOCAL_PREFIX|..][..3] == V2_PREFIX[|LOCAL_PREFIX|..];
      }
    }
  }

  lemma V2PathExactly(name: string, rest: string)
    requires Free(name, '/')
    ensures StartsWith(name + ("/" + rest), "v2/") <==> name == "v2"
  {
    var path := name + ("/" + rest);
    if StartsWith(path, "v2/") {
      assert path[0] == 'v' && path[1] == '2' && path[2] == '/';
      assert |name| <= 2;
      assert path[|name|] == '/';
    }
  }

  /** A lookup's refs are among the refs of the entries. */
  lemma {:induction false} RefsOfGet(entries: seq<Entry>, key: string)
    requires HasKey(entries, key)
    ensures RefsIn(Get(entries, key).value) <= RefsInEntries(entries)
  {
    if entries[0].key != key {
      RefsOfGet(entries[1..], key);
    }
  }

  /** No object in the tree has a `definitions` or `$defs` key. */
  predicate NoMaps(v: Value) {
    match v
    case Object(entries) => NoMapsInEntries(entries)
    case Array(items) => NoMapsInItems(items)
    case _ => true
  }

  predicate NoMapsInEntries(entries: seq<Entry>) {
    entries != [] ==>
      && entries[0].key != DEFINITIONS && entries[0].key != DEFS
      && NoMaps(entries[0].value) && NoMapsInEntries(entries[1..])
  }

  predicate NoMapsInItems(items: seq<Value>) {
    items != [] ==> NoMaps(items[0]) && NoMapsInItems(items[1..])
  }

  /** Without such maps nothing is skipped. */
  lemma {:induction false} NothingSkipped(v: Value)
    requires NoMaps(v)
    ensures RefsOutside(v) == RefsIn(v)
    decreases v
  {
    match v
    case Object(entries) => NothingSkippedInEntries(entries);
    case Array(items) => NothingSkippedInItems(items);
    case _ =>
  }

  lemma {:induction false} NothingSkippedInEntries(entries: seq<Entry>)
    requires NoMapsInEntries(entries)
    ensures RefsOutsideEntries(entries) == RefsInEntries(entries)
    decreases entries
  {
    if entries != [] {
      NothingSkipped(entries[0].value);
      NothingSkippedInEntries(entries[1..]);
    }
  }

  lemma {:induction false} NothingSkippedInItems(items: seq<Value>)
    requires NoMapsInItems(items)
    ensures RefsOutsideItems(items) == RefsInItems(items)
    decreases items
  {
    if items != [] {
      NothingSkipped(items[0]);
      NothingSkippedInItems(items[1..]);
    }
  }
}
