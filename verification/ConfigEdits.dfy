/**
 * Writing config values by key path: sets, upserts and clears applied to a TOML tree, and the log
 * of edits that is derived from reads before and after, and is what gets persisted.
 */
module ConfigEdits {
  import JsonPrinter
  import opened Strings
  import opened Wrappers

  datatype Toml = Table(entries: map<string, Toml>) | Array(items: seq<Toml>) | Leaf(repr: string)

  datatype MergeStrategy = Replace | Upsert

  datatype WriteError = EmptyKeyPath | InvalidValue | NonTableParent | PathNotFound

  datatype ConfigEdit = SetPath(segments: seq<string>, value: Toml) | ClearPath(segments: seq<string>)

  // ---------------------------------------------------------------------------------------
  // Reading
  // ---------------------------------------------------------------------------------------

  const I64_MAX: nat := 0x7fff_ffff_ffff_ffff

  predicate IsDigits(s: string) {
    s != "" && forall i | 0 <= i < |s| :: '0' <= s[i] <= '9'
  }

  function Decimal(s: string): nat
    requires forall i | 0 <= i < |s| :: '0' <= s[i] <= '9'
  {
    if s == "" then 0 else Decimal(s[..|s| - 1]) * 10 + (s[|s| - 1] - '0') as nat
  }

  /** `parse::<i64>` and then `usize::try_from`: an optional sign, digits, in range, not negative. */
  function ParseIndex(s: string): Option<nat> {
    var negative := s != "" && s[0] == '-';
    var digits := if s != "" && (s[0] == '-' || s[0] == '+') then s[1..] else s;
    if !IsDigits(digits) then None
    else if Decimal(digits) == 0 then Some(0)
    else if negative || Decimal(digits) > I64_MAX then None
    else Some(Decimal(digits))
  }

  lemma {:induction false} DecimalOfDigits(n: nat)
    ensures IsDigits(JsonPrinter.Digits(n)) && Decimal(JsonPrinter.Digits(n)) == n
  {
    var digits := JsonPrinter.Digits(n);
    JsonPrinter.DigitsAreDigits(n);
    if n >= 10 {
      DecimalOfDigits(n / 10);
      assert digits[..|digits| - 1] == JsonPrinter.Digits(n / 10);
    } else {
      assert digits[..0] == "";
    }
  }

  lemma ParseUnsigned(digits: string)
    requires IsDigits(digits)
    ensures ParseIndex(digits) == (if Decimal(digits) <= I64_MAX then Some(Decimal(digits)) else None)
  {
    assert digits[0] != '-' && digits[0] != '+';
  }

  lemma ParseSigned(sign: string, digits: string)
    requires IsDigits(digits) && sign in {"+", "-"}
    ensures ParseIndex(sign + digits) ==
      if sign == "+" then ParseIndex(digits) else if Decimal(digits) == 0 then Some(0) else None
  {
    assert (sign + digits)[1..] == digits && (sign + digits)[0] == sign[0];
    ParseUnsigned(digits);
  }

  /** The decimal numbers that are indices: those that fit, with or without a plus sign, and minus zero. */
  lemma IndexOfNumber(n: nat)
    ensures var digits := JsonPrinter.Digits(n);
      && ParseIndex(digits) == (if n <= I64_MAX then Some(n) else None)
      && ParseIndex("+" + digits) == ParseIndex(digits)
      && ParseIndex("-" + digits) == if n == 0 then Some(0) else None
  {
    DecimalOfDigits(n);
    ParseUnsigned(JsonPrinter.Digits(n));
    ParseSigned("+", JsonPrinter.Digits(n));
    ParseSigned("-", JsonPrinter.Digits(n));
  }

  function Read(t: Toml, path: seq<string>): Option<Toml>
    decreases |path|, 0
  {
    if path == [] then Some(t)
    else match t
         case Table(entries) => if path[0] in entries then Read(entries[path[0]], path[1..]) else None
         case Array(items) => ReadItem(items, ParseIndex(path[0]), path[1..])
         case Leaf(_) => None
  }

  function ReadItem(items: seq<Toml>, index: Option<nat>, path: seq<string>): Option<Toml>
    decreases |path|, 1
  {
    if index.Some? && index.value < |items| then Read(items[index.value], path) else None
  }

  /** `value_at_path`. */
  method ValueAtPath(root: Toml, segments: seq<string>) returns (r: Option<Toml>)
    ensures r == Read(root, segments)
  {
    var current := root;
    for i := 0 to |segments|
      invariant Read(root, segments) == Read(current, segments[i..])
    {
      var segment := segments[i];
      assert segments[i..][1..] == segments[i + 1..];
      match current {
        case Table(entries) =>
          if segment !in entries {
            return None;
          }
          current := entries[segment];
        case Array(items) =>
          var index := ParseIndex(segment);
          if index.None? || |items| <= index.value {
            return None;
          }
          current := items[index.value];
        case Leaf(_) => return None;
      }
    }
    r := Some(current);
  }

  // ---------------------------------------------------------------------------------------
  // Merging tables
  // ---------------------------------------------------------------------------------------

  const ALIAS_PATH: seq<string> := ["memories"]
  const LEGACY_KEY: string := "no_memories_if_mcp_or_web_search"
  const CANONICAL_KEY: string := "disable_on_external_context"

  /** A legacy key becomes its canonical key, unless that is there too. */
  function NormalizeKeyAliases(path: seq<string>, entries: map<string, Toml>): map<string, Toml> {
    if path != ALIAS_PATH || LEGACY_KEY !in entries then entries
    else if CANONICAL_KEY in entries then entries - {LEGACY_KEY}
    else (entries - {LEGACY_KEY})[CANONICAL_KEY := entries[LEGACY_KEY]]
  }

  function NormalizedWithKeyAliases(t: Toml, path: seq<string>): Toml {
    match t
    case Table(entries) =>
      Table(NormalizeKeyAliases(path,
        map key | key in entries :: NormalizedWithKeyAliases(entries[key], path + [key])))
    case Array(items) => Array(seq(|items|, i requires 0 <= i < |items| => NormalizedWithKeyAliases(items[i], path)))
    case Leaf(_) => t
  }

  /** `merge_toml_values_at_path`: tables are merged key by key, anything else is replaced. */
  function MergeTomlValues(base: Toml, overlay: Toml, path: seq<string>): Toml
    decreases overlay
  {
    if base.Table? && overlay.Table? then
      var b, o := NormalizeKeyAliases(path, base.entries), NormalizeKeyAliases(path, overlay.entries);
      Table(map key | key in b.Keys + o.Keys ::
              if key !in o then b[key]
              else if key in b then MergeTomlValues(b[key], o[key], path + [key])
              else NormalizedWithKeyAliases(o[key], path + [key]))
    else
      NormalizedWithKeyAliases(overlay, path)
  }

  /** No `memories` table in the tree, which stands at `at`, holds the legacy key. */
  predicate NoLegacy(t: Toml, at: seq<string>) {
    match t
    case Table(entries) =>
      && !(at == ALIAS_PATH && LEGACY_KEY in entries)
      && forall key | key in entries :: NoLegacy(entries[key], at + [key])
    case Array(items) => forall i | 0 <= i < |items| :: NoLegacy(items[i], at)
    case Leaf(_) => true
  }

  lemma {:induction false} DeepIsClean(t: Toml, at: seq<string>)
    requires |at| > 1
    ensures NoLegacy(t, at)
    decreases t
  {
    match t
    case Table(entries) =>
      forall key | key in entries ensures NoLegacy(entries[key], at + [key]) {
        DeepIsClean(entries[key], at + [key]);
      }
    case Array(items) =>
      forall i | 0 <= i < |items| ensures NoLegacy(items[i], at) {
        DeepIsClean(items[i], at);
      }
    case Leaf(_) =>
  }

  /** The entries of a table, normalised one by one. */
  function NormalEntries(entries: map<string, Toml>, at: seq<string>): map<string, Toml> {
    map key | key in entries :: NormalizedWithKeyAliases(entries[key], at + [key])
  }

  lemma TableNormal(entries: map<string, Toml>, at: seq<string>)
    requires forall key | key in entries ::
      && (NormalizedWithKeyAliases(entries[key], at + [key]) == entries[key] <==> NoLegacy(entries[key], at + [key]))
      && NoLegacy(NormalizedWithKeyAliases(entries[key], at + [key]), at + [key])
    ensures NormalizedWithKeyAliases(Table(entries), at) == Table(entries) <==> NoLegacy(Table(entries), at)
    ensures NoLegacy(NormalizedWithKeyAliases(Table(entries), at), at)
  {
    var each := NormalEntries(entries, at);
    var normal := NormalizeKeyAliases(at, each);
    assert NormalizedWithKeyAliases(Table(entries), at) == Table(normal);
    forall key | key in normal ensures NoLegacy(normal[key], at + [key]) {
      if at == ALIAS_PATH {
        DeepIsClean(normal[key], at + [key]);
      } else {
        assert normal == each;
      }
    }
    if at == ALIAS_PATH && LEGACY_KEY in entries {
      assert LEGACY_KEY !in normal;
    } else {
      assert normal == each;
      if each == entries {
        forall key | key in entries ensures NoLegacy(entries[key], at + [key]) {
          assert each[key] == entries[key];
        }
      }
    }
  }

  /** Exactly the trees without a legacy key are left as they are, and no other is made. */
  lemma {:induction false} NormalExactly(t: Toml, at: seq<string>)
    ensures NormalizedWithKeyAliases(t, at) == t <==> NoLegacy(t, at)
    ensures NoLegacy(NormalizedWithKeyAliases(t, at), at)
    decreases t
  {
    match t
    case Table(entries) =>
      forall key | key in entries
        ensures NormalizedWithKeyAliases(entries[key], at + [key]) == entries[key]
           <==> NoLegacy(entries[key], at + [key])
        ensures NoLegacy(NormalizedWithKeyAliases(entries[key], at + [key]), at + [key])
      {
        NormalExactly(entries[key], at + [key]);
      }
      TableNormal(entries, at);
    case Array(items) =>
      var normal := NormalizedWithKeyAliases(t, at).items;
      forall i | 0 <= i < |items|
        ensures normal[i] == items[i] <==> NoLegacy(items[i], at)
        ensures NoLegacy(normal[i], at)
      {
        NormalExactly(items[i], at);
      }
    case Leaf(_) =>
  }

  /** An array keeps its length, and each item is normalised as if it stood in the array's place. */
  lemma ArrayNormal(items: seq<Toml>, at: seq<string>)
    ensures var normal := NormalizedWithKeyAliases(Array(items), at);
      && normal.Array? && |normal.items| == |items|
      && forall i | 0 <= i < |items| :: NoLegacy(items[i], at) ==> normal.items[i] == items[i]
  {
    forall i | 0 <= i < |items| ensures NormalizedWithKeyAliases(items[i], at) == items[i] <==> NoLegacy(items[i], at) {
      NormalExactly(items[i], at);
    }
  }

  /** The value at a path that runs through tables only. */
  function TableRead(t: Toml, path: seq<string>): Option<Toml> {
    if path == [] then Some(t)
    else if t.Table? && path[0] in t.entries then TableRead(t.entries[path[0]], path[1..])
    else None
  }

  /** From the table at `at`, the path names no key of the table `memories` that has an alias. */
  predicate Unaliased(at: seq<string>, path: seq<string>)
    decreases |path|
  {
    path == [] ||
    (!(at == ALIAS_PATH && (path[0] == LEGACY_KEY || path[0] == CANONICAL_KEY))
     && Unaliased(at + [path[0]], path[1..]))
  }

  lemma {:induction false} ReadNormalized(t: Toml, at: seq<string>, path: seq<string>)
    requires Unaliased(at, path) && TableRead(t, path).Some?
    ensures TableRead(NormalizedWithKeyAliases(t, at), path)
         == Some(NormalizedWithKeyAliases(TableRead(t, path).value, at + path))
  {
    if path == [] {
      assert at + path == at;
    } else {
      ReadNormalized(t.entries[path[0]], at + [path[0]], path[1..]);
      assert at + [path[0]] + path[1..] == at + path;
    }
  }

  /** What the overlay sets, other than tables, is what is read from a merge: itself, but for legacy keys in it. */
  lemma OverlayWins(base: Toml, overlay: Toml, at: seq<string>, path: seq<string>)
    requires Unaliased(at, path)
    requires TableRead(overlay, path).Some? && !TableRead(overlay, path).value.Table?
    ensures TableRead(MergeTomlValues(base, overlay, at), path)
         == Some(NormalizedWithKeyAliases(TableRead(overlay, path).value, at + path))
    ensures NoLegacy(TableRead(overlay, path).value, at + path) ==>
      TableRead(MergeTomlValues(base, overlay, at), path) == TableRead(overlay, path)
    ensures TableRead(overlay, path).value.Leaf? ==>
      TableRead(MergeTomlValues(base, overlay, at), path) == TableRead(overlay, path)
  {
    OverlayRead(base, overlay, at, path);
    NormalExactly(TableRead(overlay, path).value, at + path);
  }

  lemma {:induction false} OverlayRead(base: Toml, overlay: Toml, at: seq<string>, path: seq<string>)
    requires Unaliased(at, path)
    requires TableRead(overlay, path).Some? && !TableRead(overlay, path).value.Table?
    ensures TableRead(MergeTomlValues(base, overlay, at), path)
         == Some(NormalizedWithKeyAliases(TableRead(overlay, path).value, at + path))
    decreases |path|
  {
    if path == [] {
      assert at + path == at;
    } else if !base.Table? {
      ReadNormalized(overlay, at, path);
    } else {
      assert at + [path[0]] + path[1..] == at + path;
      if path[0] in base.entries {
        OverlayRead(base.entries[path[0]], overlay.entries[path[0]], at + [path[0]], path[1..]);
      } else {
        ReadNormalized(overlay.entries[path[0]], at + [path[0]], path[1..]);
      }
    }
  }

  /** The path leaves the overlay below one of its tables. */
  predicate Leaves(overlay: Toml, path: seq<string>) {
    && overlay.Table? && path != []
    && (path[0] !in overlay.entries || Leaves(overlay.entries[path[0]], path[1..]))
  }

  /** What the overlay does not reach stays as it was. */
  lemma {:induction false} BaseStays(base: Toml, overlay: Toml, at: seq<string>, path: seq<string>)
    requires Unaliased(at, path) && TableRead(base, path).Some? && Leaves(overlay, path)
    ensures TableRead(MergeTomlValues(base, overlay, at), path) == TableRead(base, path)
  {
    if path[0] in overlay.entries {
      BaseStays(base.entries[path[0]], overlay.entries[path[0]], at + [path[0]], path[1..]);
    }
  }

  /** A merge of two tables has the keys of both, but for the legacy key of a `memories` table. */
  lemma MergedKeys(base: map<string, Toml>, overlay: map<string, Toml>, at: seq<string>)
    ensures var merged := MergeTomlValues(Table(base), Table(overlay), at);
      && merged.Table?
      && (at != ["memories"] ==> merged.entries.Keys == base.Keys + overlay.Keys)
      && (at == ["memories"] ==>
            merged.entries.Keys - {"disable_on_external_context"}
            == base.Keys + overlay.Keys - {"disable_on_external_context", "no_memories_if_mcp_or_web_search"})
  {
  }

  /** The value under the canonical key or, failing that, the legacy one. */
  function Aliased(entries: map<string, Toml>): Option<Toml> {
    if CANONICAL_KEY in entries then Some(entries[CANONICAL_KEY])
    else if LEGACY_KEY in entries then Some(entries[LEGACY_KEY])
    else None
  }

  /**
   * The two keys that are one, in a merge of two `memories` tables: only the canonical one is
   * left, it takes part in the merge under whichever name each side gives it, and on either side
   * the canonical name wins.
   */
  lemma AliasMerged(base: Toml, overlay: Toml)
    requires base.Table? && overlay.Table?
    ensures var merged := MergeTomlValues(base, overlay, ALIAS_PATH).entries;
      && LEGACY_KEY !in merged
      && Aliased(merged) ==
           match (Aliased(base.entries), Aliased(overlay.entries))
           case (None, None) => None
           case (Some(b), None) => Some(b)
           case (None, Some(o)) => Some(NormalizedWithKeyAliases(o, ALIAS_PATH + [CANONICAL_KEY]))
           case (Some(b), Some(o)) => Some(MergeTomlValues(b, o, ALIAS_PATH + [CANONICAL_KEY]))
  {
  }

  // ---------------------------------------------------------------------------------------
  // Writing
  // ---------------------------------------------------------------------------------------

  /** The entries below `t`, where anything but a table is replaced by an empty one. */
  function EntriesOf(t: Toml): map<string, Toml> {
    if t.Table? then t.entries else map[]
  }

  function ChildOf(t: Toml, key: string): Toml {
    if key in EntriesOf(t) then EntriesOf(t)[key] else Table(map[])
  }

  function WithChild(t: Toml, key: string, child: Result<Toml, WriteError>): Result<Toml, WriteError> {
    match child
    case Err(e) => Err(e)
    case Ok(c) => Ok(Table(EntriesOf(t)[key := c]))
  }

  /** `apply_merge` with a value. */
  function Merge(t: Toml, path: seq<string>, value: Toml, strategy: MergeStrategy): Result<Toml, WriteError>
    decreases |path|
  {
    if path == [] then Err(EmptyKeyPath)
    else if |path| > 1 then WithChild(t, path[0], Merge(ChildOf(t, path[0]), path[1..], value, strategy))
    else if !t.Table? then Err(NonTableParent)
    else if strategy == Upsert && path[0] in t.entries && t.entries[path[0]].Table? && value.Table? then
      Ok(Table(t.entries[path[0] := MergeTomlValues(t.entries[path[0]], value, [])]))
    else Ok(Table(t.entries[path[0] := value]))
  }

  /** `clear_path`. */
  function Clear(t: Toml, path: seq<string>): Result<Toml, WriteError> {
    if path == [] then Err(EmptyKeyPath)
    else if !t.Table? then Err(PathNotFound)
    else if |path| == 1 then Ok(Table(t.entries - {path[0]}))
    else if path[0] !in t.entries then Err(PathNotFound)
    else WithChild(t, path[0], Clear(t.entries[path[0]], path[1..]))
  }

  function Write(t: Toml, path: seq<string>, value: Option<Toml>, strategy: MergeStrategy): Result<Toml, WriteError> {
    match value
    case None => Clear(t, path)
    case Some(v) => Merge(t, path, v, strategy)
  }

  /** The path goes on below an array. */
  predicate ThroughArray(t: Toml, path: seq<string>) {
    path != [] && (t.Array? || (path[0] in EntriesOf(t) && ThroughArray(EntriesOf(t)[path[0]], path[1..])))
  }

  predicate Comparable(a: seq<string>, b: seq<string>) {
    a <= b || b <= a
  }

  // ---------------------------------------------------------------------------------------
  // The lens laws
  // ---------------------------------------------------------------------------------------

  lemma PathStep(t: Toml, path: seq<string>)
    requires |path| > 1
    ensures path == [path[0]] + path[1..]
    ensures path[..|path| - 1][0] == path[0] && path[..|path| - 1][1..] == path[1..][..|path[1..]| - 1]
  {
  }

  /** A value can be set unless its immediate parent is there and is not a table. */
  lemma {:induction false} MergeFails(t: Toml, path: seq<string>, value: Toml, strategy: MergeStrategy)
    ensures Merge(t, path, value, strategy).Err? <==>
      path == [] || (var parent := TableRead(t, path[..|path| - 1]); parent.Some? && !parent.value.Table?)
    ensures Merge(t, path, value, strategy).Err? && path != [] ==>
      Merge(t, path, value, strategy) == Err(NonTableParent)
    decreases |path|
  {
    if |path| > 1 {
      PathStep(t, path);
      MergeFails(ChildOf(t, path[0]), path[1..], value, strategy);
      if !(t.Table? && path[0] in t.entries) {
        EmptyTableRead(path[1..][..|path[1..]| - 1]);
      }
    }
  }

  lemma EmptyTableRead(path: seq<string>)
    ensures TableRead(Table(map[]), path) == if path == [] then Some(Table(map[])) else None
  {
  }

  /** A path can be cleared exactly if its immediate parent is a table. */
  lemma {:induction false} ClearFails(t: Toml, path: seq<string>)
    ensures Clear(t, path).Err? <==>
      path == [] || (var parent := TableRead(t, path[..|path| - 1]); parent.None? || !parent.value.Table?)
    ensures Clear(t, path).Err? && path != [] ==> Clear(t, path) == Err(PathNotFound)
  {
    if |path| > 1 {
      PathStep(t, path);
      if t.Table? && path[0] in t.entries {
        ClearFails(t.entries[path[0]], path[1..]);
      }
    }
  }

  /** What a set leaves at its path: the value, or its merge into the table that was there. */
  function Stored(t: Toml, path: seq<string>, value: Toml, strategy: MergeStrategy): Toml {
    var before := TableRead(t, path);
    if strategy == Upsert && before.Some? && before.value.Table? && value.Table?
    then MergeTomlValues(before.value, value, [])
    else value
  }

  lemma OneSegment(t: Toml, path: seq<string>)
    requires |path| == 1
    ensures TableRead(t, path) == if path[0] in EntriesOf(t) then Some(EntriesOf(t)[path[0]]) else None
    ensures t.Table? ==> Read(t, path) == TableRead(t, path)
  {
    assert path[1..] == [];
  }

  /** Reading back a set. */
  lemma {:induction false} ReadAfterMerge(t: Toml, path: seq<string>, value: Toml, strategy: MergeStrategy)
    requires Merge(t, path, value, strategy).Ok?
    ensures Read(Merge(t, path, value, strategy).value, path) == Some(Stored(t, path, value, strategy))
    decreases |path|
  {
    if |path| > 1 {
      ReadAfterMerge(ChildOf(t, path[0]), path[1..], value, strategy);
      if !(t.Table? && path[0] in t.entries) {
        EmptyTableRead(path[1..]);
      }
    } else {
      OneSegment(t, path);
      OneSegment(Merge(t, path, value, strategy).value, path);
    }
  }

  /** Reading back a clear. */
  lemma {:induction false} ReadAfterClear(t: Toml, path: seq<string>)
    requires Clear(t, path).Ok?
    ensures Read(Clear(t, path).value, path) == None
  {
    if |path| > 1 {
      ReadAfterClear(t.entries[path[0]], path[1..]);
    }
  }

  lemma TailsComparable(a: seq<string>, b: seq<string>)
    requires a != [] && b != [] && a[0] == b[0]
    ensures Comparable(a, b) <==> Comparable(a[1..], b[1..])
    ensures !Comparable(a, b) ==> |a| > 1 && |b| > 1
  {
    assert a == [a[0]] + a[1..] && b == [b[0]] + b[1..];
  }

  /** A write changes nothing at paths that are neither above nor below its own. */
  lemma {:induction false} WriteFramed(t: Toml, path: seq<string>, value: Option<Toml>, strategy: MergeStrategy,
      other: seq<string>)
    requires Write(t, path, value, strategy).Ok?
    requires !ThroughArray(t, path) && !Comparable(path, other)
    ensures Read(Write(t, path, value, strategy).value, other) == Read(t, other)
    decreases |path|
  {
    if path[0] == other[0] {
      TailsComparable(path, other);
      WriteFramed(ChildOf(t, path[0]), path[1..], value, strategy, other[1..]);
      if !(t.Table? && path[0] in t.entries) {
        EmptyRead(other[1..]);
      }
    }
  }

  lemma EmptyRead(path: seq<string>)
    ensures Read(Table(map[]), path) == if path == [] then Some(Table(map[])) else None
  {
  }

  // ---------------------------------------------------------------------------------------
  // The edit log
  // ---------------------------------------------------------------------------------------

  /** The edit logged for a write, if the value at its path has changed. */
  function LogEdit(before: Toml, after: Toml, path: seq<string>): seq<ConfigEdit> {
    if Read(before, path) == Read(after, path) then []
    else match Read(after, path)
         case Some(value) => [SetPath(path, value)]
         case None => [ClearPath(path)]
  }

  /** The tree with a value put at a path: whatever is on the way and is not a table becomes one. */
  function PutAt(t: Toml, path: seq<string>, value: Toml): Toml
    requires path != []
    decreases |path|
  {
    if |path| == 1 then Table(EntriesOf(t)[path[0] := value])
    else Table(EntriesOf(t)[path[0] := PutAt(ChildOf(t, path[0]), path[1..], value)])
  }

  /** The tree without what is at a path. */
  function TakeAt(t: Toml, path: seq<string>): Toml
    requires path != []
  {
    if !t.Table? then t
    else if |path| == 1 then Table(t.entries - {path[0]})
    else if path[0] in t.entries then Table(t.entries[path[0] := TakeAt(t.entries[path[0]], path[1..])])
    else t
  }

  /** An unchanged read means an unchanged tree, off arrays. */
  lemma {:induction false} UnchangedRead(t: Toml, path: seq<string>, value: Option<Toml>, strategy: MergeStrategy)
    requires Write(t, path, value, strategy).Ok? && !ThroughArray(t, path)
    requires Read(Write(t, path, value, strategy).value, path) == Read(t, path)
    ensures Write(t, path, value, strategy).value == t
  {
    var after := Write(t, path, value, strategy).value;
    if |path| > 1 {
      if value.Some? {
        ReadAfterMerge(t, path, value.value, strategy);
      }
      if t.Table? && path[0] in t.entries {
        UnchangedRead(t.entries[path[0]], path[1..], value, strategy);
        assert t.entries[path[0] := t.entries[path[0]]] == t.entries;
      }
    } else {
      assert path[1..] == [];
      if path[0] in t.entries {
        assert t.entries[path[0] := t.entries[path[0]]] == t.entries;
      } else if value.None? {
        assert t.entries - {path[0]} == t.entries;
      }
    }
  }

  /** A set puts the stored value at its path. */
  lemma {:induction false} MergePuts(t: Toml, path: seq<string>, value: Toml, strategy: MergeStrategy)
    requires Merge(t, path, value, strategy).Ok?
    ensures Merge(t, path, value, strategy).value == PutAt(t, path, Stored(t, path, value, strategy))
    decreases |path|
  {
    if |path| > 1 {
      MergePuts(ChildOf(t, path[0]), path[1..], value, strategy);
      if !(t.Table? && path[0] in t.entries) {
        EmptyTableRead(path[1..]);
      }
    } else {
      OneSegment(t, path);
    }
  }

  lemma {:induction false} ClearTakes(t: Toml, path: seq<string>)
    requires Clear(t, path).Ok?
    ensures Clear(t, path).value == TakeAt(t, path)
  {
    if |path| > 1 {
      ClearTakes(t.entries[path[0]], path[1..]);
    }
  }

  /** Where a set runs through an array it changes the tree, and it stores the value itself. */
  lemma {:induction false} ThroughArrayChanges(t: Toml, path: seq<string>, value: Toml, strategy: MergeStrategy)
    requires Merge(t, path, value, strategy).Ok? && ThroughArray(t, path)
    ensures Merge(t, path, value, strategy).value != t
    ensures Stored(t, path, value, strategy) == value
  {
    if |path| > 1 && t.Table? {
      ThroughArrayChanges(t.entries[path[0]], path[1..], value, strategy);
      assert Merge(t, path, value, strategy).value.entries[path[0]] != t.entries[path[0]];
    }
  }

  lemma {:induction false} ClearAvoidsArrays(t: Toml, path: seq<string>)
    requires Clear(t, path).Ok?
    ensures !ThroughArray(t, path)
  {
    if |path| > 1 {
      ClearAvoidsArrays(t.entries[path[0]], path[1..]);
    } else {
      assert path[1..] == [];
    }
  }

  // ---------------------------------------------------------------------------------------
  // The document that is edited
  // ---------------------------------------------------------------------------------------

  /**
   * A document: sections, which are implicit if only what is in them is printed, values written
   * inline, and arrays of tables (`[[name]]`), which the editor does not descend into.
   */
  datatype Doc =
    | Section(entries: map<string, Doc>, implicit: bool)
    | Inline(value: Toml)
    | Tables(tables: seq<Doc>)

  /** What a document says. */
  function Content(d: Doc): Toml {
    match d
    case Section(entries, _) => Table(map key | key in entries :: Content(entries[key]))
    case Inline(value) => value
    case Tables(tables) => Array(seq(|tables|, i requires 0 <= i < |tables| => Content(tables[i])))
  }

  function Contents(entries: map<string, Doc>): map<string, Toml> {
    map key | key in entries :: Content(entries[key])
  }

  /** `toml_value_to_item`. */
  function ItemOf(value: Toml): Doc {
    match value
    case Table(entries) => Section(map key | key in entries :: ItemOf(entries[key]), false)
    case _ => Inline(value)
  }

  lemma {:induction false} ContentOfItem(value: Toml)
    ensures Content(ItemOf(value)) == value
    decreases value
  {
    if value.Table? {
      forall key | key in value.entries ensures Content(ItemOf(value.entries[key])) == value.entries[key] {
        ContentOfItem(value.entries[key]);
      }
      assert Content(ItemOf(value)).entries == value.entries;
    }
  }

  /** `ensure_table_for_write`: an inline table becomes a section, another value an empty one. */
  function TableForWrite(d: Doc): Option<map<string, Doc>> {
    match d
    case Section(entries, _) => Some(entries)
    case Inline(Table(entries)) => Some(map key | key in entries :: Inline(entries[key]))
    case Inline(_) => Some(map[])
    case Tables(_) => None
  }

  /** Whether the section that it is or becomes is implicit. */
  predicate Implicit(d: Doc) {
    d.Section? ==> d.implicit
  }

  /** `ensure_table_for_read`. */
  function TableForRead(d: Doc): Option<map<string, Doc>> {
    if d.Section? || (d.Inline? && d.value.Table?) then TableForWrite(d) else None
  }

  lemma TableForWriteContent(d: Doc)
    ensures TableForWrite(d).None? <==> d.Tables?
    ensures TableForWrite(d).Some? ==> Contents(TableForWrite(d).value) == EntriesOf(Content(d))
    ensures TableForRead(d).Some? <==> Content(d).Table?
  {
  }

  function Subsection(entries: map<string, Doc>, key: string): Doc {
    if key in entries then entries[key] else Section(map[], true)
  }

  /** `insert`, with nothing for its answer `false`, upon which the document is as it was. */
  function Insert(d: Doc, path: seq<string>, item: Doc): Option<Doc>
    requires path != []
    decreases |path|
  {
    match TableForWrite(d)
    case None => None
    case Some(entries) =>
      if |path| == 1 then Some(Section(entries[path[0] := item], Implicit(d)))
      else match Insert(Subsection(entries, path[0]), path[1..], item)
           case None => None
           case Some(child) => Some(Section(entries[path[0] := child], Implicit(d)))
  }

  /** `remove`: the document, where inline tables on the way have become sections, and the answer. */
  function Remove(d: Doc, path: seq<string>): (Doc, bool)
    requires path != []
    decreases |path|
  {
    match TableForRead(d)
    case None => (d, false)
    case Some(entries) =>
      if path[0] !in entries then (Section(entries, Implicit(d)), false)
      else if |path| == 1 then (Section(entries - {path[0]}, Implicit(d)), true)
      else
        var (child, removed) := Remove(entries[path[0]], path[1..]);
        (Section(entries[path[0] := child], Implicit(d)), removed)
  }

  /** The path goes on below an array of tables. */
  predicate ThroughTables(d: Doc, path: seq<string>)
    decreases |path|
  {
    path != [] &&
    match TableForWrite(d)
    case None => true
    case Some(entries) => path[0] in entries && ThroughTables(entries[path[0]], path[1..])
  }

  lemma {:induction false} TablesAreArrays(d: Doc, path: seq<string>)
    requires ThroughTables(d, path)
    ensures ThroughArray(Content(d), path)
    decreases |path|
  {
    TableForWriteContent(d);
    if TableForWrite(d).Some? {
      var entries := TableForWrite(d).value;
      TablesAreArrays(entries[path[0]], path[1..]);
      assert Contents(entries)[path[0]] == Content(entries[path[0]]);
    }
  }

  /** An insertion puts the value at its path, unless the path runs through an array of tables. */
  lemma {:induction false} InsertPuts(d: Doc, path: seq<string>, value: Toml)
    requires path != []
    ensures Insert(d, path, ItemOf(value)).None? <==> ThroughTables(d, path)
    ensures Insert(d, path, ItemOf(value)).Some? ==>
      Content(Insert(d, path, ItemOf(value)).value) == PutAt(Content(d), path, value)
    decreases |path|
  {
    TableForWriteContent(d);
    if TableForWrite(d).Some? {
      var entries := TableForWrite(d).value;
      if |path| == 1 {
        ContentOfItem(value);
        PutContent(entries, path[0], ItemOf(value), Implicit(d));
        assert path[1..] == [];
      } else {
        var child := Subsection(entries, path[0]);
        InsertPuts(child, path[1..], value);
        if Insert(child, path[1..], ItemOf(value)).Some? {
          PutContent(entries, path[0], Insert(child, path[1..], ItemOf(value)).value, Implicit(d));
        }
        if path[0] !in entries {
          assert child == Section(map[], true) && Content(child) == Table(map[]);
          assert !ThroughTables(child, path[1..]);
        }
        assert Content(child) == ChildOf(Content(d), path[0]);
      }
    }
  }

  lemma PutContent(entries: map<string, Doc>, key: string, child: Doc, implicit: bool)
    ensures Content(Section(entries[key := child], implicit)) == Table(Contents(entries)[key := Content(child)])
    ensures Content(Section(entries, implicit)) == Table(Contents(entries))
    ensures Content(Section(entries - {key}, implicit)) == Table(Contents(entries) - {key})
  {
    assert Content(Section(entries[key := child], implicit)).entries == Contents(entries)[key := Content(child)];
    assert Content(Section(entries - {key}, implicit)).entries == Contents(entries) - {key};
  }

  /** A removal takes out what is at its path, and says whether there was anything. */
  lemma {:induction false} RemoveTakes(d: Doc, path: seq<string>)
    requires path != []
    ensures Content(Remove(d, path).0) == TakeAt(Content(d), path)
    ensures Remove(d, path).1 <==> TableRead(Content(d), path).Some?
    decreases |path|
  {
    TableForWriteContent(d);
    if TableForRead(d).Some? {
      var entries := TableForRead(d).value;
      var key := path[0];
      if key !in entries {
        PutContent(entries, key, d, Implicit(d));
        assert Contents(entries) - {key} == Contents(entries);
      } else if |path| == 1 {
        PutContent(entries, key, entries[key], Implicit(d));
        OneSegment(Content(d), path);
      } else {
        RemoveTakes(entries[key], path[1..]);
        PutContent(entries, key, Remove(entries[key], path[1..]).0, Implicit(d));
        assert Contents(entries)[key] == Content(entries[key]);
      }
    }
  }

  predicate Replayable(edit: ConfigEdit) {
    edit.segments != []
  }

  /** One logged edit applied to the document. */
  function ReplayOne(d: Doc, edit: ConfigEdit): Doc
    requires Replayable(edit)
  {
    match edit
    case SetPath(path, value) => (match Insert(d, path, ItemOf(value)) case Some(after) => after case None => d)
    case ClearPath(path) => Remove(d, path).0
  }

  function Replay(d: Doc, log: seq<ConfigEdit>): Doc
    requires forall e | e in log :: Replayable(e)
    decreases |log|
  {
    if log == [] then d else Replay(ReplayOne(d, log[0]), log[1..])
  }

  /**
   * When the document follows a write: exactly unless the path runs through an array of tables,
   * where the editor gives up, or through an inline array below which the value to be set is
   * found already, so that nothing is logged.
   */
  predicate Faithful(d: Doc, path: seq<string>, value: Option<Toml>) {
    !ThroughTables(d, path) && !(ThroughArray(Content(d), path) && Read(Content(d), path) == value)
  }

  lemma EditLogExact(d: Doc, path: seq<string>, value: Option<Toml>, strategy: MergeStrategy)
    requires Write(Content(d), path, value, strategy).Ok?
    ensures path != []
    ensures var after := Write(Content(d), path, value, strategy).value;
      Content(Replay(d, LogEdit(Content(d), after, path))) == after <==> Faithful(d, path, value)
  {
    var t := Content(d);
    var after := Write(t, path, value, strategy).value;
    var log := LogEdit(t, after, path);
    if value.Some? {
      SetLogged(d, path, value.value, strategy);
    } else {
      ReadAfterClear(t, path);
      ClearTakes(t, path);
      ClearAvoidsArrays(t, path);
      if ThroughTables(d, path) {
        TablesAreArrays(d, path);
      }
      RemoveTakes(d, path);
      if log == [] {
        UnchangedRead(t, path, value, strategy);
      } else {
        assert log[1..] == [];
      }
    }
  }

  lemma SetLogged(d: Doc, path: seq<string>, value: Toml, strategy: MergeStrategy)
    requires Merge(Content(d), path, value, strategy).Ok?
    ensures path != []
    ensures var after := Merge(Content(d), path, value, strategy).value;
      Content(Replay(d, LogEdit(Content(d), after, path))) == after <==> Faithful(d, path, Some(value))
  {
    var t := Content(d);
    var after := Merge(t, path, value, strategy).value;
    var log := LogEdit(t, after, path);
    var stored := Stored(t, path, value, strategy);
    ReadAfterMerge(t, path, value, strategy);
    MergePuts(t, path, value, strategy);
    InsertPuts(d, path, stored);
    if ThroughTables(d, path) {
      TablesAreArrays(d, path);
    }
    if ThroughArray(t, path) {
      ThroughArrayChanges(t, path, value, strategy);
    }
    if log == [] {
      if !ThroughArray(t, path) {
        UnchangedRead(t, path, Some(value), strategy);
      }
    } else {
      assert log == [SetPath(path, stored)] && log[1..] == [];
      assert Replay(d, log) == ReplayOne(d, log[0]);
    }
  }

  /** An array indexed by the path, and no edit logged although the array is gone. */
  lemma LogLosesArrayWrite()
    ensures var one, x := Leaf("1"), Leaf("x");
      var t := Table(map["a" := Array([Table(map["b" := one])])]);
      var path := ["a", "0", "b"];
      var r := Merge(t, path, one, Replace);
      && r == Ok(Table(map["a" := Table(map["0" := Table(map["b" := one])])]))
      && LogEdit(t, r.value, path) == []
      && r.value != t
  {
    var one := Leaf("1");
    var inner := Table(map["b" := one]);
    var items := [inner];
    var t := Table(map["a" := Array(items)]);
    var path := ["a", "0", "b"];
    assert path[1..] == ["0", "b"] && path[1..][1..] == ["b"] && path[1..][1..][1..] == [];
    assert "0"[..0] == "";
    assert Decimal("0") == 0;
    assert ParseIndex("0") == Some(0);
    assert Read(inner, ["b"]) == Some(one);
    assert Read(Array(items), ["0", "b"]) == Some(one);
    assert Read(t, path) == Some(one);
    ReadAfterMerge(t, path, one, Replace);
    assert Merge(Table(map[]), ["b"], one, Replace) == Ok(Table(map["b" := one]));
    assert Merge(Array(items), ["0", "b"], one, Replace) == Ok(Table(map["0" := Table(map["b" := one])]));
    assert ChildOf(t, "a") == Array(items);
    var emptied := Table(map["0" := Table(map["b" := one])]);
    assert t.entries["a" := emptied] == map["a" := emptied];
  }

  /**
   * Below an array of tables the edit is logged, but the document does not follow: `b = 1` in
   * `[[a]]`, and `a.0.b` set to 2.
   */
  lemma TablesLoseWrite()
    ensures var one, two := Leaf("1"), Leaf("2");
      var d := Section(map["a" := Tables([Section(map["b" := Inline(one)], false)])], false);
      var path := ["a", "0", "b"];
      var r := Merge(Content(d), path, two, Replace);
      && r == Ok(Table(map["a" := Table(map["0" := Table(map["b" := two])])]))
      && LogEdit(Content(d), r.value, path) == [SetPath(path, two)]
      && Replay(d, [SetPath(path, two)]) == d
      && Content(d) != r.value
  {
    var one, two := Leaf("1"), Leaf("2");
    var row := Section(map["b" := Inline(one)], false);
    var d := Section(map["a" := Tables([row])], false);
    var t := Content(d);
    var path := ["a", "0", "b"];
    assert path[1..] == ["0", "b"] && path[1..][1..] == ["b"] && path[1..][1..][1..] == [];
    assert row.entries["b"] == Inline(one) && Content(row) == Table(map["b" := one]);
    var items := [Content(row)];
    assert Content(Tables([row])).items == items;
    assert t.entries["a"] == Content(Tables([row]));
    assert Decimal("0") == 0 by {
      assert "0"[..0] == "";
    }
    assert ParseIndex("0") == Some(0);
    assert Read(items[0], ["b"]) == Some(one);
    assert Read(Array(items), ["0", "b"]) == Some(one);
    assert Read(t, path) == Some(one);
    ReadAfterMerge(t, path, two, Replace);
    assert Merge(Table(map[]), ["b"], two, Replace) == Ok(Table(map["b" := two]));
    assert Merge(Array(items), ["0", "b"], two, Replace) == Ok(Table(map["0" := Table(map["b" := two])]));
    assert ChildOf(t, "a") == Array(items);
    var emptied := Table(map["0" := Table(map["b" := two])]);
    assert t.entries["a" := emptied] == map["a" := emptied];
    assert Insert(Tables([row]), ["0", "b"], ItemOf(two)) == None;
    assert [SetPath(path, two)][1..] == [];
  }

  // ---------------------------------------------------------------------------------------
  // A batch of edits
  // ---------------------------------------------------------------------------------------

  datatype Edit = Edit(keyPath: string, value: Result<Option<Toml>, ()>, strategy: MergeStrategy)

  function SplitDots(s: string): (parts: seq<string>)
    ensures parts != []
  {
    if s == "" then [""]
    else var rest := SplitDots(s[1..]);
         if s[0] == '.' then [""] + rest else [[s[0]] + rest[0]] + rest[1..]
  }

  function JoinDots(parts: seq<string>): string {
    if parts == [] then ""
    else if |parts| == 1 then parts[0]
    else parts[0] + "." + JoinDots(parts[1..])
  }

  predicate NoDots(s: string) {
    forall i | 0 <= i < |s| :: s[i] != '.'
  }

  function ParseKeyPath(path: string): Result<seq<string>, WriteError> {
    if AllSpace(path) then Err(EmptyKeyPath) else Ok(SplitDots(path))
  }

  /** The segments of a key path give it back. */
  lemma {:induction false} JoinSplit(s: string)
    ensures JoinDots(SplitDots(s)) == s
    ensures forall part | part in SplitDots(s) :: NoDots(part)
  {
    if s != "" {
      var rest := SplitDots(s[1..]);
      JoinSplit(s[1..]);
      assert s == [s[0]] + s[1..];
      if s[0] == '.' {
        assert ([""] + rest)[1..] == rest;
      } else {
        var first := [s[0]] + rest[0];
        assert ([first] + rest[1..])[1..] == rest[1..];
        assert rest == [rest[0]] + rest[1..];
        assert NoDots(rest[0]);
        if |rest| > 1 {
          assert [s[0]] + (rest[0] + "." + JoinDots(rest[1..])) == first + "." + JoinDots(rest[1..]);
        }
      }
    }
  }

  /** And any segments without dots can be addressed. */
  lemma {:induction false} SplitJoin(parts: seq<string>)
    requires parts != [] && forall part | part in parts :: NoDots(part)
    ensures SplitDots(JoinDots(parts)) == parts
    decreases |parts|, if parts == [] then 0 else |parts[0]|
  {
    var first, rest := parts[0], parts[1..];
    assert parts == [first] + rest;
    if first == "" {
      if rest != [] {
        SplitJoin(rest);
        assert JoinDots(parts) == "." + JoinDots(rest);
        assert JoinDots(parts)[1..] == JoinDots(rest);
      }
    } else {
      var shorter := [first[1..]] + rest;
      assert NoDots(first);
      assert NoDots(first[1..]);
      assert shorter[1..] == rest;
      SplitJoin(shorter);
      assert first == [first[0]] + first[1..];
      assert JoinDots(parts) == [first[0]] + JoinDots(shorter) by {
        if rest != [] {
          assert [first[0]] + (first[1..] + "." + JoinDots(rest)) == first + "." + JoinDots(rest);
        }
      }
      assert JoinDots(parts)[1..] == JoinDots(shorter);
    }
  }

  /** One edit of a batch: its errors come in the order of the checks. */
  function ApplyOne(t: Toml, edit: Edit): Result<Toml, WriteError> {
    match ParseKeyPath(edit.keyPath)
    case Err(e) => Err(e)
    case Ok(path) =>
      match edit.value
      case Err(_) => Err(InvalidValue)
      case Ok(value) => Write(t, path, value, edit.strategy)
  }

  /** The config after a batch: the first edit that fails fails the batch. */
  function ApplyAll(t: Toml, edits: seq<Edit>): Result<Toml, WriteError>
    decreases |edits|
  {
    if edits == [] then Ok(t)
    else match ApplyOne(t, edits[0])
         case Err(e) => Err(e)
         case Ok(after) => ApplyAll(after, edits[1..])
  }

  function LogAll(t: Toml, edits: seq<Edit>): seq<ConfigEdit>
    requires ApplyAll(t, edits).Ok?
    decreases |edits|
  {
    if edits == [] then []
    else
      LogEdit(t, ApplyOne(t, edits[0]).value, SplitDots(edits[0].keyPath))
      + LogAll(ApplyOne(t, edits[0]).value, edits[1..])
  }

  /** The document after the log of one edit. */
  function Followed(d: Doc, edit: Edit): Doc
    requires ApplyOne(Content(d), edit).Ok?
  {
    Replay(d, LogEdit(Content(d), ApplyOne(Content(d), edit).value, SplitDots(edit.keyPath)))
  }

  /** No edit of the batch runs through an array of tables or repeats what it finds below an array. */
  predicate AllFaithful(d: Doc, edits: seq<Edit>)
    decreases |edits|
  {
    edits != [] && ApplyOne(Content(d), edits[0]).Ok? ==>
      && Faithful(d, SplitDots(edits[0].keyPath), edits[0].value.value)
      && AllFaithful(Followed(d, edits[0]), edits[1..])
  }

  /** After each edit of the batch the document says what the config in memory says. */
  predicate FollowsThroughout(d: Doc, edits: seq<Edit>)
    decreases |edits|
  {
    edits != [] && ApplyOne(Content(d), edits[0]).Ok? ==>
      && Content(Followed(d, edits[0])) == ApplyOne(Content(d), edits[0]).value
      && FollowsThroughout(Followed(d, edits[0]), edits[1..])
  }

  /** Over every batch: the document keeps up exactly with the edits of a faithful batch. */
  lemma {:induction false} BatchFollowsExactly(d: Doc, edits: seq<Edit>)
    ensures FollowsThroughout(d, edits) <==> AllFaithful(d, edits)
    decreases |edits|
  {
    if edits != [] && ApplyOne(Content(d), edits[0]).Ok? {
      EditLogExact(d, SplitDots(edits[0].keyPath), edits[0].value.value, edits[0].strategy);
      BatchFollowsExactly(Followed(d, edits[0]), edits[1..]);
    }
  }

  /** No path of the batch runs through an array. */
  predicate OffArrays(t: Toml, edits: seq<Edit>)
    requires ApplyAll(t, edits).Ok?
    decreases |edits|
  {
    edits == [] ||
    (!ThroughArray(t, SplitDots(edits[0].keyPath)) && OffArrays(ApplyOne(t, edits[0]).value, edits[1..]))
  }

  lemma {:induction false} ReplayConcat(d: Doc, a: seq<ConfigEdit>, b: seq<ConfigEdit>)
    requires forall e | e in a + b :: Replayable(e)
    ensures Replay(d, a + b) == Replay(Replay(d, a), b)
    decreases |a|
  {
    if a == [] {
      assert a + b == b;
    } else {
      assert (a + b)[1..] == a[1..] + b;
      assert a[0] in a + b && forall e | e in a[1..] + b :: e in a + b;
      ReplayConcat(ReplayOne(d, a[0]), a[1..], b);
    }
  }

  /** Replaying the log of a batch on the document gives the config that the batch left. */
  lemma {:induction false} BatchReplays(d: Doc, edits: seq<Edit>)
    requires ApplyAll(Content(d), edits).Ok? && AllFaithful(d, edits)
    ensures forall e | e in LogAll(Content(d), edits) :: Replayable(e)
    ensures Content(Replay(d, LogAll(Content(d), edits))) == ApplyAll(Content(d), edits).value
    decreases |edits|
  {
    if edits != [] {
      var edit := edits[0];
      var t, path := Content(d), SplitDots(edit.keyPath);
      var after := ApplyOne(t, edit).value;
      EditLogExact(d, path, edit.value.value, edit.strategy);
      BatchReplays(Followed(d, edit), edits[1..]);
      ReplayConcat(d, LogEdit(t, after, path), LogAll(after, edits[1..]));
    }
  }

  /** In particular for every batch off arrays. */
  lemma {:induction false} BatchOffArrays(d: Doc, edits: seq<Edit>)
    requires ApplyAll(Content(d), edits).Ok? && OffArrays(Content(d), edits)
    ensures AllFaithful(d, edits)
    decreases |edits|
  {
    if edits != [] {
      var edit := edits[0];
      var t, path := Content(d), SplitDots(edit.keyPath);
      if ThroughTables(d, path) {
        TablesAreArrays(d, path);
      }
      EditLogExact(d, path, edit.value.value, edit.strategy);
      BatchOffArrays(Followed(d, edit), edits[1..]);
    }
  }

  /** One turn of the edit loop: the config after the edit, and what is logged for it. */
  method ApplyEdit(userConfig: Toml, edit: Edit) returns (r: Result<(Toml, seq<ConfigEdit>), WriteError>)
    ensures match ApplyOne(userConfig, edit)
      case Err(e) => r == Err(e)
      case Ok(after) => r == Ok((after, LogEdit(userConfig, after, SplitDots(edit.keyPath))))
  {
    if AllSpace(edit.keyPath) {
      return Err(EmptyKeyPath);
    }
    var segments := SplitDots(edit.keyPath);
    var originalValue := ValueAtPath(userConfig, segments);
    if edit.value.Err? {
      return Err(InvalidValue);
    }
    var written := Write(userConfig, segments, edit.value.value, edit.strategy);
    if written.Err? {
      return Err(written.error);
    }
    var updatedValue := ValueAtPath(written.value, segments);
    var logged := [];
    if originalValue != updatedValue {
      logged := [match updatedValue case Some(value) => SetPath(segments, value) case None => ClearPath(segments)];
    }
    r := Ok((written.value, logged));
  }

  lemma BatchStep(t: Toml, edits: seq<Edit>, i: nat)
    requires i < |edits|
    ensures ApplyOne(t, edits[i]).Err? ==> ApplyAll(t, edits[i..]) == Err(ApplyOne(t, edits[i]).error)
    ensures ApplyOne(t, edits[i]).Ok? ==>
      var after := ApplyOne(t, edits[i]).value;
      && ApplyAll(t, edits[i..]) == ApplyAll(after, edits[i + 1..])
      && (ApplyAll(t, edits[i..]).Ok? ==>
            LogAll(t, edits[i..]) ==
            LogEdit(t, after, SplitDots(edits[i].keyPath)) + LogAll(after, edits[i + 1..]))
  {
    assert edits[i..][0] == edits[i] && edits[i..][1..] == edits[i + 1..];
  }

  /** After `i` edits of the batch the config is `current` and the log `log`. */
  predicate After(t: Toml, edits: seq<Edit>, i: nat, current: Toml, log: seq<ConfigEdit>)
    requires i <= |edits|
  {
    && ApplyAll(t, edits) == ApplyAll(current, edits[i..])
    && (ApplyAll(t, edits).Ok? ==> LogAll(t, edits) == log + LogAll(current, edits[i..]))
  }

  lemma AfterStep(t: Toml, edits: seq<Edit>, i: nat, current: Toml, log: seq<ConfigEdit>)
    requires i < |edits| && After(t, edits, i, current, log)
    ensures ApplyOne(current, edits[i]).Err? ==> ApplyAll(t, edits) == Err(ApplyOne(current, edits[i]).error)
    ensures ApplyOne(current, edits[i]).Ok? ==>
      var next := ApplyOne(current, edits[i]).value;
      After(t, edits, i + 1, next, log + LogEdit(current, next, SplitDots(edits[i].keyPath)))
  {
    BatchStep(current, edits, i);
  }

  lemma AfterAll(t: Toml, edits: seq<Edit>, current: Toml, log: seq<ConfigEdit>)
    requires After(t, edits, |edits|, current, log)
    ensures ApplyAll(t, edits) == Ok(current) && LogAll(t, edits) == log
  {
    assert edits[|edits|..] == [];
    assert log + [] == log;
  }

  /** The edit loop of `apply_edits`. */
  method ApplyEdits(original: Toml, edits: seq<Edit>) returns (r: Result<(Toml, seq<ConfigEdit>), WriteError>)
    ensures match ApplyAll(original, edits)
      case Err(e) => r == Err(e)
      case Ok(t) => r == Ok((t, LogAll(original, edits)))
  {
    var userConfig, configEdits := original, [];
    assert edits[0..] == edits;
    for i := 0 to |edits|
      invariant After(original, edits, i, userConfig, configEdits)
    {
      AfterStep(original, edits, i, userConfig, configEdits);
      var applied := ApplyEdit(userConfig, edits[i]);
      if applied.Err? {
        return Err(applied.error);
      }
      userConfig, configEdits := applied.value.0, configEdits + applied.value.1;
    }
    AfterAll(original, edits, userConfig, configEdits);
    r := Ok((userConfig, configEdits));
  }
}
