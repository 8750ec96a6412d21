/**
 * The file that an edited document is written to: implicit sections are printed only as far as
 * something in them is, so that one left empty is gone when the file is read again.
 */
module ConfigFile {
  import opened ConfigEdits
  import opened Wrappers

  // ---------------------------------------------------------------------------------------
  // What is printed
  // ---------------------------------------------------------------------------------------

  /** Some line of the file comes from it. */
  predicate Shown(d: Doc) {
    match d
    case Section(entries, implicit) => !implicit || exists key | key in entries :: Shown(entries[key])
    case Inline(_) => true
    case Tables(tables) => tables != []
  }

  /** What the printed file says. */
  function Printed(d: Doc): Toml {
    match d
    case Section(entries, _) => Table(map key | key in entries && Shown(entries[key]) :: Printed(entries[key]))
    case Inline(value) => value
    case Tables(tables) => Array(seq(|tables|, i requires 0 <= i < |tables| => Printed(tables[i])))
  }

  /** Everything in it is printed. */
  predicate Solid(d: Doc) {
    match d
    case Section(entries, _) => forall key | key in entries :: Shown(entries[key]) && Solid(entries[key])
    case Inline(_) => true
    case Tables(tables) => forall i | 0 <= i < |tables| :: Solid(tables[i])
  }

  /** The file says what the document says exactly if nothing in the document is hidden. */
  lemma {:induction false} PrintedExactly(d: Doc)
    ensures Printed(d) == Content(d) <==> Solid(d)
    decreases d
  {
    match d
    case Section(entries, _) =>
      var printed, content := Printed(d).entries, Content(d).entries;
      forall key | key in entries
        ensures Printed(entries[key]) == Content(entries[key]) <==> Solid(entries[key])
      {
        PrintedExactly(entries[key]);
      }
      if printed == content {
        forall key | key in entries ensures Shown(entries[key]) && Solid(entries[key]) {
          assert key in content;
          assert printed[key] == content[key];
        }
      }
      if Solid(d) {
        assert printed.Keys == content.Keys;
      }
    case Inline(_) =>
    case Tables(tables) =>
      var printed, content := Printed(d).items, Content(d).items;
      forall i | 0 <= i < |tables|
        ensures printed[i] == content[i] <==> Solid(tables[i])
      {
        PrintedExactly(tables[i]);
      }
  }

  // ---------------------------------------------------------------------------------------
  // What an edit leaves
  // ---------------------------------------------------------------------------------------

  lemma {:induction false} ItemSolid(value: Toml)
    ensures Shown(ItemOf(value)) && Solid(ItemOf(value))
    decreases value
  {
    if value.Table? {
      forall key | key in value.entries ensures Shown(ItemOf(value.entries[key])) && Solid(ItemOf(value.entries[key])) {
        ItemSolid(value.entries[key]);
      }
    }
  }

  predicate AllSolid(entries: map<string, Doc>) {
    forall key | key in entries :: Shown(entries[key]) && Solid(entries[key])
  }

  lemma TableSolid(d: Doc)
    requires Solid(d)
    ensures TableForWrite(d).Some? ==> AllSolid(TableForWrite(d).value)
  {
  }

  /** A section with one more entry that is printed. */
  lemma PutSolid(entries: map<string, Doc>, key: string, child: Doc, implicit: bool)
    requires AllSolid(entries) && Shown(child) && Solid(child)
    ensures Shown(Section(entries[key := child], implicit)) && Solid(Section(entries[key := child], implicit))
  {
    assert key in entries[key := child];
  }

  /** An insertion leaves nothing hidden. */
  lemma {:induction false} InsertSolid(d: Doc, path: seq<string>, value: Toml)
    requires path != [] && Solid(d) && Insert(d, path, ItemOf(value)).Some?
    ensures var after := Insert(d, path, ItemOf(value)).value; Shown(after) && Solid(after)
    decreases |path|
  {
    TableSolid(d);
    var entries := TableForWrite(d).value;
    if |path| == 1 {
      ItemSolid(value);
      PutSolid(entries, path[0], ItemOf(value), Implicit(d));
    } else {
      var child := Subsection(entries, path[0]);
      InsertSolid(child, path[1..], value);
      PutSolid(entries, path[0], Insert(child, path[1..], ItemOf(value)).value, Implicit(d));
    }
  }

  /** The key holds all that an implicit section has. */
  predicate HoldsAll(d: Doc, key: string) {
    Implicit(d) && TableForRead(d).Some? && TableForRead(d).value.Keys == {key}
  }

  /** Below the top, the path ends at the only entry of an implicit section or an inline table. */
  predicate Hollows(d: Doc, path: seq<string>)
    decreases |path|
  {
    && |path| > 1 && TableForRead(d).Some? && path[0] in TableForRead(d).value
    && var child := TableForRead(d).value[path[0]];
       if |path| == 2 then HoldsAll(child, path[1]) else Hollows(child, path[1..])
  }

  lemma TakeSolid(entries: map<string, Doc>, key: string, implicit: bool)
    requires AllSolid(entries)
    ensures Solid(Section(entries - {key}, implicit))
    ensures Shown(Section(entries - {key}, implicit)) <==> !implicit || exists other :: other in entries && other != key
  {
    var rest := entries - {key};
    if exists other :: other in entries && other != key {
      var other :| other in entries && other != key;
      assert other in rest && Shown(rest[other]);
    }
  }

  lemma OnlyKey(entries: map<string, Doc>, key: string)
    requires key in entries
    ensures entries.Keys == {key} <==> !exists other :: other in entries && other != key
  {
  }

  lemma LastSolid(d: Doc, key: string)
    requires Solid(d) && TableForRead(d).Some? && key in TableForRead(d).value
    ensures var after := Remove(d, [key]).0; Solid(after) && (Shown(after) <==> !HoldsAll(d, key))
  {
    TableSolid(d);
    var entries := TableForRead(d).value;
    TakeSolid(entries, key, Implicit(d));
    OnlyKey(entries, key);
  }

  /** A removal hides something exactly if it takes the only entry of an implicit section. */
  lemma {:induction false} RemoveSolid(d: Doc, path: seq<string>)
    requires path != [] && Solid(d) && Remove(d, path).1
    ensures Solid(Remove(d, path).0) <==> !Hollows(d, path)
    ensures |path| > 1 && !Hollows(d, path) ==> Shown(Remove(d, path).0)
    decreases |path|
  {
    TableSolid(d);
    var entries := TableForRead(d).value;
    if |path| == 1 {
      assert path == [path[0]];
      LastSolid(d, path[0]);
    } else {
      var child := entries[path[0]];
      RemoveSolid(child, path[1..]);
      var after := Remove(child, path[1..]).0;
      if |path| == 2 {
        assert path[1..] == [path[1]];
        LastSolid(child, path[1]);
      }
      if !Hollows(d, path) {
        PutSolid(entries, path[0], after, Implicit(d));
      } else {
        assert Remove(d, path).0.entries[path[0]] == after;
      }
    }
  }

  lemma {:induction false} HollowsIsThere(d: Doc, path: seq<string>)
    requires Hollows(d, path)
    ensures TableRead(Content(d), path).Some?
    decreases |path|
  {
    TableForWriteContent(d);
    var child := TableForRead(d).value[path[0]];
    assert Contents(TableForRead(d).value)[path[0]] == Content(child);
    if |path| == 2 {
      TableForWriteContent(child);
      OneSegment(Content(child), path[1..]);
      assert path[1] in Contents(TableForRead(child).value);
    } else {
      HollowsIsThere(child, path[1..]);
    }
  }

  // ---------------------------------------------------------------------------------------
  // What the file says after a write
  // ---------------------------------------------------------------------------------------

  /** The file keeps up with a write: the document does, and no section is left empty and implicit. */
  predicate Lasting(d: Doc, path: seq<string>, value: Option<Toml>) {
    Faithful(d, path, value) && (value.None? ==> !Hollows(d, path))
  }

  lemma {:induction false} ReadIsTableRead(t: Toml, path: seq<string>)
    requires !ThroughArray(t, path)
    ensures Read(t, path) == TableRead(t, path)
  {
    if path != [] && t.Table? && path[0] in t.entries {
      ReadIsTableRead(t.entries[path[0]], path[1..]);
    }
  }

  lemma ClearSaved(d: Doc, path: seq<string>)
    requires Solid(d) && Clear(Content(d), path).Ok?
    ensures path != []
    ensures var log := LogEdit(Content(d), Clear(Content(d), path).value, path);
      Solid(Replay(d, log)) <==> !Hollows(d, path)
  {
    var t := Content(d);
    var log := LogEdit(t, Clear(t, path).value, path);
    ReadAfterClear(t, path);
    ClearAvoidsArrays(t, path);
    ReadIsTableRead(t, path);
    RemoveTakes(d, path);
    if log == [] {
      if Hollows(d, path) {
        HollowsIsThere(d, path);
      }
    } else {
      assert log == [ClearPath(path)] && log[1..] == [];
      RemoveSolid(d, path);
    }
  }

  lemma SetSaved(d: Doc, path: seq<string>, value: Toml, strategy: MergeStrategy)
    requires Solid(d) && Merge(Content(d), path, value, strategy).Ok?
    ensures path != []
    ensures var log := LogEdit(Content(d), Merge(Content(d), path, value, strategy).value, path);
      Solid(Replay(d, log))
  {
    var t := Content(d);
    var after := Merge(t, path, value, strategy).value;
    var log := LogEdit(t, after, path);
    ReadAfterMerge(t, path, value, strategy);
    if log != [] {
      var stored := Stored(t, path, value, strategy);
      assert log == [SetPath(path, stored)] && log[1..] == [];
      if Insert(d, path, ItemOf(stored)).Some? {
        InsertSolid(d, path, stored);
      }
    }
  }

  /** From a document with nothing hidden: the file says what the config says exactly after a lasting write. */
  lemma SavedExactly(d: Doc, path: seq<string>, value: Option<Toml>, strategy: MergeStrategy)
    requires Solid(d) && Write(Content(d), path, value, strategy).Ok?
    ensures path != []
    ensures var after := Write(Content(d), path, value, strategy).value;
      Printed(Replay(d, LogEdit(Content(d), after, path))) == after <==> Lasting(d, path, value)
  {
    var after := Write(Content(d), path, value, strategy).value;
    EditLogExact(d, path, value, strategy);
    var replayed := Replay(d, LogEdit(Content(d), after, path));
    PrintedExactly(replayed);
    if value.Some? {
      SetSaved(d, path, value.value, strategy);
    } else {
      ClearSaved(d, path);
      ClearAvoidsArrays(Content(d), path);
      if ThroughTables(d, path) {
        TablesAreArrays(d, path);
      }
    }
  }

  /** A batch is saved exactly if the document that it leaves hides nothing. */
  lemma BatchSaved(d: Doc, edits: seq<Edit>)
    requires ApplyAll(Content(d), edits).Ok? && AllFaithful(d, edits)
    ensures forall e | e in LogAll(Content(d), edits) :: Replayable(e)
    ensures var left := Replay(d, LogAll(Content(d), edits));
      Printed(left) == ApplyAll(Content(d), edits).value <==> Solid(left)
  {
    BatchReplays(d, edits);
    PrintedExactly(Replay(d, LogAll(Content(d), edits)));
  }

  predicate AllLasting(d: Doc, edits: seq<Edit>)
    decreases |edits|
  {
    edits != [] && ApplyOne(Content(d), edits[0]).Ok? ==>
      && Lasting(d, SplitDots(edits[0].keyPath), edits[0].value.value)
      && AllLasting(Followed(d, edits[0]), edits[1..])
  }

  /** The file would say what the config says after each edit of the batch. */
  predicate SavedThroughout(d: Doc, edits: seq<Edit>)
    decreases |edits|
  {
    edits != [] && ApplyOne(Content(d), edits[0]).Ok? ==>
      && Printed(Followed(d, edits[0])) == ApplyOne(Content(d), edits[0]).value
      && SavedThroughout(Followed(d, edits[0]), edits[1..])
  }

  /** Over every batch: the file keeps up exactly with the edits of a lasting batch. */
  lemma {:induction false} BatchSavedExactly(d: Doc, edits: seq<Edit>)
    requires Solid(d)
    ensures SavedThroughout(d, edits) <==> AllLasting(d, edits)
    decreases |edits|
  {
    if edits != [] && ApplyOne(Content(d), edits[0]).Ok? {
      var path, value := SplitDots(edits[0].keyPath), edits[0].value.value;
      SavedExactly(d, path, value, edits[0].strategy);
      if Lasting(d, path, value) {
        EditLogExact(d, path, value, edits[0].strategy);
        PrintedExactly(Followed(d, edits[0]));
        BatchSavedExactly(Followed(d, edits[0]), edits[1..]);
      }
    }
  }

  /** Replaying the log of a lasting batch leaves a document that hides nothing. */
  lemma {:induction false} LastingLeavesSolid(d: Doc, edits: seq<Edit>)
    requires Solid(d) && ApplyAll(Content(d), edits).Ok? && AllLasting(d, edits)
    ensures AllFaithful(d, edits)
    ensures forall e | e in LogAll(Content(d), edits) :: Replayable(e)
    ensures Solid(Replay(d, LogAll(Content(d), edits)))
    decreases |edits|
  {
    if edits != [] {
      var edit := edits[0];
      var t, path := Content(d), SplitDots(edit.keyPath);
      var after := ApplyOne(t, edit).value;
      EditLogExact(d, path, edit.value.value, edit.strategy);
      SavedExactly(d, path, edit.value.value, edit.strategy);
      PrintedExactly(Followed(d, edit));
      LastingLeavesSolid(Followed(d, edit), edits[1..]);
      ReplayConcat(d, LogEdit(t, after, path), LogAll(after, edits[1..]));
    }
  }

  /** So the file that a lasting batch leaves says what the config in memory says. */
  lemma LastingBatchSaved(d: Doc, edits: seq<Edit>)
    requires Solid(d) && ApplyAll(Content(d), edits).Ok? && AllLasting(d, edits)
    ensures forall e | e in LogAll(Content(d), edits) :: Replayable(e)
    ensures Printed(Replay(d, LogAll(Content(d), edits))) == ApplyAll(Content(d), edits).value
  {
    LastingLeavesSolid(d, edits);
    BatchSaved(d, edits);
  }

  /**
   * The only value of an inline table cleared: the config keeps the empty table, in which the
   * path can be cleared again, and the file has no table, in which it cannot.
   */
  lemma ClearedTableIsLost()
    ensures var d := Section(map["a" := Inline(Table(map["b" := Leaf("1")]))], false);
      var path := ["a", "b"];
      var r := Clear(Content(d), path);
      && Solid(d) && r == Ok(Table(map["a" := Table(map[])]))
      && LogEdit(Content(d), r.value, path) == [ClearPath(path)]
      && Printed(Replay(d, [ClearPath(path)])) == Table(map[])
      && Clear(r.value, path) == r
      && Clear(Table(map[]), path) == Err(PathNotFound)
  {
    var inner := Table(map["b" := Leaf("1")]);
    var d := Section(map["a" := Inline(inner)], false);
    var path := ["a", "b"];
    assert path[1..] == ["b"] && path[1..][1..] == [];
    assert Content(d) == Table(map["a" := inner]);
    assert inner.entries - {"b"} == map[];
    var emptied: Toml := Table(map[]);
    assert Clear(inner, ["b"]) == Ok(emptied) && Clear(emptied, ["b"]) == Ok(emptied);
    assert Content(d).entries["a" := emptied] == map["a" := emptied];
    assert emptied.entries - {"b"} == map[];
    assert Read(inner, ["b"]) == Some(Leaf("1"));
    assert Read(emptied, ["b"]) == None;
    var after: Toml := Table(map["a" := emptied]);
    assert after.entries["a" := emptied] == after.entries;
    var hollow := Section(map[], true);
    assert TableForRead(Inline(inner)).value - {"b"} == map[];
    assert Remove(Inline(inner), ["b"]).0 == hollow;
    assert d.entries["a" := hollow] == map["a" := hollow];
    assert !Shown(hollow);
    assert [ClearPath(path)][1..] == [];
    assert Printed(Section(map["a" := hollow], false)).entries == map[];
  }
}
