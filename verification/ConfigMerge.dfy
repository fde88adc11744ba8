/** Merging a directory of config files: every top-level key and every task may be
    defined by one file only, and the order of the files must not matter. */
module ConfigMerge {
  import opened Text

  datatype Value = Scalar(text: string) | Table(entries: seq<(string, Value)>)

  /** A parsed file: its top-level entries, in the order the parser yields them. */
  datatype File = File(name: string, entries: seq<(string, Value)>)

  /** The merged table; `tasks` is there once some file has the key. */
  datatype Merged = Merged(top: map<string, Value>, tasks: Option<map<string, Value>>)

  datatype Error = NoFiles | TasksNotTable(file: string) | Duplicate(owner: string, file: string, prev: string)
  datatype Result = Ok(merged: Merged) | Err(error: Error)

  /** One thing a file defines. `owner` is the name under which it may be defined once. */
  datatype Definition = Definition(owner: string, isTask: bool, name: string, value: Value)

  function TaskOwner(name: string): string { "tasks." + name }

  function TaskDefs(tasks: seq<(string, Value)>): seq<Definition> {
    if tasks == [] then []
    else TaskDefs(tasks[..|tasks| - 1]) + [TaskDef(tasks[|tasks| - 1])]
  }

  function TaskDef(task: (string, Value)): Definition {
    Definition(TaskOwner(task.0), true, task.0, task.1)
  }

  function EntryDefs(e: (string, Value)): seq<Definition> {
    if e.0 != "tasks" then [Definition(e.0, false, e.0, e.1)]
    else if e.1.Table? then TaskDefs(e.1.entries)
    else []
  }

  function FileDefs(entries: seq<(string, Value)>): seq<Definition> {
    if entries == [] then [] else FileDefs(entries[..|entries| - 1]) + EntryDefs(entries[|entries| - 1])
  }

  function AllDefs(files: seq<File>): seq<Definition> {
    if files == [] then [] else AllDefs(files[..|files| - 1]) + FileDefs(files[|files| - 1].entries)
  }

  /** Every owner is defined once. */
  predicate Distinct(defs: seq<Definition>) {
    forall i, j :: 0 <= i < j < |defs| ==> defs[i].owner != defs[j].owner
  }

  predicate EntryFits(e: (string, Value)) { e.0 == "tasks" ==> e.1.Table? }

  predicate TasksAreTables(files: seq<File>) {
    forall f, k :: f in files && 0 <= k < |f.entries| ==> EntryFits(f.entries[k])
  }

  predicate EntriesHaveTasks(entries: seq<(string, Value)>) {
    exists k :: 0 <= k < |entries| && entries[k].0 == "tasks"
  }

  predicate HaveTasks(files: seq<File>) {
    exists f :: f in files && EntriesHaveTasks(f.entries)
  }

  /** What the definitions of one namespace map their names to. */
  function Collected(defs: seq<Definition>, tasks: bool): map<string, Value> {
    if defs == [] then map[]
    else
      var (last, rest) := (defs[|defs| - 1], Collected(defs[..|defs| - 1], tasks));
      if last.isTask == tasks then rest[last.name := last.value] else rest
  }

  function Union(files: seq<File>): Merged {
    Merged(Collected(AllDefs(files), false), if HaveTasks(files) then Some(Collected(AllDefs(files), true)) else None)
  }

  ghost predicate OwnersAre(owners: map<string, string>, defs: seq<Definition>) {
    forall o :: o in owners <==> exists k :: 0 <= k < |defs| && defs[k].owner == o
  }

  predicate IsOwned(defs: seq<Definition>, o: string) {
    exists k :: 0 <= k < |defs| && defs[k].owner == o
  }

  /** `more` is `owners` with some of what `defs` define, owned by `file`. */
  ghost predicate IsExtended(owners: map<string, string>, more: map<string, string>, file: string, defs: seq<Definition>) {
    forall o :: o in more ==> (o in owners && more[o] == owners[o]) || (more[o] == file && IsOwned(defs, o))
  }

  /** A failure in `file` names a thing that `file` defines and who defined it before: an
      earlier file, or the file itself if it defines the thing twice. */
  predicate IsExplained(error: Error, owners: map<string, string>, file: string, defs: seq<Definition>, fits: bool) {
    match error
    case NoFiles => false
    case TasksNotTable(f) => f == file && !fits
    case Duplicate(o, f, prev) =>
      f == file && IsOwned(defs, o) && ((o in owners && owners[o] == prev) || (prev == file && !Distinct(defs)))
  }

  /** What holds of part of a file's definitions holds of the file's. */
  lemma ExplainedFurther(error: Error, owners: map<string, string>, now: map<string, string>, file: string,
                         before: seq<Definition>, here: seq<Definition>, all: seq<Definition>, fits: bool, allFit: bool)
    requires IsExtended(owners, now, file, before) && IsExplained(error, now, file, here, fits)
    requires before + here <= all && (allFit ==> fits)
    ensures IsExplained(error, owners, file, all, allFit)
  {
    if error.Duplicate? {
      var o := error.owner;
      var k :| 0 <= k < |here| && here[k].owner == o;
      assert all[|before| + k] == (before + here)[|before| + k] == here[k];
      if !(o in owners && owners[o] == error.prev) {
        if o in now && now[o] == error.prev {
          var j :| 0 <= j < |before| && before[j].owner == o;
          assert all[j] == (before + here)[j] == before[j];
        } else {
          HereClashes(before, here, all);
        }
      }
    }
  }

  lemma HereClashes(before: seq<Definition>, here: seq<Definition>, all: seq<Definition>)
    requires before + here <= all && !Distinct(here)
    ensures !Distinct(all)
  {
    var i, j :| 0 <= i < j < |here| && here[i].owner == here[j].owner;
    assert all[|before| + i] == (before + here)[|before| + i] && all[|before| + j] == (before + here)[|before| + j];
  }

  lemma ExtendedFurther(owners: map<string, string>, now: map<string, string>, more: map<string, string>, file: string,
                        before: seq<Definition>, here: seq<Definition>)
    requires IsExtended(owners, now, file, before) && IsExtended(now, more, file, here)
    ensures IsExtended(owners, more, file, before + here)
  {
    OwnedJoin(before, here);
  }

  lemma OwnedJoin(a: seq<Definition>, b: seq<Definition>)
    ensures forall o :: IsOwned(a, o) || IsOwned(b, o) ==> IsOwned(a + b, o)
  {
    assert forall k :: 0 <= k < |a| ==> (a + b)[k] == a[k];
    assert forall k :: 0 <= k < |b| ==> (a + b)[|a| + k] == b[k];
  }

  lemma CollectedSnoc(defs: seq<Definition>, d: Definition, tasks: bool)
    ensures Collected(defs + [d], tasks)
            == if d.isTask == tasks then Collected(defs, tasks)[d.name := d.value] else Collected(defs, tasks)
  {
    assert (defs + [d])[..|defs|] == defs;
  }

  /** Defining one more thing: what the loops do at every key. */
  method Define(owners: map<string, string>, ghost defs: seq<Definition>, d: Definition, file: string)
    returns (owners': map<string, string>, prev: Option<string>)
    requires OwnersAre(owners, defs) && Distinct(defs)
    ensures prev.None? <==> Distinct(defs + [d])
    ensures prev.None? ==> OwnersAre(owners', defs + [d])
    ensures if prev.None? then IsExtended(owners, owners', file, [d])
            else d.owner in owners && owners[d.owner] == prev.value
  {
    assert IsOwned([d], d.owner) by { assert [d][0] == d; }
    owners', prev := owners, None;
    if d.owner in owners {
      prev := Some(owners[d.owner]);
      ghost var k :| 0 <= k < |defs| && defs[k].owner == d.owner;
      assert (defs + [d])[k].owner == (defs + [d])[|defs|].owner;
    } else {
      owners' := owners[d.owner := file];
      assert (defs + [d])[|defs|] == d;
      forall o ensures o in owners' <==> exists k :: 0 <= k < |defs + [d]| && (defs + [d])[k].owner == o {
        if o in owners {
          var k :| 0 <= k < |defs| && defs[k].owner == o;
          assert (defs + [d])[k].owner == o;
        }
        if k :| 0 <= k < |defs + [d]| && (defs + [d])[k].owner == o && k < |defs| {
          assert defs[k].owner == o;
        }
      }
    }
  }

  /** The loops' variables: who owns what, the merged top level, and the merged tasks. */
  datatype Accumulated = Accumulated(owners: map<string, string>, top: map<string, Value>, tasks: Option<map<string, Value>>)

  ghost predicate Holds(acc: Accumulated, defs: seq<Definition>, hasTasks: bool) {
    && Distinct(defs) && OwnersAre(acc.owners, defs)
    && acc.top == Collected(defs, false)
    && (acc.tasks.Some? <==> hasTasks)
    && (if hasTasks then acc.tasks.value == Collected(defs, true) else Collected(defs, true) == map[])
  }

  /** One file's tasks. */
  method MergeTasks(tasks: seq<(string, Value)>, file: string, acc: Accumulated, ghost defs: seq<Definition>)
    returns (r: Accumulated, failure: Option<Error>)
    requires Holds(acc, defs, true)
    ensures failure.None? <==> Distinct(defs + TaskDefs(tasks))
    ensures failure.None? ==> Holds(r, defs + TaskDefs(tasks), true)
    ensures if failure.None? then IsExtended(acc.owners, r.owners, file, TaskDefs(tasks))
            else IsExplained(failure.value, acc.owners, file, TaskDefs(tasks), true)
  {
    r, failure := acc, None;
    assert defs + [] == defs;
    for k := 0 to |tasks|
      invariant Holds(r, defs + TaskDefs(tasks[..k]), true)
      invariant failure.None? && IsExtended(acc.owners, r.owners, file, TaskDefs(tasks[..k]))
    {
      ghost var before := TaskDefs(tasks[..k]);
      var d := TaskDef(tasks[k]);
      assert tasks[..k + 1][..k] == tasks[..k];
      assert TaskDefs(tasks[..k + 1]) == before + [d];
      assert defs + (before + [d]) == (defs + before) + [d];
      var owners, prev := Define(r.owners, defs + before, d, file);
      if prev.Some? {
        failure := Some(Duplicate(d.owner, file, prev.value));
        TaskDefsPrefix(tasks, k + 1);
        assert IsOwned([d], d.owner) by { assert [d][0] == d; }
        ExplainedFurther(failure.value, acc.owners, r.owners, file, before, [d], TaskDefs(tasks), true, true);
        PrefixClashes(defs + TaskDefs(tasks[..k + 1]), defs + TaskDefs(tasks));
        return;
      }
      ExtendedFurther(acc.owners, r.owners, owners, file, before, [d]);
      CollectedSnoc(defs + before, d, true);
      CollectedSnoc(defs + before, d, false);
      r := Accumulated(owners, r.top, Some(r.tasks.value[d.name := d.value]));
    }
    assert tasks[..|tasks|] == tasks;
  }

  /** One top-level entry. */
  method MergeEntry(e: (string, Value), file: string, acc: Accumulated, ghost defs: seq<Definition>, ghost hasTasks: bool)
    returns (r: Accumulated, failure: Option<Error>)
    requires Holds(acc, defs, hasTasks)
    ensures failure.None? <==> EntryFits(e) && Distinct(defs + EntryDefs(e))
    ensures failure.None? ==> Holds(r, defs + EntryDefs(e), hasTasks || e.0 == "tasks")
    ensures if failure.None? then IsExtended(acc.owners, r.owners, file, EntryDefs(e))
            else IsExplained(failure.value, acc.owners, file, EntryDefs(e), EntryFits(e))
  {
    r, failure := acc, None;
    if e.0 == "tasks" {
      if !e.1.Table? { return r, Some(TasksNotTable(file)); }
      r := acc.(tasks := if acc.tasks.Some? then acc.tasks else Some(map[]));
      r, failure := MergeTasks(e.1.entries, file, r, defs);
    } else {
      ghost var d := Definition(e.0, false, e.0, e.1);
      var owners, prev := Define(acc.owners, defs, Definition(e.0, false, e.0, e.1), file);
      if prev.Some? {
        assert IsOwned(EntryDefs(e), e.0) by { assert EntryDefs(e)[0] == d; }
        return r, Some(Duplicate(e.0, file, prev.value));
      }
      CollectedSnoc(defs, d, true);
      CollectedSnoc(defs, d, false);
      r := Accumulated(owners, acc.top[e.0 := e.1], acc.tasks);
    }
  }

  predicate AllFit(entries: seq<(string, Value)>) {
    forall k :: 0 <= k < |entries| ==> EntryFits(entries[k])
  }

  /** A file merged up to entry `k`: from `acc` to `r`. */
  ghost predicate IsMergedUpTo(f: File, acc: Accumulated, r: Accumulated, defs: seq<Definition>, hasTasks: bool, k: nat)
    requires k <= |f.entries|
  {
    && AllFit(f.entries[..k])
    && Holds(r, defs + FileDefs(f.entries[..k]), hasTasks || EntriesHaveTasks(f.entries[..k]))
    && IsExtended(acc.owners, r.owners, f.name, FileDefs(f.entries[..k]))
  }

  lemma MergedFurther(f: File, acc: Accumulated, now: Accumulated, r: Accumulated, defs: seq<Definition>, hasTasks: bool, k: nat)
    requires k < |f.entries| && IsMergedUpTo(f, acc, now, defs, hasTasks, k) && EntryFits(f.entries[k])
    requires Holds(r, defs + FileDefs(f.entries[..k]) + EntryDefs(f.entries[k]),
                   (hasTasks || EntriesHaveTasks(f.entries[..k])) || f.entries[k].0 == "tasks")
    requires IsExtended(now.owners, r.owners, f.name, EntryDefs(f.entries[k]))
    ensures IsMergedUpTo(f, acc, r, defs, hasTasks, k + 1)
  {
    DefsUpTo(f.entries, k, defs);
    EntriesSnoc(f.entries, k);
    ExtendedFurther(acc.owners, now.owners, r.owners, f.name, FileDefs(f.entries[..k]), EntryDefs(f.entries[k]));
  }

  /** One file. */
  method MergeFile(f: File, acc: Accumulated, ghost defs: seq<Definition>, ghost hasTasks: bool)
    returns (r: Accumulated, failure: Option<Error>)
    requires Holds(acc, defs, hasTasks)
    ensures failure.None? <==> AllFit(f.entries) && Distinct(defs + FileDefs(f.entries))
    ensures failure.None? ==> Holds(r, defs + FileDefs(f.entries), hasTasks || EntriesHaveTasks(f.entries))
    ensures if failure.None? then IsExtended(acc.owners, r.owners, f.name, FileDefs(f.entries))
            else IsExplained(failure.value, acc.owners, f.name, FileDefs(f.entries), AllFit(f.entries))
  {
    r, failure := acc, None;
    assert defs + [] == defs;
    for k := 0 to |f.entries|
      invariant failure.None? && IsMergedUpTo(f, acc, r, defs, hasTasks, k)
    {
      ghost var now := r;
      ghost var had := hasTasks || EntriesHaveTasks(f.entries[..k]);
      r, failure := MergeEntry(f.entries[k], f.name, r, defs + FileDefs(f.entries[..k]), had);
      if failure.Some? {
        EntryStopsFile(f.entries, k, defs);
        EntryExplains(failure.value, acc.owners, now.owners, f, k);
        return;
      }
      MergedFurther(f, acc, now, r, defs, hasTasks, k);
    }
    assert f.entries[..|f.entries|] == f.entries;
  }

  lemma DefsUpTo(entries: seq<(string, Value)>, k: nat, defs: seq<Definition>)
    requires k < |entries|
    ensures defs + FileDefs(entries[..k + 1]) == (defs + FileDefs(entries[..k])) + EntryDefs(entries[k])
  {
    EntriesSnoc(entries, k);
    Associates(defs, FileDefs(entries[..k]), EntryDefs(entries[k]));
  }

  lemma EntryExplains(error: Error, owners: map<string, string>, now: map<string, string>, f: File, k: nat)
    requires k < |f.entries| && IsExtended(owners, now, f.name, FileDefs(f.entries[..k]))
    requires IsExplained(error, now, f.name, EntryDefs(f.entries[k]), EntryFits(f.entries[k]))
    ensures IsExplained(error, owners, f.name, FileDefs(f.entries), AllFit(f.entries))
  {
    EntriesSnoc(f.entries, k);
    FileDefsPrefix(f.entries, k + 1);
    ExplainedFurther(error, owners, now, f.name, FileDefs(f.entries[..k]), EntryDefs(f.entries[k]), FileDefs(f.entries),
                     EntryFits(f.entries[k]), AllFit(f.entries));
  }

  /** An entry that cannot be merged leaves the file unmergeable. */
  lemma EntryStopsFile(entries: seq<(string, Value)>, k: nat, defs: seq<Definition>)
    requires k < |entries|
    requires !(EntryFits(entries[k]) && Distinct((defs + FileDefs(entries[..k])) + EntryDefs(entries[k])))
    ensures !(AllFit(entries) && Distinct(defs + FileDefs(entries)))
  {
    if EntryFits(entries[k]) {
      EntriesSnoc(entries, k);
      FileDefsPrefix(entries, k + 1);
      Associates(defs, FileDefs(entries[..k]), EntryDefs(entries[k]));
      PrefixClashes(defs + FileDefs(entries[..k + 1]), defs + FileDefs(entries));
    }
  }

  lemma EntriesSnoc(entries: seq<(string, Value)>, k: nat)
    requires k < |entries|
    ensures FileDefs(entries[..k + 1]) == FileDefs(entries[..k]) + EntryDefs(entries[k])
    ensures AllFit(entries[..k + 1]) <==> AllFit(entries[..k]) && EntryFits(entries[k])
    ensures EntriesHaveTasks(entries[..k + 1]) <==> EntriesHaveTasks(entries[..k]) || entries[k].0 == "tasks"
  {
    var more := entries[..k + 1];
    assert more[..k] == entries[..k] && more[k] == entries[k];
    assert forall j :: 0 <= j < k ==> more[j] == entries[..k][j];
    if EntriesHaveTasks(entries[..k]) {
      var j :| 0 <= j < k && entries[..k][j].0 == "tasks";
      assert more[j].0 == "tasks";
    }
  }

  lemma FilesSnoc(files: seq<File>, k: nat)
    requires k < |files|
    ensures AllDefs(files[..k + 1]) == AllDefs(files[..k]) + FileDefs(files[k].entries)
    ensures HaveTasks(files[..k + 1]) <==> HaveTasks(files[..k]) || EntriesHaveTasks(files[k].entries)
    ensures TasksAreTables(files[..k + 1]) <==> TasksAreTables(files[..k]) && AllFit(files[k].entries)
  {
    var more := files[..k + 1];
    assert more[..k] == files[..k] && more[k] == files[k];
    assert forall f :: f in more <==> f in files[..k] || f == files[k];
  }

  /** File `i` goes by `name` and defines `o`. */
  predicate Defines(files: seq<File>, i: nat, name: string, o: string)
    requires i < |files|
  {
    files[i].name == name && IsOwned(FileDefs(files[i].entries), o)
  }

  /** A file that goes by `name` defines `o`. */
  predicate IsTraced(files: seq<File>, name: string, o: string) {
    exists i :: 0 <= i < |files| && Defines(files, i, name, o)
  }

  predicate AllTraced(owners: map<string, string>, files: seq<File>) {
    forall o :: o in owners ==> IsTraced(files, owners[o], o)
  }

  predicate Merges(files: seq<File>) {
    TasksAreTables(files) && Distinct(AllDefs(files))
  }

  /** The error is about the first file that stops the merge, and true: its `tasks` is no
      table, or it defines what the earlier file named, or it itself, defines too. */
  predicate IsAbout(error: Error, files: seq<File>, k: nat)
    requires k < |files|
  {
    && Merges(files[..k]) && !Merges(files[..k + 1])
    && match error
       case NoFiles => false
       case TasksNotTable(f) => files[k].name == f && !AllFit(files[k].entries)
       case Duplicate(o, f, prev) =>
         Defines(files, k, f, o) &&
         (IsTraced(files[..k], prev, o) || (prev == f && !Distinct(FileDefs(files[k].entries))))
  }

  lemma FileStopsDir(error: Error, owners: map<string, string>, files: seq<File>, k: nat)
    requires k < |files| && AllTraced(owners, files[..k]) && Merges(files[..k])
    requires IsExplained(error, owners, files[k].name, FileDefs(files[k].entries), AllFit(files[k].entries))
    requires !(AllFit(files[k].entries) && Distinct(AllDefs(files[..k]) + FileDefs(files[k].entries)))
    ensures IsAbout(error, files, k)
  {
    FilesSnoc(files, k);
  }

  lemma TracedFurther(owners: map<string, string>, more: map<string, string>, files: seq<File>, k: nat)
    requires k < |files| && AllTraced(owners, files[..k])
    requires IsExtended(owners, more, files[k].name, FileDefs(files[k].entries))
    ensures AllTraced(more, files[..k + 1])
  {
    var longer := files[..k + 1];
    assert forall i :: 0 <= i < k ==> longer[i] == files[..k][i];
    forall o | o in more ensures IsTraced(longer, more[o], o) {
      if o in owners && more[o] == owners[o] {
        var i :| 0 <= i < k && Defines(files[..k], i, owners[o], o);
        assert Defines(longer, i, more[o], o);
      } else {
        assert Defines(longer, k, more[o], o);
      }
    }
  }

  predicate IsReason(error: Error, files: seq<File>) {
    if files == [] then error == NoFiles else exists k :: 0 <= k < |files| && IsAbout(error, files, k)
  }

  /** A prefix that does not merge is a directory that does not. */
  lemma PrefixStopsDir(files: seq<File>, k: nat)
    requires k <= |files| && !Merges(files[..k])
    ensures !Merges(files)
  {
    if TasksAreTables(files[..k]) {
      AllDefsPrefix(files, k);
      PrefixClashes(AllDefs(files[..k]), AllDefs(files));
    }
  }

  lemma MergesFurther(files: seq<File>, k: nat)
    requires k < |files|
    ensures Merges(files[..k + 1]) <==>
            TasksAreTables(files[..k]) && AllFit(files[k].entries) && Distinct(AllDefs(files[..k]) + FileDefs(files[k].entries))
  {
    FilesSnoc(files, k);
  }

  /** The directory merged up to file `k`. */
  ghost predicate IsDirUpTo(acc: Accumulated, files: seq<File>, k: nat)
    requires k <= |files|
  {
    && Merges(files[..k])
    && Holds(acc, AllDefs(files[..k]), HaveTasks(files[..k]))
    && AllTraced(acc.owners, files[..k])
  }

  lemma DirFurther(acc: Accumulated, now: Accumulated, files: seq<File>, k: nat)
    requires k < |files| && IsDirUpTo(now, files, k) && AllFit(files[k].entries)
    requires Holds(acc, AllDefs(files[..k]) + FileDefs(files[k].entries),
                   HaveTasks(files[..k]) || EntriesHaveTasks(files[k].entries))
    requires IsExtended(now.owners, acc.owners, files[k].name, FileDefs(files[k].entries))
    ensures IsDirUpTo(acc, files, k + 1)
  {
    FilesSnoc(files, k);
    TracedFurther(now.owners, acc.owners, files, k);
  }

  lemma DirStops(error: Error, now: Accumulated, files: seq<File>, k: nat)
    requires k < |files| && IsDirUpTo(now, files, k)
    requires IsExplained(error, now.owners, files[k].name, FileDefs(files[k].entries), AllFit(files[k].entries))
    requires !(AllFit(files[k].entries) && Distinct(AllDefs(files[..k]) + FileDefs(files[k].entries)))
    ensures IsReason(error, files) && !Merges(files)
  {
    MergesFurther(files, k);
    FileStopsDir(error, now.owners, files, k);
    PrefixStopsDir(files, k + 1);
  }

  /** `from_toml_dir` from the parsed files on. */
  method MergeDir(files: seq<File>) returns (r: Result)
    ensures r.Err? ==> IsReason(r.error, files)
    ensures r.Ok? <==> files != [] && Merges(files)
    ensures r.Ok? ==> r.merged == Union(files)
  {
    if files == [] { return Err(NoFiles); }
    var acc := Accumulated(map[], map[], None);
    for k := 0 to |files|
      invariant IsDirUpTo(acc, files, k)
    {
      ghost var now := acc;
      var failure;
      acc, failure := MergeFile(files[k], acc, AllDefs(files[..k]), HaveTasks(files[..k]));
      if failure.Some? {
        DirStops(failure.value, now, files, k);
        return Err(failure.value);
      }
      DirFurther(acc, now, files, k);
    }
    assert files[..|files|] == files;
    r := Ok(Merged(acc.top, acc.tasks));
  }

  lemma {:induction false} TaskDefsPrefix(tasks: seq<(string, Value)>, k: nat)
    requires k <= |tasks|
    ensures TaskDefs(tasks[..k]) <= TaskDefs(tasks)
  {
    if k < |tasks| {
      TaskDefsPrefix(tasks[..|tasks| - 1], k);
      assert tasks[..|tasks| - 1][..k] == tasks[..k];
    } else {
      assert tasks[..k] == tasks;
    }
  }

  lemma {:induction false} FileDefsPrefix(entries: seq<(string, Value)>, k: nat)
    requires k <= |entries|
    ensures FileDefs(entries[..k]) <= FileDefs(entries)
  {
    if k < |entries| {
      FileDefsPrefix(entries[..|entries| - 1], k);
      assert entries[..|entries| - 1][..k] == entries[..k];
    } else {
      assert entries[..k] == entries;
    }
  }

  lemma {:induction false} AllDefsPrefix(files: seq<File>, k: nat)
    requires k <= |files|
    ensures AllDefs(files[..k]) <= AllDefs(files)
  {
    if k < |files| {
      AllDefsPrefix(files[..|files| - 1], k);
      assert files[..|files| - 1][..k] == files[..k];
    } else {
      assert files[..k] == files;
    }
  }

  /** A clash in a prefix is a clash in the whole. */
  lemma PrefixClashes(a: seq<Definition>, b: seq<Definition>)
    requires a <= b && !Distinct(a)
    ensures !Distinct(b)
  {
    var i, j :| 0 <= i < j < |a| && a[i].owner == a[j].owner;
    assert b[i].owner == b[j].owner;
  }

  // ------------------------------------------------------- order does not matter

  /** A permutation of the files. */
  predicate Permuted(a: seq<File>, b: seq<File>) { multiset(a) == multiset(b) }

  lemma AllDefsSnoc(files: seq<File>, f: File)
    ensures AllDefs(files + [f]) == AllDefs(files) + FileDefs(f.entries)
  {
    assert (files + [f])[..|files|] == files;
  }

  lemma {:induction false} AllDefsJoin(a: seq<File>, b: seq<File>)
    ensures AllDefs(a + b) == AllDefs(a) + AllDefs(b)
  {
    if b == [] {
      assert a + b == a;
    } else {
      var front, last := b[..|b| - 1], b[|b| - 1];
      AllDefsJoin(a, front);
      assert b == front + [last];
      Associates(a, front, [last]);
      AllDefsSnoc(a + front, last);
      AllDefsSnoc(front, last);
      Associates(AllDefs(a), AllDefs(front), FileDefs(last.entries));
    }
  }

  lemma WithoutLast(rest: seq<File>, front: seq<File>, back: seq<File>, last: File)
    requires multiset(rest + [last]) == multiset(front + [last] + back)
    ensures multiset(rest) == multiset(front + back)
  {
    assert multiset(rest) == multiset(rest + [last]) - multiset{last};
    assert multiset(front + back) == multiset(front + [last] + back) - multiset{last};
  }

  /** Permuted files hold the same definitions, each as often. */
  lemma {:induction false} PermutedDefs(a: seq<File>, b: seq<File>)
    requires Permuted(a, b)
    ensures multiset(AllDefs(a)) == multiset(AllDefs(b))
    decreases |a|
  {
    if a == [] {
      assert |multiset(b)| == 0;
      assert b == [];
    } else {
      var last, rest := a[|a| - 1], a[..|a| - 1];
      assert a == rest + [last];
      assert last in multiset(b);
      var k :| 0 <= k < |b| && b[k] == last;
      var front, back := b[..k], b[k + 1..];
      assert b == front + [last] + back;
      assert multiset(rest) == multiset(front + back) by { WithoutLast(rest, front, back, last); }
      PermutedDefs(rest, front + back);
      AllDefsJoin(front, back);
      AllDefsJoin(front + [last], back);
      AllDefsJoin(front, [last]);
    }
  }

  function OwnersOf(defs: seq<Definition>): set<string> {
    if defs == [] then {} else OwnersOf(defs[..|defs| - 1]) + {defs[|defs| - 1].owner}
  }

  lemma {:induction false} OwnersAreOwned(defs: seq<Definition>, o: string)
    ensures o in OwnersOf(defs) <==> IsOwned(defs, o)
  {
    if defs != [] {
      var last, rest := defs[|defs| - 1], defs[..|defs| - 1];
      OwnersAreOwned(rest, o);
      assert forall k :: 0 <= k < |rest| ==> defs[k] == rest[k];
      assert o == last.owner ==> IsOwned(defs, o);
    }
  }

  /** Definitions are distinct exactly when they have as many owners as there are of them. */
  lemma {:induction false} DistinctByCount(defs: seq<Definition>)
    ensures |OwnersOf(defs)| <= |defs|
    ensures Distinct(defs) <==> |OwnersOf(defs)| == |defs|
    decreases |defs|
  {
    if defs != [] {
      var last, rest := defs[|defs| - 1], defs[..|defs| - 1];
      DistinctByCount(rest);
      OwnersAreOwned(rest, last.owner);
      DistinctFurther(rest, last);
      assert defs == rest + [last];
    }
  }

  lemma DistinctFurther(rest: seq<Definition>, last: Definition)
    ensures Distinct(rest + [last]) <==> Distinct(rest) && !IsOwned(rest, last.owner)
  {
    var defs := rest + [last];
    assert defs[|rest|] == last && forall k :: 0 <= k < |rest| ==> defs[k] == rest[k];
    if IsOwned(rest, last.owner) {
      var k :| 0 <= k < |rest| && rest[k].owner == last.owner;
      assert defs[k].owner == defs[|rest|].owner;
    }
    if !Distinct(rest) { PrefixClashes(rest, defs); }
  }

  lemma SameDistinct(a: seq<Definition>, b: seq<Definition>)
    requires multiset(a) == multiset(b)
    ensures Distinct(a) <==> Distinct(b)
  {
    DistinctByCount(a);
    DistinctByCount(b);
    assert |multiset(a)| == |multiset(b)|;
    forall o ensures o in OwnersOf(a) <==> o in OwnersOf(b) {
      OwnersAreOwned(a, o);
      OwnersAreOwned(b, o);
      OwnedAlike(a, b, o);
      OwnedAlike(b, a, o);
    }
    assert OwnersOf(a) == OwnersOf(b);
  }

  lemma OwnedAlike(a: seq<Definition>, b: seq<Definition>, o: string)
    requires multiset(a) == multiset(b)
    ensures IsOwned(a, o) ==> IsOwned(b, o)
  {
    if k :| 0 <= k < |a| && a[k].owner == o {
      assert a[k] in multiset(b);
      var j :| 0 <= j < |b| && b[j] == a[k];
    }
  }

  /** What distinct definitions collect to is fixed by which definitions there are. */
  lemma {:induction false} CollectedIs(defs: seq<Definition>, tasks: bool)
    requires Distinct(defs) && forall k :: 0 <= k < |defs| ==> IsNamed(defs[k])
    ensures forall n: string, v: Value :: (n in Collected(defs, tasks) && Collected(defs, tasks)[n] == v) <==>
                                          IsCollected(defs, tasks, n, v)
    decreases |defs|
  {
    if defs != [] {
      var last, rest := defs[|defs| - 1], defs[..|defs| - 1];
      assert defs == rest + [last];
      CollectedIs(rest, tasks);
      forall n: string, v: Value ensures (n in Collected(defs, tasks) && Collected(defs, tasks)[n] == v) <==> IsCollected(defs, tasks, n, v) {
        CollectedStep(rest, last, tasks, n, v);
      }
    }
  }

  /** A task's owner is built from its name, any other owner is the name. */
  predicate IsNamed(d: Definition) {
    d.owner == if d.isTask then TaskOwner(d.name) else d.name
  }

  predicate IsCollected(defs: seq<Definition>, tasks: bool, n: string, v: Value) {
    exists k :: 0 <= k < |defs| && defs[k].isTask == tasks && defs[k].name == n && defs[k].value == v
  }

  /** A later definition has a name of its own. */
  lemma LastIsNew(rest: seq<Definition>, last: Definition, tasks: bool, v: Value)
    requires Distinct(rest + [last]) && last.isTask == tasks && IsNamed(last)
    requires forall k :: 0 <= k < |rest| ==> IsNamed(rest[k])
    ensures !IsCollected(rest, tasks, last.name, v)
  {
    forall k | 0 <= k < |rest| ensures rest[k].owner != last.owner {
      assert (rest + [last])[k] == rest[k] && (rest + [last])[|rest|] == last;
    }
  }

  lemma IsCollectedSnoc(rest: seq<Definition>, last: Definition, tasks: bool, n: string, v: Value)
    ensures IsCollected(rest + [last], tasks, n, v) <==>
            IsCollected(rest, tasks, n, v) || (last.isTask == tasks && last.name == n && last.value == v)
  {
    var defs := rest + [last];
    assert forall j :: 0 <= j < |rest| ==> rest[j] == defs[j];
    assert defs[|rest|] == last;
  }

  lemma CollectedStep(rest: seq<Definition>, last: Definition, tasks: bool, n: string, v: Value)
    requires Distinct(rest + [last]) && IsNamed(last) && forall k :: 0 <= k < |rest| ==> IsNamed(rest[k])
    requires (n in Collected(rest, tasks) && Collected(rest, tasks)[n] == v) <==> IsCollected(rest, tasks, n, v)
    ensures (n in Collected(rest + [last], tasks) && Collected(rest + [last], tasks)[n] == v)
            <==> IsCollected(rest + [last], tasks, n, v)
  {
    CollectedSnoc(rest, last, tasks);
    IsCollectedSnoc(rest, last, tasks, n, v);
    if last.isTask == tasks { LastIsNew(rest, last, tasks, v); }
  }

  lemma {:induction false} TaskDefsNamed(tasks: seq<(string, Value)>)
    ensures forall k :: 0 <= k < |TaskDefs(tasks)| ==> IsNamed(TaskDefs(tasks)[k])
  {
    if tasks != [] { TaskDefsNamed(tasks[..|tasks| - 1]); }
  }

  lemma {:induction false} FileDefsNamed(entries: seq<(string, Value)>)
    ensures forall k :: 0 <= k < |FileDefs(entries)| ==> IsNamed(FileDefs(entries)[k])
  {
    if entries != [] {
      FileDefsNamed(entries[..|entries| - 1]);
      var last := entries[|entries| - 1];
      if last.0 == "tasks" && last.1.Table? { TaskDefsNamed(last.1.entries); }
    }
  }

  lemma {:induction false} AllDefsNamed(files: seq<File>)
    ensures forall k :: 0 <= k < |AllDefs(files)| ==> IsNamed(AllDefs(files)[k])
  {
    if files != [] {
      AllDefsNamed(files[..|files| - 1]);
      FileDefsNamed(files[|files| - 1].entries);
    }
  }

  lemma SameCollected(a: seq<Definition>, b: seq<Definition>, tasks: bool)
    requires Distinct(a) && Distinct(b) && multiset(a) == multiset(b)
    requires forall k :: 0 <= k < |a| ==> IsNamed(a[k])
    requires forall k :: 0 <= k < |b| ==> IsNamed(b[k])
    ensures Collected(a, tasks) == Collected(b, tasks)
  {
    CollectedIs(a, tasks);
    CollectedIs(b, tasks);
    var (m, n) := (Collected(a, tasks), Collected(b, tasks));
    forall x | x in m ensures x in n && n[x] == m[x] { CarriesOver(a, b, tasks, x, m[x]); }
    forall x | x in n ensures x in m { CarriesOver(b, a, tasks, x, n[x]); }
  }

  lemma CarriesOver(a: seq<Definition>, b: seq<Definition>, tasks: bool, n: string, v: Value)
    requires multiset(a) == multiset(b) && IsCollected(a, tasks, n, v)
    ensures IsCollected(b, tasks, n, v)
  {
    var k :| 0 <= k < |a| && a[k].isTask == tasks && a[k].name == n && a[k].value == v;
    assert a[k] in multiset(b);
    var j :| 0 <= j < |b| && b[j] == a[k];
  }

  predicate Mergeable(files: seq<File>) {
    files != [] && Merges(files)
  }

  lemma MembersOf(a: seq<File>, b: seq<File>)
    requires Permuted(a, b)
    ensures forall f :: f in a <==> f in b
  {
    assert forall f :: f in a <==> f in multiset(a);
    assert forall f :: f in b <==> f in multiset(b);
  }

  /** The merge gives the same outcome for any order of the files: the same merged table, or
      failure. */
  lemma OrderIrrelevant(a: seq<File>, b: seq<File>)
    requires Permuted(a, b)
    ensures Mergeable(a) <==> Mergeable(b)
    ensures Mergeable(a) ==> Union(a) == Union(b)
  {
    var (x, y) := (AllDefs(a), AllDefs(b));
    assert |multiset(a)| == |multiset(b)|;
    MembersOf(a, b);
    PermutedDefs(a, b);
    SameDistinct(x, y);
    if Mergeable(a) {
      AllDefsNamed(a);
      AllDefsNamed(b);
      SameCollected(x, y, false);
      SameCollected(x, y, true);
    }
  }

  // ---------------------------------------------------- what the union consists of

  /** An entry says that `n` is `v`: at the top level, or among the tasks. */
  predicate EntrySays(e: (string, Value), task: bool, n: string, v: Value) {
    if task then e.0 == "tasks" && e.1.Table? && (n, v) in e.1.entries
    else e.0 != "tasks" && e == (n, v)
  }

  lemma {:induction false} TaskDefsSay(tasks: seq<(string, Value)>, task: bool, n: string, v: Value)
    ensures IsCollected(TaskDefs(tasks), task, n, v) <==> task && (n, v) in tasks
  {
    if tasks != [] {
      var rest, last := tasks[..|tasks| - 1], tasks[|tasks| - 1];
      TaskDefsSay(rest, task, n, v);
      IsCollectedSnoc(TaskDefs(rest), TaskDef(last), task, n, v);
      assert tasks == rest + [last];
    }
  }

  lemma EntryDefsSay(e: (string, Value), task: bool, n: string, v: Value)
    requires EntryFits(e)
    ensures IsCollected(EntryDefs(e), task, n, v) <==> EntrySays(e, task, n, v)
  {
    if e.0 == "tasks" {
      TaskDefsSay(e.1.entries, task, n, v);
    } else {
      IsCollectedSnoc([], Definition(e.0, false, e.0, e.1), task, n, v);
      assert [] + EntryDefs(e) == EntryDefs(e);
    }
  }

  lemma IsCollectedJoin(a: seq<Definition>, b: seq<Definition>, task: bool, n: string, v: Value)
    ensures IsCollected(a + b, task, n, v) <==> IsCollected(a, task, n, v) || IsCollected(b, task, n, v)
  {
    var ab := a + b;
    assert forall i :: 0 <= i < |a| ==> ab[i] == a[i];
    assert forall j :: 0 <= j < |b| ==> ab[|a| + j] == b[j];
    if k :| 0 <= k < |ab| && ab[k].isTask == task && ab[k].name == n && ab[k].value == v {
      assert ab[k] == if k < |a| then a[k] else b[k - |a|];
    }
  }

  predicate EntriesSay(entries: seq<(string, Value)>, task: bool, n: string, v: Value) {
    exists k :: 0 <= k < |entries| && EntrySays(entries[k], task, n, v)
  }

  lemma EntriesSaySnoc(rest: seq<(string, Value)>, last: (string, Value), task: bool, n: string, v: Value)
    ensures EntriesSay(rest + [last], task, n, v) <==> EntriesSay(rest, task, n, v) || EntrySays(last, task, n, v)
  {
    var entries := rest + [last];
    assert forall k :: 0 <= k < |rest| ==> entries[k] == rest[k];
    assert entries[|rest|] == last;
  }

  lemma {:induction false} FileDefsSay(entries: seq<(string, Value)>, task: bool, n: string, v: Value)
    requires AllFit(entries)
    ensures IsCollected(FileDefs(entries), task, n, v) <==> EntriesSay(entries, task, n, v)
  {
    if entries != [] {
      var rest, last := entries[..|entries| - 1], entries[|entries| - 1];
      assert entries == rest + [last];
      FileDefsSay(rest, task, n, v);
      EntryDefsSay(last, task, n, v);
      IsCollectedJoin(FileDefs(rest), EntryDefs(last), task, n, v);
      EntriesSaySnoc(rest, last, task, n, v);
    }
  }

  /** Some file says that `n` is `v`. */
  predicate FilesSay(files: seq<File>, task: bool, n: string, v: Value) {
    exists j :: 0 <= j < |files| && EntriesSay(files[j].entries, task, n, v)
  }

  lemma FilesSaySnoc(rest: seq<File>, last: File, task: bool, n: string, v: Value)
    ensures FilesSay(rest + [last], task, n, v) <==> FilesSay(rest, task, n, v) || EntriesSay(last.entries, task, n, v)
  {
    var files := rest + [last];
    assert forall j :: 0 <= j < |rest| ==> files[j] == rest[j];
    assert files[|rest|] == last;
  }

  lemma {:induction false} AllDefsSay(files: seq<File>, task: bool, n: string, v: Value)
    requires TasksAreTables(files)
    ensures IsCollected(AllDefs(files), task, n, v) <==> FilesSay(files, task, n, v)
  {
    if files != [] {
      var rest, last := files[..|files| - 1], files[|files| - 1];
      assert files == rest + [last];
      assert last in files;
      AllDefsSay(rest, task, n, v);
      FileDefsSay(last.entries, task, n, v);
      IsCollectedJoin(AllDefs(rest), FileDefs(last.entries), task, n, v);
      FilesSaySnoc(rest, last, task, n, v);
    }
  }

  /** What one namespace of the merged table holds. */
  predicate UnionSays(m: Merged, task: bool, n: string, v: Value) {
    if task then m.tasks.Some? && n in m.tasks.value && m.tasks.value[n] == v
    else n in m.top && m.top[n] == v
  }

  /** The merged table says exactly what some file says. */
  lemma UnionSaysWhatFilesSay(files: seq<File>, task: bool, n: string, v: Value)
    requires Mergeable(files)
    ensures UnionSays(Union(files), task, n, v) <==> FilesSay(files, task, n, v)
    ensures Union(files).tasks.Some? <==> exists j :: 0 <= j < |files| && EntriesHaveTasks(files[j].entries)
  {
    AllDefsNamed(files);
    CollectedIs(AllDefs(files), task);
    AllDefsSay(files, task, n, v);
    assert HaveTasks(files) ==> exists f :: f in files && EntriesHaveTasks(f.entries);
    if j :| 0 <= j < |files| && EntriesSay(files[j].entries, task, n, v) {
      var k :| 0 <= k < |files[j].entries| && EntrySays(files[j].entries[k], task, n, v);
      assert task ==> EntriesHaveTasks(files[j].entries);
    }
  }

  // ----------------------------------------------------- owners and namespaces

  /** Each namespace on its own: no key defined twice, no task defined twice. */
  predicate NoNameTwice(defs: seq<Definition>) {
    forall i, j :: 0 <= i < j < |defs| && defs[i].isTask == defs[j].isTask ==> defs[i].name != defs[j].name
  }

  /** A key that reads like a task's owner. */
  predicate Shadows(d: Definition, e: Definition) { !d.isTask && e.isTask && d.name == TaskOwner(e.name) }

  /** No key reads like the owner of a task that is defined. */
  predicate NothingShadowed(defs: seq<Definition>) {
    forall i, j :: 0 <= i < |defs| && 0 <= j < |defs| ==> !Shadows(defs[i], defs[j])
  }

  /** Every owner is defined once exactly when no name is defined twice and no key reads like
      the owner of a task beside it. */
  lemma DistinctExactlyWhen(files: seq<File>)
    ensures Distinct(AllDefs(files)) <==> NoNameTwice(AllDefs(files)) && NothingShadowed(AllDefs(files))
  {
    var defs := AllDefs(files);
    AllDefsNamed(files);
    forall i, j | 0 <= i < |defs| && 0 <= j < |defs|
      ensures defs[i].owner == defs[j].owner <==> SameThing(defs[i], defs[j]) || Shadows(defs[i], defs[j]) || Shadows(defs[j], defs[i])
    {
      SameOwner(defs[i], defs[j]);
    }
  }

  predicate SameThing(d: Definition, e: Definition) { d.isTask == e.isTask && d.name == e.name }

  predicate Apart(a: seq<Definition>, b: seq<Definition>) {
    forall i, j :: 0 <= i < |a| && 0 <= j < |b| ==> !SameThing(a[i], b[j])
  }

  /** No top-level key and no task is defined by two files. */
  predicate FilesApart(files: seq<File>) {
    forall i, j :: 0 <= i < j < |files| ==> Apart(FileDefs(files[i].entries), FileDefs(files[j].entries))
  }

  /** A parsed table holds each of its keys once. */
  predicate FilesParsed(files: seq<File>) {
    forall i :: 0 <= i < |files| ==> NoNameTwice(FileDefs(files[i].entries))
  }

  lemma NoNameTwiceJoin(a: seq<Definition>, b: seq<Definition>)
    ensures NoNameTwice(a + b) <==> NoNameTwice(a) && NoNameTwice(b) && Apart(a, b)
  {
    var ab := a + b;
    assert forall i :: 0 <= i < |a| ==> ab[i] == a[i];
    assert forall j :: 0 <= j < |b| ==> ab[|a| + j] == b[j];
    if NoNameTwice(ab) {
      forall i, j | 0 <= i < |a| && 0 <= j < |b| ensures !SameThing(a[i], b[j]) {
        assert ab[i] == a[i] && ab[|a| + j] == b[j];
      }
    }
    if NoNameTwice(a) && NoNameTwice(b) && Apart(a, b) {
      forall i, j | 0 <= i < j < |ab| ensures !SameThing(ab[i], ab[j]) {
        assert ab[i] == if i < |a| then a[i] else b[i - |a|];
        assert ab[j] == if j < |a| then a[j] else b[j - |a|];
      }
    }
  }

  lemma ApartJoin(a: seq<Definition>, b: seq<Definition>, c: seq<Definition>)
    ensures Apart(a + b, c) <==> Apart(a, c) && Apart(b, c)
  {
    var ab := a + b;
    assert forall i :: 0 <= i < |a| ==> ab[i] == a[i];
    assert forall j :: 0 <= j < |b| ==> ab[|a| + j] == b[j];
  }

  lemma {:induction false} AllApart(files: seq<File>, defs: seq<Definition>)
    ensures Apart(AllDefs(files), defs) <==> forall i :: 0 <= i < |files| ==> Apart(FileDefs(files[i].entries), defs)
  {
    if files != [] {
      var last, rest := files[|files| - 1], files[..|files| - 1];
      AllApart(rest, defs);
      ApartJoin(AllDefs(rest), FileDefs(last.entries), defs);
      assert forall i :: 0 <= i < |rest| ==> files[i] == rest[i];
    }
  }

  lemma OneMoreFile(rest: seq<File>, last: File)
    ensures FilesParsed(rest + [last]) <==> FilesParsed(rest) && NoNameTwice(FileDefs(last.entries))
    ensures FilesApart(rest + [last]) <==>
            FilesApart(rest) && forall i :: 0 <= i < |rest| ==> Apart(FileDefs(rest[i].entries), FileDefs(last.entries))
  {
    var files := rest + [last];
    assert forall i :: 0 <= i < |rest| ==> files[i] == rest[i];
    assert files[|rest|] == last;
  }

  lemma {:induction false} NoNameTwiceByFile(files: seq<File>)
    ensures NoNameTwice(AllDefs(files)) <==> FilesParsed(files) && FilesApart(files)
  {
    if files != [] {
      var last, rest := files[|files| - 1], files[..|files| - 1];
      assert files == rest + [last];
      NoNameTwiceByFile(rest);
      NoNameTwiceJoin(AllDefs(rest), FileDefs(last.entries));
      AllApart(rest, FileDefs(last.entries));
      OneMoreFile(rest, last);
    }
  }

  /** No file has a top-level key `tasks.n` where one has the task `n`. */
  ghost predicate NoKeyShadowsTask(files: seq<File>) {
    forall n, v, w :: !(FilesSay(files, false, TaskOwner(n), v) && FilesSay(files, true, n, w))
  }

  lemma ShadowsAreSaid(files: seq<File>)
    requires TasksAreTables(files)
    ensures NothingShadowed(AllDefs(files)) <==> NoKeyShadowsTask(files)
  {
    var defs := AllDefs(files);
    if NothingShadowed(defs) {
      forall n, v, w ensures !(FilesSay(files, false, TaskOwner(n), v) && FilesSay(files, true, n, w)) {
        AllDefsSay(files, false, TaskOwner(n), v);
        AllDefsSay(files, true, n, w);
      }
    }
    if NoKeyShadowsTask(files) {
      forall i, j | 0 <= i < |defs| && 0 <= j < |defs| ensures !Shadows(defs[i], defs[j]) {
        var n, v, w := defs[j].name, defs[i].value, defs[j].value;
        assert !(FilesSay(files, false, TaskOwner(n), v) && FilesSay(files, true, n, w));
        AllDefsSay(files, false, TaskOwner(n), v);
        AllDefsSay(files, true, n, w);
      }
    }
  }

  /** The directory merges exactly when it holds a file, `tasks` is a table wherever it stands,
      no key and no task is defined by two files, and no quoted key reads like the owner of a
      task. */
  lemma MergesExactlyWhen(files: seq<File>)
    requires FilesParsed(files)
    ensures Mergeable(files) <==> files != [] && TasksAreTables(files) && FilesApart(files) && NoKeyShadowsTask(files)
  {
    DistinctExactlyWhen(files);
    NoNameTwiceByFile(files);
    if TasksAreTables(files) { ShadowsAreSaid(files); }
  }

  lemma SameOwner(d: Definition, e: Definition)
    requires IsNamed(d) && IsNamed(e)
    ensures d.owner == e.owner <==> SameThing(d, e) || Shadows(d, e) || Shadows(e, d)
  {
    assert TaskOwner(d.name)[6..] == d.name;
    assert TaskOwner(e.name)[6..] == e.name;
  }

  /** Two files that define no name twice and still do not merge: one has the quoted
      top-level key `tasks.chat`, the other the task `chat`. */
  lemma DottedKeyClashes(v: Value, w: Value)
    ensures var files := [File("a.toml", [("tasks.chat", v)]), File("b.toml", [("tasks", Table([("chat", w)]))])];
            NoNameTwice(AllDefs(files)) && !Mergeable(files)
  {
    var (a, b) := (File("a.toml", [("tasks.chat", v)]), File("b.toml", [("tasks", Table([("chat", w)]))]));
    var task := ("chat", w);
    assert TaskDefs([task]) == TaskDefs([]) + [TaskDef(task)];
    assert FileDefs(a.entries) == FileDefs([]) + EntryDefs(("tasks.chat", v));
    assert FileDefs(b.entries) == FileDefs([]) + EntryDefs(("tasks", Table([task])));
    assert [a, b][..1] == [a] && [a][..0] == [];
    assert AllDefs([a]) == AllDefs([]) + FileDefs(a.entries);
    var defs := AllDefs([a, b]);
    assert defs == [Definition("tasks.chat", false, "tasks.chat", v), TaskDef(task)];
    assert TaskOwner("chat") == "tasks.chat";
    assert defs[0].owner == defs[1].owner;
  }
}
