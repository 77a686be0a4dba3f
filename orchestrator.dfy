/** The database updater's entry point (scripts/5_update_database.py, main
    and the guard under `__main__`): the work list is the added documents
    followed by the updated ones; a first pass routes each path to the status
    effect and item loaders, a second pass to the item set loader, so every
    set is derived after all items of the run are in. */
module Orchestrator {
  import opened Common
  import opened Resolver
  import opened Store

  datatype Loader = StatusEffectsLoader | AllItemsLoader | ItemSetsLoader

  /** One loader call on one staged document. */
  datatype Job = Job(loader: Loader, path: Path)

  const StatusEffectsTable := "Table_StatusEffects.json"
  const AllItemsTable := "Table_AllItems.json"
  const ItemSetsTable := "Table_ItemSets.json"

  /** Pass 1 for one path: two independent tests, so a path naming both
      tables goes to both loaders, status effects first. */
  function CoreJobs(p: Path): seq<Job> {
    (if Contains(p, StatusEffectsTable) then [Job(StatusEffectsLoader, p)] else [])
      + (if Contains(p, AllItemsTable) then [Job(AllItemsLoader, p)] else [])
  }

  /** Pass 2 for one path. */
  function RelationalJobs(p: Path): seq<Job> {
    if Contains(p, ItemSetsTable) then [Job(ItemSetsLoader, p)] else []
  }

  function Pass1(work: seq<Path>): seq<Job> {
    if work == [] then [] else Pass1(work[..|work| - 1]) + CoreJobs(work[|work| - 1])
  }

  function Pass2(work: seq<Path>): seq<Job> {
    if work == [] then [] else Pass2(work[..|work| - 1]) + RelationalJobs(work[|work| - 1])
  }

  /** The loader calls of one run. `loc` is the localization table (empty
      when it failed to load); `toAdd` and `toUpdate` are the two lists the
      manifest differ wrote, None when a list file is missing. */
  function Jobs(loc: Localization, toAdd: Option<seq<Path>>, toUpdate: Option<seq<Path>>): seq<Job> {
    if loc == [] || toAdd.None? || toUpdate.None? then []
    else
      var work := toAdd.value + toUpdate.value;
      if work == [] then [] else Pass1(work) + Pass2(work)
  }

  lemma {:induction false} Pass1Members(work: seq<Path>)
    ensures forall j :: j in Pass1(work) <==>
      (j.path in work &&
       ((j.loader.StatusEffectsLoader? && Contains(j.path, StatusEffectsTable)) ||
        (j.loader.AllItemsLoader? && Contains(j.path, AllItemsTable))))
  {
    if work != [] {
      var init := work[..|work| - 1];
      Pass1Members(init);
      assert work == init + [work[|work| - 1]];
      assert forall p :: p in work <==> p in init || p == work[|work| - 1];
    }
  }

  lemma {:induction false} Pass2Members(work: seq<Path>)
    ensures forall j :: j in Pass2(work) <==> j.path in work && j.loader.ItemSetsLoader? && Contains(j.path, ItemSetsTable)
  {
    if work != [] {
      var init := work[..|work| - 1];
      Pass2Members(init);
      assert work == init + [work[|work| - 1]];
      assert forall p :: p in work <==> p in init || p == work[|work| - 1];
    }
  }

  /** The routing of lines 250-279 and the guard of lines 293-297: nothing
      runs without a localization table, without both lists, or with an
      empty work list; otherwise a path of the work list gets exactly the
      loaders whose table name it contains, and a path that names no table
      gets none. */
  lemma JobsSpec(loc: Localization, toAdd: Option<seq<Path>>, toUpdate: Option<seq<Path>>)
    ensures loc == [] || toAdd.None? || toUpdate.None? ==> Jobs(loc, toAdd, toUpdate) == []
    ensures toAdd == Some([]) && toUpdate == Some([]) ==> Jobs(loc, toAdd, toUpdate) == []
    ensures loc != [] && toAdd.Some? && toUpdate.Some? ==>
      var work := toAdd.value + toUpdate.value;
      forall j :: j in Jobs(loc, toAdd, toUpdate) <==>
        (j.path in work &&
         ((j.loader.StatusEffectsLoader? && Contains(j.path, StatusEffectsTable)) ||
          (j.loader.AllItemsLoader? && Contains(j.path, AllItemsTable)) ||
          (j.loader.ItemSetsLoader? && Contains(j.path, ItemSetsTable))))
    ensures forall j :: j in Jobs(loc, toAdd, toUpdate) ==>
      Contains(j.path, StatusEffectsTable) || Contains(j.path, AllItemsTable) || Contains(j.path, ItemSetsTable)
  {
    if loc != [] && toAdd.Some? && toUpdate.Some? {
      var work := toAdd.value + toUpdate.value;
      Pass1Members(work);
      Pass2Members(work);
    }
  }

  /** Every item set job comes after every status effect and item job, so
      sets are derived from the items of the same run. */
  lemma JobsOrdered(loc: Localization, toAdd: Option<seq<Path>>, toUpdate: Option<seq<Path>>)
    ensures var js := Jobs(loc, toAdd, toUpdate);
      forall i, k :: 0 <= i < k < |js| && js[i].loader.ItemSetsLoader? ==> js[k].loader.ItemSetsLoader?
  {
    if loc != [] && toAdd.Some? && toUpdate.Some? && toAdd.value + toUpdate.value != [] {
      var work := toAdd.value + toUpdate.value;
      PassLoaders(work);
      var p1, p2 := Pass1(work), Pass2(work);
      var js := p1 + p2;
      assert forall i :: 0 <= i < |p1| ==> js[i] == p1[i];
      assert forall k :: |p1| <= k < |js| ==> js[k] == p2[k - |p1|];
    }
  }

  lemma {:induction false} PassLoaders(work: seq<Path>)
    ensures forall i :: 0 <= i < |Pass1(work)| ==> !Pass1(work)[i].loader.ItemSetsLoader?
    ensures forall i :: 0 <= i < |Pass2(work)| ==> Pass2(work)[i].loader.ItemSetsLoader?
  {
    if work != [] {
      var init := work[..|work| - 1];
      PassLoaders(init);
      var a, b := Pass1(init), CoreJobs(work[|work| - 1]);
      assert forall i :: 0 <= i < |a + b| ==> (a + b)[i] == if i < |a| then a[i] else b[i - |a|];
      var c, d := Pass2(init), RelationalJobs(work[|work| - 1]);
      assert forall i :: 0 <= i < |c + d| ==> (c + d)[i] == if i < |c| then c[i] else d[i - |c|];
    }
  }

  // ---------------------------------------------------------------------
  // Running the jobs
  // ---------------------------------------------------------------------

  /** A staged document's Rows as each loader reads them. The documents of
      a run are a map from path to Option<Document>: None, or a path absent
      from the map, stands for a file that cannot be opened or parsed, or
      has no `[0]["Rows"]`, which raises out of the loader and of `main`. */
  datatype Document = Document(effects: seq<EffectRow>, items: seq<ItemRow>, sets: seq<SetRow>)

  /** The tables after some jobs, and whether a loader raised out of the run. */
  datatype Outcome = Outcome(tables: Tables, halted: bool)

  function JobStep(t: Tables, job: Job, docs: map<Path, Option<Document>>, loc: Localization, o: Orders): Outcome {
    if job.path !in docs || docs[job.path].None? then Outcome(t, true)
    else
      var d := docs[job.path].value;
      match job.loader
      case StatusEffectsLoader => Outcome(LoadEffects(t, d.effects, loc), false)
      case AllItemsLoader => Outcome(LoadItems(t, d.items, loc), false)
      case ItemSetsLoader => Outcome(LoadSets(t, d.sets, o), false)
  }

  /** The jobs in order; the first that raises ends the run, and what the
      jobs before it committed stays. */
  function RunJobs(s: Outcome, jobs: seq<Job>, docs: map<Path, Option<Document>>, loc: Localization, o: Orders): Outcome
    decreases |jobs|
  {
    if s.halted || jobs == [] then s
    else RunJobs(JobStep(s.tables, jobs[0], docs, loc, o), jobs[1..], docs, loc, o)
  }

  lemma {:induction false} RunJobsAppend(s: Outcome, a: seq<Job>, b: seq<Job>, docs: map<Path, Option<Document>>, loc: Localization, o: Orders)
    decreases |a|
    ensures RunJobs(s, a + b, docs, loc, o) == RunJobs(RunJobs(s, a, docs, loc, o), b, docs, loc, o)
  {
    if a == [] {
      assert a + b == b;
    } else if s.halted {
      RunJobsHalted(s, b, docs, loc, o);
    } else {
      assert (a + b)[0] == a[0];
      assert (a + b)[1..] == a[1..] + b;
      RunJobsAppend(JobStep(s.tables, a[0], docs, loc, o), a[1..], b, docs, loc, o);
    }
  }

  lemma RunJobsHalted(s: Outcome, jobs: seq<Job>, docs: map<Path, Option<Document>>, loc: Localization, o: Orders)
    requires s.halted
    ensures RunJobs(s, jobs, docs, loc, o) == s
  {
  }

  /** The run stops at the first job whose document cannot be read: the
      jobs before it have all run, none after it runs. */
  lemma {:induction false} RunJobsStopsAt(s: Outcome, jobs: seq<Job>, docs: map<Path, Option<Document>>, loc: Localization, o: Orders, i: nat)
    requires !s.halted && i < |jobs|
    requires jobs[i].path !in docs || docs[jobs[i].path].None?
    requires forall k :: 0 <= k < i ==> jobs[k].path in docs && docs[jobs[k].path].Some?
    decreases i
    ensures RunJobs(s, jobs, docs, loc, o) == Outcome(RunJobs(s, jobs[..i], docs, loc, o).tables, true)
    ensures !RunJobs(s, jobs[..i], docs, loc, o).halted
  {
    var s1 := JobStep(s.tables, jobs[0], docs, loc, o);
    if i == 0 {
      RunJobsHalted(s1, jobs[1..], docs, loc, o);
    } else {
      assert jobs[1..][i - 1] == jobs[i];
      assert forall k :: 0 <= k < i - 1 ==> jobs[1..][k] == jobs[k + 1];
      RunJobsStopsAt(s1, jobs[1..], docs, loc, o, i - 1);
      assert jobs[..i][0] == jobs[0];
      assert jobs[..i][1..] == jobs[1..][..i - 1];
    }
  }

  lemma RunJobsSingle(s: Outcome, j: Job, docs: map<Path, Option<Document>>, loc: Localization, o: Orders)
    requires !s.halted
    ensures RunJobs(s, [j], docs, loc, o) == JobStep(s.tables, j, docs, loc, o)
  {
    assert [j][1..] == [];
  }

  lemma {:induction false} Pass1Append(a: seq<Path>, b: seq<Path>)
    decreases |b|
    ensures Pass1(a + b) == Pass1(a) + Pass1(b)
  {
    if b == [] {
      assert a + b == a;
    } else {
      var init := b[..|b| - 1];
      assert (a + b)[..|a + b| - 1] == a + init;
      assert (a + b)[|a + b| - 1] == b[|b| - 1];
      Pass1Append(a, init);
    }
  }

  lemma {:induction false} Pass2Append(a: seq<Path>, b: seq<Path>)
    decreases |b|
    ensures Pass2(a + b) == Pass2(a) + Pass2(b)
  {
    if b == [] {
      assert a + b == a;
    } else {
      var init := b[..|b| - 1];
      assert (a + b)[..|a + b| - 1] == a + init;
      assert (a + b)[|a + b| - 1] == b[|b| - 1];
      Pass2Append(a, init);
    }
  }

  /** Once a prefix of the jobs has ended the run, the rest changes nothing. */
  lemma HaltedPrefix(s: Outcome, pre: seq<Job>, rest: seq<Job>, docs: map<Path, Option<Document>>, loc: Localization, o: Orders)
    requires RunJobs(s, pre, docs, loc, o).halted
    ensures RunJobs(s, pre + rest, docs, loc, o) == RunJobs(s, pre, docs, loc, o)
  {
    RunJobsAppend(s, pre, rest, docs, loc, o);
    RunJobsHalted(RunJobs(s, pre, docs, loc, o), rest, docs, loc, o);
  }

  /** Runs one loader on one document, on the store. */
  method RunJob(store: Store, job: Job, docs: map<Path, Option<Document>>, loc: Localization, o: Orders) returns (halted: bool)
    modifies store
    ensures Outcome(store.Snapshot(), halted) == JobStep(old(store.Snapshot()), job, docs, loc, o)
  {
    if job.path !in docs || docs[job.path].None? {
      return true;
    }
    halted := false;
    var d := docs[job.path].value;
    match job.loader {
      case StatusEffectsLoader => store.ProcessStatusEffects(d.effects, loc);
      case AllItemsLoader => store.ProcessAllItems(d.items, loc);
      case ItemSetsLoader => store.ProcessItemSets(d.sets, o);
    }
  }

  /** Pass 1 (lines 262-271): each path of the work list to the status
      effect loader, then to the item loader, as its name says. */
  method CorePass(store: Store, work: seq<Path>, docs: map<Path, Option<Document>>, loc: Localization, o: Orders)
    returns (halted: bool)
    modifies store
    ensures Outcome(store.Snapshot(), halted) == RunJobs(Outcome(old(store.Snapshot()), false), Pass1(work), docs, loc, o)
  {
    ghost var start := Outcome(store.Snapshot(), false);
    var k := 0;
    while k < |work|
      invariant 0 <= k <= |work|
      invariant Outcome(store.Snapshot(), false) == RunJobs(start, Pass1(work[..k]), docs, loc, o)
    {
      var p := work[k];
      ghost var cur := Outcome(store.Snapshot(), false);
      Pass1Step(start, work, k, docs, loc, o);
      ghost var first := if Contains(p, StatusEffectsTable) then [Job(StatusEffectsLoader, p)] else [];
      ghost var second := if Contains(p, AllItemsTable) then [Job(AllItemsLoader, p)] else [];
      RunJobsAppend(cur, first, second, docs, loc, o);
      if Contains(p, StatusEffectsTable) {
        halted := RunJob(store, Job(StatusEffectsLoader, p), docs, loc, o);
        RunJobsSingle(cur, Job(StatusEffectsLoader, p), docs, loc, o);
        if halted {
          RunJobsHalted(Outcome(store.Snapshot(), true), second, docs, loc, o);
          PassHalted(start, work, k, docs, loc, o);
          return;
        }
      }
      ghost var between := Outcome(store.Snapshot(), false);
      if Contains(p, AllItemsTable) {
        halted := RunJob(store, Job(AllItemsLoader, p), docs, loc, o);
        RunJobsSingle(between, Job(AllItemsLoader, p), docs, loc, o);
        if halted {
          PassHalted(start, work, k, docs, loc, o);
          return;
        }
      }
      k := k + 1;
    }
    assert work[..k] == work;
    halted := false;
  }

  /** One more path of pass 1: its jobs run after those of the paths
      before it. */
  lemma Pass1Step(start: Outcome, work: seq<Path>, k: nat, docs: map<Path, Option<Document>>, loc: Localization, o: Orders)
    requires k < |work|
    ensures RunJobs(start, Pass1(work[..k + 1]), docs, loc, o) ==
      RunJobs(RunJobs(start, Pass1(work[..k]), docs, loc, o), CoreJobs(work[k]), docs, loc, o)
  {
    assert work[..k + 1][..k] == work[..k];
    assert Pass1(work[..k + 1]) == Pass1(work[..k]) + CoreJobs(work[k]);
    RunJobsAppend(start, Pass1(work[..k]), CoreJobs(work[k]), docs, loc, o);
  }

  /** One more path of pass 2. */
  lemma Pass2Step(start: Outcome, work: seq<Path>, k: nat, docs: map<Path, Option<Document>>, loc: Localization, o: Orders)
    requires k < |work|
    ensures RunJobs(start, Pass2(work[..k + 1]), docs, loc, o) ==
      RunJobs(RunJobs(start, Pass2(work[..k]), docs, loc, o), RelationalJobs(work[k]), docs, loc, o)
  {
    assert work[..k + 1][..k] == work[..k];
    assert Pass2(work[..k + 1]) == Pass2(work[..k]) + RelationalJobs(work[k]);
    RunJobsAppend(start, Pass2(work[..k]), RelationalJobs(work[k]), docs, loc, o);
  }

  lemma PassHalted(start: Outcome, work: seq<Path>, k: nat, docs: map<Path, Option<Document>>, loc: Localization, o: Orders)
    requires k < |work|
    ensures RunJobs(start, Pass1(work[..k + 1]), docs, loc, o).halted ==>
      RunJobs(start, Pass1(work), docs, loc, o) == RunJobs(start, Pass1(work[..k + 1]), docs, loc, o)
    ensures RunJobs(start, Pass2(work[..k + 1]), docs, loc, o).halted ==>
      RunJobs(start, Pass2(work), docs, loc, o) == RunJobs(start, Pass2(work[..k + 1]), docs, loc, o)
  {
    assert work[..k + 1] + work[k + 1..] == work;
    Pass1Append(work[..k + 1], work[k + 1..]);
    Pass2Append(work[..k + 1], work[k + 1..]);
    if RunJobs(start, Pass1(work[..k + 1]), docs, loc, o).halted {
      HaltedPrefix(start, Pass1(work[..k + 1]), Pass1(work[k + 1..]), docs, loc, o);
    }
    if RunJobs(start, Pass2(work[..k + 1]), docs, loc, o).halted {
      HaltedPrefix(start, Pass2(work[..k + 1]), Pass2(work[k + 1..]), docs, loc, o);
    }
  }

  /** Pass 2 (lines 274-279): each path of the work list to the item set
      loader, as its name says. */
  method RelationalPass(store: Store, work: seq<Path>, docs: map<Path, Option<Document>>, loc: Localization, o: Orders)
    returns (halted: bool)
    modifies store
    ensures Outcome(store.Snapshot(), halted) == RunJobs(Outcome(old(store.Snapshot()), false), Pass2(work), docs, loc, o)
  {
    ghost var start := Outcome(store.Snapshot(), false);
    var k := 0;
    while k < |work|
      invariant 0 <= k <= |work|
      invariant Outcome(store.Snapshot(), false) == RunJobs(start, Pass2(work[..k]), docs, loc, o)
    {
      var p := work[k];
      ghost var cur := Outcome(store.Snapshot(), false);
      Pass2Step(start, work, k, docs, loc, o);
      if Contains(p, ItemSetsTable) {
        halted := RunJob(store, Job(ItemSetsLoader, p), docs, loc, o);
        RunJobsSingle(cur, Job(ItemSetsLoader, p), docs, loc, o);
        if halted {
          PassHalted(start, work, k, docs, loc, o);
          return;
        }
      }
      k := k + 1;
    }
    assert work[..k] == work;
    halted := false;
  }

  /** How a run of the updater ends, by the message it prints last. */
  datatype Ending =
    | NoLocalization  // the guard: the localization table failed to load
    | NoLists         // files_add.json or files_update.json not found
    | UpToDate        // no new or updated files to process
    | Complete        // both passes went to the end
    | Raised          // a loader raised out of `main`

  /** One run of the updater against the store: the guard, the two passes
      over the work list, and the end of the run at the first loader that
      raises. Only a loader raising leaves the store as the jobs before it
      left it; the first three endings change nothing. */
  method Sync(store: Store, loc: Localization, toAdd: Option<seq<Path>>, toUpdate: Option<seq<Path>>,
              docs: map<Path, Option<Document>>, o: Orders) returns (e: Ending)
    modifies store
    ensures var r := RunJobs(Outcome(old(store.Snapshot()), false), Jobs(loc, toAdd, toUpdate), docs, loc, o);
      && store.Snapshot() == r.tables
      && (e.Raised? <==> r.halted)
    ensures e.NoLocalization? <==> loc == []
    ensures e.NoLists? <==> loc != [] && (toAdd.None? || toUpdate.None?)
    ensures e.UpToDate? <==> loc != [] && toAdd.Some? && toUpdate.Some? && toAdd.value + toUpdate.value == []
    ensures e.NoLocalization? || e.NoLists? || e.UpToDate? ==> store.Snapshot() == old(store.Snapshot())
  {
    if loc == [] {
      return NoLocalization;
    }
    if toAdd.None? || toUpdate.None? {
      return NoLists;
    }
    var work := toAdd.value + toUpdate.value;
    if work == [] {
      return UpToDate;
    }
    ghost var start := Outcome(store.Snapshot(), false);
    RunJobsAppend(start, Pass1(work), Pass2(work), docs, loc, o);
    var halted := CorePass(store, work, docs, loc, o);
    if halted {
      RunJobsHalted(Outcome(store.Snapshot(), true), Pass2(work), docs, loc, o);
      return Raised;
    }
    halted := RelationalPass(store, work, docs, loc, o);
    e := if halted then Raised else Complete;
  }
}
