/** The manifest differ (scripts/4_process_manifest.py, process_manifest):
    fingerprint every staged `.json` document, and compare the new
    path-to-fingerprint manifest with the one saved by the previous run. */
module Manifest {
  import opened Common
  import opened Canonical

  type ManifestMap = map<Path, Digest>

  /** One file met while walking the staging directory: its relative path and
      what reading and parsing it yields. */
  datatype StagedFile = StagedFile(path: Path, content: ReadOutcome)

  predicate IsJsonFile(path: Path) {
    EndsWith(path, ".json")
  }

  /** The file enters the new manifest: it is a `.json` file and its
      fingerprint is truthy (computed, and not the empty string). */
  predicate Hashed(f: StagedFile, hash: Json -> Digest) {
    IsJsonFile(f.path) && Fingerprint(f.content, hash).Some? && Fingerprint(f.content, hash).value != ""
  }

  /** The new manifest built from the files in walk order. */
  function Scan(files: seq<StagedFile>, hash: Json -> Digest): ManifestMap
  {
    if files == [] then map[]
    else
      var m := Scan(files[..|files| - 1], hash);
      var f := files[|files| - 1];
      if Hashed(f, hash) then m[f.path := Fingerprint(f.content, hash).value] else m
  }

  /** The new manifest holds exactly the `.json` files that hashed, each with
      the fingerprint of a file at that path. */
  lemma {:induction false} ScanContents(files: seq<StagedFile>, hash: Json -> Digest)
    ensures forall p :: p in Scan(files, hash) <==>
      exists i :: 0 <= i < |files| && files[i].path == p && Hashed(files[i], hash)
    ensures forall p :: p in Scan(files, hash) ==>
      exists i :: 0 <= i < |files| && files[i].path == p &&
        Fingerprint(files[i].content, hash) == Some(Scan(files, hash)[p])
  {
    if files != [] {
      var init := files[..|files| - 1];
      ScanContents(init, hash);
      forall p | p in Scan(files, hash)
        ensures exists i ::
          0 <= i < |files| && files[i].path == p && Fingerprint(files[i].content, hash) == Some(Scan(files, hash)[p])
      {
        if p != files[|files| - 1].path || !Hashed(files[|files| - 1], hash) {
          assert p in Scan(init, hash) && Scan(files, hash)[p] == Scan(init, hash)[p];
          var i :| 0 <= i < |init| && init[i].path == p &&
            Fingerprint(init[i].content, hash) == Some(Scan(init, hash)[p]);
          assert files[i] == init[i];
        }
      }
      forall p | exists i :: 0 <= i < |files| && files[i].path == p && Hashed(files[i], hash)
        ensures p in Scan(files, hash)
      {
        var i :| 0 <= i < |files| && files[i].path == p && Hashed(files[i], hash);
        if i < |init| {
          assert init[i] == files[i];
        }
      }
    }
  }

  /** Building the new manifest (lines 50-60): walk the files, keep the
      `.json` ones whose fingerprint could be computed; a later file at the
      same path replaces an earlier one. */
  method BuildManifest(files: seq<StagedFile>, hash: Json -> Digest) returns (m: ManifestMap)
    ensures m == Scan(files, hash)
    ensures forall p :: p in m <==>
      exists i :: 0 <= i < |files| && files[i].path == p && Hashed(files[i], hash)
  {
    m := map[];
    var k := 0;
    while k < |files|
      invariant 0 <= k <= |files|
      invariant m == Scan(files[..k], hash)
    {
      var f := files[k];
      assert files[..k + 1][..k] == files[..k];
      if IsJsonFile(f.path) {
        var digest := Fingerprint(f.content, hash);
        if digest.Some? && digest.value != "" {
          m := m[f.path := digest.value];
        }
      }
      k := k + 1;
    }
    assert files[..k] == files;
    ScanContents(files, hash);
  }

  /** The three change sets of lines 62-73. */
  datatype Diff = Diff(added: set<Path>, updated: set<Path>, removed: set<Path>)

  function Compare(prior: ManifestMap, current: ManifestMap): Diff {
    var changed := set p | p in prior && p in current && prior[p] != current[p];
    Diff(current.Keys - prior.Keys, changed, prior.Keys - current.Keys)
  }

  /** The sets are pairwise disjoint, what is to be loaded lies in the current
      manifest, and every path of either manifest is in exactly one of the
      sets unless it is present in both with the same fingerprint. */
  lemma ComparePartition(prior: ManifestMap, current: ManifestMap)
    ensures var d := Compare(prior, current);
      && d.added !! d.updated && d.added !! d.removed && d.updated !! d.removed
      && d.added + d.updated <= current.Keys
      && (forall p :: p in prior && p in current && prior[p] == current[p] ==>
            p !in d.added && p !in d.updated && p !in d.removed)
      && (forall p :: p in prior.Keys + current.Keys && !(p in prior && p in current && prior[p] == current[p]) ==>
            p in d.added + d.updated + d.removed)
  {
  }

  /** Without a saved manifest every scanned document is added. */
  lemma ColdStart(current: ManifestMap)
    ensures Compare(map[], current) == Diff(current.Keys, {}, {})
  {
  }

  /** The manifest saved by a run is what the next run compares against: if
      nothing changed in between, there is nothing to do. */
  lemma RerunFindsNothing(files: seq<StagedFile>, hash: Json -> Digest)
    ensures Compare(Scan(files, hash), Scan(files, hash)) == Diff({}, {}, {})
  {
  }

  /** The new manifest is the prior one with the removed paths dropped, the
      added ones put in, and only the updated ones given a new fingerprint. */
  lemma CompareRebuilds(prior: ManifestMap, current: ManifestMap)
    ensures var d := Compare(prior, current);
      && current.Keys == (prior.Keys - d.removed) + d.added
      && forall p :: p in current && p !in d.added + d.updated ==> p in prior && current[p] == prior[p]
  {
  }

  /** `list(s)`: the elements of a set, each once, in an order the model does
      not fix. */
  method ListOf(s: set<Path>) returns (xs: seq<Path>)
    ensures Enumerates(xs, s)
  {
    xs := [];
    var rest := s;
    while rest != {}
      invariant rest <= s
      invariant forall x :: x in xs <==> x in s - rest
      invariant forall i, j :: 0 <= i < j < |xs| ==> xs[i] != xs[j]
      decreases rest
    {
      var x :| x in rest;
      assert x !in xs;
      xs := xs + [x];
      rest := rest - {x};
    }
  }

  /** Lines 69-73: visit the paths of both manifests, in an order the model
      does not fix, and list those whose fingerprint changed. */
  method UpdatedPaths(prior: ManifestMap, current: ManifestMap) returns (xs: seq<Path>)
    ensures Enumerates(xs, Compare(prior, current).updated)
  {
    xs := [];
    var shared := prior.Keys * current.Keys;
    var visited: set<Path> := {};
    while shared - visited != {}
      invariant visited <= shared
      invariant forall x :: x in xs <==> x in visited && prior[x] != current[x]
      invariant forall i, j :: 0 <= i < j < |xs| ==> xs[i] != xs[j]
      decreases shared - visited
    {
      var p :| p in shared - visited;
      if prior[p] != current[p] {
        xs := xs + [p];
      }
      visited := visited + {p};
    }
  }

  /** One run of the differ. `saved` is the manifest of the previous run
      (None when there is none); `files` is what the walk of the staging
      directory met. The results are the manifest to save, the list of added
      paths, the list of updated paths, and the removed paths. */
  method ProcessManifest(saved: Option<ManifestMap>, files: seq<StagedFile>, hash: Json -> Digest)
    returns (current: ManifestMap, toAdd: seq<Path>, toUpdate: seq<Path>, toDelete: seq<Path>)
    ensures forall p :: p in current <==>
      exists i :: 0 <= i < |files| && files[i].path == p && Hashed(files[i], hash)
    ensures current == Scan(files, hash)
    ensures var prior := saved.GetOr(map[]);
      && Enumerates(toAdd, set p | p in current && p !in prior)
      && Enumerates(toDelete, set p | p in prior && p !in current)
      && Enumerates(toUpdate, set p | p in prior && p in current && prior[p] != current[p])
  {
    var prior := saved.GetOr(map[]);
    current := BuildManifest(files, hash);
    toAdd := ListOf(current.Keys - prior.Keys);
    toDelete := ListOf(prior.Keys - current.Keys);
    toUpdate := UpdatedPaths(prior, current);
  }
}
