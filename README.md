# MINE-R incremental sync, modelled in Dafny

This project models the incremental sync pipeline of MINE-R. The pipeline
has two steps.

- **The manifest differ** (`scripts/4_process_manifest.py`) fingerprints
  every staged `.json` document. A fingerprint is a hash of the document's
  canonical JSON form. The differ compares the new path-to-fingerprint
  manifest with the one saved by the previous run. The result is three
  path sets: added, updated and removed.
- **The database updater** (`scripts/5_update_database.py`) takes the
  added and updated documents. It loads them into the relational store
  through three loaders: status effects, items and item sets. From the
  items the store already holds, it derives each armor set's name, tier
  and class.

The modules are:

- `common.dfy`, module `Common`: `Option`, "enumerates a set in some order",
  and the Python string operations used (`in`, `endswith`,
  `split(sep)[-1]`, `replace`).
- `canonical.dfy`, module `Canonical`: JSON values, documents as written on
  disk, and `get_canonical_hash`.
- `manifest.dfy`, module `Manifest`: `process_manifest`, meaning the
  manifest build and the diff.
- `resolver.dfy`, module `Resolver`: `get_localized_string` and
  `build_web_asset_path`.
- `derivation.dfy`, module `Derivation`: the set name, tier and class
  computations.
- `store.dfy`, module `Store`: the six tables, the SQL statements, and the
  `Store` class with the three loaders.
- `loading.dfy`, module `Loading`: what the loaders guarantee about the
  tables.
- `orchestrator.dfy`, module `Orchestrator`: `main`'s two routing passes
  and the localization guard.

How the model treats the parts the source leaves open:

- **The hash.** It is a parameter `hash: Json -> Digest` over JSON values.
  An object in a `Json` value is a map, so key order does not exist.
  Documents on disk (`Raw`) keep their member order and whitespace.
- **The store.** Each table is a map or set keyed by its primary key. This
  follows `scripts/0_setup_database.py`: lines 24, 36 and 43 for the entity
  tables, and 55, 64 and 74 for the association tables.
- **Row failure.** Each source row carries `fault: Option<nat>`. `None`
  means the row does not raise. `Some(k)` means it raises after its first
  `k` store statements. Those statements stay applied, because there is
  one commit per document and no rollback per row.
- **Unspecified orders.** SQL `IN` query results and `list(set(...))`
  come from an `Orders` parameter. `ValidOrders` requires each of its
  orders to list every element exactly once.
- **Imperative code.** Each loop in the source is a Dafny method:
  - `BuildManifest`, `UpdatedPaths` and `GetLocalizedString`;
  - `FindClass`;
  - the loaders `Store.Store.Process*`;
  - the passes `CorePass` and `RelationalPass`.

  `UpdatedPaths` and `ListOf` are proved to list each element of the
  specified set exactly once (`Enumerates`), because Python does not fix
  the order of a set. Every other method is proved equal to a pure
  function, and the properties are proved about those functions.

## Model

| member | source | states |
|---|---|---|
| Common.LastPieceSuffix | scripts/5_update_database.py:74 | `split(sep)[-1]` is a suffix of the asset that holds no separator |
| Common.LastPieceAfterSep | scripts/5_update_database.py:74 | when the separator occurs, the last piece comes right after an occurrence of it; otherwise it is the whole string |
| Common.RemoveAll | scripts/5_update_database.py:137 | `s.replace(pat, "")` never lengthens `s`, and it leaves a string without `pat` unchanged |
| Common.ReplaceChar | scripts/5_update_database.py:75 | `s.replace('\\', '/')` keeps the length, maps each backslash to a slash, and keeps every other character |
| Canonical.Fingerprint | scripts/4_process_manifest.py:13-32 | no fingerprint exactly when the file cannot be read or parsed |
| Canonical.EquivalentSameValue | scripts/4_process_manifest.py:20-24 | two documents that differ only in member order and whitespace parse to the same JSON value |
| Canonical.SameDocumentSameFingerprint | scripts/4_process_manifest.py:17-28 | such documents get the same fingerprint, and it is computed |
| Manifest.ScanContents | scripts/4_process_manifest.py:50-60 | the new manifest holds exactly the `.json` files whose fingerprint was truthy, each with the fingerprint of a file at that path |
| Manifest.BuildManifest | scripts/4_process_manifest.py:50-60 | the walk loop builds that manifest |
| Manifest.ComparePartition | scripts/4_process_manifest.py:62-73 | added, updated and removed are pairwise disjoint; added and updated are new-manifest keys; an unchanged shared path is in none of them; every other path is in one of them |
| Manifest.ColdStart | scripts/4_process_manifest.py:45-67 | against the empty manifest, every path is added, and none is updated or removed |
| Manifest.RerunFindsNothing | scripts/4_process_manifest.py:63-77 | diffing the saved manifest against a rescan of the same files finds nothing |
| Manifest.CompareRebuilds | scripts/4_process_manifest.py:62-73 | the new manifest is the old one minus removed paths plus added ones; only updated paths change fingerprint |
| Manifest.ListOf | scripts/4_process_manifest.py:66-67 | `list(s)` lists each element of the set once |
| Manifest.UpdatedPaths | scripts/4_process_manifest.py:69-73 | the loop lists each shared path whose fingerprint changed, once |
| Manifest.ProcessManifest | scripts/4_process_manifest.py:34-77 | the saved manifest is the scan; the three lists enumerate added, removed and updated paths, with a missing old manifest read as empty |
| Resolver.DigitsRoundTrip | scripts/5_update_database.py:58 | `str(n)` of a natural number is its decimal form: its digits stand for `n`, with no leading zero |
| Resolver.DigitsInjective | scripts/5_update_database.py:58 | distinct natural numbers have distinct decimal forms |
| Resolver.DecimalStringInjective | scripts/5_update_database.py:58-63 | two StringIDs give the same entry key exactly when they are the same number |
| Resolver.FindFirst | scripts/5_update_database.py:60-65 | the search fails exactly when no table keyed `tableId` has an entry keyed `stringId`; otherwise it returns the first such entry's text, in table order and then entry order |
| Resolver.LocalizedTextSpec | scripts/5_update_database.py:51-65 | `""` without a localization table or reference; an unmapped or absent table id searches "unknown"; otherwise the first matching entry's text, or `""` |
| Resolver.GetLocalizedString | scripts/5_update_database.py:51-65 | the nested search loop with early return computes that text |
| Resolver.MediaPathShape | scripts/5_update_database.py:73-80 | "/media/" plus the last split piece with backslashes replaced; that piece is a suffix of the asset that follows the marker and holds none |
| Resolver.WebAssetPathSpec | scripts/5_update_database.py:67-82 | see the bullet list under this table |
| Derivation.Words | scripts/5_update_database.py:191 | `split()` yields non-empty words without whitespace |
| Derivation.WordsSplitAt | scripts/5_update_database.py:191 | a whitespace character splits the words: the words of `a + [c] + b` are the words of `a` followed by those of `b` |
| Derivation.KeepSharedSpec | scripts/5_update_database.py:192 | the kept words are exactly the first name's words found in every other name, in their order |
| Derivation.CommonWordsSpec | scripts/5_update_database.py:188-192 | the common words are a subsequence of the first name's words, and are exactly the words every name has |
| Derivation.WordsOfJoin | scripts/5_update_database.py:193 | splitting words joined by spaces gives the words back |
| Derivation.CommonNameSpec | scripts/5_update_database.py:188-193 | see the bullet list under this table |
| Derivation.SetTierSpec | scripts/5_update_database.py:196-197 | see the bullet list under this table |
| Derivation.ClassOf | scripts/5_update_database.py:200-211 | the class is one of `""`, Rogue, Fighter, Ranger and Mage; it is `""` exactly when no effect is in `ARMOR_CLASSES` |
| Derivation.ClassOfFirst | scripts/5_update_database.py:208-211 | the class is that of the first effect in `ARMOR_CLASSES` |
| Derivation.FindClass | scripts/5_update_database.py:200-211 | the search loop with `break` computes that class |
| Store.Completed | scripts/5_update_database.py:94-108 | a row that raises has run a prefix of its statements; a row that does not raise has run all of them |
| Store.NonEmpty | scripts/5_update_database.py:178-179 | the kept RowNames are exactly the non-empty ones |
| Store.MemberRecords | scripts/5_update_database.py:181-185 | the query returns the Items rows of exactly the listed keys the table holds |
| Store.NamesOf | scripts/5_update_database.py:188 | the names kept are exactly the non-empty member names |
| Store.PutItemEffects | scripts/5_update_database.py:145-159 | every statement inserts an effect row of this item, with the given hidden flag |
| Store.Store.constructor | scripts/0_setup_database.py:22-77 | a new store is empty |
| Store.Store.Execute | scripts/5_update_database.py:102-225 | running a statement changes the tables as `Apply` says |
| Store.Store.RunRow | scripts/5_update_database.py:94-108 | a row runs its statements in order until it raises |
| Store.Store.ProcessStatusEffects | scripts/5_update_database.py:86-111 | the loader leaves the tables equal to the fold of its rows |
| Store.Store.ProcessAllItems | scripts/5_update_database.py:114-165 | the same, for items |
| Store.Store.DeriveSet | scripts/5_update_database.py:178-211 | the two queries and the derivations give the set's record |
| Store.Store.ProcessItemSets | scripts/5_update_database.py:168-231 | the same as `ProcessStatusEffects`, for item sets |
| Loading.EffectStepSpec | scripts/5_update_database.py:94-108 | a status-effect row upserts only its own key once it gets that far; if it raises first, nothing changes |
| Loading.LoadEffectsLastRowWins | scripts/5_update_database.py:94-110 | a key's last row decides that key's row, once it gets to its upsert, whatever rows before it did |
| Loading.LoadEffectsKeys | scripts/5_update_database.py:94-110 | after loading, a key has a row exactly when it had one before or one of its rows reached its upsert |
| Loading.ItemStepLocal | scripts/5_update_database.py:122-162 | an item row, even one that raises, changes only its own Items row and effect rows |
| Loading.RunPutItemEffects | scripts/5_update_database.py:145-159 | each non-empty RowName gets an effect row with the given flag |
| Loading.ItemStepComplete | scripts/5_update_database.py:127-159 | see the bullet list under this table |
| Loading.ItemStepIdempotent | scripts/5_update_database.py:122-162 | loading an item row twice is loading it once |
| Loading.LoadItemsLastRowWins | scripts/5_update_database.py:122-164 | a raising row does not stop later rows; an item's last row, if it does not raise, decides its Items row and effect rows |
| Loading.LoadItemsKeys | scripts/5_update_database.py:122-164 | after loading, an item has a row exactly when it had one before or one of its rows reached its upsert |
| Loading.ItemDefaults | scripts/5_update_database.py:127-141 | Tier is -1 when absent and NULL when null; Slot is "None" when absent, with the "EEquipmentSlot::" prefix removed; damage figures are 0.0 without EquippableData |
| Loading.SetStepLocal | scripts/5_update_database.py:176-228 | a set row, even one that raises, changes only its own ArmorSets row and association rows |
| Loading.RunSetRow | scripts/5_update_database.py:214-225 | the statements of a set row upsert it and replace its association rows with the listed ones |
| Loading.SetStepComplete | scripts/5_update_database.py:214-225 | after a set row that does not raise, its record is the derived one and its association rows are exactly its non-empty RowNames |
| Loading.SetStepIdempotent | scripts/5_update_database.py:176-228 | loading a set row twice is loading it once |
| Loading.LoadSetsKeepsItems | scripts/5_update_database.py:168-231 | loading item sets reads Items and Item_StatusEffects but writes neither, nor StatusEffects |
| Loading.LoadSetsOtherKeys | scripts/5_update_database.py:176-228 | rows of other sets leave a set's ArmorSets row and association rows alone |
| Loading.LoadSetsLastRowWins | scripts/5_update_database.py:176-228 | a raising row does not stop later rows; a set's last row, if it does not raise, decides its record (derived from the Items held before the document) and its association rows are exactly its non-empty RowNames |
| Loading.LoadSetsKeys | scripts/5_update_database.py:176-228 | after loading, a set has an ArmorSets row exactly when it had one before or one of its rows reached its upsert |
| Loading.SetNameOfMembers | scripts/5_update_database.py:181-193 | see the bullet list under this table |
| Loading.SetTierOfMembers | scripts/5_update_database.py:181-197 | see the bullet list under this table |
| Loading.ClassOfEffectsEmpty | scripts/5_update_database.py:200-211 | the class of the member effect rows is `""` exactly when none of them names an armor class |
| Loading.ClassOfEffectsFirst | scripts/5_update_database.py:206-211 | otherwise it is the class of the first such row in query order |
| Loading.SetClassOfMembers | scripts/5_update_database.py:200-211 | see the bullet list under this table |
| Orchestrator.JobsSpec | scripts/5_update_database.py:247-297 | see the bullet list under this table |
| Orchestrator.JobsOrdered | scripts/5_update_database.py:260-279 | every item-set job comes after every status-effect and item job |
| Orchestrator.RunJobsStopsAt | scripts/5_update_database.py:259-288 | the run stops at the first job whose document cannot be read; jobs before it have run, none after it runs |
| Orchestrator.RunJob | scripts/5_update_database.py:264-277 | runs one loader on one document |
| Orchestrator.CorePass | scripts/5_update_database.py:262-271 | pass 1 runs the status-effect and item jobs of each path, in work-list order |
| Orchestrator.RelationalPass | scripts/5_update_database.py:274-279 | pass 2 runs the item-set jobs, in work-list order |
| Orchestrator.Sync | scripts/5_update_database.py:236-297 | the whole run leaves the store as the jobs, run in order, say; it ends at the localization guard, at missing lists or at an empty work list without touching the store, and it ends `Raised` exactly when a loader raised out of `main` |

The longer contracts, in the order they appear in the table:

- **Resolver.WebAssetPathSpec.**
  - The result is `""` exactly when the asset is empty, `image` is false,
    or neither marker occurs.
  - The result holds no backslash.
  - Otherwise the result is "/media/" followed by a kept text, with each
    backslash of the kept text turned into a slash. `/Game/` wins over
    `/Augusta/Content/` as the chosen marker.
  - The kept text is a suffix of the asset, comes right after an
    occurrence of the chosen marker, and holds no marker.
- **Derivation.CommonNameSpec.**
  - The name is "Unknown" when there are no common words.
  - Otherwise its words are the common words.
  - Every one of those words is a word of every name.
- **Derivation.SetTierSpec.**
  - The tier is -1 when no tier is truthy.
  - Otherwise it is one of the truthy tiers.
  - It is exactly `t` when every truthy tier is `t`.
- **Loading.ItemStepComplete.** After an item row that does not raise:
  - its Items row is the row's record;
  - its effect rows are exactly the non-empty StatusEffects and
    HiddenStatusEffects RowNames;
  - a row is hidden exactly when its name is a hidden one, so a name in
    both lists ends up hidden;
  - other items are untouched.
- **Loading.SetNameOfMembers.**
  - The name is "Unknown Armor" when no member item the store holds has a
    name.
  - Otherwise it is some name plus " Armor". Unless that name is the
    "Unknown" fallback, each of its words is a word of every named member.
- **Loading.SetTierOfMembers.**
  - The tier is -1 when no held member has a truthy tier. NULL and 0 are
    not truthy; -1 is.
  - Otherwise it is one of the members' truthy tiers.
  - It is exactly `x` when all of them are `x`.
- **Loading.SetClassOfMembers.**
  - The class is one of the five values.
  - It is `""` exactly when no effect row, visible or hidden, of a listed
    member names an armor class.
  - Otherwise it is the class of the first such row in query order.
- **Orchestrator.JobsSpec.**
  - No job runs without a localization table, without both to-do lists,
    or with empty lists.
  - Otherwise a work-list path gets exactly the loaders whose table name
    it contains. Pass 1 uses two independent tests.
  - A path naming no table gets no job.

## Left out

- File and directory I/O is not modelled. This covers `os.walk`, reading
  and writing `manifest.json`, `files_add.json` and `files_update.json`,
  loading the localization file, and `print`. Their results are
  parameters or results of the model:
  - the staged files, in walk order;
  - the saved manifest (`None` when absent);
  - the two to-do lists (`None` when a list file is missing);
  - the localization table (empty when it failed to load);
  - the documents' Rows.
- SHA-256 and the bytes `json.dumps` produces are left out. They are the
  `hash` parameter, applied to the JSON value. Collision freedom is not
  assumed, so documents with different values may share a fingerprint.
  The JSON grammar, number formats and string escapes are not modelled
  either: a document is given as its parse tree.
- `Canonical.SameDocumentSameFingerprint` requires each object to list
  each key once. A document with repeated keys keeps the last value. This
  is modelled in `Members`, but the equivalence lemma does not cover it.
- Removed paths are computed and returned, but, as in the source, no
  loader deletes their rows.
- SQLite is not modelled: SQL text, cursors, `commit`, `close`, and the
  `sqlite3.Error` handler in `main` (lines 286-287).
  - A failed commit, which ends the run in the source, is not modelled.
  - A statement that raises inside a row is the row's `fault`.
- Foreign keys are not enforced by the source and are not asserted here.
  An association row may name a missing item or effect.
- The REAL columns (`durability`, `flat_damage_reduction`,
  `percentage_damage_reduction`) are carried as opaque `real` values.
  There is no floating-point arithmetic.
- Row fields are modelled only in the shapes the loaders use:
  - a reference to localized text as a map from member name to integer;
  - Tier as absent, null or an integer;
  - Slot as a string;
  - a RowName as a string, with `""` for absent or null.

  Any other shape that makes a row raise is that row's `fault`. A
  non-integer StringTableID or StringID is not modelled.
- A document's Rows is a JSON object, so its keys are distinct. The
  loaders here accept any sequence of rows, which is more general.
- `build_web_asset_path` keeps Python's `split(marker)[-1]`. This is not
  always the text after the marker's last occurrence: with overlapping
  markers, `/Game/Game/x` gives `Game/x`. The model follows the code.
- Loading.SetNameOfMembers: it allows the "Unknown" fallback without
  saying when it applies. The exact rule (no common words) is stated over
  the names in query order by `Derivation.CommonNameSpec`.
- Store.Orders: an order is a function of the set it lists. Two queries
  over the same set in one run therefore come back in the same order,
  which SQLite does not promise.
- `scripts/0_setup_database.py` (beyond its primary keys) and
  `tools/uasset_converter/Program.cs` are not part of this model. The
  first is one-time DDL. The second is a command-line wrapper around an
  external asset library.
