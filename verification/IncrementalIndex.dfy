/** Incremental repository indexing: when reuse of stored rows equals a full rebuild. */
module IncrementalIndex {
  import opened Wrappers
  import opened Orders

  type Path = string
  type Fingerprint = string

  /** The two computations whose insides do not matter here: the content digest, and the
      chunk-and-embed pipeline, which a fingerprint identifies. Rows are keyed by chunk index. */
  datatype Pipeline = Pipeline(digest: string -> string, build: (Fingerprint, Path, string) -> map<nat, string>)

  ghost predicate Injective(digest: string -> string) {
    forall a, b :: digest(a) == digest(b) ==> a == b
  }

  /** `sizeBytes` is read from disk and is not a function of the decoded content. */
  datatype SourceFile = SourceFile(path: Path, content: string, sizeBytes: nat)

  datatype FileRow = FileRow(content: string, contentHash: string, sizeBytes: nat, chunks: map<nat, string>)

  /** What is stored for one repository. */
  datatype Index = Index(fingerprint: Option<Fingerprint>, files: map<Path, FileRow>)

  datatype FileState = FileState(contentHash: string, chunkCount: nat)

  datatype Manifest = Manifest(fingerprint: Option<Fingerprint>, files: map<Path, FileState>)
  {
    predicate CompatibleWith(fp: Fingerprint) {
      fingerprint.Some? && fingerprint.value == fp
    }
  }

  datatype EmbeddedChunk = EmbeddedChunk(path: Path, index: nat, row: string)

  datatype Update = Update(
    fingerprint: Fingerprint, snapshot: seq<SourceFile>, upserted: seq<Path>, deleted: seq<Path>,
    chunks: seq<EmbeddedChunk>, fullRebuild: bool)

  datatype Plan = Plan(kept: seq<Path>, changed: seq<Path>, added: seq<Path>, deleted: seq<Path>, fullRebuild: bool)
  {
    function Reindexed(): seq<Path> {
      Sorted(Elements(changed) + Elements(added))
    }
  }

  datatype UpdateError =
    | DuplicateUpserts | DuplicateDeletes | UpsertedAndDeleted(path: Path) | UnknownUpsert(path: Path)
    | RebuildOmits(path: Path) | IncompatibleFingerprint | SurplusDelete(path: Path) | OmittedDelete(path: Path)
    | NewNotUpserted(path: Path) | ChangedNotUpserted(path: Path) | ForeignChunk(path: Path)
    | ChunkPathNotStored | DuplicateChunkIndex | UnusableEmbeddings | DuplicatePaths

  function Elements(s: seq<Path>): set<Path> {
    set p | p in s
  }

  predicate Distinct<T(==)>(s: seq<T>) {
    forall i, k :: 0 <= i < k < |s| ==> s[i] != s[k]
  }

  /** The dict built from a snapshot's file list: a later entry of the same path wins. */
  function Sources(files: seq<SourceFile>): map<Path, SourceFile> {
    if files == [] then map[]
    else Sources(files[..|files| - 1])[files[|files| - 1].path := files[|files| - 1]]
  }

  /** Of the entries of one path the last one counts. */
  lemma {:induction false} SourcesAre(files: seq<SourceFile>, i: nat)
    requires i < |files| && forall k :: i < k < |files| ==> files[k].path != files[i].path
    ensures files[i].path in Sources(files) && Sources(files)[files[i].path] == files[i]
  {
    var front := files[..|files| - 1];
    if i < |front| {
      SourcesAre(front, i);
    }
  }

  lemma {:induction false} SourcesAreFiles(files: seq<SourceFile>, path: Path)
    ensures path in Sources(files) <==> exists i :: 0 <= i < |files| && files[i].path == path
  {
    if files != [] {
      var front := files[..|files| - 1];
      SourcesAreFiles(front, path);
      assert forall i :: 0 <= i < |front| ==> front[i] == files[i];
    }
  }

  function ReadManifest(index: Index): Manifest {
    Manifest(index.fingerprint,
             map p | p in index.files :: FileState(index.files[p].contentHash, |index.files[p].chunks|))
  }

  // ------------------------------------------------------------------------- classification

  function KeptPaths(current: map<Path, string>, manifest: Manifest): set<Path> {
    set p | p in current && p in manifest.files && manifest.files[p].contentHash == current[p]
  }

  function ChangedPaths(current: map<Path, string>, manifest: Manifest): set<Path> {
    set p | p in current && p in manifest.files && manifest.files[p].contentHash != current[p]
  }

  /** Without a compatible fingerprint everything is new; with it, a file is kept exactly when it is
      stored with the digest it has now. All lists are sorted. */
  ghost predicate Classifies(plan: Plan, current: map<Path, string>, manifest: Manifest, compatible: bool) {
    && Ascending(plan.kept) && Ascending(plan.changed) && Ascending(plan.added) && Ascending(plan.deleted)
    && (plan.fullRebuild <==> !compatible)
    && (!compatible ==>
          && plan.kept == plan.changed == plan.deleted == []
          && forall p :: p in plan.added <==> p in current)
    && (compatible ==>
          forall p ::
            && (p in plan.kept <==>
                  p in current && p in manifest.files && manifest.files[p].contentHash == current[p])
            && (p in plan.changed <==>
                  p in current && p in manifest.files && manifest.files[p].contentHash != current[p])
            && (p in plan.added <==> p in current && p !in manifest.files)
            && (p in plan.deleted <==> p !in current && p in manifest.files))
  }

  /** The files whose chunks are made again: under a compatible fingerprint only those that are new or
      whose digest differs, so a file that did not change is kept and costs nothing. */
  lemma OnlyChangesAreReindexed(plan: Plan, current: map<Path, string>, manifest: Manifest, compatible: bool, p: Path)
    requires Classifies(plan, current, manifest, compatible)
    ensures p in plan.Reindexed() <==>
            p in current && (!compatible || p !in manifest.files || manifest.files[p].contentHash != current[p])
    ensures compatible && p in current && p in manifest.files && manifest.files[p].contentHash == current[p] ==>
              p in plan.kept && p !in plan.Reindexed() && p !in plan.deleted
  {
    assert p in plan.Reindexed() <==> p in plan.changed || p in plan.added;
  }

  ghost predicate Lists(s: seq<Path>, paths: set<Path>) {
    Ascending(s) && forall p :: p in s <==> p in paths
  }

  /** The members of `paths` among the first sorted paths, in order. */
  ghost predicate Selects(s: seq<Path>, prefix: seq<Path>, paths: set<Path>) {
    Ascending(s) && forall p :: p in s <==> p in prefix && p in paths
  }

  lemma SelectsNext(s: seq<Path>, order: seq<Path>, i: nat, paths: set<Path>)
    requires i < |order| && Ascending(order) && Selects(s, order[..i], paths)
    ensures Selects(if order[i] in paths then s + [order[i]] else s, order[..i + 1], paths)
  {
    var path := order[i];
    forall p | p in s
      ensures p != path && StringLe(p, path)
    {
      var k :| 0 <= k < i && order[..i][k] == p;
      assert order[k] == p;
    }
    AscendingExtended(s, path);
    assert order[..i + 1] == order[..i] + [path];
  }

  lemma SelectsNone(order: seq<Path>, paths: set<Path>)
    ensures Selects([], order[..0], paths)
  {
  }

  lemma SelectsAll(s: seq<Path>, order: seq<Path>, paths: set<Path>)
    requires Selects(s, order[..|order|], paths) && forall p :: p in paths ==> p in order
    ensures Lists(s, paths)
  {
    assert order[..|order|] == order;
  }

  lemma NothingAscends()
    ensures Ascending([])
  {
  }

  method ClassifyFiles(current: map<Path, string>, manifest: Manifest, compatible: bool) returns (plan: Plan)
    ensures Classifies(plan, current, manifest, compatible)
  {
    hide Selects, Ascending;
    var order := Sorted(current.Keys);
    NothingAscends();
    if !compatible {
      return Plan([], [], order, [], true);
    }
    var kept, changed, added := [], [], [];
    ghost var keptPaths, changedPaths := KeptPaths(current, manifest), ChangedPaths(current, manifest);
    ghost var addedPaths := current.Keys - manifest.files.Keys;
    SelectsNone(order, keptPaths);
    SelectsNone(order, changedPaths);
    SelectsNone(order, addedPaths);
    for i := 0 to |order|
      invariant Selects(kept, order[..i], keptPaths)
      invariant Selects(changed, order[..i], changedPaths)
      invariant Selects(added, order[..i], addedPaths)
    {
      var path := order[i];
      assert path in current;
      SelectsNext(kept, order, i, keptPaths);
      SelectsNext(changed, order, i, changedPaths);
      SelectsNext(added, order, i, addedPaths);
      if path !in manifest.files {
        added := added + [path];
      } else if manifest.files[path].contentHash == current[path] {
        kept := kept + [path];
      } else {
        changed := changed + [path];
      }
    }
    SelectsAll(kept, order, keptPaths);
    SelectsAll(changed, order, changedPaths);
    SelectsAll(added, order, addedPaths);
    plan := Plan(kept, changed, added, Sorted(manifest.files.Keys - current.Keys), false);
  }

  // ----------------------------------------------------------------------------- validation

  function SnapshotHashes(digest: string -> string, files: seq<SourceFile>): map<Path, string> {
    var sources := Sources(files);
    map p | p in sources :: digest(sources[p].content)
  }

  /** The updates that may stamp a fingerprint. */
  ghost predicate Acceptable(digest: string -> string, update: Update, manifest: Manifest) {
    var hashes := SnapshotHashes(digest, update.snapshot);
    var upserted, deleted := Elements(update.upserted), Elements(update.deleted);
    && Distinct(update.upserted) && Distinct(update.deleted)
    && upserted !! deleted && upserted <= hashes.Keys
    && (if update.fullRebuild then hashes.Keys <= upserted
        else manifest.fingerprint == Some(update.fingerprint) && ReuseSound(hashes, upserted, deleted, manifest))
    && forall i :: 0 <= i < |update.chunks| ==> update.chunks[i].path in upserted
  }

  method ValidateIndexUpdate(digest: string -> string, update: Update, manifest: Manifest)
    returns (error: Option<UpdateError>)
    ensures error.None? <==> Acceptable(digest, update, manifest)
  {
    var hashes := SnapshotHashes(digest, update.snapshot);
    var upserted, deleted := Elements(update.upserted), Elements(update.deleted);
    if !Distinct(update.upserted) { return Some(DuplicateUpserts); }
    if !Distinct(update.deleted) { return Some(DuplicateDeletes); }
    var overlap := Sorted(upserted * deleted);
    assert forall p :: p in upserted && p in deleted ==> p in overlap;
    if overlap != [] { return Some(UpsertedAndDeleted(overlap[0])); }
    var unknown := Sorted(upserted - hashes.Keys);
    assert forall p :: p in upserted && p !in hashes ==> p in unknown;
    if unknown != [] { return Some(UnknownUpsert(unknown[0])); }
    if update.fullRebuild {
      var missing := Sorted(hashes.Keys - upserted);
      assert forall p :: p in hashes && p !in upserted ==> p in missing;
      if missing != [] { return Some(RebuildOmits(missing[0])); }
    } else {
      if !manifest.CompatibleWith(update.fingerprint) { return Some(IncompatibleFingerprint); }
      error := ValidateReuse(hashes, upserted, deleted, manifest);
      if error.Some? { return; }
    }
    error := ValidateChunkTargets(update.chunks, upserted);
  }

  /** Exactly the paths that left are deleted, and every kept path is stored with its hash. */
  ghost predicate ReuseSound(hashes: map<Path, string>, upserted: set<Path>, deleted: set<Path>, manifest: Manifest) {
    && deleted == manifest.files.Keys - hashes.Keys
    && forall p :: p in hashes && p !in upserted ==>
         p in manifest.files && manifest.files[p].contentHash == hashes[p]
  }

  method ValidateReuse(hashes: map<Path, string>, upserted: set<Path>, deleted: set<Path>, manifest: Manifest)
    returns (error: Option<UpdateError>)
    ensures error.None? <==> ReuseSound(hashes, upserted, deleted, manifest)
  {
    var expected := manifest.files.Keys - hashes.Keys;
    var surplus := Sorted(deleted - expected);
    if surplus != [] { return Some(SurplusDelete(surplus[0])); }
    var omitted := Sorted(expected - deleted);
    if omitted != [] { return Some(OmittedDelete(omitted[0])); }
    assert deleted == expected by {
      assert deleted - expected == {} && expected - deleted == {};
    }
    var reused := Sorted(hashes.Keys - upserted);
    SortedElements(hashes.Keys - upserted);
    for i := 0 to |reused|
      invariant forall k :: 0 <= k < i ==>
                  reused[k] in manifest.files && manifest.files[reused[k]].contentHash == hashes[reused[k]]
    {
      var path := reused[i];
      if path !in manifest.files { return Some(NewNotUpserted(path)); }
      if manifest.files[path].contentHash != hashes[path] { return Some(ChangedNotUpserted(path)); }
    }
    assert forall p :: p in hashes && p !in upserted ==> p in reused;
    return None;
  }

  method ValidateChunkTargets(chunks: seq<EmbeddedChunk>, upserted: set<Path>) returns (error: Option<UpdateError>)
    ensures error.None? <==> forall i :: 0 <= i < |chunks| ==> chunks[i].path in upserted
  {
    for i := 0 to |chunks|
      invariant forall k :: 0 <= k < i ==> chunks[k].path in upserted
    {
      if chunks[i].path !in upserted { return Some(ForeignChunk(chunks[i].path)); }
    }
    return None;
  }

  // ---------------------------------------------------------------------------- persistence

  function ChunkRows(chunks: seq<EmbeddedChunk>, path: Path): map<nat, string> {
    if chunks == [] then map[]
    else
      var last := chunks[|chunks| - 1];
      var rows := ChunkRows(chunks[..|chunks| - 1], path);
      if last.path == path then rows[last.index := last.row] else rows
  }

  /** No two chunks of one path share an index. */
  predicate DistinctIdentities(chunks: seq<EmbeddedChunk>) {
    forall i, k :: 0 <= i < k < |chunks| ==> chunks[i].path != chunks[k].path || chunks[i].index != chunks[k].index
  }

  function FreshRow(p: Pipeline, source: SourceFile, chunks: map<nat, string>): FileRow {
    FileRow(source.content, p.digest(source.content), source.sizeBytes, chunks)
  }

  /** What a committed update leaves: rewritten rows for upserted paths, old rows for reused ones. */
  function Applied(p: Pipeline, index: Index, update: Update): Index {
    var sources := Sources(update.snapshot);
    var upserted, deleted := Elements(update.upserted), Elements(update.deleted);
    var survivors := if update.fullRebuild then {} else index.files.Keys - upserted - deleted;
    Index(Some(update.fingerprint),
          map path | path in survivors + upserted ::
            if path in upserted && path in sources then FreshRow(p, sources[path], ChunkRows(update.chunks, path))
            else if path in index.files then index.files[path]
            else FileRow("", "", 0, map[]))
  }

  /** What indexing the snapshot from nothing under a fingerprint stores. */
  function Rebuilt(p: Pipeline, fp: Fingerprint, snapshot: seq<SourceFile>): Index {
    var sources := Sources(snapshot);
    Index(Some(fp), map path | path in sources ::
            FreshRow(p, sources[path], p.build(fp, path, sources[path].content)))
  }

  /** Equality of everything except the recorded sizes. */
  function WithoutSizes(index: Index): Index {
    index.(files := map path | path in index.files :: index.files[path].(sizeBytes := 0))
  }

  /** A fingerprint vouches for the rows it stands over. */
  ghost predicate Trustworthy(p: Pipeline, index: Index) {
    forall path :: path in index.files ==>
      && index.files[path].contentHash == p.digest(index.files[path].content)
      && (index.fingerprint.Some? ==>
            index.files[path].chunks == p.build(index.fingerprint.value, path, index.files[path].content))
  }

  /** The caller's own obligation, which the validator does not check: every upserted path
      comes with all the chunks its content has under the stamped fingerprint. */
  ghost predicate Complete(p: Pipeline, update: Update) {
    var sources := Sources(update.snapshot);
    forall path :: path in update.upserted && path in sources ==>
      ChunkRows(update.chunks, path) == p.build(update.fingerprint, path, sources[path].content)
  }

  /** An accepted update leaves exactly the snapshot's paths. */
  lemma AppliedPaths(p: Pipeline, index: Index, update: Update)
    requires Acceptable(p.digest, update, ReadManifest(index))
    ensures Applied(p, index, update).files.Keys == Sources(update.snapshot).Keys
    ensures forall path :: path in Sources(update.snapshot) && path !in update.upserted ==>
              path in index.files && p.digest(Sources(update.snapshot)[path].content) == index.files[path].contentHash
  {
    var sources, hashes := Sources(update.snapshot), SnapshotHashes(p.digest, update.snapshot);
    assert hashes.Keys == sources.Keys;
    forall path | path in sources && path !in update.upserted
      ensures path in index.files && p.digest(sources[path].content) == index.files[path].contentHash
    {
      assert path in hashes && hashes[path] == p.digest(sources[path].content);
    }
  }

  /** Row by row: an upserted path is as a rebuild has it; a reused one differs at most in size. */
  lemma AppliedRow(p: Pipeline, index: Index, update: Update, path: Path)
    requires Injective(p.digest) && Trustworthy(p, index)
    requires Acceptable(p.digest, update, ReadManifest(index)) && Complete(p, update)
    requires path in Sources(update.snapshot)
    ensures path in Applied(p, index, update).files
    ensures
      var source := Sources(update.snapshot)[path];
      var rebuilt := FreshRow(p, source, p.build(update.fingerprint, path, source.content));
      Applied(p, index, update).files[path] ==
      if path in update.upserted then rebuilt
      else rebuilt.(sizeBytes := if path in index.files then index.files[path].sizeBytes else 0)
  {
    AppliedPaths(p, index, update);
    if path !in update.upserted {
      assert !update.fullRebuild;
      assert index.files[path].content == Sources(update.snapshot)[path].content;
    }
  }

  /** Every accepted, complete update yields the full rebuild of its snapshot, up to sizes. */
  lemma AcceptedUpdateIsRebuild(p: Pipeline, index: Index, update: Update)
    requires Injective(p.digest) && Trustworthy(p, index)
    requires Acceptable(p.digest, update, ReadManifest(index)) && Complete(p, update)
    ensures WithoutSizes(Applied(p, index, update)) == WithoutSizes(Rebuilt(p, update.fingerprint, update.snapshot))
  {
    AppliedPaths(p, index, update);
    var left, right := Applied(p, index, update), Rebuilt(p, update.fingerprint, update.snapshot);
    forall path | path in Sources(update.snapshot)
      ensures left.files[path].(sizeBytes := 0) == right.files[path].(sizeBytes := 0)
    {
      AppliedRow(p, index, update, path);
    }
    SameUpToSizes(left, right);
  }

  lemma SameUpToSizes(left: Index, right: Index)
    requires left.fingerprint == right.fingerprint && left.files.Keys == right.files.Keys
    requires forall path :: path in left.files ==>
               left.files[path].(sizeBytes := 0) == right.files[path].(sizeBytes := 0)
    ensures WithoutSizes(left) == WithoutSizes(right)
  {
  }

  /** The recorded sizes, and with them the whole index, equal a rebuild exactly when every
      reused file still has its recorded size. */
  lemma EqualsRebuildExactly(p: Pipeline, index: Index, update: Update)
    requires Injective(p.digest) && Trustworthy(p, index)
    requires Acceptable(p.digest, update, ReadManifest(index)) && Complete(p, update)
    ensures Applied(p, index, update) == Rebuilt(p, update.fingerprint, update.snapshot)
       <==> forall path :: path in Sources(update.snapshot) && path !in update.upserted && path in index.files ==>
              index.files[path].sizeBytes == Sources(update.snapshot)[path].sizeBytes
  {
    AppliedPaths(p, index, update);
    var left, right := Applied(p, index, update).files, Rebuilt(p, update.fingerprint, update.snapshot).files;
    forall path | path in Sources(update.snapshot)
      ensures left[path] == right[path]
         <==> (path in update.upserted || path !in index.files
               || index.files[path].sizeBytes == Sources(update.snapshot)[path].sizeBytes)
    {
      AppliedRow(p, index, update, path);
    }
    SameRows(left, right);
  }

  lemma SameRows(left: map<Path, FileRow>, right: map<Path, FileRow>)
    requires left.Keys == right.Keys
    ensures left == right <==> forall path :: path in left ==> left[path] == right[path]
  {
  }

  /** Re-encoding one file without changing its text leaves a stale size in the index. */
  lemma StaleSizeExample(p: Pipeline)
    requires Injective(p.digest)
    ensures
      var before := Index(Some("fp"), map["a" := FileRow("x", p.digest("x"), 4, p.build("fp", "a", "x"))]);
      var update := Update("fp", [SourceFile("a", "x", 1)], [], [], [], false);
      && Trustworthy(p, before) && Acceptable(p.digest, update, ReadManifest(before)) && Complete(p, update)
      && Applied(p, before, update) != Rebuilt(p, "fp", update.snapshot)
  {
    var before := Index(Some("fp"), map["a" := FileRow("x", p.digest("x"), 4, p.build("fp", "a", "x"))]);
    var update := Update("fp", [SourceFile("a", "x", 1)], [], [], [], false);
    assert update.snapshot[..0] == [];
    assert Sources(update.snapshot) == map["a" := SourceFile("a", "x", 1)];
    assert Applied(p, before, update).files["a"].sizeBytes == 4;
    assert Rebuilt(p, "fp", update.snapshot).files["a"].sizeBytes == 1;
  }

  lemma UpdateKeepsTrust(p: Pipeline, index: Index, update: Update)
    requires Trustworthy(p, index)
    requires Acceptable(p.digest, update, ReadManifest(index)) && Complete(p, update)
    ensures Trustworthy(p, Applied(p, index, update))
  {
  }

  /** The update an indexing run builds from its classification. */
  function PlannedUpdate(fp: Fingerprint, snapshot: seq<SourceFile>, plan: Plan, chunks: seq<EmbeddedChunk>): Update {
    Update(fp, snapshot, plan.Reindexed(), plan.deleted, chunks, plan.fullRebuild)
  }

  /** Whatever is stored, the plan of the classifier passes the validator, as long as chunks
      are made only for the files it asks for. */
  lemma PlanIsAcceptable(p: Pipeline, index: Index, fp: Fingerprint, snapshot: seq<SourceFile>, plan: Plan,
                         chunks: seq<EmbeddedChunk>)
    requires Classifies(plan, SnapshotHashes(p.digest, snapshot), ReadManifest(index),
                        ReadManifest(index).CompatibleWith(fp))
    requires forall i :: 0 <= i < |chunks| ==> chunks[i].path in plan.Reindexed()
    ensures Acceptable(p.digest, PlannedUpdate(fp, snapshot, plan, chunks), ReadManifest(index))
  {
    var update := PlannedUpdate(fp, snapshot, plan, chunks);
    var hashes := SnapshotHashes(p.digest, snapshot);
    var manifest := ReadManifest(index);
    var upserted := Elements(update.upserted);
    assert upserted == Elements(plan.changed) + Elements(plan.added);
    AscendingIsDistinct(update.upserted);
    AscendingIsDistinct(update.deleted);
    if !manifest.CompatibleWith(fp) {
      assert Elements(plan.added) == hashes.Keys && Elements(plan.changed) == {};
    } else {
      assert Elements(update.deleted) == manifest.files.Keys - hashes.Keys;
      assert ReuseSound(hashes, upserted, Elements(update.deleted), manifest);
    }
  }

  lemma AscendingIsDistinct(s: seq<Path>)
    requires Ascending(s)
    ensures Distinct(s)
  {
  }

  // ------------------------------------------------------------------------ runs over a store

  datatype Operation =
    | Apply(update: Update)
    | PersistSnapshot(files: seq<SourceFile>)
    | ReplaceChunks(chunks: seq<EmbeddedChunk>)

  /** The legacy helper that replaces the file rows and revokes the fingerprint. */
  function SnapshotPersisted(p: Pipeline, files: seq<SourceFile>): Index {
    Index(None, map path | path in Sources(files) :: FreshRow(p, Sources(files)[path], map[]))
  }

  /** The legacy helper that replaces every chunk row and revokes the fingerprint. */
  function ChunksReplaced(index: Index, chunks: seq<EmbeddedChunk>): Index {
    Index(None, map path | path in index.files :: index.files[path].(chunks := ChunkRows(chunks, path)))
  }

  /** What can be committed: a valid update whose chunks the row constraints admit, or a legacy
      replacement that respects the unique keys. Everything else rolls back. */
  ghost predicate Committable(p: Pipeline, index: Index, op: Operation) {
    match op
    case Apply(update) =>
      && Acceptable(p.digest, update, ReadManifest(index))
      && forall i, k :: 0 <= i < k < |update.chunks| ==>
           update.chunks[i].path != update.chunks[k].path || update.chunks[i].index != update.chunks[k].index
    case PersistSnapshot(files) => forall i, k :: 0 <= i < k < |files| ==> files[i].path != files[k].path
    case ReplaceChunks(chunks) =>
      && (forall i, k :: 0 <= i < k < |chunks| ==>
            chunks[i].path != chunks[k].path || chunks[i].index != chunks[k].index)
      && forall i :: 0 <= i < |chunks| ==> chunks[i].path in index.files
  }

  function Committed(p: Pipeline, index: Index, op: Operation): Index {
    match op
    case Apply(update) => Applied(p, index, update)
    case PersistSnapshot(files) => SnapshotPersisted(p, files)
    case ReplaceChunks(chunks) => ChunksReplaced(index, chunks)
  }

  ghost function RunAll(p: Pipeline, index: Index, ops: seq<Operation>): Index
    decreases |ops|
  {
    if ops == [] then index
    else RunAll(p, if Committable(p, index, ops[0]) then Committed(p, index, ops[0]) else index, ops[1..])
  }

  /** Over any sequence of updates, legacy replacements and rollbacks, a stored fingerprint
      vouches for every stored row, provided updates bring complete chunks. */
  lemma {:induction false} FingerprintAlwaysVouches(p: Pipeline, index: Index, ops: seq<Operation>)
    requires Trustworthy(p, index)
    requires forall i :: 0 <= i < |ops| && ops[i].Apply? ==> Complete(p, ops[i].update)
    ensures Trustworthy(p, RunAll(p, index, ops))
    decreases |ops|
  {
    if ops != [] {
      assert forall i :: 0 <= i < |ops[1..]| ==> ops[1..][i] == ops[i + 1];
      if Committable(p, index, ops[0]) {
        if ops[0].Apply? {
          UpdateKeepsTrust(p, index, ops[0].update);
        }
        FingerprintAlwaysVouches(p, Committed(p, index, ops[0]), ops[1..]);
      } else {
        FingerprintAlwaysVouches(p, index, ops[1..]);
      }
    }
  }

  /** An indexing run after any such history is accepted and equals a full rebuild, up to the
      recorded sizes of reused files. */
  lemma IncrementalRunIsRebuild(p: Pipeline, ops: seq<Operation>, fp: Fingerprint, snapshot: seq<SourceFile>,
                                plan: Plan, chunks: seq<EmbeddedChunk>)
    requires Injective(p.digest)
    requires forall i :: 0 <= i < |ops| && ops[i].Apply? ==> Complete(p, ops[i].update)
    requires
      var manifest := ReadManifest(RunAll(p, Index(None, map[]), ops));
      Classifies(plan, SnapshotHashes(p.digest, snapshot), manifest, manifest.CompatibleWith(fp))
    requires forall i :: 0 <= i < |chunks| ==> chunks[i].path in plan.Reindexed()
    requires Complete(p, PlannedUpdate(fp, snapshot, plan, chunks))
    ensures
      var index := RunAll(p, Index(None, map[]), ops);
      var update := PlannedUpdate(fp, snapshot, plan, chunks);
      && Acceptable(p.digest, update, ReadManifest(index))
      && WithoutSizes(Applied(p, index, update)) == WithoutSizes(Rebuilt(p, fp, snapshot))
  {
    FingerprintAlwaysVouches(p, Index(None, map[]), ops);
    var index := RunAll(p, Index(None, map[]), ops);
    PlanIsAcceptable(p, index, fp, snapshot, plan, chunks);
    AcceptedUpdateIsRebuild(p, index, PlannedUpdate(fp, snapshot, plan, chunks));
  }

  /** The rows of one repository; each method is one transaction that commits or rolls back. */
  class RepositoryRows {
    ghost const pipeline: Pipeline
    const digest: string -> string
    var fingerprint: Option<Fingerprint>
    var files: map<Path, FileRow>

    ghost predicate Valid()
      reads this
    {
      digest == pipeline.digest
    }

    function Contents(): Index
      reads this
    {
      Index(fingerprint, files)
    }

    constructor (ghost pipeline: Pipeline, digest: string -> string)
      requires digest == pipeline.digest
      ensures Valid() && Contents() == Index(None, map[]) && this.pipeline == pipeline
    {
      this.pipeline, this.digest := pipeline, digest;
      fingerprint, files := None, map[];
    }

    /** `embeddingsUsable` is the verdict of the vector checks. */
    method ApplyIndexUpdate(update: Update, embeddingsUsable: bool) returns (error: Option<UpdateError>)
      requires Valid()
      modifies this`fingerprint, this`files
      ensures error.None? <==>
                old(Committable(pipeline, Contents(), Apply(update))) && (update.chunks == [] || embeddingsUsable)
      ensures Contents() == if error.None? then Applied(pipeline, old(Contents()), update) else old(Contents())
    {
      var invalid := ValidateIndexUpdate(digest, update, ReadManifest(Contents()));
      if invalid.Some? { return invalid; }
      if !DistinctIdentities(update.chunks) { return Some(DuplicateChunkIndex); }
      if update.chunks != [] && !embeddingsUsable { return Some(UnusableEmbeddings); }
      assert SnapshotHashes(digest, update.snapshot).Keys == Sources(update.snapshot).Keys;
      var rows := RewrittenRows(update);
      fingerprint := Some(update.fingerprint);
      files := rows;
      return None;
    }

    /** The row surgery of an accepted update: remove, insert, attach chunks. */
    method RewrittenRows(update: Update) returns (rows: map<Path, FileRow>)
      requires Valid()
      requires Elements(update.upserted) <= Sources(update.snapshot).Keys
      requires forall i :: 0 <= i < |update.chunks| ==> update.chunks[i].path in Elements(update.upserted)
      ensures rows == Applied(pipeline, Contents(), update).files
    {
      var sources := Sources(update.snapshot);
      if update.fullRebuild {
        rows := map[];
      } else {
        rows := RemoveRows(update.deleted + update.upserted);
      }
      rows := InsertRows(rows, update.upserted, sources);
      rows := AttachChunks(rows, update.chunks, Elements(update.upserted));
    }

    method RemoveRows(leaving: seq<Path>) returns (rows: map<Path, FileRow>)
      ensures rows == files - Elements(leaving)
    {
      rows := files;
      for i := 0 to |leaving|
        invariant rows == files - Elements(leaving[..i])
      {
        rows := rows - {leaving[i]};
        assert leaving[..i + 1] == leaving[..i] + [leaving[i]];
      }
      assert leaving[..|leaving|] == leaving;
    }

    method InsertRows(survivors: map<Path, FileRow>, upserted: seq<Path>, sources: map<Path, SourceFile>)
      returns (rows: map<Path, FileRow>)
      requires Valid() && Elements(upserted) <= sources.Keys
      ensures rows.Keys == survivors.Keys + Elements(upserted)
      ensures forall path :: path in rows ==>
                rows[path] == if path in Elements(upserted) then FreshRow(pipeline, sources[path], map[])
                              else survivors[path]
    {
      rows := survivors;
      for i := 0 to |upserted|
        invariant rows.Keys == survivors.Keys + Elements(upserted[..i])
        invariant forall path :: path in rows ==>
                    rows[path] == if path in upserted[..i] then FreshRow(pipeline, sources[path], map[])
                                  else survivors[path]
      {
        var path := upserted[i];
        assert path in Elements(upserted);
        var source := sources[path];
        rows := rows[path := FileRow(source.content, digest(source.content), source.sizeBytes, map[])];
        assert upserted[..i + 1] == upserted[..i] + [path];
      }
      assert upserted[..|upserted|] == upserted;
    }

    /** Chunks belong to freshly written rows, which start without any. */
    method AttachChunks(bare: map<Path, FileRow>, chunks: seq<EmbeddedChunk>, ghost targets: set<Path>)
      returns (rows: map<Path, FileRow>)
      requires targets <= bare.Keys
      requires forall path :: path in targets ==> bare[path].chunks == map[]
      requires forall i :: 0 <= i < |chunks| ==> chunks[i].path in targets
      ensures rows.Keys == bare.Keys
      ensures forall path :: path in bare ==>
                rows[path] == if path in targets then bare[path].(chunks := ChunkRows(chunks, path)) else bare[path]
    {
      rows := bare;
      for i := 0 to |chunks|
        invariant rows.Keys == bare.Keys
        invariant forall path :: path in bare ==>
                    rows[path] == if path in targets then bare[path].(chunks := ChunkRows(chunks[..i], path))
                                  else bare[path]
      {
        var chunk := chunks[i];
        assert chunks[..i + 1][..i] == chunks[..i];
        rows := rows[chunk.path := rows[chunk.path].(chunks := rows[chunk.path].chunks[chunk.index := chunk.row])];
      }
      assert chunks[..|chunks|] == chunks;
    }

    /** Replaces the stored file snapshot; prior chunks go with their rows. */
    method PersistRepositorySnapshot(snapshot: seq<SourceFile>) returns (error: Option<UpdateError>)
      requires Valid()
      modifies this`fingerprint, this`files
      ensures error.None? <==> old(Committable(pipeline, Contents(), PersistSnapshot(snapshot)))
      ensures Contents() == if error.None? then SnapshotPersisted(pipeline, snapshot) else old(Contents())
    {
      if !(forall i, k :: 0 <= i < k < |snapshot| ==> snapshot[i].path != snapshot[k].path) {
        return Some(DuplicatePaths);
      }
      var rows: map<Path, FileRow> := map[];
      for i := 0 to |snapshot|
        invariant rows == SnapshotPersisted(pipeline, snapshot[..i]).files
      {
        var source := snapshot[i];
        assert snapshot[..i + 1][..i] == snapshot[..i];
        rows := rows[source.path := FileRow(source.content, digest(source.content), source.sizeBytes, map[])];
      }
      assert snapshot[..|snapshot|] == snapshot;
      fingerprint := None;
      files := rows;
      return None;
    }

    /** Replaces every chunk row of the repository. */
    method ReplaceAllChunks(chunks: seq<EmbeddedChunk>) returns (error: Option<UpdateError>)
      requires Valid()
      modifies this`fingerprint, this`files
      ensures error.None? <==> old(Committable(pipeline, Contents(), ReplaceChunks(chunks)))
      ensures Contents() == if error.None? then ChunksReplaced(old(Contents()), chunks) else old(Contents())
    {
      for i := 0 to |chunks|
        invariant forall k :: 0 <= k < i ==> chunks[k].path in files
      {
        if chunks[i].path !in files { return Some(ChunkPathNotStored); }
      }
      if !DistinctIdentities(chunks) { return Some(DuplicateChunkIndex); }
      var bare := map path | path in files :: files[path].(chunks := map[]);
      var rows := AttachChunks(bare, chunks, bare.Keys);
      fingerprint := None;
      files := rows;
      return None;
    }
  }
}
