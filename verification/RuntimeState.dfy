/** What the managed runtime keeps on disk, and what its pointers promise
    (internal/managedruntime/manager.go, types.go, paths.go). */
module RuntimeState {
  import opened Text
  import opened RuntimeTypes
  import opened FileSystem
  import Launchers

  // ------------------------------------------------------------------ documents

  datatype Status = Staging | Interrupted | Failed | Complete

  /** activationState. */
  datatype Pointer = Pointer(planId: string, generation: GenerationId, activatedAt: nat)

  /** operationState. */
  datatype Operation = Operation(planId: string, generation: GenerationId, status: Status, updatedAt: nat)

  datatype Receipt = Receipt(
    component: ComponentId, version: string, source: string, installMethod: InstallMethod, package: string,
    entryPoint: string, platform: string, architecture: string, installPath: Path, digest: Digest,
    generation: GenerationId, baronOwned: bool, verifiedAt: nat)

  /** GenerationManifest. */
  datatype Manifest = Manifest(
    planId: string, generation: GenerationId, platform: string, architecture: string, createdAt: nat,
    components: seq<Receipt>, launchers: seq<Launchers.Launcher>)

  datatype Path =
    | CurrentPath
    | PreviousPath
    | OperationPath(planId: string)
    | GenerationDir(generation: GenerationId)
    | ManifestPath(generation: GenerationId)
    | ComponentDir(generation: GenerationId, component: ComponentId)
    | ReceiptPath(name: string)
    | CachePath(digest: Digest)

  /** A file as its JSON reader sees it; Archive is a cached download with the
      digest its bytes really have, Garbage anything that does not decode. */
  datatype Document =
    | PointerDoc(pointer: Pointer)
    | OperationDoc(operation: Operation)
    | ManifestDoc(manifest: Manifest)
    | ReceiptDoc(receipt: Receipt)
    | ArchiveDoc(digest: Digest)
    | Folder
    | Garbage(bytes: string)

  type Files = map<Path, Document>
  type RuntimeDisk = Disk<Path, Document>

  // ------------------------------------------------------------------ file names

  function ReceiptName(g: GenerationId, c: ComponentId): string { g + "-" + c + ".json" }

  /** The listing filter of receiptsForGeneration. */
  predicate NamedFor(name: string, g: GenerationId) {
    |g| + 1 <= |name| && name[..|g| + 1] == g + "-" && 5 <= |name| && name[|name| - 5..] == ".json"
  }

  lemma ReceiptNameIsNamedFor(g: GenerationId, c: ComponentId)
    ensures NamedFor(ReceiptName(g, c), g)
  {
  }

  /** The receipt files listed for a generation are those of some component of it. */
  lemma NamedForExactly(name: string, g: GenerationId)
    ensures NamedFor(name, g) <==> exists c :: name == ReceiptName(g, c)
  {
    if NamedFor(name, g) {
      var n := |name|;
      assert name[..|g| + 1][|g|] == name[|g|] == '-';
      assert forall k :: 0 <= k < 5 ==> name[n - 5 + k] == name[n - 5..][k] == ".json"[k];
      var c := name[|g| + 1..n - 5];
      assert name == name[..|g| + 1] + c + name[n - 5..];
      assert name == ReceiptName(g, c);
    } else if c :| name == ReceiptName(g, c) {
      ReceiptNameIsNamedFor(g, c);
    }
  }

  lemma ReceiptNameInjective(g: GenerationId, c: ComponentId, d: ComponentId)
    requires ReceiptName(g, c) == ReceiptName(g, d)
    ensures c == d
  {
    var n := ReceiptName(g, c);
    assert c == n[|g| + 1..|n| - 5];
    assert d == ReceiptName(g, d)[|g| + 1..|n| - 5];
  }

  // -------------------------------------------------------------------- receipts

  /** The receipt stageComponent writes for a component. */
  function ReceiptFor(c: ComponentPlan, g: GenerationId, at: nat): Receipt {
    Receipt(c.id, c.version, c.source, c.installMethod, c.package, c.entryPoint, c.platform, c.architecture,
            ComponentDir(g, c.id), c.digest, g, true, at)
  }

  /** A receipt without its timestamp. */
  function Timeless(r: Receipt): Receipt { r.(verifiedAt := 0) }

  /** Receipt.Validate, as far as the manager's own receipts can fail it. */
  predicate WellFormed(r: Receipt) {
    r.component != "" && r.version != "" && r.source != "" && r.generation != "" && r.baronOwned
  }

  /** validateReceiptPathForGeneration. */
  predicate Within(p: Path, g: GenerationId) {
    match p
    case GenerationDir(h) => h == g
    case ManifestPath(h) => h == g
    case ComponentDir(h, _) => h == g
    case _ => false
  }

  /** The receipt of a component, if it is there, is the one the plan would
      write, timestamps aside. */
  ghost predicate ReceiptAgrees(files: Files, c: ComponentPlan, g: GenerationId) {
    ReceiptPath(ReceiptName(g, c.id)) in files ==>
      && files[ReceiptPath(ReceiptName(g, c.id))].ReceiptDoc?
      && Timeless(files[ReceiptPath(ReceiptName(g, c.id))].receipt) == ReceiptFor(c, g, 0)
  }

  ghost predicate ReceiptsAgree(files: Files, components: seq<ComponentPlan>, g: GenerationId) {
    forall c :: c in components ==> ReceiptAgrees(files, c, g)
  }

  function ReceiptNames(components: seq<ComponentPlan>, g: GenerationId): set<string> {
    set c | c in components :: ReceiptName(g, c.id)
  }

  /** Receipt files of the generation that were not there before are planned ones. */
  ghost predicate OnlyPlannedReceipts(before: Files, after: Files, components: seq<ComponentPlan>, g: GenerationId) {
    forall name :: NamedFor(name, g) && ReceiptPath(name) in after && ReceiptPath(name) !in before ==>
      name in ReceiptNames(components, g)
  }

  ghost predicate ReceiptsKept(before: Files, after: Files, components: seq<ComponentPlan>, g: GenerationId) {
    && (ReceiptsAgree(before, components, g) ==> ReceiptsAgree(after, components, g))
    && OnlyPlannedReceipts(before, after, components, g)
  }

  lemma ReceiptsKeptTransitive(a: Files, b: Files, c: Files, components: seq<ComponentPlan>, g: GenerationId)
    requires ReceiptsKept(a, b, components, g) && ReceiptsKept(b, c, components, g)
    ensures ReceiptsKept(a, c, components, g)
  {
    hide ReceiptsAgree, NamedFor;
  }

  lemma ReceiptsUntouched(before: Files, after: Files, components: seq<ComponentPlan>, g: GenerationId)
    requires forall name :: SameAt(before, after, ReceiptPath(name))
    ensures ReceiptsKept(before, after, components, g)
  {
  }

  lemma ReceiptsUntouchedBut(before: Files, after: Files, paths: set<Path>, components: seq<ComponentPlan>,
                             g: GenerationId)
    requires SameBut(before, after, paths) && forall p :: p in paths ==> !p.ReceiptPath?
    ensures ReceiptsKept(before, after, components, g)
  {
    forall name ensures SameAt(before, after, ReceiptPath(name)) {
      SameButAt(before, after, paths, ReceiptPath(name));
    }
    ReceiptsUntouched(before, after, components, g);
  }

  /** Cache entries are archives, whole or damaged. */
  ghost predicate CacheGood(files: Files) {
    forall d :: CachePath(d) in files ==> files[CachePath(d)].ArchiveDoc? || files[CachePath(d)].Garbage?
  }

  lemma CacheUntouched(before: Files, after: Files, paths: set<Path>)
    requires CacheGood(before) && SameBut(before, after, paths) && forall p :: p in paths ==> !p.CachePath?
    ensures CacheGood(after)
  {
    forall d | CachePath(d) in after ensures after[CachePath(d)].ArchiveDoc? || after[CachePath(d)].Garbage? {
      SameButAt(before, after, paths, CachePath(d));
    }
  }

  // -------------------------------------------------------------------- pointers

  /** The pointer's generation exists and its manifest says the same plan. */
  ghost predicate Backed(files: Files, p: Pointer) {
    && GenerationDir(p.generation) in files
    && ManifestPath(p.generation) in files
    && files[ManifestPath(p.generation)].ManifestDoc?
    && files[ManifestPath(p.generation)].manifest.generation == p.generation
    && files[ManifestPath(p.generation)].manifest.planId == p.planId
  }

  ghost predicate PointerGood(files: Files, path: Path) {
    path in files ==> files[path].PointerDoc? && Backed(files, files[path].pointer)
  }

  /** current.json is absent or names an existing generation with its manifest. */
  ghost predicate Live(files: Files) { PointerGood(files, CurrentPath) }

  ghost predicate PointsAt(files: Files, path: Path, g: GenerationId) {
    path in files && files[path].PointerDoc? && files[path].pointer.generation == g
  }

  /** The generation resumableGeneration offers for a plan. */
  function Resumable(files: Files, planId: string): Option<GenerationId> {
    var path := OperationPath(planId);
    if path in files && files[path].OperationDoc? then
      var o := files[path].operation;
      if o.planId == planId && (o.status == Staging || o.status == Interrupted) && o.generation != ""
         && GenerationDir(o.generation) in files
      then Some(o.generation) else None
    else None
  }

  ghost predicate Names(files: Files, planId: string, g: GenerationId) {
    OperationPath(planId) in files && files[OperationPath(planId)].OperationDoc?
    && files[OperationPath(planId)].operation.generation == g
  }

  /** Nothing on disk mentions this generation ID. */
  ghost predicate Fresh(files: Files, g: GenerationId) {
    && GenerationDir(g) !in files
    && ManifestPath(g) !in files
    && (forall c :: ComponentDir(g, c) !in files)
    && (forall c :: ReceiptPath(ReceiptName(g, c)) !in files)
    && (forall p :: !Names(files, p, g))
  }

  /** The invariant of whole runs: both pointers are good, a resumable
      generation has no manifest yet (so neither pointer names it), and no two
      plans' records name one generation. */
  ghost predicate Inv(files: Files) {
    && PointerGood(files, CurrentPath)
    && PointerGood(files, PreviousPath)
    && (forall p :: Resumable(files, p).Some? ==> ManifestPath(Resumable(files, p).value) !in files)
    && (forall p, q, g :: p != q && Names(files, p, g) ==> !Names(files, q, g))
  }

  // ---------------------------------------------------------------------- frames

  /** Paths an Apply of this plan into this generation may touch while it stages. */
  predicate Scratch(p: Path, planId: string, g: GenerationId) {
    match p
    case OperationPath(q) => q == planId
    case ReceiptPath(name) => NamedFor(name, g)
    case CachePath(_) => true
    case CurrentPath => false
    case PreviousPath => false
    case _ => Within(p, g)
  }

  ghost predicate SameOutside(before: Files, after: Files, planId: string, g: GenerationId) {
    forall p :: !Scratch(p, planId, g) ==> SameAt(before, after, p)
  }

  /** One stretch of disk operations that stays inside the scratch paths, at
      every instant. */
  ghost predicate Quiet(before: Files, past: seq<Files>, after: Files, history: seq<Files>, planId: string,
                        g: GenerationId) {
    && |past| <= |history| && history[..|past|] == past
    && SameOutside(before, after, planId, g)
    && (forall i :: |past| <= i < |history| ==> SameOutside(before, history[i], planId, g))
  }

  lemma QuietRefl(files: Files, history: seq<Files>, planId: string, g: GenerationId)
    ensures Quiet(files, history, files, history, planId, g)
  {
  }

  lemma QuietTransitive(a: Files, past: seq<Files>, b: Files, between: seq<Files>, c: Files, history: seq<Files>,
                        planId: string, g: GenerationId)
    requires Quiet(a, past, b, between, planId, g) && Quiet(b, between, c, history, planId, g)
    ensures Quiet(a, past, c, history, planId, g)
  {
  }

  lemma LiveOutside(before: Files, after: Files, planId: string, g: GenerationId)
    requires Live(before) && !PointsAt(before, CurrentPath, g) && SameOutside(before, after, planId, g)
    ensures Live(after) && SameAt(before, after, CurrentPath) && !PointsAt(after, CurrentPath, g)
  {
    assert SameAt(before, after, CurrentPath);
    if CurrentPath in before {
      var h := before[CurrentPath].pointer.generation;
      assert SameAt(before, after, GenerationDir(h)) && SameAt(before, after, ManifestPath(h));
    }
  }

  /** The last new instant is the present one. */
  ghost predicate Ends(past: seq<Files>, history: seq<Files>, files: Files) {
    |past| < |history| && history[|history| - 1] == files
  }

  /** Nothing but cached archives has gone. */
  ghost predicate NothingLost(before: Files, after: Files) { forall p :: p in before && !p.CachePath? ==> p in after }

  lemma NothingLostBut(before: Files, after: Files, paths: set<Path>)
    requires SameBut(before, after, paths)
    requires forall p :: p in paths && p in before && !p.CachePath? ==> p in after
    ensures NothingLost(before, after)
  {
    forall p | p in before && !p.CachePath? ensures p in after {
      if p !in paths { SameButAt(before, after, paths, p); }
    }
  }

  lemma NothingLostTransitive(a: Files, b: Files, c: Files)
    requires NothingLost(a, b) && NothingLost(b, c)
    ensures NothingLost(a, c)
  {
  }

  // ------------------------------------------------------- receipts at every instant

  ghost predicate SameReceipts(before: Files, after: Files) { forall name :: SameAt(before, after, ReceiptPath(name)) }

  /** No receipt file changes, at any instant. */
  ghost predicate Still(before: Files, past: seq<Files>, after: Files, history: seq<Files>) {
    && |past| <= |history| && history[..|past|] == past
    && SameReceipts(before, after) && forall i :: |past| <= i < |history| ==> SameReceipts(before, history[i])
  }

  lemma StillTransitive(a: Files, past: seq<Files>, b: Files, between: seq<Files>, c: Files, history: seq<Files>)
    requires Still(a, past, b, between) && Still(b, between, c, history)
    ensures Still(a, past, c, history)
  {
    hide SameReceipts;
    forall i | |past| <= i < |history| ensures SameReceipts(a, history[i]) {
      if i < |between| {
        assert history[i] == between[i];
      } else {
        SameReceiptsTransitive(a, b, history[i]);
      }
    }
    SameReceiptsTransitive(a, b, c);
    assert history[..|past|] == between[..|past|];
  }

  lemma SameReceiptsTransitive(a: Files, b: Files, c: Files)
    requires SameReceipts(a, b) && SameReceipts(b, c)
    ensures SameReceipts(a, c)
  {
    forall name ensures SameAt(a, c, ReceiptPath(name)) {
      assert SameAt(a, b, ReceiptPath(name)) && SameAt(b, c, ReceiptPath(name));
    }
  }

  /** At every instant the receipts of the generation are the planned ones. */
  ghost predicate KeptSince(before: Files, past: seq<Files>, after: Files, history: seq<Files>,
                            components: seq<ComponentPlan>, g: GenerationId) {
    && |past| <= |history| && history[..|past|] == past && ReceiptsKept(before, after, components, g)
    && forall i :: |past| <= i < |history| ==> ReceiptsKept(before, history[i], components, g)
  }

  lemma KeptSinceTransitive(a: Files, past: seq<Files>, b: Files, between: seq<Files>, c: Files, history: seq<Files>,
                            components: seq<ComponentPlan>, g: GenerationId)
    requires KeptSince(a, past, b, between, components, g) && KeptSince(b, between, c, history, components, g)
    ensures KeptSince(a, past, c, history, components, g)
  {
    hide ReceiptsKept;
    forall i | |past| <= i < |history| ensures ReceiptsKept(a, history[i], components, g) {
      if i < |between| {
        assert history[i] == between[i];
      } else {
        ReceiptsKeptTransitive(a, b, history[i], components, g);
      }
    }
    ReceiptsKeptTransitive(a, b, c, components, g);
    assert history[..|past|] == between[..|past|];
  }

  lemma StillIsKept(before: Files, past: seq<Files>, after: Files, history: seq<Files>, components: seq<ComponentPlan>,
                    g: GenerationId)
    requires Still(before, past, after, history)
    ensures KeptSince(before, past, after, history, components, g)
  {
    hide ReceiptsKept;
    ReceiptsUntouched(before, after, components, g);
    forall i | |past| <= i < |history| ensures ReceiptsKept(before, history[i], components, g) {
      ReceiptsUntouched(before, history[i], components, g);
    }
  }
}
