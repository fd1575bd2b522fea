/** Staging one generation: cached archives, receipts, resumption
    (internal/managedruntime/manager.go). */
module RuntimeStaging {
  import opened Text
  import opened RuntimeTypes
  import opened FileSystem
  import opened RuntimeState

  // -------------------------------------------------------------- outside answers

  /** What the runtime asks the outside: directories, contexts (by the place that
      looks at them), hashes, downloads, installers and probes. */
  datatype Question =
    | Directories
    | Entering | Ongoing | Rereading | Verifying | RollingBack
    | Hash | Rehash | Download | Content | Install
    | StagedProbe(component: ComponentId)
    | FreshProbe(component: ComponentId)
    | ActiveProbe(component: ComponentId)

  type RuntimeWorld = World<Question>
  type Answers = seq<Answer<Question>>

  /** A cancellation that staging keeps its work for. */
  predicate Interrupts(a: Answer<Question>) {
    match a.question
    case Ongoing => !a.reply.Granted?
    case Download | Install | FreshProbe(_) => a.reply.Aborted?
    case _ => false
  }

  /** The first thing asked; a refusal ends the asking. */
  ghost predicate Asked(past: Answers, log: Answers, question: Question) {
    && past <= log && |past| < |log| && log[|past|].question == question
    && (!log[|past|].reply.Granted? ==> |log| == |past| + 1)
  }

  /** The last answer was such a cancellation. */
  ghost predicate CutOff(past: Answers, log: Answers) {
    past <= log && |past| < |log| && Interrupts(log[|log| - 1])
  }

  ghost predicate EndsRefused(past: Answers, log: Answers, question: Question) {
    && past <= log && |past| < |log| && log[|log| - 1].question == question && !log[|log| - 1].reply.Granted?
  }

  /** Nothing was refused but hashes of cached archives and probes of staged
      components, which are made up for. */
  ghost predicate Unhindered(past: Answers, log: Answers) {
    past <= log && forall i :: |past| <= i < |log| ==>
        log[i].reply.Granted? || log[i].question.Hash? || log[i].question.StagedProbe?
  }

  lemma UnhinderedTransitive(a: Answers, b: Answers, c: Answers)
    requires Unhindered(a, b) && Unhindered(b, c)
    ensures Unhindered(a, c)
  {
    forall i | |a| <= i < |c| ensures c[i].reply.Granted? || c[i].question.Hash? || c[i].question.StagedProbe? {
      if i < |b| { assert c[i] == b[i]; }
    }
  }

  /** receiptMatchesPlan, with the version and identity checks before it. */
  predicate Matches(r: Receipt, c: ComponentPlan, g: GenerationId) {
    && r.component == c.id && r.version == c.version && r.generation == g
    && r.installMethod == c.installMethod && r.package == c.package && r.entryPoint == c.entryPoint
    && (r.platform == "" || r.platform == c.platform)
    && (r.architecture == "" || r.architecture == c.architecture)
    && (c.digest == "" || r.digest == c.digest)
  }

  /** A component is on disk with the receipt that says so. */
  ghost predicate InPlace(files: Files, g: GenerationId, c: ComponentPlan, r: Receipt) {
    && Matches(r, c, g) && WellFormed(r)
    && Within(r.installPath, g) && r.installPath in files
    && ReceiptPath(ReceiptName(g, c.id)) in files && files[ReceiptPath(ReceiptName(g, c.id))] == ReceiptDoc(r)
  }

  ghost predicate HasArchive(files: Files, digest: Digest) {
    CachePath(digest) in files && files[CachePath(digest)] == ArchiveDoc(digest)
  }

  ghost predicate ArchivesKept(before: Files, after: Files) {
    forall d :: HasArchive(before, d) ==> HasArchive(after, d)
  }

  lemma ArchivesKeptBut(before: Files, after: Files, paths: set<Path>, digest: Digest)
    requires SameBut(before, after, paths) && forall d :: d != digest ==> CachePath(d) !in paths
    requires CachePath(digest) in paths && HasArchive(before, digest) ==> HasArchive(after, digest)
    ensures ArchivesKept(before, after)
  {
    forall d | HasArchive(before, d) ensures HasArchive(after, d) {
      if CachePath(d) !in paths { SameButAt(before, after, paths, CachePath(d)); }
    }
  }

  /** Staging a component changes its directory, its archive and its receipt. */
  ghost predicate StageFrame(before: Files, after: Files, g: GenerationId, c: ComponentPlan) {
    SameBut(before, after, StagePaths(g, c))
  }

  function StagePaths(g: GenerationId, c: ComponentPlan): set<Path> {
    {ComponentDir(g, c.id), CachePath(c.digest), ReceiptPath(ReceiptName(g, c.id))}
  }

  lemma InPlaceSurvives(before: Files, after: Files, g: GenerationId, c: ComponentPlan, r: Receipt, d: ComponentPlan)
    requires InPlace(before, g, c, r) && c.id != d.id
    requires StageFrame(before, after, g, d) && (ComponentDir(g, d.id) in before ==> ComponentDir(g, d.id) in after)
    ensures InPlace(after, g, c, r)
  {
    if ReceiptName(g, c.id) == ReceiptName(g, d.id) { ReceiptNameInjective(g, c.id, d.id); }
    SameButAt(before, after, StagePaths(g, d), ReceiptPath(ReceiptName(g, c.id)));
    if r.installPath != ComponentDir(g, d.id) { SameButAt(before, after, StagePaths(g, d), r.installPath); }
  }

  // ------------------------------------------------------------- single writes

  method ScratchWrite(disk: RuntimeDisk, path: Path, document: Document, ghost planId: string, ghost g: GenerationId)
    returns (ok: bool)
    requires Scratch(path, planId, g)
    modifies disk
    ensures disk.files == if ok then old(disk.files)[path := document] else old(disk.files)
    ensures disk.healthy ==> ok
    ensures disk.refused == if ok then old(disk.refused) else old(disk.refused) + 1
    ensures Quiet(old(disk.files), old(disk.history), disk.files, disk.history, planId, g)
    ensures !path.ReceiptPath? ==> Still(old(disk.files), old(disk.history), disk.files, disk.history)
    ensures forall i :: |old(disk.history)| <= i < |disk.history| ==> disk.history[i] == disk.files
    ensures if ok then Ends(old(disk.history), disk.history, disk.files) else disk.history == old(disk.history)
  {
    ok := disk.AtomicWriteFile(path, document);
  }

  method ScratchRemove(disk: RuntimeDisk, path: Path, ghost planId: string, ghost g: GenerationId)
    returns (result: Removal)
    requires Scratch(path, planId, g)
    modifies disk
    ensures result == Absent ==> path !in old(disk.files)
    ensures disk.files == if result == Removed then old(disk.files) - {path} else old(disk.files)
    ensures disk.healthy ==> result != Stuck
    ensures Quiet(old(disk.files), old(disk.history), disk.files, disk.history, planId, g)
    ensures disk.refused == if result == Stuck then old(disk.refused) + 1 else old(disk.refused)
    ensures !path.ReceiptPath? ==> Still(old(disk.files), old(disk.history), disk.files, disk.history)
  {
    result := disk.Remove(path);
  }

  /** writeOperation. */
  method WriteOperation(disk: RuntimeDisk, planId: string, g: GenerationId, status: Status, now: nat) returns (ok: bool)
    modifies disk
    ensures disk.files == if ok
              then old(disk.files)[OperationPath(planId) := OperationDoc(Operation(planId, g, status, now))]
                          else old(disk.files)
    ensures disk.healthy ==> ok
    ensures disk.refused == if ok then old(disk.refused) else old(disk.refused) + 1
    ensures Quiet(old(disk.files), old(disk.history), disk.files, disk.history, planId, g)
    ensures Still(old(disk.files), old(disk.history), disk.files, disk.history)
  {
    ok := ScratchWrite(disk, OperationPath(planId), OperationDoc(Operation(planId, g, status, now)), planId, g);
  }

  // -------------------------------------------------------------- cached archive

  datatype CacheCheck = Hit | Miss | CacheError

  /** cachedArchive: an entry whose bytes do not hash to its name is removed. */
  method CachedArchive(disk: RuntimeDisk, world: RuntimeWorld, c: ComponentPlan, ghost planId: string,
                       ghost g: GenerationId)
    returns (result: CacheCheck)
    modifies disk, world
    ensures Quiet(old(disk.files), old(disk.history), disk.files, disk.history, planId, g)
    ensures disk.refused >= old(disk.refused)
    ensures Still(old(disk.files), old(disk.history), disk.files, disk.history)
    ensures SameBut(old(disk.files), disk.files, {CachePath(c.digest)})
    ensures result == Hit ==> HasArchive(disk.files, c.digest) && disk.files == old(disk.files)
    ensures result == Miss ==> CachePath(c.digest) !in disk.files
    ensures CacheGood(old(disk.files)) ==> CacheGood(disk.files)
    ensures c.digest == "" ==> result == CacheError && world.log == old(world.log)
    ensures disk.healthy && CacheGood(old(disk.files)) && c.digest != "" ==> result != CacheError
    ensures old(world.log) <= world.log
    ensures forall i :: |old(world.log)| <= i < |world.log| ==> world.log[i].question == Hash
    ensures result != CacheError ==> disk.refused == old(disk.refused)
    ensures result == Hit ==> world.log == old(world.log) + [Answer(Hash, Granted)]
    ensures disk.healthy && c.digest != "" && HasArchive(old(disk.files), c.digest)
            && AllGranted(old(world.log), world.log) ==>
              result == Hit
    ensures disk.healthy && AllGranted(old(world.log), world.log) ==> ArchivesKept(old(disk.files), disk.files)
  {
    ghost var b := disk.files;
    if c.digest == "" { return CacheError; }
    var seen := disk.Inspect(CachePath(c.digest));
    if seen.Missing? { return Miss; }
    if seen.Unreadable? || !(seen.file.ArchiveDoc? || seen.file.Garbage?) { return CacheError; }
    var hashed := world.Ask(Hash);
    assert world.log[|world.log| - 1] == Answer(Hash, hashed);
    if hashed.Granted? && seen.file == ArchiveDoc(c.digest) { return Hit; }
    var removed := ScratchRemove(disk, CachePath(c.digest), planId, g);
    if disk.healthy && hashed.Granted? { ArchivesKeptBut(b, disk.files, {CachePath(c.digest)}, c.digest); }
    return if removed == Stuck then CacheError else Miss;
  }

  // --------------------------------------------------------------- one component

  datatype Staged = StagedAs(receipt: Receipt) | StageFailed(cancelled: bool)

  /** What staging needs of a planned component. */
  ghost predicate Stageable(c: ComponentPlan) { c.id != "" && c.version != "" && c.source != "" && c.digest != "" }

  /** The hash of what was downloaded, the planned one if all is well. */
  method HashDownload(world: RuntimeWorld, planned: Digest) returns (digest: Digest)
    modifies world
    ensures exists reply ::
              world.log == old(world.log) + [Answer(Content, reply)] && (reply.Granted? <==> digest == planned)
  {
    var content := world.Ask(Content);
    digest := *;
    if content.Granted? { digest := planned; } else if digest == planned { digest := planned + "?"; }
  }

  /** The answers behind an archive in the cache: hashed and hashed again, or
      downloaded and its content as planned. */
  ghost predicate Fetched(past: Answers, log: Answers) {
    || log == past + [Answer(Hash, Granted), Answer(Rehash, Granted)]
    || (past <= log && |past| + 2 <= |log|
        && log[|log| - 2..] == [Answer(Download, Granted), Answer(Content, Granted)])
  }

  lemma FetchedFromCache(past: Answers, rehashed: Reply, log: Answers, files: Files)
    requires log == past + [Answer(Hash, Granted), Answer(Rehash, rehashed)]
    ensures rehashed.Granted? ==> Fetched(past, log)
    ensures ArchivesKept(files, files)
  {
  }

  lemma CacheStored(b: Files, m: Files, digest: Digest)
    ensures CacheGood(m) ==> CacheGood(m[CachePath(digest) := ArchiveDoc(digest)])
    ensures ArchivesKept(b, m) ==> ArchivesKept(b, m[CachePath(digest) := ArchiveDoc(digest)])
  {
  }

  lemma FetchedNow(past: Answers, told: Answers, log: Answers)
    requires past <= told && log == told + [Answer(Download, Granted), Answer(Content, Granted)]
    ensures Fetched(past, log)
  {
  }

  /** Fetching the archive: afterwards the cache holds bytes with the planned
      digest, or the component is not staged. */
  method FetchArchive(disk: RuntimeDisk, world: RuntimeWorld, c: ComponentPlan, ghost planId: string,
                      ghost g: GenerationId)
    returns (result: Option<Staged>)
    modifies disk, world
    ensures Quiet(old(disk.files), old(disk.history), disk.files, disk.history, planId, g)
    ensures disk.refused >= old(disk.refused)
    ensures Still(old(disk.files), old(disk.history), disk.files, disk.history)
    ensures SameBut(old(disk.files), disk.files, {CachePath(c.digest)})
    ensures result.None? ==> HasArchive(disk.files, c.digest) && Unhindered(old(world.log), world.log)
    ensures result.None? ==> disk.refused == old(disk.refused) && Fetched(old(world.log), world.log)
    ensures c.digest == "" ==> result.Some? && world.log == old(world.log)
    ensures old(world.log) <= world.log
    ensures result.Some? ==>
              result.value.StageFailed? && (result.value.cancelled <==> CutOff(old(world.log), world.log))
    ensures CacheGood(old(disk.files)) ==> CacheGood(disk.files)
    ensures disk.healthy && CacheGood(old(disk.files)) && c.digest != "" && AllGranted(old(world.log), world.log) ==>
              result.None?
    ensures disk.healthy && c.digest != "" && HasArchive(old(disk.files), c.digest)
            && AllGranted(old(world.log), world.log) ==>
              && result.None? && disk.files == old(disk.files)
              && world.log == old(world.log) + [Answer(Hash, Granted), Answer(Rehash, Granted)]
    ensures disk.healthy && AllGranted(old(world.log), world.log) ==> ArchivesKept(old(disk.files), disk.files)
  {
    hide Quiet, Still, CacheGood, ArchivesKept, Fetched;
    ghost var b, past := disk.files, disk.history;
    ghost var heard := world.log;
    var cache := CachedArchive(disk, world, c, planId, g);
    if cache == CacheError { return Some(StageFailed(false)); }
    ghost var cached := world.log;
    if cache == Hit {
      var rehashed := world.Ask(Rehash);
      FetchedFromCache(heard, rehashed, world.log, b);
      return if rehashed.Granted? then None else Some(StageFailed(false));
    }
    var downloaded := world.Ask(Download);
    if !downloaded.Granted? { return Some(StageFailed(downloaded.Aborted?)); }
    var digest := HashDownload(world, c.digest);
    if digest != c.digest { return Some(StageFailed(false)); }
    FetchedNow(heard, cached, world.log);
    ghost var m, between := disk.files, disk.history;
    var stored := ScratchWrite(disk, CachePath(c.digest), ArchiveDoc(digest), planId, g);
    CacheStored(b, m, c.digest);
    QuietTransitive(b, past, m, between, disk.files, disk.history, planId, g);
    StillTransitive(b, past, m, between, disk.files, disk.history);
    GrantedWithin(heard, heard, cached, world.log);
    return if stored then None else Some(StageFailed(false));
  }

  /** Emptying the component directory and filling it from the archive. */
  method Unpack(disk: RuntimeDisk, world: RuntimeWorld, c: ComponentPlan, ghost planId: string, g: GenerationId)
    returns (result: Option<Staged>)
    modifies disk, world
    ensures Quiet(old(disk.files), old(disk.history), disk.files, disk.history, planId, g)
    ensures disk.refused >= old(disk.refused)
    ensures Still(old(disk.files), old(disk.history), disk.files, disk.history)
    ensures SameBut(old(disk.files), disk.files, {ComponentDir(g, c.id)})
    ensures result.None? ==> ComponentDir(g, c.id) in disk.files && disk.refused == old(disk.refused)
    ensures result.None? ==>
              world.log == old(world.log) + [Answer(Install, Granted), Answer(FreshProbe(c.id), Granted)]
    ensures old(world.log) <= world.log
    ensures result.Some? ==>
              result.value.StageFailed? && (result.value.cancelled <==> CutOff(old(world.log), world.log))
    ensures result.Some? && result.value.cancelled ==> ComponentDir(g, c.id) in disk.files
    ensures disk.healthy && AllGranted(old(world.log), world.log) ==> result.None?
  {
    ghost var b, past := disk.files, disk.history;
    var removed := ScratchRemove(disk, ComponentDir(g, c.id), planId, g);
    if removed == Stuck { return Some(StageFailed(false)); }
    ghost var m, between := disk.files, disk.history;
    var made := ScratchWrite(disk, ComponentDir(g, c.id), Folder, planId, g);
    QuietTransitive(b, past, m, between, disk.files, disk.history, planId, g);
    StillTransitive(b, past, m, between, disk.files, disk.history);
    if !made { return Some(StageFailed(false)); }
    var installed := world.Ask(Install);
    if !installed.Granted? { return Some(StageFailed(installed.Aborted?)); }
    var probed := world.Ask(FreshProbe(c.id));
    if !probed.Granted? { return Some(StageFailed(probed.Aborted?)); }
    return None;
  }

  /** No receipt changes before the last write. */
  ghost predicate StillUntilDone(before: Files, past: seq<Files>, after: Files, history: seq<Files>) {
    && |past| <= |history| && history[..|past|] == past
    && forall i :: |past| <= i < |history| ==> SameReceipts(before, history[i]) || history[i] == after
  }

  lemma StillThenDone(before: Files, past: seq<Files>, between: seq<Files>, after: Files, history: seq<Files>)
    requires |past| <= |between| <= |history| && history[..|between|] == between && between[..|past|] == past
    requires forall i :: |past| <= i < |between| ==> SameReceipts(before, between[i])
    requires forall i :: |between| <= i < |history| ==> history[i] == after
    ensures StillUntilDone(before, past, after, history)
  {
    assert history[..|past|] == between[..|past|];
    forall i | |past| <= i < |history| ensures SameReceipts(before, history[i]) || history[i] == after {
      if i < |between| { assert history[i] == between[i]; }
    }
  }

  lemma StillThenStaged(a: Files, past: seq<Files>, b: Files, between: seq<Files>, c: Files, history: seq<Files>)
    requires Still(a, past, b, between) && StillUntilDone(b, between, c, history)
    ensures StillUntilDone(a, past, c, history)
  {
    hide SameReceipts;
    assert history[..|past|] == between[..|past|];
    forall i | |past| <= i < |history| ensures SameReceipts(a, history[i]) || history[i] == c {
      if i < |between| {
        assert history[i] == between[i];
      } else if history[i] != c {
        SameReceiptsTransitive(a, b, history[i]);
      }
    }
  }

  /** The answers behind a component that was filled: fetched, installed, probed. */
  ghost predicate Filled(past: Answers, log: Answers, c: ComponentPlan) {
    exists told :: Fetched(past, told)
                   && log == told + [Answer(Install, Granted), Answer(FreshProbe(c.id), Granted)]
  }

  /** stageComponent up to the probe: the archive fetched, the component directory
      filled from it. */
  method Fill(disk: RuntimeDisk, world: RuntimeWorld, c: ComponentPlan, ghost planId: string, g: GenerationId)
    returns (result: Option<Staged>)
    modifies disk, world
    ensures Quiet(old(disk.files), old(disk.history), disk.files, disk.history, planId, g)
    ensures disk.refused >= old(disk.refused)
    ensures Still(old(disk.files), old(disk.history), disk.files, disk.history)
    ensures SameBut(old(disk.files), disk.files, {ComponentDir(g, c.id), CachePath(c.digest)})
    ensures old(world.log) <= world.log
    ensures result.None? ==>
              && ComponentDir(g, c.id) in disk.files && HasArchive(disk.files, c.digest)
              && Unhindered(old(world.log), world.log) && NothingLost(old(disk.files), disk.files)
              && disk.refused == old(disk.refused) && Filled(old(world.log), world.log, c)
    ensures result.Some? ==>
              && result.value.StageFailed? && (result.value.cancelled <==> CutOff(old(world.log), world.log))
              && (result.value.cancelled ==> NothingLost(old(disk.files), disk.files))
    ensures CacheGood(old(disk.files)) ==> CacheGood(disk.files)
    ensures disk.healthy && AllGranted(old(world.log), world.log) ==> ArchivesKept(old(disk.files), disk.files)
    ensures disk.healthy && CacheGood(old(disk.files)) && c.digest != "" && AllGranted(old(world.log), world.log) ==>
              result.None?
  {
    hide Quiet, Still, CacheGood, Fetched;
    ghost var b, past := disk.files, disk.history;
    ghost var heard := world.log;
    ghost var both := {ComponentDir(g, c.id), CachePath(c.digest)};
    var made := ScratchWrite(disk, ComponentDir(g, c.id), Folder, planId, g);
    if !made { return Some(StageFailed(false)); }
    ghost var f1, h1 := disk.files, disk.history;
    SameButWider(b, f1, {ComponentDir(g, c.id)}, both);
    if CacheGood(b) { CacheUntouched(b, f1, {ComponentDir(g, c.id)}); }
    var fetched := FetchArchive(disk, world, c, planId, g);
    QuietTransitive(b, past, f1, h1, disk.files, disk.history, planId, g);
    StillTransitive(b, past, f1, h1, disk.files, disk.history);
    ghost var told, f2, h2 := world.log, disk.files, disk.history;
    FetchedSoFar(b, f1, f2, c, g);
    if fetched.Some? { return fetched; }
    result := Unpack(disk, world, c, planId, g);
    QuietTransitive(b, past, f2, h2, disk.files, disk.history, planId, g);
    StillTransitive(b, past, f2, h2, disk.files, disk.history);
    if CacheGood(f2) { CacheUntouched(f2, disk.files, {ComponentDir(g, c.id)}); }
    if result.None? { GrantedPair(told, Install, FreshProbe(c.id)); }
    AfterFetch(heard, told, world.log);
    UnpackedSoFar(b, f2, disk.files, c, g);
  }

  lemma GrantedPair(told: Answers, first: Question, second: Question)
    ensures AllGranted(told, told + [Answer(first, Granted), Answer(second, Granted)])
  {
  }

  lemma FetchedSoFar(b: Files, f1: Files, f2: Files, c: ComponentPlan, g: GenerationId)
    requires f1 == b[ComponentDir(g, c.id) := Folder] && SameBut(f1, f2, {CachePath(c.digest)})
    ensures SameBut(b, f2, {ComponentDir(g, c.id), CachePath(c.digest)}) && NothingLost(b, f2)
    ensures ArchivesKept(f1, f2) ==> ArchivesKept(b, f2)
  {
    SameButWider(f1, f2, {CachePath(c.digest)}, {ComponentDir(g, c.id), CachePath(c.digest)});
    SameButAt(f1, f2, {CachePath(c.digest)}, ComponentDir(g, c.id));
    NothingLostBut(f1, f2, {CachePath(c.digest)});
    ArchivesKeptBut(b, f1, {ComponentDir(g, c.id)}, c.digest);
  }

  lemma UnpackedSoFar(b: Files, f2: Files, a: Files, c: ComponentPlan, g: GenerationId)
    requires SameBut(b, f2, {ComponentDir(g, c.id), CachePath(c.digest)}) && SameBut(f2, a, {ComponentDir(g, c.id)})
    requires NothingLost(b, f2) && HasArchive(f2, c.digest)
    ensures SameBut(b, a, {ComponentDir(g, c.id), CachePath(c.digest)}) && HasArchive(a, c.digest)
    ensures ComponentDir(g, c.id) in a ==> NothingLost(b, a)
    ensures ArchivesKept(b, f2) ==> ArchivesKept(b, a)
  {
    SameButWider(f2, a, {ComponentDir(g, c.id)}, {ComponentDir(g, c.id), CachePath(c.digest)});
    SameButAt(f2, a, {ComponentDir(g, c.id)}, CachePath(c.digest));
    ArchivesKeptBut(f2, a, {ComponentDir(g, c.id)}, c.digest);
    if ComponentDir(g, c.id) in a {
      NothingLostBut(f2, a, {ComponentDir(g, c.id)});
      NothingLostTransitive(b, f2, a);
    }
  }

  /** What the answers behind a successful fetch mean for all of them. */
  lemma AfterFetch(heard: Answers, told: Answers, log: Answers)
    requires Unhindered(heard, told) && told <= log
    ensures heard <= log && (Unhindered(told, log) ==> Unhindered(heard, log))
    ensures CutOff(heard, log) <==> CutOff(told, log)
    ensures AllGranted(heard, log) ==> AllGranted(heard, told) && AllGranted(told, log)
    ensures AllGranted(told, log) ==> Unhindered(told, log)
  {
    if Unhindered(told, log) { UnhinderedTransitive(heard, told, log); }
  }

  /** stageComponent. */
  method StageComponent(disk: RuntimeDisk, world: RuntimeWorld, c: ComponentPlan, planId: string, g: GenerationId,
                        now: nat)
    returns (result: Staged)
    modifies disk, world
    ensures Quiet(old(disk.files), old(disk.history), disk.files, disk.history, planId, g)
    ensures disk.refused >= old(disk.refused)
    ensures StillUntilDone(old(disk.files), old(disk.history), disk.files, disk.history)
    ensures StageFrame(old(disk.files), disk.files, g, c)
    ensures result.StagedAs? ==>
              && result.receipt == ReceiptFor(c, g, now) && WellFormed(result.receipt)
              && ReceiptPath(ReceiptName(g, c.id)) in disk.files
              && disk.files[ReceiptPath(ReceiptName(g, c.id))] == ReceiptDoc(result.receipt)
              && ComponentDir(g, c.id) in disk.files && HasArchive(disk.files, c.digest)
    ensures result.StageFailed? ==> Still(old(disk.files), old(disk.history), disk.files, disk.history)
    ensures CacheGood(old(disk.files)) ==> CacheGood(disk.files)
    ensures old(world.log) <= world.log
    ensures result.StagedAs? ==>
              && Unhindered(old(world.log), world.log) && Filled(old(world.log), world.log, c)
              && disk.refused == old(disk.refused)
    ensures result.StageFailed? ==> (result.cancelled <==> CutOff(old(world.log), world.log))
    ensures result.StagedAs? || result.cancelled ==> NothingLost(old(disk.files), disk.files)
    ensures disk.healthy && AllGranted(old(world.log), world.log) ==> ArchivesKept(old(disk.files), disk.files)
    ensures disk.healthy && CacheGood(old(disk.files)) && Stageable(c) && g != ""
            && AllGranted(old(world.log), world.log) ==>
              result.StagedAs?
  {
    hide Quiet, Still, CacheGood, HasArchive, NothingLost, ArchivesKept, Filled;
    ReceiptNameIsNamedFor(g, c.id);
    ghost var b, past := disk.files, disk.history;
    var filled := Fill(disk, world, c, planId, g);
    SameButWider(b, disk.files, {ComponentDir(g, c.id), CachePath(c.digest)}, StagePaths(g, c));
    ghost var f, h := disk.files, disk.history;
    StillIsUntilDone(b, past, f, h);
    if filled.Some? { return filled.value; }
    var receipt := ReceiptFor(c, g, now);
    if !WellFormed(receipt) { return StageFailed(false); }
    var written := ScratchWrite(disk, ReceiptPath(ReceiptName(g, c.id)), ReceiptDoc(receipt), planId, g);
    QuietTransitive(b, past, f, h, disk.files, disk.history, planId, g);
    StillMeans(b, past, f, h);
    StillThenDone(b, past, h, disk.files, disk.history);
    ReceiptWritten(b, f, disk.files, c, g);
    return if written then StagedAs(receipt) else StageFailed(false);
  }

  lemma StillIsUntilDone(b: Files, past: seq<Files>, f: Files, h: seq<Files>)
    requires Still(b, past, f, h)
    ensures StillUntilDone(b, past, f, h)
  {
  }

  lemma StillMeans(b: Files, past: seq<Files>, f: Files, h: seq<Files>)
    requires Still(b, past, f, h)
    ensures |past| <= |h| && h[..|past|] == past && forall i :: |past| <= i < |h| ==> SameReceipts(b, h[i])
  {
  }

  /** The last write of stageComponent touches nothing else. */
  lemma ReceiptWritten(b: Files, f: Files, a: Files, c: ComponentPlan, g: GenerationId)
    requires SameBut(b, f, StagePaths(g, c)) && SameBut(f, a, {ReceiptPath(ReceiptName(g, c.id))})
    requires f.Keys <= a.Keys
    ensures SameBut(b, a, StagePaths(g, c))
    ensures ComponentDir(g, c.id) in f ==> ComponentDir(g, c.id) in a
    ensures HasArchive(f, c.digest) ==> HasArchive(a, c.digest)
    ensures CacheGood(f) ==> CacheGood(a)
    ensures NothingLost(b, f) ==> NothingLost(b, a)
    ensures ArchivesKept(b, f) ==> ArchivesKept(b, a)
  {
    SameButWider(f, a, {ReceiptPath(ReceiptName(g, c.id))}, StagePaths(g, c));
    ArchivesKeptBut(f, a, {ReceiptPath(ReceiptName(g, c.id))}, c.digest);
    if CacheGood(f) { CacheUntouched(f, a, {ReceiptPath(ReceiptName(g, c.id))}); }
  }

  // ------------------------------------------------------------------ resumption

  datatype Reason = NoReceipt | ContentGone | NoArchive | ProbeFailed

  datatype StagedCheck = Reusable(receipt: Receipt) | Restage(why: Reason) | CheckFailed(cancelled: bool)

  /** A component that needs no more staging: it is in place and its archive is
      cached. */
  ghost predicate Ready(files: Files, g: GenerationId, c: ComponentPlan, r: Receipt) {
    InPlace(files, g, c, r) && HasArchive(files, c.digest)
  }

  /** readStagedReceipt: a component is reused only with its receipt, its content
      and its archive all present and its probe successful, and staged again only
      for a stated reason. */
  method ReadStagedReceipt(disk: RuntimeDisk, world: RuntimeWorld, c: ComponentPlan, ghost planId: string,
                           g: GenerationId)
    returns (result: StagedCheck)
    modifies disk, world
    ensures Quiet(old(disk.files), old(disk.history), disk.files, disk.history, planId, g)
    ensures disk.refused >= old(disk.refused)
    ensures Still(old(disk.files), old(disk.history), disk.files, disk.history)
    ensures SameBut(old(disk.files), disk.files, {CachePath(c.digest)})
    ensures result.Reusable? ==> Ready(old(disk.files), g, c, result.receipt) && disk.files == old(disk.files)
    ensures result.Reusable? ==>
              world.log == old(world.log) + [Answer(Rereading, Granted), Answer(Hash, Granted),
                                             Answer(StagedProbe(c.id), Granted)]
    ensures !result.CheckFailed? ==> disk.refused == old(disk.refused)
    ensures result.Restage? ==> Unhindered(old(world.log), world.log)
    ensures result == Restage(NoReceipt) ==> ReceiptPath(ReceiptName(g, c.id)) !in disk.files
    ensures result == Restage(ContentGone) ==>
              exists r :: ReceiptPath(ReceiptName(g, c.id)) in disk.files
                && disk.files[ReceiptPath(ReceiptName(g, c.id))] == ReceiptDoc(r) && r.installPath !in disk.files
    ensures result == Restage(NoArchive) ==> CachePath(c.digest) !in disk.files
    ensures result == Restage(ProbeFailed) ==>
              (exists r :: Ready(old(disk.files), g, c, r)) && disk.files == old(disk.files)
              && EndsRefused(old(world.log), world.log, StagedProbe(c.id))
    ensures Asked(old(world.log), world.log, Rereading)
    ensures result == CheckFailed(true) <==> EndsRefused(old(world.log), world.log, Rereading)
    ensures !CutOff(old(world.log), world.log)
    ensures CacheGood(old(disk.files)) ==> CacheGood(disk.files)
    ensures disk.healthy && CacheGood(old(disk.files)) && Stageable(c) && g != ""
            && ReceiptAgrees(old(disk.files), c, g) && AllGranted(old(world.log), world.log) ==>
              !result.CheckFailed?
    ensures disk.healthy && c.digest != "" && AllGranted(old(world.log), world.log) ==>
              forall r :: Ready(old(disk.files), g, c, r) ==> result == Reusable(r)
    ensures disk.healthy && AllGranted(old(world.log), world.log) ==>
              ArchivesKept(old(disk.files), disk.files)
  {
    hide Quiet, Still, CacheGood, ArchivesKept, Matches, WellFormed, ReceiptAgrees, HasArchive, InPlace,
         Ready, Within, Stageable;
    var current := world.Ask(Rereading);
    NothingHappened(disk.files, disk.history, planId, g);
    AgreedFits(disk.files, c, g);
    ReadyExactly(disk.files, g, c);
    if !current.Granted? { return CheckFailed(true); }
    var seen := disk.Inspect(ReceiptPath(ReceiptName(g, c.id)));
    if seen.Missing? { return Restage(NoReceipt); }
    if seen.Unreadable? || !seen.file.ReceiptDoc? { return CheckFailed(false); }
    var receipt := seen.file.receipt;
    if !Matches(receipt, c, g) || !WellFormed(receipt) || !Within(receipt.installPath, g) { return CheckFailed(false); }
    var content := disk.Inspect(receipt.installPath);
    if content.Missing? { return Restage(ContentGone); }
    if content.Unreadable? { return CheckFailed(false); }
    var cache := CachedArchive(disk, world, c, planId, g);
    if cache == CacheError { return CheckFailed(false); }
    if cache == Miss { return Restage(NoArchive); }
    assert Ready(disk.files, g, c, receipt);
    var probed := world.Ask(StagedProbe(c.id));
    return if probed.Granted? then Reusable(receipt) else Restage(ProbeFailed);
  }

  /** What makes a component ready is its receipt file and what that speaks of. */
  lemma ReadyExactly(files: Files, g: GenerationId, c: ComponentPlan)
    ensures var p := ReceiptPath(ReceiptName(g, c.id));
            forall r :: Ready(files, g, c, r)
                        <==> && p in files && files[p] == ReceiptDoc(r) && Matches(r, c, g) && WellFormed(r)
                             && Within(r.installPath, g) && r.installPath in files && HasArchive(files, c.digest)
  {
  }

  /** A receipt that agrees with the plan passes the comparison. */
  lemma AgreedFits(files: Files, c: ComponentPlan, g: GenerationId)
    ensures var p := ReceiptPath(ReceiptName(g, c.id));
            ReceiptAgrees(files, c, g) && Stageable(c) && g != "" && p in files ==>
              && files[p].ReceiptDoc? && Matches(files[p].receipt, c, g) && WellFormed(files[p].receipt)
              && Within(files[p].receipt.installPath, g)
    ensures Stageable(c) ==> c.digest != ""
  {
  }

  datatype Resumption = ResumeAt(generation: GenerationId) | StartFresh(unseen: bool) | ResumeError

  ghost predicate RecordReadable(files: Files, planId: string) {
    OperationPath(planId) in files ==> files[OperationPath(planId)].OperationDoc?
  }

  /** resumableGeneration; `unseen` is a directory that could not be inspected. */
  method ResumableGeneration(disk: RuntimeDisk, planId: string) returns (result: Resumption)
    ensures result.ResumeAt? ==> Resumable(disk.files, planId) == Some(result.generation)
    ensures result == StartFresh(false) ==> Resumable(disk.files, planId) == None
    ensures disk.healthy && RecordReadable(disk.files, planId) ==> !result.ResumeError? && result != StartFresh(true)
  {
    var seen := disk.Inspect(OperationPath(planId));
    if seen.Missing? { return StartFresh(false); }
    if seen.Unreadable? || !seen.file.OperationDoc? { return ResumeError; }
    var o := seen.file.operation;
    if o.planId != planId || !(o.status == Staging || o.status == Interrupted) || o.generation == "" {
      return StartFresh(false);
    }
    var folder := disk.Inspect(GenerationDir(o.generation));
    if folder.Unreadable? { return StartFresh(true); }
    return if folder.Found? then ResumeAt(o.generation) else StartFresh(false);
  }

  // ------------------------------------------------------------ the staging loop

  datatype Cause =
    | OrderingFailed
    | ReceiptCheckFailed(cancelled: bool)
    | StagingFailed
    | LaunchersNotPrepared
    | ManifestNotWritten
    | PointersUnreadable
    | ActivationFailed
    | LaunchersNotWritten

  /** `recorded`: the operation record was set to "failed". */
  datatype Step = Done(receipt: Receipt) | Cancelled | Broken(cause: Cause, recorded: bool)

  datatype StagedAll = AllStaged(receipts: seq<Receipt>) | Stopped(step: Step)

  /** What a stopped stage leaves in the plan's operation record. */
  ghost predicate RecordAfter(before: Files, after: Files, step: Step, planId: string, g: GenerationId, now: nat) {
    var p := OperationPath(planId);
    match step
    case Done(_) => SameAt(before, after, p)
    case Cancelled => SameAt(before, after, p)
        || (p in after && after[p] == OperationDoc(Operation(planId, g, Interrupted, now)))
    case Broken(_, recorded) =>
      if recorded then p in after && after[p] == OperationDoc(Operation(planId, g, Failed, now))
          else SameAt(before, after, p)
  }

  ghost predicate DistinctIds(components: seq<ComponentPlan>) {
    forall i, j :: 0 <= i < j < |components| ==> components[i].id != components[j].id
  }

  /** The failures Apply writes into the operation record. */
  predicate Reports(cause: Cause) { !cause.OrderingFailed? && !cause.ReceiptCheckFailed? }

  /** 1 for a failure that should have been recorded and was not. */
  function Unrecorded(step: Step): nat {
    if step.Broken? && Reports(step.cause) && !step.recorded then 1 else 0
  }

  /** What a working disk records of a stopped stage. */
  ghost predicate Noted(files: Files, planId: string, g: GenerationId, step: Step) {
    match step
    case Done(_) => true
    case Cancelled => OperationPath(planId) in files && files[OperationPath(planId)].OperationDoc?
        && files[OperationPath(planId)].operation.status == Interrupted
    case Broken(cause, recorded) => recorded <==> Reports(cause)
  }

  /** Staging a component that cannot be reused, and recording a failure. */
  method StageOrRecord(disk: RuntimeDisk, world: RuntimeWorld, c: ComponentPlan, planId: string, g: GenerationId,
                       now: nat)
    returns (step: Step)
    modifies disk, world
    ensures Quiet(old(disk.files), old(disk.history), disk.files, disk.history, planId, g)
    ensures disk.refused >= old(disk.refused)
    ensures StillUntilDone(old(disk.files), old(disk.history), disk.files, disk.history)
    ensures SameBut(old(disk.files), disk.files, StagePaths(g, c) + {OperationPath(planId)})
    ensures RecordAfter(old(disk.files), disk.files, step, planId, g, now)
    ensures step.Broken? ==> step.cause == StagingFailed
    ensures Unrecorded(step) <= disk.refused - old(disk.refused)
    ensures step.Done? ==>
              && StageFrame(old(disk.files), disk.files, g, c) && step.receipt == ReceiptFor(c, g, now)
              && InPlace(disk.files, g, c, step.receipt) && ComponentDir(g, c.id) in disk.files
              && ReceiptPath(ReceiptName(g, c.id)) in disk.files
              && disk.files[ReceiptPath(ReceiptName(g, c.id))] == ReceiptDoc(step.receipt)
    ensures !step.Done? ==> SameAt(old(disk.files), disk.files, ReceiptPath(ReceiptName(g, c.id)))
    ensures CacheGood(old(disk.files)) ==> CacheGood(disk.files)
    ensures old(world.log) <= world.log
    ensures step.Cancelled? <==> CutOff(old(world.log), world.log)
    ensures step.Done? ==>
              && Unhindered(old(world.log), world.log) && Filled(old(world.log), world.log, c)
              && disk.refused == old(disk.refused)
    ensures step.Done? || step.Cancelled? ==> NothingLost(old(disk.files), disk.files)
    ensures disk.healthy ==> Noted(disk.files, planId, g, step)
    ensures disk.healthy && AllGranted(old(world.log), world.log) ==> ArchivesKept(old(disk.files), disk.files)
    ensures disk.healthy && CacheGood(old(disk.files)) && Stageable(c) && g != ""
            && AllGranted(old(world.log), world.log) ==>
              step.Done?
  {
    hide Quiet, Still, CacheGood, HasArchive, NothingLost, ArchivesKept, CutOff, Unhindered, Filled;
    ghost var b, past := disk.files, disk.history;
    ghost var wide := StagePaths(g, c) + {OperationPath(planId)};
    var staged := StageComponent(disk, world, c, planId, g, now);
    ghost var f, h := disk.files, disk.history;
    SameButWider(b, f, StagePaths(g, c), wide);
    SameButAt(b, f, StagePaths(g, c), OperationPath(planId));
    if staged.StagedAs? {
      NotCutOff(old(world.log), world.log);
      return Done(staged.receipt);
    }
    StillAtReceipt(b, past, f, h, g, c);
    var noted := WriteOperation(disk, planId, g, if staged.cancelled then Interrupted else Status.Failed, now);
    QuietTransitive(b, past, f, h, disk.files, disk.history, planId, g);
    StillTransitive(b, past, f, h, disk.files, disk.history);
    StillIsUntilDone(b, past, disk.files, disk.history);
    RecordWritten(b, f, disk.files, c, planId, g);
    return if staged.cancelled then Cancelled else Broken(StagingFailed, noted);
  }

  lemma NotCutOff(past: Answers, log: Answers)
    requires Unhindered(past, log)
    ensures !CutOff(past, log)
  {
  }

  lemma StillAtReceipt(b: Files, past: seq<Files>, f: Files, h: seq<Files>, g: GenerationId, c: ComponentPlan)
    requires Still(b, past, f, h)
    ensures SameAt(b, f, ReceiptPath(ReceiptName(g, c.id)))
  {
  }

  lemma RecordWritten(b: Files, f: Files, a: Files, c: ComponentPlan, planId: string, g: GenerationId)
    requires SameBut(b, f, StagePaths(g, c)) && SameAt(b, f, ReceiptPath(ReceiptName(g, c.id)))
    requires SameBut(f, a, {OperationPath(planId)}) && f.Keys <= a.Keys
    ensures SameBut(b, a, StagePaths(g, c) + {OperationPath(planId)})
    ensures SameAt(b, a, ReceiptPath(ReceiptName(g, c.id)))
    ensures CacheGood(f) ==> CacheGood(a)
    ensures NothingLost(b, f) ==> NothingLost(b, a)
    ensures ArchivesKept(b, f) ==> ArchivesKept(b, a)
  {
    var wide := StagePaths(g, c) + {OperationPath(planId)};
    SameButWider(b, f, StagePaths(g, c), wide);
    SameButWider(f, a, {OperationPath(planId)}, wide);
    SameButAt(f, a, {OperationPath(planId)}, ReceiptPath(ReceiptName(g, c.id)));
    ArchivesKeptBut(f, a, {OperationPath(planId)}, c.digest);
    if CacheGood(f) { CacheUntouched(f, a, {OperationPath(planId)}); }
  }

  /** The component was probed, and the probe succeeded. */
  ghost predicate Probed(past: Answers, log: Answers, c: ComponentPlan) {
    exists k :: |past| <= k < |log| && log[k] in {Answer(StagedProbe(c.id), Granted), Answer(FreshProbe(c.id), Granted)}
  }

  lemma ProbedLast(past: Answers, log: Answers, c: ComponentPlan)
    requires Filled(past, log, c)
    ensures Probed(past, log, c)
  {
    assert log[|log| - 1] == Answer(FreshProbe(c.id), Granted);
  }

  lemma ProbedWithin(heard: Answers, past: Answers, told: Answers, log: Answers, c: ComponentPlan)
    requires heard <= past && told <= log && Probed(past, told, c)
    ensures Probed(heard, log, c)
  {
    var k :| |past| <= k < |told|
             && told[k] in {Answer(StagedProbe(c.id), Granted), Answer(FreshProbe(c.id), Granted)};
    assert log[k] == told[k];
  }

  /** One turn of Apply's staging loop. */
  method StageStep(disk: RuntimeDisk, world: RuntimeWorld, c: ComponentPlan, planId: string, g: GenerationId, now: nat)
    returns (step: Step)
    modifies disk, world
    ensures Quiet(old(disk.files), old(disk.history), disk.files, disk.history, planId, g)
    ensures disk.refused >= old(disk.refused)
    ensures StillUntilDone(old(disk.files), old(disk.history), disk.files, disk.history)
    ensures SameBut(old(disk.files), disk.files, StagePaths(g, c) + {OperationPath(planId)})
    ensures RecordAfter(old(disk.files), disk.files, step, planId, g, now)
    ensures step.Broken? ==> step.cause.ReceiptCheckFailed? || step.cause.StagingFailed?
    ensures Unrecorded(step) <= disk.refused - old(disk.refused)
    ensures step.Done? ==>
              && StageFrame(old(disk.files), disk.files, g, c) && InPlace(disk.files, g, c, step.receipt)
              && (ComponentDir(g, c.id) in old(disk.files) ==> ComponentDir(g, c.id) in disk.files)
    ensures var p := ReceiptPath(ReceiptName(g, c.id));
            SameAt(old(disk.files), disk.files, p)
                || (p in disk.files && disk.files[p] == ReceiptDoc(ReceiptFor(c, g, now)))
    ensures CacheGood(old(disk.files)) ==> CacheGood(disk.files)
    ensures Asked(old(world.log), world.log, Ongoing)
    ensures step.Cancelled? <==> CutOff(old(world.log), world.log)
    ensures step.Done? ==>
              && Unhindered(old(world.log), world.log) && Probed(old(world.log), world.log, c)
              && disk.refused == old(disk.refused)
    ensures step.Broken? && step.cause.ReceiptCheckFailed? ==>
              !step.recorded && (step.cause.cancelled <==> EndsRefused(old(world.log), world.log, Rereading))
    ensures step.Done? || step.Cancelled? ==> NothingLost(old(disk.files), disk.files)
    ensures disk.healthy ==> Noted(disk.files, planId, g, step)
    ensures disk.healthy && AllGranted(old(world.log), world.log) ==> ArchivesKept(old(disk.files), disk.files)
    ensures disk.healthy && CacheGood(old(disk.files)) && Stageable(c) && g != ""
            && ReceiptAgrees(old(disk.files), c, g) && AllGranted(old(world.log), world.log) ==>
              step.Done?
    ensures disk.healthy && c.digest != "" && AllGranted(old(world.log), world.log) ==>
              forall r :: Ready(old(disk.files), g, c, r) ==> step == Done(r) && disk.files == old(disk.files)
  {
    hide Quiet, Still, StillUntilDone, CacheGood, NothingLost, ArchivesKept, InPlace, HasArchive, Filled;
    ghost var b, past := disk.files, disk.history;
    ghost var heard := world.log;
    var current := world.Ask(Ongoing);
    ghost var asked := world.log;
    QuietRefl(b, past, planId, g);
    if !current.Granted? {
      var noted := WriteOperation(disk, planId, g, Interrupted, now);
      StillIsUntilDone(b, past, disk.files, disk.history);
      SameButAt(b, disk.files, {OperationPath(planId)}, ReceiptPath(ReceiptName(g, c.id)));
      RecordWritten(b, b, disk.files, c, planId, g);
      NothingMoved(b);
      return Cancelled;
    }
    var check := ReadStagedReceipt(disk, world, c, planId, g);
    ghost var f, h, told := disk.files, disk.history, world.log;
    CheckMoved(b, f, c, planId, g);
    StillIsUntilDone(b, past, f, h);
    if check.CheckFailed? { return Broken(ReceiptCheckFailed(check.cancelled), false); }
    if check.Reusable? {
      assert world.log[|world.log| - 1] == Answer(StagedProbe(c.id), Granted);
      NothingMoved(b);
      return Done(check.receipt);
    }
    step := StageOrRecord(disk, world, c, planId, g, now);
    QuietTransitive(b, past, f, h, disk.files, disk.history, planId, g);
    StillThenStaged(b, past, f, h, disk.files, disk.history);
    if step.Done? {
      ProbedLast(told, world.log, c);
      ProbedWithin(heard, told, world.log, world.log, c);
    }
    AfterFetch(asked, told, world.log);
    AfterFetch(heard, asked, world.log);
    RestagedSoFar(b, f, disk.files, c, planId, g);
  }

  lemma NothingHappened(files: Files, history: seq<Files>, planId: string, g: GenerationId)
    ensures Quiet(files, history, files, history, planId, g) && Still(files, history, files, history)
    ensures ArchivesKept(files, files)
  {
  }

  lemma NothingMoved(b: Files)
    ensures NothingLost(b, b) && ArchivesKept(b, b)
  {
  }

  /** Looking at a staged component touches its archive at most. */
  lemma CheckMoved(b: Files, f: Files, c: ComponentPlan, planId: string, g: GenerationId)
    requires SameBut(b, f, {CachePath(c.digest)})
    ensures SameBut(b, f, StagePaths(g, c) + {OperationPath(planId)}) && StageFrame(b, f, g, c)
    ensures SameAt(b, f, ReceiptPath(ReceiptName(g, c.id))) && SameAt(b, f, ComponentDir(g, c.id))
    ensures SameAt(b, f, OperationPath(planId)) && NothingLost(b, f)
  {
    SameButWider(b, f, {CachePath(c.digest)}, StagePaths(g, c));
    SameButWider(b, f, StagePaths(g, c), StagePaths(g, c) + {OperationPath(planId)});
    SameButAt(b, f, {CachePath(c.digest)}, ReceiptPath(ReceiptName(g, c.id)));
    SameButAt(b, f, {CachePath(c.digest)}, ComponentDir(g, c.id));
    SameButAt(b, f, {CachePath(c.digest)}, OperationPath(planId));
    NothingLostBut(b, f, {CachePath(c.digest)});
  }

  lemma RestagedSoFar(b: Files, f: Files, a: Files, c: ComponentPlan, planId: string, g: GenerationId)
    requires SameBut(b, f, {CachePath(c.digest)}) && SameBut(f, a, StagePaths(g, c) + {OperationPath(planId)})
    ensures SameBut(b, a, StagePaths(g, c) + {OperationPath(planId)})
    ensures StageFrame(f, a, g, c) ==> StageFrame(b, a, g, c)
    ensures NothingLost(f, a) ==> NothingLost(b, a)
    ensures ArchivesKept(b, f) && ArchivesKept(f, a) ==> ArchivesKept(b, a)
  {
    CheckMoved(b, f, c, planId, g);
    if NothingLost(f, a) { NothingLostTransitive(b, f, a); }
  }

  /** Everything StageAll has established after n components. */
  ghost predicate StagedUpTo(files: Files, ordered: seq<ComponentPlan>, receipts: seq<Receipt>, n: nat,
                             g: GenerationId)
  {
    && n <= |ordered| && |receipts| == n
    && (forall i :: 0 <= i < n ==> InPlace(files, g, ordered[i], receipts[i]))
  }

  ghost predicate ReceiptsExpected(ordered: seq<ComponentPlan>, receipts: seq<Receipt>, n: nat, g: GenerationId) {
    n <= |ordered| && |receipts| == n && forall i :: 0 <= i < n ==>
        Timeless(receipts[i]) == ReceiptFor(ordered[i], g, 0)
  }

  lemma StagedOneMore(before: Files, after: Files, ordered: seq<ComponentPlan>, receipts: seq<Receipt>, r: Receipt,
                      g: GenerationId)
    requires |receipts| < |ordered| && DistinctIds(ordered) && StagedUpTo(before, ordered, receipts, |receipts|, g)
    requires var c := ordered[|receipts|];
             && StageFrame(before, after, g, c) && InPlace(after, g, c, r)
             && (ComponentDir(g, c.id) in before ==> ComponentDir(g, c.id) in after)
    ensures StagedUpTo(after, ordered, receipts + [r], |receipts| + 1, g)
  {
    forall i | 0 <= i < |receipts| ensures InPlace(after, g, ordered[i], receipts[i]) {
      InPlaceSurvives(before, after, g, ordered[i], receipts[i], ordered[|receipts|]);
    }
  }

  lemma ExpectedOneMore(files: Files, components: seq<ComponentPlan>, ordered: seq<ComponentPlan>,
                        receipts: seq<Receipt>, r: Receipt, g: GenerationId)
    requires |receipts| < |ordered| && ReceiptsExpected(ordered, receipts, |receipts|, g)
    requires ReceiptsAgree(files, components, g) && ordered[|receipts|] in components
    requires InPlace(files, g, ordered[|receipts|], r)
    ensures ReceiptsExpected(ordered, receipts + [r], |receipts| + 1, g)
  {
  }

  ghost predicate AllStageable(components: seq<ComponentPlan>, g: GenerationId) {
    g != "" && forall c :: c in components ==> Stageable(c)
  }

  lemma AgreementOfOne(files: Files, components: seq<ComponentPlan>, g: GenerationId, c: ComponentPlan)
    requires ReceiptsAgree(files, components, g) && c in components
    ensures ReceiptAgrees(files, c, g)
  {
  }

  /** What was ready is ready still, and its directory is the same. */
  ghost predicate ReadyKept(before: Files, after: Files, ordered: seq<ComponentPlan>, g: GenerationId) {
    forall i, r :: 0 <= i < |ordered| && ordered[i].digest != "" && Ready(before, g, ordered[i], r) ==>
      Ready(after, g, ordered[i], r) && SameAt(before, after, ComponentDir(g, ordered[i].id))
  }

  /** What was ready is taken as it was, the time of its receipt included. */
  ghost predicate ReadyReused(before: Files, ordered: seq<ComponentPlan>, receipts: seq<Receipt>, n: nat,
                              g: GenerationId) {
    n <= |ordered| && |receipts| == n
    && forall i, r :: 0 <= i < n && ordered[i].digest != "" && Ready(before, g, ordered[i], r) ==> receipts[i] == r
  }

  lemma ReadyKeptTransitive(a: Files, b: Files, c: Files, ordered: seq<ComponentPlan>, g: GenerationId)
    requires ReadyKept(a, b, ordered, g) && ReadyKept(b, c, ordered, g)
    ensures ReadyKept(a, c, ordered, g)
  {
    hide Ready;
  }

  lemma ReadyReusedFrom(a: Files, b: Files, ordered: seq<ComponentPlan>, receipts: seq<Receipt>, g: GenerationId)
    requires ReadyKept(a, b, ordered, g) && ReadyReused(b, ordered, receipts, |ordered|, g)
    ensures ReadyReused(a, ordered, receipts, |ordered|, g)
  {
    hide Ready;
  }

  /** Writes that touch no receipt, archive or component directory. */
  lemma ReadyFramed(before: Files, after: Files, paths: set<Path>, ordered: seq<ComponentPlan>, g: GenerationId)
    requires SameBut(before, after, paths)
    requires forall p :: p in paths ==> !p.ReceiptPath? && !p.CachePath? && !p.ComponentDir?
    requires forall p :: p in paths && Within(p, g) && p in before ==> p in after
    ensures ReadyKept(before, after, ordered, g)
  {
    hide Matches, WellFormed;
    forall i, r | 0 <= i < |ordered| && ordered[i].digest != "" && Ready(before, g, ordered[i], r)
      ensures Ready(after, g, ordered[i], r) && SameAt(before, after, ComponentDir(g, ordered[i].id))
    {
      SameButAt(before, after, paths, ReceiptPath(ReceiptName(g, ordered[i].id)));
      SameButAt(before, after, paths, CachePath(ordered[i].digest));
      SameButAt(before, after, paths, ComponentDir(g, ordered[i].id));
      if r.installPath !in paths { SameButAt(before, after, paths, r.installPath); }
    }
  }

  lemma ReadyThroughStep(b: Files, f: Files, a: Files, ordered: seq<ComponentPlan>, receipts: seq<Receipt>, n: nat,
                         receipt: Receipt, g: GenerationId)
    requires n < |ordered| && DistinctIds(ordered)
    requires ReadyKept(b, f, ordered, g) && ReadyReused(b, ordered, receipts, n, g)
    requires var c := ordered[n];
             && StageFrame(f, a, g, c) && (ComponentDir(g, c.id) in f ==> ComponentDir(g, c.id) in a)
             && (c.digest != "" ==> forall r :: Ready(f, g, c, r) ==> receipt == r && a == f)
    requires ArchivesKept(f, a)
    ensures ReadyKept(b, a, ordered, g) && ReadyReused(b, ordered, receipts + [receipt], n + 1, g)
  {
    hide InPlace, HasArchive;
    forall i, r | 0 <= i < |ordered| && ordered[i].digest != "" && Ready(b, g, ordered[i], r)
      ensures Ready(a, g, ordered[i], r) && SameAt(b, a, ComponentDir(g, ordered[i].id))
    {
      assert Ready(f, g, ordered[i], r);
      if i != n {
        InPlaceSurvives(f, a, g, ordered[i], r, ordered[n]);
        SameButAt(f, a, StagePaths(g, ordered[n]), ComponentDir(g, ordered[i].id));
      }
    }
  }

  lemma NothingStaged(b: Files, ordered: seq<ComponentPlan>, g: GenerationId, heard: Answers)
    ensures Unhindered(heard, heard) && NothingLost(b, b)
    ensures ReadyKept(b, b, ordered, g) && ReadyReused(b, ordered, [], 0, g)
  {
  }

  /** What one more turn of asking means for the whole. */
  lemma ThroughTurn(heard: Answers, told: Answers, log: Answers)
    requires Unhindered(heard, told) && Asked(told, log, Ongoing)
    ensures heard <= log && (Unhindered(told, log) ==> Unhindered(heard, log))
    ensures CutOff(heard, log) <==> CutOff(told, log)
    ensures AllGranted(heard, log) ==> AllGranted(heard, told) && AllGranted(told, log)
  {
    if Unhindered(told, log) { UnhinderedTransitive(heard, told, log); }
  }

  /** How the staging loop answers to what it was told: it is cancelled exactly by
      a cancellation, loses nothing then, and takes what was ready as it was. */
  ghost predicate StagingTold(before: Files, past: Answers, after: Files, log: Answers, planId: string,
                              ordered: seq<ComponentPlan>, g: GenerationId, healthy: bool, result: StagedAll) {
    && past <= log
    && (match result
        case AllStaged(receipts) =>
          && Unhindered(past, log) && NothingLost(before, after)
          && (forall c :: c in ordered ==> Probed(past, log, c))
          && (healthy && AllGranted(past, log) ==>
                ReadyKept(before, after, ordered, g) && ReadyReused(before, ordered, receipts, |ordered|, g))
        case Stopped(step) =>
          && (step.Cancelled? <==> CutOff(past, log)) && (step.Cancelled? ==> NothingLost(before, after))
          && (healthy ==> Noted(after, planId, g, step)))
  }

  method StageAll(disk: RuntimeDisk, world: RuntimeWorld, planId: string, ghost components: seq<ComponentPlan>,
                  ordered: seq<ComponentPlan>, g: GenerationId, now: nat)
    returns (result: StagedAll)
    requires DistinctIds(components) && DistinctIds(ordered) && forall c :: c in ordered ==> c in components
    modifies disk, world
    ensures Quiet(old(disk.files), old(disk.history), disk.files, disk.history, planId, g)
    ensures disk.refused >= old(disk.refused)
    ensures SameAt(old(disk.files), disk.files, ManifestPath(g))
              && SameAt(old(disk.files), disk.files, GenerationDir(g))
    ensures result.AllStaged? ==>
              SameAt(old(disk.files), disk.files, OperationPath(planId)) && disk.refused == old(disk.refused)
    ensures result.AllStaged? ==> StagedUpTo(disk.files, ordered, result.receipts, |ordered|, g)
    ensures result.Stopped? ==>
              !result.step.Done? && RecordAfter(old(disk.files), disk.files, result.step, planId, g, now)
    ensures result.Stopped? ==> Unrecorded(result.step) <= disk.refused - old(disk.refused)
    ensures result.Stopped? && result.step.Broken? ==>
              result.step.cause.StagingFailed? || (result.step.cause.ReceiptCheckFailed? && !result.step.recorded)
    ensures KeptSince(old(disk.files), old(disk.history), disk.files, disk.history, components, g)
    ensures ReceiptsAgree(old(disk.files), components, g) && result.AllStaged? ==>
              ReceiptsExpected(ordered, result.receipts, |ordered|, g)
    ensures StagingTold(old(disk.files), old(world.log), disk.files, world.log, planId, ordered, g, disk.healthy,
                        result)
    ensures disk.healthy && CacheGood(old(disk.files)) && AllStageable(components, g)
            && ReceiptsAgree(old(disk.files), components, g) && AllGranted(old(world.log), world.log) ==>
              result.AllStaged?
  {
    hide InPlace, Quiet, StageFrame, ReceiptsAgree, OnlyPlannedReceipts, CacheGood, ReceiptAgrees, KeptSince,
         StillUntilDone, CutOff, Unhindered, ReadyKept, ReadyReused, NothingLost, Noted, HasArchive, Probed;
    ghost var b, past := disk.files, disk.history;
    ghost var heard, missed := world.log, disk.refused;
    ghost var agreed := ReceiptsAgree(b, components, g);
    NothingStaged(b, ordered, g, heard);
    QuietRefl(b, past, planId, g);
    StillIsKept(b, past, b, past, components, g);
    var receipts: seq<Receipt> := [];
    for n := 0 to |ordered|
      invariant Quiet(b, past, disk.files, disk.history, planId, g) && disk.refused == missed
      invariant SameAt(b, disk.files, ManifestPath(g)) && SameAt(b, disk.files, GenerationDir(g))
      invariant SameAt(b, disk.files, OperationPath(planId))
      invariant StagedUpTo(disk.files, ordered, receipts, n, g)
      invariant KeptSince(b, past, disk.files, disk.history, components, g)
      invariant agreed ==> ReceiptsAgree(disk.files, components, g)
      invariant agreed ==> ReceiptsExpected(ordered, receipts, n, g)
      invariant CacheGood(b) ==> CacheGood(disk.files)
      invariant heard <= world.log && Unhindered(heard, world.log) && NothingLost(b, disk.files)
      invariant forall i :: 0 <= i < n ==> Probed(heard, world.log, ordered[i])
      invariant disk.healthy && AllGranted(heard, world.log) ==>
                  ReadyKept(b, disk.files, ordered, g) && ReadyReused(b, ordered, receipts, n, g)
    {
      ghost var f, h := disk.files, disk.history;
      ghost var told := world.log;
      var c := ordered[n];
      assert c in ordered;
      if agreed { AgreementOfOne(f, components, g, c); }
      var step := StageStep(disk, world, c, planId, g, now);
      QuietTransitive(b, past, f, h, disk.files, disk.history, planId, g);
      SameButAt(f, disk.files, StagePaths(g, c) + {OperationPath(planId)}, ManifestPath(g));
      SameButAt(f, disk.files, StagePaths(g, c) + {OperationPath(planId)}, GenerationDir(g));
      ReceiptsThroughStep(f, disk.files, components, g, c, planId, now);
      KeptThroughStep(f, h, disk.files, disk.history, components, g);
      KeptSinceTransitive(b, past, f, h, disk.files, disk.history, components, g);
      ThroughTurn(heard, told, world.log);
      if step.Done? || step.Cancelled? { NothingLostTransitive(b, f, disk.files); }
      if !step.Done? { return Stopped(step); }
      forall i | 0 <= i < n + 1 ensures Probed(heard, world.log, ordered[i]) {
        if i < n {
          ProbedWithin(heard, heard, told, world.log, ordered[i]);
        } else {
          ProbedWithin(heard, told, world.log, world.log, c);
        }
      }
      if disk.healthy && AllGranted(heard, world.log) {
        ReadyThroughStep(b, f, disk.files, ordered, receipts, n, step.receipt, g);
      }
      StagedOneMore(f, disk.files, ordered, receipts, step.receipt, g);
      if agreed { ExpectedOneMore(disk.files, components, ordered, receipts, step.receipt, g); }
      receipts := receipts + [step.receipt];
    }
    return AllStaged(receipts);
  }

  lemma KeptThroughStep(before: Files, past: seq<Files>, after: Files, history: seq<Files>,
                        components: seq<ComponentPlan>, g: GenerationId)
    requires StillUntilDone(before, past, after, history) && ReceiptsKept(before, after, components, g)
    ensures KeptSince(before, past, after, history, components, g)
    ensures ReceiptsAgree(before, components, g) ==> ReceiptsAgree(after, components, g)
  {
    hide ReceiptsAgree, OnlyPlannedReceipts;
    forall i | |past| <= i < |history| ensures ReceiptsKept(before, history[i], components, g) {
      if history[i] != after { ReceiptsUntouched(before, history[i], components, g); }
    }
  }

  lemma ReceiptsThroughStep(before: Files, after: Files, components: seq<ComponentPlan>, g: GenerationId,
                            c: ComponentPlan, planId: string, now: nat)
    requires c in components && DistinctIds(components)
    requires SameBut(before, after, StagePaths(g, c) + {OperationPath(planId)})
    requires var p := ReceiptPath(ReceiptName(g, c.id));
             SameAt(before, after, p) || (p in after && after[p] == ReceiptDoc(ReceiptFor(c, g, now)))
    ensures ReceiptsKept(before, after, components, g)
  {
    forall name | name != ReceiptName(g, c.id) ensures SameAt(before, after, ReceiptPath(name)) {
      SameButAt(before, after, StagePaths(g, c) + {OperationPath(planId)}, ReceiptPath(name));
    }
    if ReceiptsAgree(before, components, g) { AgreementThroughStep(before, after, components, g, c, now); }
    forall name | ReceiptPath(name) in after && ReceiptPath(name) !in before
        ensures name in ReceiptNames(components, g) {
      assert name == ReceiptName(g, c.id) || SameAt(before, after, ReceiptPath(name));
    }
  }

  lemma AgreementThroughStep(before: Files, after: Files, components: seq<ComponentPlan>, g: GenerationId,
                             c: ComponentPlan, now: nat)
    requires ReceiptsAgree(before, components, g) && c in components && DistinctIds(components)
    requires forall name :: name != ReceiptName(g, c.id) ==> SameAt(before, after, ReceiptPath(name))
    requires var p := ReceiptPath(ReceiptName(g, c.id));
             SameAt(before, after, p) || (p in after && after[p] == ReceiptDoc(ReceiptFor(c, g, now)))
    ensures ReceiptsAgree(after, components, g)
  {
    forall d | d in components && ReceiptPath(ReceiptName(g, d.id)) in after
      ensures after[ReceiptPath(ReceiptName(g, d.id))].ReceiptDoc?
      ensures Timeless(after[ReceiptPath(ReceiptName(g, d.id))].receipt) == ReceiptFor(d, g, 0)
    {
      if ReceiptName(g, d.id) == ReceiptName(g, c.id) {
        ReceiptNameInjective(g, d.id, c.id);
        assert d == c;
      } else {
        assert SameAt(before, after, ReceiptPath(ReceiptName(g, d.id)));
      }
    }
  }
}
