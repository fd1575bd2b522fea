/** Manager.Apply and Manager.Rollback (internal/managedruntime/manager.go). */
module RuntimeManager {
  import opened Text
  import opened RuntimeTypes
  import opened FileSystem
  import opened RuntimeState
  import opened RuntimeStaging
  import Launchers
  import ComponentOrder

  // ------------------------------------------------------------------- names

  function GenerationName(planId: string, now: nat): GenerationId { "generation-" + planId + "-" + Decimal(now) }

  /** GenerationManifest.Validate. */
  predicate ManifestValid(m: Manifest) {
    && 0 < |m.planId| <= MAX_PLAN_ID
    && 0 < |m.generation| <= MAX_PLAN_ID
    && m.platform != "" && m.architecture != ""
    && 0 < |m.components| <= MAX_COMPONENT_COUNT
    && (forall i, j :: 0 <= i < j < |m.components| ==> m.components[i].component != m.components[j].component)
    && (forall i :: 0 <= i < |m.components| ==>
        m.components[i].generation == m.generation && WellFormed(m.components[i]))
    && (forall i, j :: 0 <= i < j < |m.launchers| ==>
          m.launchers[i].name != m.launchers[j].name && m.launchers[i].path != m.launchers[j].path)
  }

  // ---------------------------------------------------------------- outcomes

  /** How an Apply ends, with what a caller or an operator can see of it.
      `recorded`: the record says "failed"; `restored`: both pointer files were
      put back (or never changed); `launchersBack`: so were the launchers;
      `removed`: the deferred RemoveAll ran to its end. */
  datatype Outcome =
    | Refused
    | Suspended(generation: GenerationId, resumption: Resumption)
    | Broke(generation: GenerationId, cause: Cause, recorded: bool, restored: bool, launchersBack: bool, removed: bool)
    | StatusLost(generation: GenerationId, removed: bool)
    | Applied(generation: GenerationId, resumption: Resumption, receipts: seq<Receipt>,
        launchers: seq<Launchers.Launcher>)

  ghost predicate Recorded(files: Files, planId: string, g: GenerationId, statuses: set<Status>) {
    var p := OperationPath(planId);
    p in files && files[p].OperationDoc? && files[p].operation.planId == planId
    && files[p].operation.generation == g && files[p].operation.status in statuses
  }

  /** The generation an Apply works in: the resumable one, or a new name. */
  ghost predicate Chosen(before: Files, planId: string, now: nat, g: GenerationId) {
    Resumable(before, planId) == Some(g) || g == GenerationName(planId, now)
  }

  ghost predicate Gone(files: Files, g: GenerationId) { forall p :: Within(p, g) ==> p !in files }

  /** Only the plan's scratch paths and the two pointers may differ. */
  ghost predicate ApplyFrame(before: Files, after: Files, planId: string, g: GenerationId) {
    forall p :: !Scratch(p, planId, g) && p != CurrentPath && p != PreviousPath ==> SameAt(before, after, p)
  }

  ghost predicate SwitchedTo(before: Files, after: Files, planId: string, g: GenerationId, now: nat) {
    && CurrentPath in after && after[CurrentPath] == PointerDoc(Pointer(planId, g, now))
    && (if CurrentPath in before then PreviousPath in after && after[PreviousPath] == before[CurrentPath]
        else SameAt(before, after, PreviousPath))
  }

  /** current.json as found; previous.json too, unless activation stopped half way. */
  ghost predicate PointersAsFound(before: Files, after: Files) {
    && SameAt(before, after, CurrentPath)
    && (SameAt(before, after, PreviousPath)
        || (CurrentPath in before && PreviousPath in after && after[PreviousPath] == before[CurrentPath]))
  }

  ghost predicate ManifestFor(files: Files, plan: Plan, g: GenerationId, now: nat, receipts: seq<Receipt>,
                              launchers: seq<Launchers.Launcher>) {
    var m := Manifest(plan.id, g, plan.platform, plan.architecture, now, receipts, launchers);
    ManifestPath(g) in files && files[ManifestPath(g)] == ManifestDoc(m) && ManifestValid(m)
  }

  ghost predicate RefusedRelation(before: Files, after: Files, planId: string, now: nat) {
    && SameBut(before, after, {OperationPath(planId)})
    && (SameAt(before, after, OperationPath(planId))
        || exists g :: Chosen(before, planId, now, g) && Recorded(after, planId, g, {Staging, Interrupted}))
  }

  ghost predicate SuspendedRelation(before: Files, after: Files, plan: Plan, g: GenerationId) {
    && SameOutside(before, after, plan.id, g)
    && SameAt(before, after, ManifestPath(g)) && GenerationDir(g) in after
    && Recorded(after, plan.id, g, {Staging, Interrupted})
    && ReceiptsKept(before, after, plan.components, g)
  }

  /** The manifest, while it is there, is of this plan and generation. */
  ghost predicate ManifestKept(files: Files, planId: string, g: GenerationId) {
    ManifestPath(g) in files ==>
      && files[ManifestPath(g)].ManifestDoc? && files[ManifestPath(g)].manifest.generation == g
      && files[ManifestPath(g)].manifest.planId == planId
  }

  ghost predicate BrokeRelation(before: Files, after: Files, plan: Plan, now: nat, o: Outcome)
    requires o.Broke?
  {
    && ApplyFrame(before, after, plan.id, o.generation)
    && Recorded(after, plan.id, o.generation, if o.recorded then {Failed} else {Staging})
    && (o.restored ==> PointersAsFound(before, after))
    && (!o.restored ==>
          && ManifestKept(after, plan.id, o.generation)
          && (PointersAsFound(before, after) || SwitchedTo(before, after, plan.id, o.generation, now)))
    && (o.removed ==> Gone(after, o.generation))
    && (o.cause != LaunchersNotWritten ==> o.restored && o.launchersBack)
  }

  ghost predicate AppliedRelation(before: Files, after: Files, plan: Plan, now: nat, o: Outcome)
    requires o.Applied?
  {
    var order := ComponentOrder.Order(plan.components);
    var g := o.generation;
    && ApplyFrame(before, after, plan.id, g)
    && SwitchedTo(before, after, plan.id, g, now)
    && Recorded(after, plan.id, g, {Complete})
    && GenerationDir(g) in after
    && ManifestFor(after, plan, g, now, o.receipts, o.launchers)
    && order.Done? && StagedUpTo(after, order.walk.ordered, o.receipts, |order.walk.ordered|, g)
    && OnlyPlannedReceipts(before, after, plan.components, g)
    && (ReceiptsAgree(before, plan.components, g) ==>
          ReceiptsExpected(order.walk.ordered, o.receipts, |order.walk.ordered|, g))
    && ResumptionTold(before, plan.id, g, o.resumption)
  }

  /** How the generation was chosen; StartFresh(true) is a resumable directory
      that could not be inspected. */
  ghost predicate ResumptionTold(before: Files, planId: string, g: GenerationId, resumption: Resumption) {
    match resumption
    case ResumeAt(h) => h == g && Resumable(before, planId) == Some(g)
    case StartFresh(unseen) => !unseen ==> Resumable(before, planId) == None
    case ResumeError => false
  }

  /** What BuildGeneration leaves behind for the switch: everything staged, the
      manifest written, the record still "staging". */
  ghost predicate Assembled(before: Files, after: Files, plan: Plan, g: GenerationId, now: nat, receipts: seq<Receipt>,
                            launchers: seq<Launchers.Launcher>)
  {
    && SameOutside(before, after, plan.id, g) && Recorded(after, plan.id, g, {Staging}) && GenerationDir(g) in after
    && ManifestFor(after, plan, g, now, receipts, launchers) && ReceiptsKept(before, after, plan.components, g)
    && ComponentOrder.Order(plan.components).Done?
    && var ordered := ComponentOrder.Order(plan.components).walk.ordered;
       StagedUpTo(after, ordered, receipts, |ordered|, g)
  }

  /** Switched to the new generation, the record still "staging". */
  ghost predicate InWindow(before: Files, after: Files, plan: Plan, g: GenerationId, now: nat) {
    && SwitchedTo(before, after, plan.id, g, now) && Recorded(after, plan.id, g, {Staging})
    && Backed(after, Pointer(plan.id, g, now))
  }

  /** Every Apply that completes passed through both: a process may be killed there. */
  ghost predicate Passed(before: Files, past: seq<Files>, history: seq<Files>, plan: Plan, now: nat, o: Outcome)
    requires o.Applied?
  {
    exists i, j :: |past| <= i < j < |history|
                   && Assembled(before, history[i], plan, o.generation, now, o.receipts, o.launchers)
                   && InWindow(before, history[j], plan, o.generation, now)
  }

  /** When an Apply stopped and what it was working on. */
  datatype Stop = Stop(at: nat, generation: GenerationId, resumption: Resumption)

  /** The files an Apply left, by its own decision or killed, when its plan can be
      taken up again in the same generation. */
  ghost predicate StoppedRelation(before: Files, after: Files, plan: Plan, s: Stop) {
    && Chosen(before, plan.id, s.at, s.generation) && ResumptionTold(before, plan.id, s.generation, s.resumption)
    && Resumable(after, plan.id) == Some(s.generation) && ReceiptsKept(before, after, plan.components, s.generation)
  }

  /** Everything Apply promises about the managed files. */
  ghost predicate ApplyRelation(before: Files, after: Files, plan: Plan, now: nat, o: Outcome) {
    && (!o.Refused? ==> Chosen(before, plan.id, now, o.generation))
    && match o
       case Refused => RefusedRelation(before, after, plan.id, now)
       case Suspended(g, resumption) =>
         SuspendedRelation(before, after, plan, g) && ResumptionTold(before, plan.id, g, resumption)
       case Broke(_, _, _, _, _, _) => BrokeRelation(before, after, plan, now, o)
       case StatusLost(g, removed) =>
         && ApplyFrame(before, after, plan.id, g) && SwitchedTo(before, after, plan.id, g, now)
         && Recorded(after, plan.id, g, {Staging})
         && (removed ==> Gone(after, g))
       case Applied(_, _, _, _) => AppliedRelation(before, after, plan, now, o)
  }

  /** What an ending lost before its clean-up: the record of a failure, the
      pointers as found, the final status.  Each costs a failed disk call. */
  function Damage(o: Outcome): nat {
    match o
    case Broke(_, cause, recorded, restored, _, _) =>
      (if Reports(cause) && !recorded then 1 else 0) + if restored then 0 else 1
    case StatusLost(_, _) => 1
    case _ => 0
  }

  // --------------------------------------------------------------- main results

  ghost predicate Kept(files: Files, g: GenerationId) { GenerationDir(g) in files && ManifestPath(g) in files }

  /** The endings after which runs stay safe.  A failure must be recorded unless
      its generation lost its directory or manifest; when current.json could not
      be put back, it must be recorded and the generation must have survived.
      A lost "complete" status is never safe. */
  ghost predicate Sound(before: Files, after: Files, o: Outcome) {
    match o
    case Broke(g, _, recorded, _, _, _) =>
      if SameAt(before, after, CurrentPath) then recorded || !Kept(after, g) else recorded && Kept(after, g)
    case StatusLost(_, _) => false
    case _ => true
  }

  lemma ResumableFrame(before: Files, after: Files, planId: string, q: string, g: GenerationId)
    requires ApplyFrame(before, after, planId, g) && q != planId
    ensures SameAt(before, after, OperationPath(q))
    ensures Resumable(after, q).Some? && Resumable(after, q) != Some(g) ==> Resumable(before, q) == Resumable(after, q)
    ensures forall h :: Names(after, q, h) <==> Names(before, q, h)
  {
    assert SameAt(before, after, OperationPath(q));
    if Resumable(after, q).Some? {
      assert Resumable(after, q) != Some(g) ==> SameAt(before, after, GenerationDir(Resumable(after, q).value));
    }
  }

  lemma BackedSurvives(before: Files, after: Files, planId: string, g: GenerationId, p: Pointer)
    requires Backed(before, p) && p.generation != g && ApplyFrame(before, after, planId, g)
    ensures Backed(after, p)
  {
    assert SameAt(before, after, GenerationDir(p.generation)) && SameAt(before, after, ManifestPath(p.generation));
  }

  /** The generation being built is nobody's yet. */
  lemma ChosenIsUnclaimed(before: Files, planId: string, now: nat, g: GenerationId)
    requires Inv(before) && Fresh(before, GenerationName(planId, now)) && Chosen(before, planId, now, g)
    ensures ManifestPath(g) !in before
    ensures !PointsAt(before, CurrentPath, g) && !PointsAt(before, PreviousPath, g)
    ensures forall q :: q != planId ==> !Names(before, q, g)
  {
    if Resumable(before, planId) == Some(g) { assert Names(before, planId, g); }
  }

  lemma RecordsStayApart(before: Files, after: Files, planId: string, g: GenerationId)
    requires Inv(before) && ApplyFrame(before, after, planId, g)
    requires forall q :: q != planId ==> !Names(before, q, g)
    requires forall h :: Names(after, planId, h) ==> h == g
    requires Resumable(after, planId).Some? ==> ManifestPath(Resumable(after, planId).value) !in after
    ensures forall q :: Resumable(after, q).Some? ==> ManifestPath(Resumable(after, q).value) !in after
    ensures forall q, r, h :: q != r && Names(after, q, h) ==> !Names(after, r, h)
  {
    forall q | q != planId
      ensures Resumable(after, q).Some? ==> ManifestPath(Resumable(after, q).value) !in after
    {
      ResumableFrame(before, after, planId, q, g);
      if Resumable(after, q).Some? {
        var h := Resumable(after, q).value;
        assert Names(after, q, h);
        assert SameAt(before, after, ManifestPath(h));
      }
    }
    forall q, r, h | q != r && Names(after, q, h) ensures !Names(after, r, h) {
      if q != planId { ResumableFrame(before, after, planId, q, g); }
      if r != planId { ResumableFrame(before, after, planId, r, g); }
    }
  }

  lemma RefusedKeepsInv(before: Files, after: Files, planId: string, now: nat)
    requires Inv(before) && Fresh(before, GenerationName(planId, now)) && RefusedRelation(before, after, planId, now)
    ensures Inv(after)
  {
    forall p | p != OperationPath(planId) ensures SameAt(before, after, p) {
      SameButAt(before, after, {OperationPath(planId)}, p);
    }
    if SameAt(before, after, OperationPath(planId)) {
      forall p ensures (p in before <==> p in after) && (p in before ==> before[p] == after[p]) {
        assert SameAt(before, after, p);
      }
      assert after == before;
    } else {
      var g :| Chosen(before, planId, now, g) && Recorded(after, planId, g, {Staging, Interrupted});
      ChosenIsUnclaimed(before, planId, now, g);
      assert ApplyFrame(before, after, planId, g);
      assert SameAt(before, after, ManifestPath(g));
      RecordsStayApart(before, after, planId, g);
      PointersKept(before, after, planId, g);
    }
  }

  lemma PointersKept(before: Files, after: Files, planId: string, g: GenerationId)
    requires PointerGood(before, CurrentPath) && PointerGood(before, PreviousPath)
    requires !PointsAt(before, CurrentPath, g) && !PointsAt(before, PreviousPath, g)
    requires ApplyFrame(before, after, planId, g)
    requires SameAt(before, after, PreviousPath)
             || (CurrentPath in before && PreviousPath in after && after[PreviousPath] == before[CurrentPath])
    ensures PointerGood(after, PreviousPath) && (SameAt(before, after, CurrentPath) ==> PointerGood(after, CurrentPath))
  {
    if CurrentPath in before { BackedSurvives(before, after, planId, g, before[CurrentPath].pointer); }
    if PreviousPath in before { BackedSurvives(before, after, planId, g, before[PreviousPath].pointer); }
  }

  /** A generation that can be resumed and has a manifest breaks the invariant. */
  lemma UnrecordedBreaksInv(after: Files, planId: string, g: GenerationId)
    requires g != "" && Recorded(after, planId, g, {Staging}) && Kept(after, g)
    ensures !Inv(after)
  {
    assert Resumable(after, planId) == Some(g);
  }

  lemma BrokeKeepsInvExactly(before: Files, after: Files, plan: Plan, now: nat, o: Outcome)
    requires Inv(before) && Fresh(before, GenerationName(plan.id, now))
    requires ApplyRelation(before, after, plan, now, o) && o.Broke?
    ensures Inv(after) <==> Sound(before, after, o)
  {
    var g := o.generation;
    ChosenIsUnclaimed(before, plan.id, now, g);
    PointersKept(before, after, plan.id, g);
    if !o.recorded && Kept(after, g) {
      UnrecordedBreaksInv(after, plan.id, g);
    } else {
      RecordsStayApart(before, after, plan.id, g);
    }
  }

  lemma LostStatusBreaksInv(before: Files, after: Files, plan: Plan, now: nat, o: Outcome)
    requires ApplyRelation(before, after, plan, now, o) && o.StatusLost?
    ensures !Inv(after)
  {
    var g := o.generation;
    if Kept(after, g) { UnrecordedBreaksInv(after, plan.id, g); }
  }

  /** The invariant of whole runs survives an Apply exactly when it ends soundly. */
  lemma ApplyKeepsInvExactly(before: Files, after: Files, plan: Plan, now: nat, o: Outcome)
    requires Inv(before) && Fresh(before, GenerationName(plan.id, now))
    requires ApplyRelation(before, after, plan, now, o)
    ensures Inv(after) <==> Sound(before, after, o)
  {
    match o
    case Refused => RefusedKeepsInv(before, after, plan.id, now);
    case Suspended(g, _) =>
      ChosenIsUnclaimed(before, plan.id, now, g);
      assert ApplyFrame(before, after, plan.id, g);
      assert SameAt(before, after, CurrentPath) && SameAt(before, after, PreviousPath);
      RecordsStayApart(before, after, plan.id, g);
      PointersKept(before, after, plan.id, g);
    case Broke(_, _, _, _, _, _) => BrokeKeepsInvExactly(before, after, plan, now, o);
    case StatusLost(_, _) => LostStatusBreaksInv(before, after, plan, now, o);
    case Applied(g, _, _, _) =>
      ChosenIsUnclaimed(before, plan.id, now, g);
      RecordsStayApart(before, after, plan.id, g);
      PointersKept(before, after, plan.id, g);
  }

  /** A failing Apply leaves current.json exactly as found and, after its
      cleanup, current.json still names an existing generation unless the
      generation it resumed was the active one, which only a crash between
      activation and the final status write leaves behind. */
  lemma FailureKeepsPointerExactly(before: Files, after: Files, plan: Plan, now: nat, o: Outcome)
    requires Live(before) && ApplyRelation(before, after, plan, now, o)
    requires o.Broke? && o.restored && o.removed
    ensures SameAt(before, after, CurrentPath)
    ensures Live(after) <==> !PointsAt(before, CurrentPath, o.generation)
  {
    if CurrentPath in before {
      var p := before[CurrentPath].pointer;
      if p.generation == o.generation {
        assert Within(GenerationDir(p.generation), o.generation);
      } else {
        BackedSurvives(before, after, plan.id, o.generation, p);
      }
    }
  }

  /** Losing the final status write deletes the generation current.json has
      already been switched to. */
  lemma LostStatusOrphansPointer(before: Files, after: Files, plan: Plan, now: nat, o: Outcome)
    requires ApplyRelation(before, after, plan, now, o) && o.StatusLost? && o.removed
    ensures PointsAt(after, CurrentPath, o.generation) && !Live(after)
  {
  }

  /** So does a failed Apply whose cleanup ran although current.json could not be
      put back. */
  lemma LostRestoreOrphansPointer(before: Files, after: Files, plan: Plan, now: nat, o: Outcome)
    requires ApplyRelation(before, after, plan, now, o) && o.Broke? && o.removed && !SameAt(before, after, CurrentPath)
    ensures !o.restored && PointsAt(after, CurrentPath, o.generation) && !Live(after)
  {
    assert Within(GenerationDir(o.generation), o.generation);
  }

  // ---------------------------------------------------------- every instant

  /** The history only grew, and was live at every new instant. */
  ghost predicate LiveSince(past: seq<Files>, history: seq<Files>) {
    && |past| <= |history| && history[..|past|] == past
    && forall i :: |past| <= i < |history| ==> Live(history[i])
  }

  ghost predicate Grew(past: seq<Files>, history: seq<Files>) {
    |past| <= |history| && history[..|past|] == past
  }

  lemma LiveSinceTransitive(past: seq<Files>, between: seq<Files>, history: seq<Files>)
    requires LiveSince(past, between) && LiveSince(between, history)
    ensures LiveSince(past, history)
  {
  }

  lemma QuietIsLive(before: Files, past: seq<Files>, after: Files, history: seq<Files>, planId: string, g: GenerationId)
    requires Live(before) && !PointsAt(before, CurrentPath, g) && Quiet(before, past, after, history, planId, g)
    ensures LiveSince(past, history) && Live(after)
  {
    forall i | |past| <= i < |history| ensures Live(history[i]) {
      LiveOutside(before, history[i], planId, g);
    }
    LiveOutside(before, after, planId, g);
  }

  lemma LiveWhenCurrentIs(files: Files, after: Files, pointer: Option<Document>)
    requires SameBut(files, after, {CurrentPath, PreviousPath})
    requires pointer.Some? ==> pointer.value.PointerDoc? && Backed(files, pointer.value.pointer)
    requires if pointer.Some? then CurrentPath in after && after[CurrentPath] == pointer.value
              else CurrentPath !in after
    ensures Live(after)
  {
    if pointer.Some? {
      var g := pointer.value.pointer.generation;
      SameButAt(files, after, {CurrentPath, PreviousPath}, GenerationDir(g));
      SameButAt(files, after, {CurrentPath, PreviousPath}, ManifestPath(g));
    }
  }

  ghost function At(files: Files, p: Path): Option<Document> { if p in files then Some(files[p]) else None }

  // ------------------------------------------------------------ pointer switches

  const POINTERS: set<Path> := {CurrentPath, PreviousPath}

  /** activate: keep the old current as previous, then name the new generation. */
  method Activate(disk: RuntimeDisk, planId: string, g: GenerationId, now: nat) returns (ok: bool)
    modifies disk
    ensures SameBut(old(disk.files), disk.files, POINTERS)
    ensures Grew(old(disk.history), disk.history)
    ensures Still(old(disk.files), old(disk.history), disk.files, disk.history)
    ensures disk.refused >= old(disk.refused) && (ok ==> disk.refused == old(disk.refused))
    ensures ok ==> SwitchedTo(old(disk.files), disk.files, planId, g, now)
    ensures !ok ==> PointersAsFound(old(disk.files), disk.files)
    ensures old(Live(disk.files) && Backed(disk.files, Pointer(planId, g, now))) ==>
              LiveSince(old(disk.history), disk.history) && Live(disk.files)
    ensures ok ==> Ends(old(disk.history), disk.history, disk.files)
    ensures disk.healthy ==> ok
  {
    ghost var b := disk.files;
    ghost var safe := Live(b) && Backed(b, Pointer(planId, g, now));
    var seen := disk.Inspect(CurrentPath);
    if seen.Unreadable? { return false; }
    if seen.Found? {
      var kept := disk.AtomicWriteFile(PreviousPath, seen.file);
      if safe { LiveWhenCurrentIs(b, disk.files, At(b, CurrentPath)); }
      if !kept { return false; }
    }
    ok := disk.AtomicWriteFile(CurrentPath, PointerDoc(Pointer(planId, g, now)));
    if safe {
      LiveWhenCurrentIs(b, disk.files, if ok then Some(PointerDoc(Pointer(planId, g, now))) else At(b, CurrentPath));
    }
  }

  /** One half of restoreOptionalFiles. */
  method RestorePointer(disk: RuntimeDisk, path: Path, document: Option<Document>) returns (ok: bool)
    requires path in POINTERS
    modifies disk
    ensures SameBut(old(disk.files), disk.files, {path})
    ensures Grew(old(disk.history), disk.history)
    ensures Still(old(disk.files), old(disk.history), disk.files, disk.history)
    ensures forall i :: |old(disk.history)| <= i < |disk.history| ==> disk.history[i] == disk.files
    ensures disk.refused == if ok then old(disk.refused) else old(disk.refused) + 1
    ensures ok ==> At(disk.files, path) == document
    ensures !ok ==> disk.files == old(disk.files)
    ensures disk.healthy ==> ok
  {
    if document.Some? {
      ok := disk.AtomicWriteFile(path, document.value);
    } else {
      var removed := disk.Remove(path);
      ok := removed != Stuck;
    }
  }

  /** restoreOptionalFiles: the second file is left alone once the first failed. */
  method RestorePointers(disk: RuntimeDisk, current: Option<Document>, previous: Option<Document>) returns (ok: bool)
    modifies disk
    ensures SameBut(old(disk.files), disk.files, POINTERS)
    ensures Grew(old(disk.history), disk.history)
    ensures Still(old(disk.files), old(disk.history), disk.files, disk.history)
    ensures disk.refused == if ok then old(disk.refused) else old(disk.refused) + 1
    ensures ok ==> At(disk.files, CurrentPath) == current && At(disk.files, PreviousPath) == previous
    ensures !ok ==> SameAt(old(disk.files), disk.files, PreviousPath)
    ensures !ok ==> SameAt(old(disk.files), disk.files, CurrentPath) || At(disk.files, CurrentPath) == current
    ensures old(Live(disk.files))
              && (current.Some? ==> current.value.PointerDoc? && Backed(old(disk.files), current.value.pointer)) ==>
              LiveSince(old(disk.history), disk.history) && Live(disk.files)
    ensures disk.healthy ==> ok
  {
    ghost var b, past := disk.files, disk.history;
    ghost var safe := Live(b) && (current.Some? ==> current.value.PointerDoc? && Backed(b, current.value.pointer));
    ok := RestorePointer(disk, CurrentPath, current);
    SameButWider(b, disk.files, {CurrentPath}, POINTERS);
    SameButAt(b, disk.files, {CurrentPath}, PreviousPath);
    if !ok { return; }
    if safe { LiveWhenCurrentIs(b, disk.files, current); }
    ghost var m, between := disk.files, disk.history;
    ok := RestorePointer(disk, PreviousPath, previous);
    SameButWider(m, disk.files, {PreviousPath}, POINTERS);
    StillTransitive(b, past, m, between, disk.files, disk.history);
    SameButAt(m, disk.files, {PreviousPath}, CurrentPath);
    if safe {
      LiveWhenCurrentIs(b, disk.files, current);
      LiveSinceTransitive(past, between, disk.history);
    }
  }
}
