/** Manager.Apply (internal/managedruntime/manager.go), step by step. */
module RuntimeApply {
  import opened Text
  import opened RuntimeTypes
  import opened FileSystem
  import opened RuntimeState
  import opened RuntimeStaging
  import opened RuntimeManager
  import Launchers
  import ComponentOrder

  datatype Build =
    | Built(receipts: seq<Receipt>, launchers: seq<Launchers.Launcher>,
        transaction: Option<Launchers.LauncherTransaction>)
    | NotBuilt(step: Step)

  datatype Switch =
    | Switched
    | NotSwitched(cause: Cause, recorded: bool, restored: bool, launchersBack: bool)

  /** What a failed switch lost. */
  function SwitchDamage(w: Switch): nat
    requires w.NotSwitched?
  {
    (if w.recorded then 0 else 1) + if w.restored then 0 else 1
  }

  /** After a successful Apply the launcher directory holds the reported
      launchers, rendered, and is otherwise as before. */
  ghost predicate LaunchersWritten(enabled: bool, before: Launchers.Directory, after: Launchers.Directory,
                                   launchers: seq<Launchers.Launcher>) {
    if enabled then
      && Launchers.InstalledFrom(before, after, launchers)
      && exists specs, desired :: Launchers.Planned(before, specs, launchers, desired)
    else after == before
  }

  function Seen(i: Inspection<Document>): Option<Document> { if i.Found? then Some(i.file) else None }

  lemma HalfRestored(b: Files, m: Files, s: Files, planId: string, g: GenerationId, now: nat)
    requires SwitchedTo(b, m, planId, g, now) && SameAt(m, s, PreviousPath)
    requires SameAt(m, s, CurrentPath) || At(s, CurrentPath) == At(b, CurrentPath)
    ensures PointersAsFound(b, s) || SwitchedTo(b, s, planId, g, now)
  {
  }

  lemma StaysSwitched(b: Files, r: Files, s: Files, planId: string, g: GenerationId, now: nat)
    requires SwitchedTo(b, r, planId, g, now) && SameAt(r, s, CurrentPath) && SameAt(r, s, PreviousPath)
    ensures SwitchedTo(b, s, planId, g, now)
  {
  }

  lemma StillGrew(b: Files, past: seq<Files>, m: Files, between: seq<Files>)
    requires Still(b, past, m, between)
    ensures Grew(past, between)
  {
  }

  lemma RestoredAsFound(before: Files, after: Files)
    requires At(after, CurrentPath) == At(before, CurrentPath) && At(after, PreviousPath) == At(before, PreviousPath)
    ensures PointersAsFound(before, after)
  {
  }

  lemma RecordFromBefore(before: Files, m: Files, after: Files, step: Step, planId: string, g: GenerationId, now: nat)
    requires SameAt(before, m, OperationPath(planId)) && RecordAfter(m, after, step, planId, g, now)
    ensures RecordAfter(before, after, step, planId, g, now)
  {
  }

  lemma BackedButPointers(before: Files, after: Files, p: Pointer)
    requires Backed(before, p) && SameBut(before, after, POINTERS)
    ensures Backed(after, p)
  {
    SameButAt(before, after, POINTERS, GenerationDir(p.generation));
    SameButAt(before, after, POINTERS, ManifestPath(p.generation));
  }

  /** The disk once the generation directory exists and the record says so. */
  ghost predicate Entered(b: Files, past: seq<Files>, f: Files, history: seq<Files>, plan: Plan, g: GenerationId,
                          resumption: Resumption) {
    && Quiet(b, past, f, history, plan.id, g)
    && SameAt(b, f, ManifestPath(g)) && GenerationDir(g) in f
    && Recorded(f, plan.id, g, {Staging})
    && ReceiptsKept(b, f, plan.components, g) && KeptSince(b, past, f, history, plan.components, g)
    && ResumptionTold(b, plan.id, g, resumption)
  }

  lemma QuietEnds(b: Files, past: seq<Files>, m: Files, between: seq<Files>, planId: string, g: GenerationId)
    requires Quiet(b, past, m, between, planId, g)
    ensures SameOutside(b, m, planId, g) && Grew(past, between)
  {
  }

  lemma RemovalStaysWithin(before: Files, after: Files, tree: set<Path>, planId: string, g: GenerationId)
    requires after - tree == before - tree && forall p :: p in tree ==> Within(p, g)
    ensures SameOutside(before, after, planId, g) && SameAt(before, after, OperationPath(planId))
  {
    forall p | !Within(p, g) ensures SameAt(before, after, p) { SameButAt(before, after, tree, p); }
  }

  lemma SwitchFrame(b: Files, m: Files, s: Files, planId: string, g: GenerationId)
    requires SameOutside(b, m, planId, g) && SameBut(m, s, POINTERS + {OperationPath(planId)})
    ensures ApplyFrame(b, s, planId, g)
    ensures SameAt(b, m, CurrentPath) && SameAt(b, m, PreviousPath)
    ensures SameAt(m, s, GenerationDir(g)) && SameAt(m, s, ManifestPath(g))
  {
    forall p | p !in POINTERS + {OperationPath(planId)} ensures SameAt(m, s, p) {
      SameButAt(m, s, POINTERS + {OperationPath(planId)}, p);
    }
    forall p | !Scratch(p, planId, g) && p != CurrentPath && p != PreviousPath ensures SameAt(b, s, p) {
      assert SameAt(b, m, p) && SameAt(m, s, p);
    }
  }

  lemma RemovalKeepsReceipts(before: Files, after: Files, tree: set<Path>, g: GenerationId)
    requires after - tree == before - tree && forall p :: p in tree ==> Within(p, g)
    ensures SameReceipts(before, after)
  {
    forall name ensures SameAt(before, after, ReceiptPath(name)) { SameButAt(before, after, tree, ReceiptPath(name)); }
  }

  /** How an Apply that stopped before the switch ends. */
  function StoppedOutcome(step: Step, g: GenerationId, resumption: Resumption): Outcome
    requires !step.Done?
  {
    if step.Cancelled? then Suspended(g, resumption) else Broke(g, step.cause, step.recorded, true, true, false)
  }

  lemma StoppedAssembles(b: Files, f: Files, m: Files, plan: Plan, g: GenerationId, now: nat, step: Step)
    requires !step.Done? && BuildCause(step, plan)
    requires SameOutside(b, m, plan.id, g) && SameAt(b, f, ManifestPath(g)) && GenerationDir(g) in f
    requires Recorded(f, plan.id, g, {Staging}) && RecordAfter(f, m, step, plan.id, g, now)
    requires SameAt(f, m, GenerationDir(g)) && (step.Cancelled? ==> SameAt(f, m, ManifestPath(g)))
    requires ReceiptsKept(b, m, plan.components, g)
    ensures step.Cancelled? ==> SuspendedRelation(b, m, plan, g)
    ensures step.Broken? ==> BrokeRelation(b, m, plan, now, Broke(g, step.cause, step.recorded, true, true, false))
  {
  }

  lemma UnswitchedAssembles(b: Files, m: Files, s: Files, plan: Plan, g: GenerationId, now: nat, w: Switch)
    requires w.NotSwitched? && SameOutside(b, m, plan.id, g) && ApplyFrame(b, s, plan.id, g)
    requires Recorded(m, plan.id, g, {Staging}) && RecordAfter(m, s, Broken(w.cause, w.recorded), plan.id, g, now)
    requires w.restored ==> PointersAsFound(m, s)
    requires !w.restored ==> PointersAsFound(m, s) || SwitchedTo(m, s, plan.id, g, now)
    requires ManifestKept(s, plan.id, g)
    requires w.cause != LaunchersNotWritten ==> w.restored && w.launchersBack
    ensures BrokeRelation(b, s, plan, now, Broke(g, w.cause, w.recorded, w.restored, w.launchersBack, false))
  {
    assert SameAt(b, m, CurrentPath) && SameAt(b, m, PreviousPath);
  }

  lemma ManifestStays(m: Files, s: Files, plan: Plan, g: GenerationId, now: nat, receipts: seq<Receipt>,
                      launchers: seq<Launchers.Launcher>)
    requires ManifestFor(m, plan, g, now, receipts, launchers) && SameAt(m, s, ManifestPath(g))
    ensures ManifestKept(s, plan.id, g)
  {
  }

  lemma SwitchedFromBefore(b: Files, m: Files, s: Files, planId: string, g: GenerationId, now: nat)
    requires SameOutside(b, m, planId, g) && SwitchedTo(m, s, planId, g, now)
    ensures SwitchedTo(b, s, planId, g, now)
    ensures SwitchedTo(b, s[OperationPath(planId) := OperationDoc(Operation(planId, g, Complete, now))], planId, g, now)
  {
    assert SameAt(b, m, CurrentPath) && SameAt(b, m, PreviousPath);
  }

  lemma StillElsewhere(before: Files, after: Files, g: GenerationId)
    requires !PointsAt(before, CurrentPath, g) && SameAt(before, after, CurrentPath)
    ensures !PointsAt(after, CurrentPath, g)
  {
  }

  lemma LiveButStatus(files: Files, planId: string, document: Document)
    requires Live(files)
    ensures Live(files[OperationPath(planId) := document])
  {
  }

  lemma BackedByManifest(m: Files, plan: Plan, g: GenerationId, now: nat, receipts: seq<Receipt>,
                         launchers: seq<Launchers.Launcher>)
    requires GenerationDir(g) in m && ManifestFor(m, plan, g, now, receipts, launchers)
    ensures Backed(m, Pointer(plan.id, g, now))
  {
  }

  /** What the outcome says stays true once the deferred removal has run. */
  lemma RefusedRelates(b: Files, a: Files, plan: Plan, now: nat)
    requires RefusedRelation(b, a, plan.id, now)
    ensures ApplyRelation(b, a, plan, now, Refused)
  {
  }

  lemma EndingRelates(b: Files, a: Files, plan: Plan, now: nat, resumption: Resumption, o: Outcome)
    requires !o.Refused? && Chosen(b, plan.id, now, o.generation)
    requires o.Suspended? ==>
               && SuspendedRelation(b, a, plan, o.generation) && o.resumption == resumption
               && ResumptionTold(b, plan.id, o.generation, resumption)
    requires o.Broke? ==> BrokeRelation(b, a, plan, now, o)
    requires o.StatusLost? ==>
               && !o.removed && ApplyFrame(b, a, plan.id, o.generation)
               && SwitchedTo(b, a, plan.id, o.generation, now) && Recorded(a, plan.id, o.generation, {Staging})
    requires o.Applied? ==> AppliedRelation(b, a, plan, now, o)
    ensures ApplyRelation(b, a, plan, now, o)
  {
    hide SuspendedRelation, BrokeRelation, AppliedRelation, Chosen, ResumptionTold, ApplyFrame, SwitchedTo, Recorded;
  }

  lemma DamageStays(o: Outcome, removed: bool)
    requires o.Broke? || o.StatusLost?
    ensures Damage(o.(removed := removed)) == Damage(o)
  {
  }

  lemma CleanedUp(b: Files, f: Files, a: Files, plan: Plan, now: nat, o: Outcome, removed: bool)
    requires (o.Broke? || o.StatusLost?) && !o.removed && ApplyRelation(b, f, plan, now, o)
    requires SameOutside(f, a, plan.id, o.generation) && SameAt(f, a, OperationPath(plan.id))
    requires removed ==> Gone(a, o.generation)
    requires ManifestPath(o.generation) in a ==> SameAt(f, a, ManifestPath(o.generation))
    ensures ApplyRelation(b, a, plan, now, o.(removed := removed))
  {
    CleanupKeepsFrame(b, f, a, plan.id, o.generation);
  }

  lemma CleanupKeepsFrame(b: Files, f: Files, a: Files, planId: string, g: GenerationId)
    requires ApplyFrame(b, f, planId, g) && SameOutside(f, a, planId, g)
    ensures ApplyFrame(b, a, planId, g) && SameAt(f, a, CurrentPath) && SameAt(f, a, PreviousPath)
  {
  }

  lemma AppliedAssembles(b: Files, m: Files, s: Files, plan: Plan, g: GenerationId, now: nat, receipts: seq<Receipt>,
                         launchers: seq<Launchers.Launcher>)
    requires ApplyFrame(b, s, plan.id, g) && ManifestFor(m, plan, g, now, receipts, launchers)
    requires SameBut(m, s, POINTERS + {OperationPath(plan.id)}) && ComponentOrder.Order(plan.components).Done?
    requires var ordered := ComponentOrder.Order(plan.components).walk.ordered;
             StagedUpTo(m, ordered, receipts, |ordered|, g)
    ensures var a := s[OperationPath(plan.id) := OperationDoc(Operation(plan.id, g, Complete, now))];
            var ordered := ComponentOrder.Order(plan.components).walk.ordered;
            && ApplyFrame(b, a, plan.id, g) && ManifestFor(a, plan, g, now, receipts, launchers)
            && StagedUpTo(a, ordered, receipts, |ordered|, g)
  {
    hide ManifestValid, WellFormed, Matches;
    var a := s[OperationPath(plan.id) := OperationDoc(Operation(plan.id, g, Complete, now))];
    var ordered := ComponentOrder.Order(plan.components).walk.ordered;
    forall p | p !in POINTERS + {OperationPath(plan.id)} ensures SameAt(m, a, p) {
      SameButAt(m, s, POINTERS + {OperationPath(plan.id)}, p);
    }
    assert SameAt(m, a, ManifestPath(g));
    forall i | 0 <= i < |ordered| ensures InPlace(a, g, ordered[i], receipts[i]) {
      assert InPlace(m, g, ordered[i], receipts[i]);
      assert SameAt(m, a, ReceiptPath(ReceiptName(g, ordered[i].id)));
      assert SameAt(m, a, receipts[i].installPath);
    }
  }

  lemma StagedSurvivesManifest(before: Files, document: Document, ordered: seq<ComponentPlan>, receipts: seq<Receipt>,
                               g: GenerationId)
    requires StagedUpTo(before, ordered, receipts, |ordered|, g)
    ensures StagedUpTo(before[ManifestPath(g) := document], ordered, receipts, |ordered|, g)
  {
  }

  lemma SwitchKeepsReceipts(b: Files, m: Files, s: Files, a: Files, plan: Plan, g: GenerationId)
    requires OnlyPlannedReceipts(b, m, plan.components, g)
    requires SameBut(m, s, POINTERS + {OperationPath(plan.id)}) && SameBut(s, a, {OperationPath(plan.id)})
    ensures OnlyPlannedReceipts(b, a, plan.components, g)
  {
    ReceiptsUntouchedBut(m, s, POINTERS + {OperationPath(plan.id)}, plan.components, g);
    ReceiptsUntouchedBut(s, a, {OperationPath(plan.id)}, plan.components, g);
    assert forall name :: ReceiptPath(name) in a ==> ReceiptPath(name) in m by {
      forall name | ReceiptPath(name) in a ensures ReceiptPath(name) in m {
        SameButAt(m, s, POINTERS + {OperationPath(plan.id)}, ReceiptPath(name));
        SameButAt(s, a, {OperationPath(plan.id)}, ReceiptPath(name));
      }
    }
  }

  lemma OrderedIsPlanned(components: seq<ComponentPlan>)
    requires DistinctIds(components) && ComponentOrder.Order(components).Done?
    ensures var ordered := ComponentOrder.Order(components).walk.ordered;
            DistinctIds(ordered) && forall c :: c in ordered ==> c in components
  {
    var ordered := ComponentOrder.Order(components).walk.ordered;
    ComponentOrder.OrderIsGood(components);
    ComponentOrder.OrderIsPermutation(components);
    forall c | c in ordered ensures c in components {
      assert c in multiset(ordered);
      assert c in multiset(components);
    }
  }

  /** The generation an Apply works in when every record can be read. */
  ghost function ChosenName(files: Files, planId: string, now: nat): GenerationId {
    if Resumable(files, planId).Some? then Resumable(files, planId).value else GenerationName(planId, now)
  }

  /** Everything a plan needs to be applied into a generation. */
  ghost predicate Applicable(files: Files, plan: Plan, g: GenerationId) {
    && plan.Valid() && |g| <= MAX_PLAN_ID
    && ComponentOrder.Closed(ComponentOrder.ById(plan.components))
        && ComponentOrder.Acyclic(ComponentOrder.ById(plan.components))
    && AllStageable(plan.components, g) && ReceiptsAgree(files, plan.components, g) && CacheGood(files)
  }

  lemma ApplicableMeans(files: Files, plan: Plan, g: GenerationId)
    requires Applicable(files, plan, g)
    ensures ComponentOrder.Order(plan.components).Done? && plan.Valid() && 0 < |g| <= MAX_PLAN_ID
    ensures AllStageable(plan.components, g) && ReceiptsAgree(files, plan.components, g) && CacheGood(files)
  {
    ComponentOrder.OrderSucceedsExactly(plan.components);
  }

  lemma ApplicableStays(before: Files, after: Files, plan: Plan, g: GenerationId)
    requires Applicable(before, plan, g) && SameBut(before, after, {OperationPath(plan.id), GenerationDir(g)})
    ensures Applicable(after, plan, g)
  {
    ReceiptsUntouchedBut(before, after, {OperationPath(plan.id), GenerationDir(g)}, plan.components, g);
    CacheUntouched(before, after, {OperationPath(plan.id), GenerationDir(g)});
  }

  /** The staged receipts of a plan that a manifest can be made of. */
  ghost predicate Assemblable(files: Files, plan: Plan, g: GenerationId, receipts: seq<Receipt>) {
    && plan.Valid() && 0 < |g| <= MAX_PLAN_ID && ComponentOrder.Order(plan.components).Done?
    && var ordered := ComponentOrder.Order(plan.components).walk.ordered;
       StagedUpTo(files, ordered, receipts, |ordered|, g)
  }

  lemma StagedIsAssemblable(files: Files, plan: Plan, g: GenerationId, receipts: seq<Receipt>)
    requires plan.Valid() && 0 < |g| <= MAX_PLAN_ID && ComponentOrder.Order(plan.components).Done?
    requires var ordered := ComponentOrder.Order(plan.components).walk.ordered;
             StagedUpTo(files, ordered, receipts, |ordered|, g)
    ensures Assemblable(files, plan, g, receipts)
  {
  }

  lemma ManifestWillBeValid(files: Files, plan: Plan, g: GenerationId, now: nat, receipts: seq<Receipt>,
                            launchers: seq<Launchers.Launcher>)
    requires Assemblable(files, plan, g, receipts) && Launchers.NamesApart(launchers)
    ensures ManifestValid(Manifest(plan.id, g, plan.platform, plan.architecture, now, receipts, launchers))
  {
    hide WellFormed;
    var ordered := ComponentOrder.Order(plan.components).walk.ordered;
    OrderedIsPlanned(plan.components);
    ComponentOrder.OrderIsPermutation(plan.components);
    assert |multiset(ordered)| == |ordered| && |multiset(plan.components)| == |plan.components|;
    forall i | 0 <= i < |receipts|
      ensures receipts[i].component == ordered[i].id && receipts[i].generation == g && WellFormed(receipts[i])
    {
      assert InPlace(files, g, ordered[i], receipts[i]);
    }
  }

  lemma InvMeansLive(files: Files)
    requires Inv(files)
    ensures Live(files)
  {
  }

  /** An Apply that has done nothing meets the relation of a refusal. */
  lemma NothingDone(files: Files, history: seq<Files>, plan: Plan, now: nat)
    ensures ApplyRelation(files, files, plan, now, Refused)
    ensures LiveSince(history, history) && (Inv(files) ==> Live(files))
  {
  }

  /** What every applied plan turns out to have met. */
  lemma AppliedNeeds(before: Files, after: Files, plan: Plan, now: nat, o: Outcome)
    requires ApplyRelation(before, after, plan, now, o) && o.Applied?
    ensures ComponentOrder.Closed(ComponentOrder.ById(plan.components))
              && ComponentOrder.Acyclic(ComponentOrder.ById(plan.components))
    ensures 0 < |o.generation| <= MAX_PLAN_ID
  {
    ComponentOrder.OrderSucceedsExactly(plan.components);
  }

  /** What was ready in the generation before is ready still, and the manifest
      has it with the receipt it had. */
  ghost predicate Resumed(before: Files, after: Files, plan: Plan, g: GenerationId, receipts: seq<Receipt>) {
    && ComponentOrder.Order(plan.components).Done?
    && var ordered := ComponentOrder.Order(plan.components).walk.ordered;
       ReadyKept(before, after, ordered, g) && ReadyReused(before, ordered, receipts, |ordered|, g)
  }

  /** Every component to be staged was probed, and every probe succeeded in the end. */
  ghost predicate AllProbed(past: Answers, log: Answers, plan: Plan) {
    && ComponentOrder.Order(plan.components).Done?
    && forall c :: c in ComponentOrder.Order(plan.components).walk.ordered ==> Probed(past, log, c)
  }

  lemma ProbedFromFirst(heard: Answers, told: Answers, log: Answers, plan: Plan)
    requires heard <= told && AllProbed(told, log, plan)
    ensures AllProbed(heard, log, plan)
  {
    forall c | c in ComponentOrder.Order(plan.components).walk.ordered ensures Probed(heard, log, c) {
      ProbedWithin(heard, told, log, log, c);
    }
  }

  /** The ways building a generation stops, each with its reason. */
  ghost predicate BuildCause(step: Step, plan: Plan) {
    step.Broken? ==>
      && (step.cause.OrderingFailed? <==> !ComponentOrder.Order(plan.components).Done?)
      && (!Reports(step.cause) ==> !step.recorded)
      && (step.cause.OrderingFailed? || step.cause.ReceiptCheckFailed? || step.cause.StagingFailed?
          || step.cause.LaunchersNotPrepared? || step.cause.ManifestNotWritten?)
  }

  /** How building a generation answers to what it was told. */
  ghost predicate BuildTold(before: Files, past: Answers, after: Files, log: Answers, plan: Plan, g: GenerationId,
                            healthy: bool, build: Build) {
    && past <= log
    && (match build
        case Built(receipts, _, _) =>
          && Unhindered(past, log) && AllProbed(past, log, plan)
          && (healthy && AllGranted(past, log) ==> Resumed(before, after, plan, g, receipts))
        case NotBuilt(step) =>
          && !step.Done? && (step.Cancelled? <==> CutOff(past, log)) && (step.Cancelled? ==> NothingLost(before, after))
          && (healthy ==> Noted(after, plan.id, g, step)) && BuildCause(step, plan))
  }

  lemma OrderingTold(b: Files, log: Answers, plan: Plan, g: GenerationId, now: nat, healthy: bool)
    requires !ComponentOrder.Order(plan.components).Done?
    ensures RecordAfter(b, b, Broken(OrderingFailed, false), plan.id, g, now)
    ensures BuildTold(b, log, b, log, plan, g, healthy, NotBuilt(Broken(OrderingFailed, false)))
  {
  }

  lemma StoppedTold(b: Files, past: Answers, a: Files, log: Answers, plan: Plan, g: GenerationId, healthy: bool,
                    ordered: seq<ComponentPlan>, staged: StagedAll)
    requires ComponentOrder.Order(plan.components).Done? && staged.Stopped? && !staged.step.Done?
    requires StagingTold(b, past, a, log, plan.id, ordered, g, healthy, staged)
    requires staged.step.Broken? ==>
               staged.step.cause.StagingFailed? || (staged.step.cause.ReceiptCheckFailed? && !staged.step.recorded)
    ensures BuildTold(b, past, a, log, plan, g, healthy, NotBuilt(staged.step))
  {
    hide Unhindered, CutOff, NothingLost, Noted;
  }

  lemma AssembledTold(b: Files, past: Answers, f: Files, a: Files, log: Answers, plan: Plan, g: GenerationId,
                      healthy: bool, receipts: seq<Receipt>, build: Build)
    requires ComponentOrder.Order(plan.components).Done?
    requires var ordered := ComponentOrder.Order(plan.components).walk.ordered;
             StagingTold(b, past, f, log, plan.id, ordered, g, healthy, AllStaged(receipts))
    requires build.Built? ==> build.receipts == receipts && SameBut(f, a, {ManifestPath(g)}) && ManifestPath(g) in a
    requires build.NotBuilt? ==> AssemblyStopped(build.step) && (healthy ==> Noted(a, plan.id, g, build.step))
    ensures BuildTold(b, past, a, log, plan, g, healthy, build)
  {
    var ordered := ComponentOrder.Order(plan.components).walk.ordered;
    NotStopped(past, log);
    hide Unhindered, CutOff, Noted, ReadyKept, ReadyReused, Probed;
    if build.Built? {
      ReadyFramed(f, a, {ManifestPath(g)}, ordered, g);
      if ReadyKept(b, f, ordered, g) { ReadyKeptTransitive(b, f, a, ordered, g); }
    }
  }

  ghost predicate AssemblyStopped(step: Step) {
    step.Broken? && (step.cause.LaunchersNotPrepared? || step.cause.ManifestNotWritten?)
  }

  lemma ResumedAfterSwitch(f: Files, m: Files, a: Files, plan: Plan, g: GenerationId, receipts: seq<Receipt>)
    requires Resumed(f, m, plan, g, receipts) && SameBut(m, a, POINTERS + {OperationPath(plan.id)})
    ensures Resumed(f, a, plan, g, receipts)
  {
    var ordered := ComponentOrder.Order(plan.components).walk.ordered;
    ReadyFramed(m, a, POINTERS + {OperationPath(plan.id)}, ordered, g);
    ReadyKeptTransitive(f, m, a, ordered, g);
  }

  /** How an Apply answers to what it was told: it keeps its staging exactly when
      it was cancelled, and loses nothing then; it completes only if nothing but
      what it makes up for was refused; on a working disk it leaves no damage. */
  ghost predicate ApplyTold(before: Files, past: Answers, after: Files, log: Answers, plan: Plan, healthy: bool,
                            o: Outcome) {
    && past <= log
    && (o.Suspended? <==> CutOff(past, log))
    && (o.Suspended? ==>
          NothingLost(before, after) && (healthy ==> Recorded(after, plan.id, o.generation, {Interrupted})))
    && (o.Applied? ==> Unhindered(past, log) && AllProbed(past, log, plan))
    && (o.Applied? && healthy && AllGranted(past, log) ==> Resumed(before, after, plan, o.generation, o.receipts))
    && (o.Broke? ==> BrokeCause(o, plan))
    && (healthy ==> Undamaged(o))
  }

  /** The same with the status record, the directory and one answer in front. */
  lemma ToldFromBefore(b: Files, heard: Answers, f: Files, told: Answers, a: Files, log: Answers, plan: Plan,
                       healthy: bool, o: Outcome, g: GenerationId)
    requires heard <= told && |told| == |heard| + 1
    requires !told[|heard|].question.Ongoing? && told[|heard|].reply.Granted?
    requires ApplyTold(f, told, a, log, plan, healthy, o) && (!o.Refused? ==> o.generation == g)
    requires SameBut(b, f, {OperationPath(plan.id), GenerationDir(g)}) && GenerationDir(g) in f
    requires NothingLost(b, f)
    ensures ApplyTold(b, heard, a, log, plan, healthy, o)
  {
    FromFirstAnswer(heard, told, log);
    if AllProbed(told, log, plan) { ProbedFromFirst(heard, told, log, plan); }
    hide Unhindered, CutOff, AllGranted, Undamaged, Recorded, AllProbed;
    if o.Suspended? { NothingLostTransitive(b, f, a); }
    if o.Applied? && Resumed(f, a, plan, g, o.receipts) { ResumedFromBefore(b, f, a, plan, g, o.receipts); }
  }

  lemma ResumedFromBefore(b: Files, f: Files, a: Files, plan: Plan, g: GenerationId, receipts: seq<Receipt>)
    requires Resumed(f, a, plan, g, receipts) && SameBut(b, f, {OperationPath(plan.id), GenerationDir(g)})
    requires GenerationDir(g) in f
    ensures Resumed(b, a, plan, g, receipts)
  {
    var ordered := ComponentOrder.Order(plan.components).walk.ordered;
    ReadyFramed(b, f, {OperationPath(plan.id), GenerationDir(g)}, ordered, g);
    ReadyKeptTransitive(b, f, a, ordered, g);
    ReadyReusedFrom(b, f, ordered, receipts, g);
  }

  lemma ToldFromFirst(b: Files, heard: Answers, told: Answers, a: Files, log: Answers, plan: Plan, healthy: bool,
                      o: Outcome)
    requires heard <= told && |told| == |heard| + 1
    requires !told[|heard|].question.Ongoing? && told[|heard|].reply.Granted?
    requires ApplyTold(b, told, a, log, plan, healthy, o)
    ensures ApplyTold(b, heard, a, log, plan, healthy, o)
  {
    FromFirstAnswer(heard, told, log);
    if AllProbed(told, log, plan) { ProbedFromFirst(heard, told, log, plan); }
    hide Unhindered, CutOff, AllGranted, Undamaged, Recorded, Resumed, NothingLost, BrokeCause, AllProbed;
  }

  lemma RefusalTold(b: Files, past: Answers, a: Files, log: Answers, plan: Plan, healthy: bool)
    requires past <= log
    requires forall i :: |past| <= i < |log| ==> log[i].question.Directories? || log[i].question.Entering?
    ensures ApplyTold(b, past, a, log, plan, healthy, Refused)
  {
  }

  lemma CleanupTold(b: Files, past: Answers, f: Files, a: Files, log: Answers, plan: Plan, healthy: bool, o: Outcome,
                    removed: bool)
    requires ApplyTold(b, past, f, log, plan, healthy, o) && (o.Broke? || o.StatusLost?)
    ensures ApplyTold(b, past, a, log, plan, healthy, o.(removed := removed))
  {
  }

  lemma StopTold(f: Files, past: Answers, m: Files, log: Answers, plan: Plan, g: GenerationId, now: nat, healthy: bool,
                 step: Step, resumption: Resumption)
    requires !step.Done? && BuildTold(f, past, m, log, plan, g, healthy, NotBuilt(step))
    requires Recorded(f, plan.id, g, {Staging}) && RecordAfter(f, m, step, plan.id, g, now)
    ensures ApplyTold(f, past, m, log, plan, healthy, StoppedOutcome(step, g, resumption))
  {
    StoppedMeans(f, m, plan, g, now, step);
    hide Unhindered, CutOff, AllGranted, Resumed, NothingLost, RecordAfter, Recorded, Noted;
  }

  lemma BuiltTold(f: Files, past: Answers, m: Files, a: Files, log: Answers, plan: Plan, g: GenerationId,
                  healthy: bool, build: Build, o: Outcome)
    requires build.Built? && BuildTold(f, past, m, log, plan, g, healthy, build)
    requires SameBut(m, a, POINTERS + {OperationPath(plan.id)})
    requires o.Broke? || o.StatusLost? || (o.Applied? && o.receipts == build.receipts && o.generation == g)
    requires o.Broke? ==> BrokeCause(o, plan)
    requires healthy ==> Undamaged(o)
    ensures ApplyTold(f, past, a, log, plan, healthy, o)
  {
    NotStopped(past, log);
    if Resumed(f, m, plan, g, build.receipts) { ResumedAfterSwitch(f, m, a, plan, g, build.receipts); }
  }

  lemma ToldGrew(f: Files, past: Answers, m: Files, log: Answers, plan: Plan, g: GenerationId, healthy: bool,
                 build: Build)
    requires BuildTold(f, past, m, log, plan, g, healthy, build)
    ensures past <= log && (build.NotBuilt? ==> !build.step.Done? && BuildCause(build.step, plan))
  {
  }

  /** A generation built from the files before, with everything the switch needs. */
  ghost predicate BuiltFrom(b: Files, past: seq<Files>, m: Files, between: seq<Files>, plan: Plan, g: GenerationId,
                            now: nat, resumption: Resumption, build: Build) {
    && build.Built? && ResumptionTold(b, plan.id, g, resumption)
    && SameOutside(b, m, plan.id, g) && Recorded(m, plan.id, g, {Staging}) && GenerationDir(g) in m
    && ManifestFor(m, plan, g, now, build.receipts, build.launchers)
    && ReceiptsKept(b, m, plan.components, g) && KeptSince(b, past, m, between, plan.components, g)
    && Ends(past, between, m) && ComponentOrder.Order(plan.components).Done?
    && var ordered := ComponentOrder.Order(plan.components).walk.ordered;
       && StagedUpTo(m, ordered, build.receipts, |ordered|, g)
       && (ReceiptsAgree(b, plan.components, g) ==> ReceiptsExpected(ordered, build.receipts, |ordered|, g))
  }

  lemma BuiltAssembles(b: Files, past: seq<Files>, f: Files, h: seq<Files>, m: Files, between: seq<Files>, plan: Plan,
                       g: GenerationId, now: nat, resumption: Resumption, build: Build)
    requires build.Built? && Entered(b, past, f, h, plan, g, resumption)
    requires SameOutside(b, m, plan.id, g) && SameAt(f, m, GenerationDir(g)) && SameAt(f, m, OperationPath(plan.id))
    requires ManifestFor(m, plan, g, now, build.receipts, build.launchers)
    requires ReceiptsKept(b, m, plan.components, g) && KeptSince(b, past, m, between, plan.components, g)
    requires Ends(h, between, m) && ComponentOrder.Order(plan.components).Done?
    requires var ordered := ComponentOrder.Order(plan.components).walk.ordered;
             && StagedUpTo(m, ordered, build.receipts, |ordered|, g)
             && (ReceiptsAgree(f, plan.components, g) ==> ReceiptsExpected(ordered, build.receipts, |ordered|, g))
    ensures BuiltFrom(b, past, m, between, plan, g, now, resumption, build)
  {
    hide SameOutside, ManifestFor, KeptSince, StagedUpTo, ReceiptsAgree, ReceiptsExpected, OnlyPlannedReceipts;
  }

  lemma StoppedMeans(f: Files, m: Files, plan: Plan, g: GenerationId, now: nat, step: Step)
    requires Recorded(f, plan.id, g, {Staging}) && RecordAfter(f, m, step, plan.id, g, now) && BuildCause(step, plan)
    ensures step.Cancelled? && Noted(m, plan.id, g, step) ==> Recorded(m, plan.id, g, {Interrupted})
    ensures step.Broken? ==> BrokeCause(Broke(g, step.cause, step.recorded, true, true, false), plan)
    ensures step.Broken? && Noted(m, plan.id, g, step) ==>
              Undamaged(Broke(g, step.cause, step.recorded, true, true, false))
  {
  }

  lemma NothingAsked(log: Answers)
    ensures AllGranted(log, log)
  {
  }

  lemma OneAnswer(past: Answers, log: Answers, a: Answer<Question>)
    requires log == past + [a]
    ensures AllGranted(past, log) <==> a.reply.Granted?
  {
    assert log[|log| - 1] == a;
  }

  /** One granted answer in front of the others. */
  lemma FromFirstAnswer(heard: Answers, told: Answers, log: Answers)
    requires heard <= told <= log && |told| == |heard| + 1
    requires !told[|heard|].question.Ongoing? && told[|heard|].reply.Granted?
    ensures heard <= log && (Unhindered(told, log) ==> Unhindered(heard, log))
    ensures CutOff(heard, log) <==> CutOff(told, log)
    ensures AllGranted(heard, log) <==> AllGranted(told, log)
  {
  }

  lemma NotStopped(past: Answers, log: Answers)
    requires Unhindered(past, log)
    ensures !CutOff(past, log)
  {
  }

  /** The causes of a failure, with the reasons that can be told from outside. */
  ghost predicate BrokeCause(o: Outcome, plan: Plan)
    requires o.Broke?
  {
    && (o.cause.OrderingFailed? <==> !ComponentOrder.Order(plan.components).Done?)
    && (!Reports(o.cause) ==> !o.recorded)
  }

  /** What a working disk leaves of a failure: it is recorded if its cause is one
      that is, both pointers are back, and it was not the pointers' fault. */
  ghost predicate Undamaged(o: Outcome) {
    && !o.StatusLost?
    && (o.Broke? ==>
          && (o.recorded <==> Reports(o.cause)) && o.restored
          && !o.cause.PointersUnreadable? && !o.cause.ActivationFailed?)
  }

  class Manager {
    const disk: RuntimeDisk
    const world: RuntimeWorld
    const launcherDisk: Launchers.LauncherDisk
    const enableLaunchers: bool
    const hasInstaller: bool

    /** launcherSpecsForReceipts: the executables found behind the receipts, or
        none where one is missing. */
    const specsOf: seq<Receipt> -> Option<seq<Launchers.Spec>>

    constructor (disk: RuntimeDisk, world: RuntimeWorld, launcherDisk: Launchers.LauncherDisk, enableLaunchers: bool,
                 hasInstaller: bool, specsOf: seq<Receipt> -> Option<seq<Launchers.Spec>>)
      ensures this.disk == disk && this.world == world && this.launcherDisk == launcherDisk
      ensures this.enableLaunchers == enableLaunchers && this.hasInstaller == hasInstaller && this.specsOf == specsOf
    {
      this.disk, this.world, this.launcherDisk := disk, world, launcherDisk;
      this.enableLaunchers, this.hasInstaller, this.specsOf := enableLaunchers, hasInstaller, specsOf;
    }

    /** The launchers of these receipts can be prepared. */
    ghost predicate Launchable(directory: Launchers.Directory, receipts: seq<Receipt>) {
      enableLaunchers ==> specsOf(receipts).Some? && Launchers.Preparable(directory, specsOf(receipts).value)
    }

    /** So can those of whatever receipts the plan will be given. */
    ghost predicate LaunchersReady(directory: Launchers.Directory, plan: Plan, g: GenerationId) {
      ComponentOrder.Order(plan.components).Done? ==>
        var ordered := ComponentOrder.Order(plan.components).walk.ordered;
        forall receipts :: ReceiptsExpected(ordered, receipts, |ordered|, g) ==> Launchable(directory, receipts)
    }

    /** There is an installer for every component that needs one. */
    ghost predicate Installable(plan: Plan) {
      hasInstaller || forall c :: c in plan.components ==> c.installMethod == Archive
    }

    /** No disk call fails. */
    ghost predicate Untroubled() { disk.healthy && launcherDisk.healthy }

    /** Records the failure; the result says whether that worked. */
    method Fail(planId: string, g: GenerationId, now: nat, cause: Cause) returns (step: Step)
      modifies disk
      ensures Quiet(old(disk.files), old(disk.history), disk.files, disk.history, planId, g)
      ensures disk.refused >= old(disk.refused)
      ensures SameBut(old(disk.files), disk.files, {OperationPath(planId)})
      ensures Still(old(disk.files), old(disk.history), disk.files, disk.history)
      ensures step.Broken? && step.cause == cause && (disk.healthy ==> step.recorded)
      ensures disk.refused == if step.recorded then old(disk.refused) else old(disk.refused) + 1
      ensures RecordAfter(old(disk.files), disk.files, step, planId, g, now)
    {
      var noted := WriteOperation(disk, planId, g, Failed, now);
      return Broken(cause, noted);
    }

    /** launcherSpecsForReceipts and PrepareLaunchers. */
    method PrepareTransaction(receipts: seq<Receipt>)
      returns (ok: bool, launchers: seq<Launchers.Launcher>, transaction: Option<Launchers.LauncherTransaction>)
      ensures !enableLaunchers ==> ok && transaction.None? && launchers == []
      ensures ok ==> (transaction.Some? <==> enableLaunchers)
      ensures ok && transaction.Some? ==>
                fresh(transaction.value) && Launchers.PreparedFor(transaction.value, launcherDisk, launchers)
      ensures ok ==> Launchers.NamesApart(launchers)
      ensures launcherDisk.healthy ==> (ok <==> Launchable(launcherDisk.files, receipts))
    {
      ok, launchers, transaction := true, [], None;
      if !enableLaunchers { return; }
      var specs := specsOf(receipts);
      if specs.None? { ok := false; return; }
      var preparation := Launchers.PrepareLaunchers(launcherDisk, specs.value);
      if preparation.Refused? { ok := false; return; }
      launchers, transaction := preparation.launchers, Some(preparation.transaction);
    }

    /** writeGenerationManifest: nothing is written that would not validate. */
    method WriteManifest(plan: Plan, g: GenerationId, now: nat, receipts: seq<Receipt>,
                         launchers: seq<Launchers.Launcher>)
      returns (written: bool)
      modifies disk
      ensures Quiet(old(disk.files), old(disk.history), disk.files, disk.history, plan.id, g)
      ensures disk.refused >= old(disk.refused) && (written ==> disk.refused == old(disk.refused))
      ensures Still(old(disk.files), old(disk.history), disk.files, disk.history)
      ensures written ==> Ends(old(disk.history), disk.history, disk.files)
      ensures written ==>
                && ManifestFor(disk.files, plan, g, now, receipts, launchers)
                && disk.files == old(disk.files)[ManifestPath(g) := disk.files[ManifestPath(g)]]
      ensures !written ==> disk.files == old(disk.files)
      ensures var manifest := Manifest(plan.id, g, plan.platform, plan.architecture, now, receipts, launchers);
              disk.healthy && ManifestValid(manifest) ==> written
    {
      var manifest := Manifest(plan.id, g, plan.platform, plan.architecture, now, receipts, launchers);
      QuietRefl(disk.files, disk.history, plan.id, g);
      if !ManifestValid(manifest) { return false; }
      written := ScratchWrite(disk, ManifestPath(g), ManifestDoc(manifest), plan.id, g);
    }

    /** Prepare launchers for the staged receipts and write the manifest. */
    method Assemble(plan: Plan, g: GenerationId, now: nat, receipts: seq<Receipt>) returns (result: Build)
      modifies disk
      ensures Quiet(old(disk.files), old(disk.history), disk.files, disk.history, plan.id, g)
      ensures disk.refused >= old(disk.refused) && (result.Built? ==> disk.refused == old(disk.refused))
      ensures SameAt(old(disk.files), disk.files, GenerationDir(g))
                && ReceiptsKept(old(disk.files), disk.files, plan.components, g)
      ensures KeptSince(old(disk.files), old(disk.history), disk.files, disk.history, plan.components, g)
      ensures result.Built? ==> Ends(old(disk.history), disk.history, disk.files)
      ensures result.NotBuilt? ==> RecordAfter(old(disk.files), disk.files, result.step, plan.id, g, now)
      ensures result.NotBuilt? ==> AssemblyStopped(result.step)
      ensures result.NotBuilt? ==> Unrecorded(result.step) <= disk.refused - old(disk.refused)
      ensures result.NotBuilt? && disk.healthy ==> Noted(disk.files, plan.id, g, result.step)
      ensures result.Built? ==>
                && result.receipts == receipts && ManifestFor(disk.files, plan, g, now, receipts, result.launchers)
                && disk.files == old(disk.files)[ManifestPath(g) := disk.files[ManifestPath(g)]]
      ensures result.Built? ==>
                (result.transaction.Some? <==> enableLaunchers) && (!enableLaunchers ==> result.launchers == [])
      ensures result.Built? && result.transaction.Some? ==>
                fresh(result.transaction.value)
                    && Launchers.PreparedFor(result.transaction.value, launcherDisk, result.launchers)
      ensures Untroubled() && Assemblable(old(disk.files), plan, g, receipts) ==>
                if Launchable(launcherDisk.files, receipts) then result.Built?
                    else result == NotBuilt(Broken(LaunchersNotPrepared, true))
    {
      hide Launchable, Quiet, ReceiptsKept, Launchers.PreparedFor, ManifestFor, ManifestValid, Assemblable,
           Launchers.NamesApart, KeptSince, Still;
      ghost var f, h := disk.files, disk.history;
      QuietRefl(f, h, plan.id, g);
      ReceiptsUntouched(f, f, plan.components, g);
      var ok, launchers, transaction := PrepareTransaction(receipts);
      if !ok {
        var step := Fail(plan.id, g, now, LaunchersNotPrepared);
        AfterFail(f, h, f, h, disk.files, disk.history, plan, g);
        StillIsKept(f, h, disk.files, disk.history, plan.components, g);
        return NotBuilt(step);
      }
      if Assemblable(f, plan, g, receipts) { ManifestWillBeValid(f, plan, g, now, receipts, launchers); }
      var written := WriteManifest(plan, g, now, receipts, launchers);
      ghost var tried := disk.history;
      if !written {
        var step := Fail(plan.id, g, now, ManifestNotWritten);
        AfterFail(f, h, f, tried, disk.files, disk.history, plan, g);
        StillTransitive(f, h, f, tried, disk.files, disk.history);
        StillIsKept(f, h, disk.files, disk.history, plan.components, g);
        return NotBuilt(step);
      }
      StillIsKept(f, h, disk.files, disk.history, plan.components, g);
      ReceiptsUntouched(f, disk.files, plan.components, g);
      return Built(receipts, launchers, transaction);
    }

    lemma ReadyIsLaunchable(directory: Launchers.Directory, plan: Plan, g: GenerationId, receipts: seq<Receipt>)
      requires LaunchersReady(directory, plan, g) && ComponentOrder.Order(plan.components).Done?
      requires var ordered := ComponentOrder.Order(plan.components).walk.ordered;
               ReceiptsExpected(ordered, receipts, |ordered|, g)
      ensures Launchable(directory, receipts)
    {
      hide ReceiptsExpected, Launchable;
    }

    /** Order the components and stage them. */
    method StagePlan(plan: Plan, g: GenerationId, now: nat) returns (staged: StagedAll)
      requires plan.Valid()
      modifies disk, world
      ensures Quiet(old(disk.files), old(disk.history), disk.files, disk.history, plan.id, g)
      ensures disk.refused >= old(disk.refused) && (staged.AllStaged? ==> disk.refused == old(disk.refused))
      ensures SameAt(old(disk.files), disk.files, GenerationDir(g))
                && SameAt(old(disk.files), disk.files, ManifestPath(g))
      ensures KeptSince(old(disk.files), old(disk.history), disk.files, disk.history, plan.components, g)
      ensures staged.Stopped? ==> Unrecorded(staged.step) <= disk.refused - old(disk.refused)
      ensures staged.Stopped? ==>
                && !staged.step.Done? && RecordAfter(old(disk.files), disk.files, staged.step, plan.id, g, now)
                && BuildTold(old(disk.files), old(world.log), disk.files, world.log, plan, g, disk.healthy,
                             NotBuilt(staged.step))
      ensures staged.AllStaged? ==>
                && ComponentOrder.Order(plan.components).Done?
                && SameAt(old(disk.files), disk.files, OperationPath(plan.id))
                && var ordered := ComponentOrder.Order(plan.components).walk.ordered;
                   && StagedUpTo(disk.files, ordered, staged.receipts, |ordered|, g)
                   && (ReceiptsAgree(old(disk.files), plan.components, g) ==>
                         ReceiptsExpected(ordered, staged.receipts, |ordered|, g))
                   && StagingTold(old(disk.files), old(world.log), disk.files, world.log, plan.id, ordered, g,
                                  disk.healthy, staged)
      ensures disk.healthy && AllGranted(old(world.log), world.log) && Applicable(old(disk.files), plan, g) ==>
                staged.AllStaged? && Assemblable(disk.files, plan, g, staged.receipts)
    {
      hide InPlace, Quiet, ReceiptsAgree, ReceiptsExpected, CacheGood, AllStageable, StagedUpTo, Applicable, KeptSince,
           StagingTold, BuildTold, AllGranted, Assemblable, RecordAfter;
      ghost var b, past := disk.files, disk.history;
      QuietRefl(b, past, plan.id, g);
      StillIsKept(b, past, b, past, plan.components, g);
      ghost var possible := Applicable(b, plan, g);
      if possible { ApplicableMeans(b, plan, g); }
      var order := ComponentOrder.OrderComponents(plan.components);
      if order.Failed? {
        OrderingTold(b, world.log, plan, g, now, disk.healthy);
        return Stopped(Broken(OrderingFailed, false));
      }
      var ordered := order.walk.ordered;
      OrderedIsPlanned(plan.components);
      staged := StageAll(disk, world, plan.id, plan.components, ordered, g, now);
      if staged.Stopped? {
        StoppedTold(b, old(world.log), disk.files, world.log, plan, g, disk.healthy, ordered, staged);
      } else if possible {
        StagedIsAssemblable(disk.files, plan, g, staged.receipts);
      }
    }

    /** Order, stage, prepare launchers, write the manifest: nothing outside the
        generation being built is touched. */
    method BuildGeneration(plan: Plan, g: GenerationId, now: nat) returns (result: Build)
      requires plan.Valid()
      modifies disk, world
      ensures Quiet(old(disk.files), old(disk.history), disk.files, disk.history, plan.id, g)
      ensures disk.refused >= old(disk.refused) && (result.Built? ==> disk.refused == old(disk.refused))
      ensures SameAt(old(disk.files), disk.files, GenerationDir(g))
      ensures result.NotBuilt? ==> RecordAfter(old(disk.files), disk.files, result.step, plan.id, g, now)
      ensures result.NotBuilt? ==> Unrecorded(result.step) <= disk.refused - old(disk.refused)
      ensures result.NotBuilt? && result.step.Cancelled? ==> SameAt(old(disk.files), disk.files, ManifestPath(g))
      ensures ReceiptsKept(old(disk.files), disk.files, plan.components, g)
      ensures KeptSince(old(disk.files), old(disk.history), disk.files, disk.history, plan.components, g)
      ensures result.Built? ==> Ends(old(disk.history), disk.history, disk.files)
      ensures result.Built? ==>
                && ComponentOrder.Order(plan.components).Done?
                && SameAt(old(disk.files), disk.files, OperationPath(plan.id))
                && ManifestFor(disk.files, plan, g, now, result.receipts, result.launchers)
                && var ordered := ComponentOrder.Order(plan.components).walk.ordered;
                   && StagedUpTo(disk.files, ordered, result.receipts, |ordered|, g)
                   && (ReceiptsAgree(old(disk.files), plan.components, g) ==>
                         ReceiptsExpected(ordered, result.receipts, |ordered|, g))
      ensures result.Built? ==>
                (result.transaction.Some? <==> enableLaunchers) && (!enableLaunchers ==> result.launchers == [])
      ensures result.Built? && result.transaction.Some? ==>
                fresh(result.transaction.value)
                    && Launchers.PreparedFor(result.transaction.value, launcherDisk, result.launchers)
      ensures BuildTold(old(disk.files), old(world.log), disk.files, world.log, plan, g, disk.healthy, result)
      ensures Untroubled() && AllGranted(old(world.log), world.log) && Applicable(old(disk.files), plan, g)
              && LaunchersReady(launcherDisk.files, plan, g) ==>
                result.Built?
    {
      hide InPlace, Quiet, ReceiptsAgree, ReceiptsKept, ReceiptsExpected, Launchers.PreparedFor, ManifestFor, CacheGood,
           AllStageable, ManifestValid, StagedUpTo, Applicable, Launchers.NamesApart, KeptSince, LaunchersReady,
           Launchable, StagingTold, BuildTold, AllGranted, RecordAfter, Assemblable;
      ghost var b, past := disk.files, disk.history;
      var staged := StagePlan(plan, g, now);
      ghost var f, h, told := disk.files, disk.history, world.log;
      KeptMeans(b, past, f, h, plan.components, g);
      if staged.Stopped? { return NotBuilt(staged.step); }
      ghost var ordered := ComponentOrder.Order(plan.components).walk.ordered;
      if Applicable(b, plan, g) && LaunchersReady(launcherDisk.files, plan, g) {
        ApplicableMeans(b, plan, g);
        if ReceiptsExpected(ordered, staged.receipts, |ordered|, g) {
          ReadyIsLaunchable(launcherDisk.files, plan, g, staged.receipts);
        }
      }
      result := Assemble(plan, g, now, staged.receipts);
      AssembledTold(b, old(world.log), f, disk.files, told, plan, g, disk.healthy, staged.receipts, result);
      QuietTransitive(b, past, f, h, disk.files, disk.history, plan.id, g);
      ReceiptsKeptTransitive(b, f, disk.files, plan.components, g);
      KeptSinceTransitive(b, past, f, h, disk.files, disk.history, plan.components, g);
      if result.NotBuilt? { RecordFromBefore(b, f, disk.files, result.step, plan.id, g, now); }
      if result.Built? { StagedSurvivesManifest(f, disk.files[ManifestPath(g)], ordered, staged.receipts, g); }
    }

    /** Writes the launchers of an activated generation, or puts them back.  The
        source's own Rollback call after a failed Apply finds nothing left to
        undo: Apply has already reset `applied`. */
    method WriteLaunchers(transaction: Option<Launchers.LauncherTransaction>, ghost launchers: seq<Launchers.Launcher>)
      returns (ok: bool, launchersBack: bool)
      requires transaction.Some? ==> Launchers.PreparedFor(transaction.value, launcherDisk, launchers)
      modifies launcherDisk, if transaction.Some? then {transaction.value} else {}
      ensures ok ==> LaunchersWritten(transaction.Some?, old(launcherDisk.files), launcherDisk.files, launchers)
      ensures !ok && launchersBack ==> launcherDisk.files == old(launcherDisk.files)
      ensures Launchers.OnlyMarkedChanged(old(launcherDisk.files), launcherDisk.files)
      ensures launcherDisk.healthy ==> ok
    {
      hide Launchers.InstalledFrom;
      if transaction.None? { return true, false; }
      ghost var base, changes, desired := launcherDisk.files, transaction.value.changes, transaction.value.desired;
      var applied := transaction.value.Apply(launcherDisk);
      if applied.Applied? {
        ghost var specs :| Launchers.Planned(base, specs, launchers, desired);
        Launchers.InstalledEverywhere(base, specs, launchers, changes, desired);
        transaction.value.Commit();
        return true, false;
      }
      var undone := transaction.value.Rollback(launcherDisk);
      return false, applied.WriteFailed? && applied.rolledBack;
    }

    /** Read both pointers, switch them, write the launchers; on a launcher
        failure put both pointers back. */
    method SwitchGeneration(plan: Plan, g: GenerationId, now: nat, transaction: Option<Launchers.LauncherTransaction>,
                            ghost launchers: seq<Launchers.Launcher>)
      returns (result: Switch)
      requires transaction.Some? ==> Launchers.PreparedFor(transaction.value, launcherDisk, launchers)
      modifies disk, launcherDisk, if transaction.Some? then {transaction.value} else {}
      ensures SameBut(old(disk.files), disk.files, POINTERS + {OperationPath(plan.id)})
      ensures Grew(old(disk.history), disk.history)
      ensures Still(old(disk.files), old(disk.history), disk.files, disk.history)
      ensures result.Switched? ==> Ends(old(disk.history), disk.history, disk.files)
      ensures result.Switched? ==>
                SwitchedTo(old(disk.files), disk.files, plan.id, g, now)
                    && SameAt(old(disk.files), disk.files, OperationPath(plan.id))
      ensures result.Switched? ==>
                LaunchersWritten(transaction.Some?, old(launcherDisk.files), launcherDisk.files, launchers)
      ensures result.NotSwitched? ==>
                RecordAfter(old(disk.files), disk.files, Broken(result.cause, result.recorded), plan.id, g, now)
      ensures result.NotSwitched? && result.restored ==> PointersAsFound(old(disk.files), disk.files)
      ensures result.NotSwitched? && !result.restored ==>
                PointersAsFound(old(disk.files), disk.files) || SwitchedTo(old(disk.files), disk.files, plan.id, g, now)
      ensures result.NotSwitched? && result.cause != LaunchersNotWritten ==> result.restored && result.launchersBack
      ensures result.NotSwitched? && result.launchersBack ==> launcherDisk.files == old(launcherDisk.files)
      ensures Launchers.OnlyMarkedChanged(old(launcherDisk.files), launcherDisk.files)
      ensures old(Live(disk.files) && Backed(disk.files, Pointer(plan.id, g, now))) ==>
                LiveSince(old(disk.history), disk.history) && Live(disk.files)
      ensures disk.refused >= old(disk.refused) && (result.Switched? ==> disk.refused == old(disk.refused))
      ensures result.NotSwitched? ==> SwitchDamage(result) <= disk.refused - old(disk.refused)
      ensures disk.healthy ==>
                result.Switched? || (result.cause == LaunchersNotWritten && result.recorded && result.restored)
      ensures disk.healthy && launcherDisk.healthy ==> result.Switched?
      ensures result.NotSwitched? ==>
                result.cause.PointersUnreadable? || result.cause.ActivationFailed? || result.cause.LaunchersNotWritten?
    {
      hide Launchers.PreparedFor, Launchers.OnlyMarkedChanged, LaunchersWritten, RecordAfter, SwitchedTo, Backed,
           PointersAsFound, LiveSince, Still;
      ghost var b, past := disk.files, disk.history;
      NothingStirred(b, past);
      ghost var safe := Live(b) && Backed(b, Pointer(plan.id, g, now));
      Launchers.OnlyMarkedChangedRefl(launcherDisk.files);
      var current := disk.Inspect(CurrentPath);
      var previous := disk.Inspect(PreviousPath);
      if current.Unreadable? || previous.Unreadable? {
        result := Conclude(plan, g, now, PointersUnreadable, true, true);
        return;
      }
      var activated := Activate(disk, plan.id, g, now);
      ghost var m, between := disk.files, disk.history;
      SameButWider(b, m, POINTERS, POINTERS + {OperationPath(plan.id)});
      SameButAt(b, m, POINTERS, OperationPath(plan.id));
      if !activated {
        result := Conclude(plan, g, now, ActivationFailed, true, true);
        StillTransitive(b, past, m, between, disk.files, disk.history);
        if safe { LiveSinceTransitive(past, between, disk.history); }
        return;
      }
      var ok, launchersBack := WriteLaunchers(transaction, launchers);
      if ok { return Switched; }
      result := UndoSwitch(plan, g, now, Seen(current), Seen(previous), launchersBack, b, past);
    }

    /** Puts the pointers found in b back and records the failure. */
    method UndoSwitch(plan: Plan, g: GenerationId, now: nat, current: Option<Document>, previous: Option<Document>,
                      launchersBack: bool, ghost b: Files, ghost past: seq<Files>)
      returns (result: Switch)
      requires SwitchedTo(b, disk.files, plan.id, g, now) && SameBut(b, disk.files, POINTERS)
      requires current == At(b, CurrentPath) && previous == At(b, PreviousPath)
      requires Still(b, past, disk.files, disk.history)
      modifies disk
      ensures result.NotSwitched? && result.cause == LaunchersNotWritten && result.launchersBack == launchersBack
      ensures SameBut(b, disk.files, POINTERS + {OperationPath(plan.id)})
      ensures Grew(past, disk.history) && Still(b, past, disk.files, disk.history)
      ensures RecordAfter(b, disk.files, Broken(LaunchersNotWritten, result.recorded), plan.id, g, now)
      ensures result.restored ==> PointersAsFound(b, disk.files)
      ensures !result.restored ==> PointersAsFound(b, disk.files) || SwitchedTo(b, disk.files, plan.id, g, now)
      ensures Live(b) && old(Live(disk.files) && LiveSince(past, disk.history)) ==>
                LiveSince(past, disk.history) && Live(disk.files)
      ensures disk.healthy ==> result.restored && result.recorded
      ensures SwitchDamage(result) <= disk.refused - old(disk.refused)
    {
      hide Backed, SwitchedTo, PointersAsFound, RecordAfter, Still, LiveSince;
      ghost var m, between := disk.files, disk.history;
      StillGrew(b, past, m, between);
      if Live(b) && CurrentPath in b { BackedButPointers(b, m, b[CurrentPath].pointer); }
      SameButAt(b, m, POINTERS, OperationPath(plan.id));
      var restored := RestorePointers(disk, current, previous);
      ghost var r, later := disk.files, disk.history;
      SameButTransitive(b, m, r, POINTERS);
      SameButAt(b, r, POINTERS, OperationPath(plan.id));
      StillTransitive(b, past, m, between, r, later);
      if restored { RestoredAsFound(b, r); } else { HalfRestored(b, m, r, plan.id, g, now); }
      result := Conclude(plan, g, now, LaunchersNotWritten, restored, launchersBack);
      SameButWider(b, r, POINTERS, POINTERS + {OperationPath(plan.id)});
      SameButTransitive(b, r, disk.files, POINTERS + {OperationPath(plan.id)});
      StillTransitive(b, past, r, later, disk.files, disk.history);
      if !restored && SwitchedTo(b, r, plan.id, g, now) { StaysSwitched(b, r, disk.files, plan.id, g, now); }
      if Live(b) && Live(m) && LiveSince(past, between) {
        LiveSinceTransitive(past, between, later);
        LiveSinceTransitive(past, later, disk.history);
      }
    }

    /** Records a failed switch; the pointers are already where they will stay. */
    method Conclude(plan: Plan, g: GenerationId, now: nat, cause: Cause, restored: bool, launchersBack: bool)
      returns (result: Switch)
      modifies disk
      ensures result.NotSwitched? && result.cause == cause && result.restored == restored
                && result.launchersBack == launchersBack
      ensures SameBut(old(disk.files), disk.files, {OperationPath(plan.id)})
      ensures SameBut(old(disk.files), disk.files, POINTERS + {OperationPath(plan.id)})
      ensures SameAt(old(disk.files), disk.files, CurrentPath) && SameAt(old(disk.files), disk.files, PreviousPath)
      ensures PointersAsFound(old(disk.files), disk.files)
      ensures RecordAfter(old(disk.files), disk.files, Broken(cause, result.recorded), plan.id, g, now)
      ensures forall b :: PointersAsFound(b, old(disk.files)) ==> PointersAsFound(b, disk.files)
      ensures forall b: Files :: SameAt(b, old(disk.files), OperationPath(plan.id)) ==>
                RecordAfter(b, disk.files, Broken(cause, result.recorded), plan.id, g, now)
      ensures Grew(old(disk.history), disk.history)
      ensures Still(old(disk.files), old(disk.history), disk.files, disk.history)
      ensures old(Live(disk.files)) ==> LiveSince(old(disk.history), disk.history) && Live(disk.files)
      ensures disk.healthy ==> result.recorded
      ensures disk.refused == if result.recorded then old(disk.refused) else old(disk.refused) + 1
    {
      ghost var b := disk.files;
      var noted := disk.AtomicWriteFile(OperationPath(plan.id), OperationDoc(Operation(plan.id, g, Failed, now)));
      SameButWider(b, disk.files, {OperationPath(plan.id)}, POINTERS + {OperationPath(plan.id)});
      return NotSwitched(cause, noted, restored, launchersBack);
    }

    /** The deferred RemoveAll of a failed Apply. */
    method Cleanup(g: GenerationId, ghost planId: string) returns (removed: bool)
      modifies disk
      ensures Quiet(old(disk.files), old(disk.history), disk.files, disk.history, planId, g)
      ensures disk.refused >= old(disk.refused)
      ensures SameAt(old(disk.files), disk.files, OperationPath(planId))
      ensures Still(old(disk.files), old(disk.history), disk.files, disk.history)
      ensures removed ==> Gone(disk.files, g)
      ensures disk.healthy ==> removed
      ensures disk.refused == if removed then old(disk.refused) else old(disk.refused) + 1
      ensures forall p :: p in disk.files ==> SameAt(old(disk.files), disk.files, p)
    {
      ghost var f, h := disk.files, disk.history;
      var tree := set p | p in disk.files && Within(p, g);
      removed := disk.RemoveAll(tree);
      RemovalStaysWithin(f, disk.files, tree, planId, g);
      forall i | |h| <= i < |disk.history| ensures SameOutside(f, disk.history[i], planId, g) {
        RemovalStaysWithin(f, disk.history[i], tree, planId, g);
      }
      RemovalKeepsReceipts(f, disk.files, tree, g);
      forall i | |h| <= i < |disk.history| ensures SameReceipts(f, disk.history[i]) {
        RemovalKeepsReceipts(f, disk.history[i], tree, g);
      }
    }

    /** Switch to the generation just built and set the final status. */
    method SwitchOver(plan: Plan, g: GenerationId, now: nat, resumption: Resumption, build: Build, ghost b: Files,
                      ghost past: seq<Files>)
      returns (outcome: Outcome)
      requires BuiltFrom(b, past, disk.files, disk.history, plan, g, now, resumption, build)
      requires build.transaction.Some? ==> Launchers.PreparedFor(build.transaction.value, launcherDisk, build.launchers)
      modifies disk, launcherDisk, if build.transaction.Some? then {build.transaction.value} else {}
      ensures outcome.Broke? || outcome.StatusLost? || outcome.Applied?
      ensures outcome.generation == g && (outcome.Broke? || outcome.StatusLost? ==> !outcome.removed)
      ensures KeptSince(b, past, disk.files, disk.history, plan.components, g)
      ensures outcome.Applied? ==> Passed(b, past, disk.history, plan, now, outcome)
      ensures outcome.Broke? ==> BrokeRelation(b, disk.files, plan, now, outcome) && BrokeCause(outcome, plan)
      ensures outcome.StatusLost? ==>
                && ApplyFrame(b, disk.files, plan.id, g) && SwitchedTo(b, disk.files, plan.id, g, now)
                && Recorded(disk.files, plan.id, g, {Staging})
      ensures outcome.Applied? ==> AppliedRelation(b, disk.files, plan, now, outcome)
      ensures outcome.Applied? ==> outcome.receipts == build.receipts && outcome.launchers == build.launchers
      ensures outcome.Applied? ==>
                LaunchersWritten(build.transaction.Some?, old(launcherDisk.files), launcherDisk.files, build.launchers)
      ensures Launchers.OnlyMarkedChanged(old(launcherDisk.files), launcherDisk.files)
      ensures outcome.Broke? && outcome.launchersBack ==> launcherDisk.files == old(launcherDisk.files)
      ensures old(Live(disk.files)) ==> LiveSince(old(disk.history), disk.history) && Live(disk.files)
      ensures SameBut(old(disk.files), disk.files, POINTERS + {OperationPath(plan.id)})
      ensures disk.healthy ==> Undamaged(outcome)
      ensures Damage(outcome) <= disk.refused - old(disk.refused)
      ensures outcome.Applied? ==> disk.refused == old(disk.refused)
      ensures Untroubled() ==> outcome.Applied?
    {
      hide Launchers.OnlyMarkedChanged, Launchers.PreparedFor, LaunchersWritten, ReceiptsAgree, OnlyPlannedReceipts,
           ReceiptsExpected, ManifestFor, StagedUpTo, BrokeRelation, ApplyFrame, SwitchedTo, AppliedRelation,
           RecordAfter, Backed, PointersAsFound, SameOutside, KeptSince, Still, Passed, Live, LiveSince;
      ghost var m, between := disk.files, disk.history;
      BackedByManifest(m, plan, g, now, build.receipts, build.launchers);
      var switched := SwitchGeneration(plan, g, now, build.transaction, build.launchers);
      ghost var s, later := disk.files, disk.history;
      SwitchFrame(b, m, s, plan.id, g);
      StillIsKept(m, between, s, later, plan.components, g);
      KeptSinceTransitive(b, past, m, between, s, later, plan.components, g);
      if switched.NotSwitched? {
        ManifestStays(m, s, plan, g, now, build.receipts, build.launchers);
        UnswitchedAssembles(b, m, s, plan, g, now, switched);
        return Broke(g, switched.cause, switched.recorded, switched.restored, switched.launchersBack, false);
      }
      SwitchedFromBefore(b, m, s, plan.id, g, now);
      WindowAssembles(b, m, s, plan, g, now);
      AssembledAt(b, m, plan, g, now, build.receipts, build.launchers);
      outcome := Finish(plan, g, now, resumption, build, b, m);
      SameButWider(s, disk.files, {OperationPath(plan.id)}, POINTERS + {OperationPath(plan.id)});
      StillIsKept(s, later, disk.files, disk.history, plan.components, g);
      KeptMeans(s, later, disk.files, disk.history, plan.components, g);
      KeptSinceTransitive(b, past, s, later, disk.files, disk.history, plan.components, g);
      if outcome.Applied? { PassedBoth(b, past, m, between, s, later, disk.history, plan, now, outcome); }
      if Live(m) { LiveSinceTransitive(between, later, disk.history); }
    }

    /** From the created generation directory to the final status. */
    method ApplyInto(plan: Plan, g: GenerationId, now: nat, resumption: Resumption, ghost b: Files,
                     ghost past: seq<Files>)
      returns (outcome: Outcome)
      requires plan.Valid()
      requires Entered(b, past, disk.files, disk.history, plan, g, resumption)
      modifies disk, world, launcherDisk
      ensures outcome.Suspended? || outcome.Broke? || outcome.StatusLost? || outcome.Applied?
      ensures outcome.generation == g && (outcome.Broke? || outcome.StatusLost? ==> !outcome.removed)
      ensures KeptSince(b, past, disk.files, disk.history, plan.components, g)
      ensures outcome.Applied? ==> Passed(b, past, disk.history, plan, now, outcome)
      ensures outcome.Suspended? ==> SuspendedRelation(b, disk.files, plan, g) && outcome.resumption == resumption
      ensures outcome.Broke? ==> BrokeRelation(b, disk.files, plan, now, outcome)
      ensures outcome.StatusLost? ==>
                && ApplyFrame(b, disk.files, plan.id, g) && SwitchedTo(b, disk.files, plan.id, g, now)
                && Recorded(disk.files, plan.id, g, {Staging})
      ensures outcome.Applied? ==> AppliedRelation(b, disk.files, plan, now, outcome)
      ensures outcome.Applied? ==>
                LaunchersWritten(enableLaunchers, old(launcherDisk.files), launcherDisk.files, outcome.launchers)
      ensures outcome.Applied? && !enableLaunchers ==> outcome.launchers == []
      ensures Launchers.OnlyMarkedChanged(old(launcherDisk.files), launcherDisk.files)
      ensures outcome.Suspended? || (outcome.Broke? && outcome.launchersBack) ==>
                launcherDisk.files == old(launcherDisk.files)
      ensures Live(b) && !PointsAt(b, CurrentPath, g) ==> LiveSince(past, disk.history) && Live(disk.files)
      ensures old(world.log) <= world.log && Damage(outcome) <= disk.refused - old(disk.refused)
      ensures outcome.Applied? ==> disk.refused == old(disk.refused)
      ensures ApplyTold(old(disk.files), old(world.log), disk.files, world.log, plan, disk.healthy, outcome)
      ensures Untroubled() && AllGranted(old(world.log), world.log) && Applicable(old(disk.files), plan, g)
              && LaunchersReady(old(launcherDisk.files), plan, g) ==>
                outcome.Applied?
    {
      hide Launchers.OnlyMarkedChanged, Launchers.PreparedFor, LaunchersWritten, ReceiptsAgree, OnlyPlannedReceipts,
           ReceiptsExpected, ManifestFor, StagedUpTo, Quiet, SuspendedRelation, BrokeRelation, AppliedRelation,
           ApplyFrame, SwitchedTo, RecordAfter, PointsAt, SameOutside, Applicable, KeptSince, ReceiptsKept,
           LaunchersReady, Passed, ApplyTold, BuildTold, AllGranted, BuiltFrom, Live, LiveSince, Undamaged, BrokeCause;
      ghost var safe := Live(b) && !PointsAt(b, CurrentPath, g);
      ghost var f, h := disk.files, disk.history;
      ghost var heard := world.log;
      Launchers.OnlyMarkedChangedRefl(launcherDisk.files);
      var build := BuildGeneration(plan, g, now);
      ghost var m, between := disk.files, disk.history;
      QuietTransitive(b, past, f, h, m, between, plan.id, g);
      QuietEnds(b, past, f, h, plan.id, g);
      QuietEnds(b, past, m, between, plan.id, g);
      ReceiptsKeptTransitive(b, f, m, plan.components, g);
      KeptSinceTransitive(b, past, f, h, m, between, plan.components, g);
      if safe { QuietIsLive(b, past, m, between, plan.id, g); }
      ToldGrew(f, heard, m, world.log, plan, g, disk.healthy, build);
      if build.NotBuilt? {
        StopTold(f, heard, m, world.log, plan, g, now, disk.healthy, build.step, resumption);
        StoppedAssembles(b, f, m, plan, g, now, build.step);
        return StoppedOutcome(build.step, g, resumption);
      }
      BuiltAssembles(b, past, f, h, m, between, plan, g, now, resumption, build);
      outcome := SwitchOver(plan, g, now, resumption, build, b, past);
      BuiltTold(f, heard, m, disk.files, world.log, plan, g, disk.healthy, build, outcome);
      if safe { LiveSinceTransitive(past, between, disk.history); }
    }

    /** The final status write. */
    method Finish(plan: Plan, g: GenerationId, now: nat, resumption: Resumption, build: Build, ghost b: Files,
                  ghost m: Files)
      returns (outcome: Outcome)
      requires build.Built? && ResumptionTold(b, plan.id, g, resumption)
      requires SameOutside(b, m, plan.id, g) && ApplyFrame(b, disk.files, plan.id, g)
      requires SameBut(m, disk.files, POINTERS + {OperationPath(plan.id)}) && GenerationDir(g) in m
      requires Recorded(m, plan.id, g, {Staging}) && SameAt(m, disk.files, OperationPath(plan.id))
      requires SwitchedTo(m, disk.files, plan.id, g, now)
                && ManifestFor(m, plan, g, now, build.receipts, build.launchers)
      requires ComponentOrder.Order(plan.components).Done? && OnlyPlannedReceipts(b, m, plan.components, g)
      requires var ordered := ComponentOrder.Order(plan.components).walk.ordered;
               && StagedUpTo(m, ordered, build.receipts, |ordered|, g)
               && (ReceiptsAgree(b, plan.components, g) ==> ReceiptsExpected(ordered, build.receipts, |ordered|, g))
      modifies disk
      ensures disk.refused == if outcome.StatusLost? then old(disk.refused) + 1 else old(disk.refused)
      ensures outcome == StatusLost(g, false) || outcome == Applied(g, resumption, build.receipts, build.launchers)
      ensures SameBut(old(disk.files), disk.files, {OperationPath(plan.id)})
      ensures Still(old(disk.files), old(disk.history), disk.files, disk.history)
      ensures outcome.StatusLost? ==>
                && ApplyFrame(b, disk.files, plan.id, g) && SwitchedTo(b, disk.files, plan.id, g, now)
                && Recorded(disk.files, plan.id, g, {Staging})
      ensures outcome.Applied? ==> AppliedRelation(b, disk.files, plan, now, outcome)
      ensures old(Live(disk.files)) ==> LiveSince(old(disk.history), disk.history) && Live(disk.files)
      ensures disk.healthy ==> outcome.Applied?
    {
      hide ManifestFor, StagedUpTo, ReceiptsAgree, OnlyPlannedReceipts, ReceiptsExpected, ApplyFrame, SameOutside,
           SwitchedTo, Still;
      ghost var s := disk.files;
      NothingStirred(s, disk.history);
      StatusStirsNothing(s, disk.history, plan.id, OperationDoc(Operation(plan.id, g, Complete, now)));
      var noted := disk.AtomicWriteFile(OperationPath(plan.id), OperationDoc(Operation(plan.id, g, Complete, now)));
      SwitchedFromBefore(b, m, s, plan.id, g, now);
      if !noted { return StatusLost(g, false); }
      AppliedAssembles(b, m, s, plan, g, now, build.receipts, build.launchers);
      SameButAt(m, s, POINTERS + {OperationPath(plan.id)}, GenerationDir(g));
      SwitchKeepsReceipts(b, m, s, disk.files, plan, g);
      if Live(s) { LiveButStatus(s, plan.id, OperationDoc(Operation(plan.id, g, Complete, now))); }
      return Applied(g, resumption, build.receipts, build.launchers);
    }

    /** Manager.Apply. */
    method Apply(plan: Plan, now: nat) returns (outcome: Outcome, ghost stop: Stop)
      modifies disk, world, launcherDisk
      ensures ApplyRelation(old(disk.files), disk.files, plan, now, outcome)
      ensures stop.at == now && (!outcome.Refused? ==> stop.generation == outcome.generation)
      ensures Grew(old(disk.history), disk.history)
      ensures outcome.Applied? ==> Passed(old(disk.files), old(disk.history), disk.history, plan, now, outcome)
      ensures forall i :: |old(disk.history)| <= i < |disk.history| ==>
                (Resumable(disk.history[i], plan.id) == Some(stop.generation) ==>
                   StoppedRelation(old(disk.files), disk.history[i], plan, stop))
      ensures outcome.Applied? ==>
                LaunchersWritten(enableLaunchers, old(launcherDisk.files), launcherDisk.files, outcome.launchers)
      ensures outcome.Applied? && !enableLaunchers ==> outcome.launchers == []
      ensures Launchers.OnlyMarkedChanged(old(launcherDisk.files), launcherDisk.files)
      ensures outcome.Refused? || outcome.Suspended? || (outcome.Broke? && outcome.launchersBack) ==>
                launcherDisk.files == old(launcherDisk.files)
      ensures old(Inv(disk.files) && Fresh(disk.files, GenerationName(plan.id, now)))
              && !outcome.StatusLost? && (outcome.Broke? ==> outcome.restored) ==>
                LiveSince(old(disk.history), disk.history) && Live(disk.files)
      ensures ApplyTold(old(disk.files), old(world.log), disk.files, world.log, plan, disk.healthy, outcome)
      ensures disk.healthy && outcome.Broke? ==> outcome.removed && Gone(disk.files, outcome.generation)
      ensures outcome.Applied? ==> disk.refused == old(disk.refused)
      ensures outcome.Broke? || outcome.StatusLost? ==>
                Damage(outcome) + (if outcome.removed then 0 else 1) <= disk.refused - old(disk.refused)
      ensures !plan.Valid() || !Installable(plan) ==>
                outcome.Refused? && disk.files == old(disk.files) && world.log == old(world.log)
      ensures disk.healthy && outcome.Refused? && plan.Valid() && Installable(plan)
              && RecordReadable(old(disk.files), plan.id) ==>
                !AllGranted(old(world.log), world.log)
      ensures Untroubled() && AllGranted(old(world.log), world.log) && RecordReadable(old(disk.files), plan.id)
              && Installable(plan)
              && Applicable(old(disk.files), plan, ChosenName(old(disk.files), plan.id, now))
              && LaunchersReady(old(launcherDisk.files), plan, ChosenName(old(disk.files), plan.id, now)) ==>
                outcome.Applied?
    {
      hide Launchers.OnlyMarkedChanged, LaunchersWritten, SuspendedRelation, AppliedRelation, BrokeRelation, Applicable,
           Fresh, Inv, ApplyFrame, SwitchedTo, PointsAt, Live, Chosen, ResumptionTold, KeptSince, StoppedRelation,
           ReceiptsKept, LaunchersReady, Passed, GenerationName, ApplyTold, Gone, Unhindered, CutOff, ApplyRelation,
           LiveSince, AllGranted, RefusedRelation, AllStageable, ReceiptsAgree, CacheGood;
      ghost var b, past := disk.files, disk.history;
      RefusalTold(disk.files, world.log, disk.files, world.log, plan, disk.healthy);
      outcome, stop := Refused, Stop(now, GenerationName(plan.id, now), StartFresh(true));
      NothingDone(b, past, plan, now);
      Launchers.OnlyMarkedChangedRefl(launcherDisk.files);
      if Applicable(b, plan, ChosenName(b, plan.id, now)) { ApplicableMeans(b, plan, ChosenName(b, plan.id, now)); }
      if !plan.Valid() { return; }
      if !hasInstaller && exists i :: 0 <= i < |plan.components| && plan.components[i].installMethod != Archive {
        return;
      }
      var choice, g := Choose(plan, now);
      RefusalTold(b, old(world.log), disk.files, world.log, plan, disk.healthy);
      if choice.None? { return; }
      var resumption := choice.value;
      if Inv(b) && Fresh(b, GenerationName(plan.id, now)) {
        ChosenIsUnclaimed(b, plan.id, now, g);
        InvMeansLive(b);
      }
      stop := Stop(now, g, resumption);
      ghost var told := world.log;
      outcome := ApplyAt(plan, g, now, resumption);
      FromFirstAnswer(old(world.log), told, world.log);
      ToldFromFirst(b, old(world.log), told, disk.files, world.log, plan, disk.healthy, outcome);
      KeptIsStopped(b, past, disk.files, disk.history, plan, stop);
    }

    /** The directories, and the generation to work in. */
    method Choose(plan: Plan, now: nat) returns (choice: Option<Resumption>, g: GenerationId)
      modifies world
      ensures old(world.log) <= world.log && |world.log| == |old(world.log)| + 1
      ensures world.log[|old(world.log)|].question == Directories
      ensures choice.Some? ==> world.log[|old(world.log)|].reply.Granted?
      ensures choice.Some? ==>
                Chosen(disk.files, plan.id, now, g) && ResumptionTold(disk.files, plan.id, g, choice.value)
      ensures disk.healthy && RecordReadable(disk.files, plan.id) ==>
                if choice.None? then !AllGranted(old(world.log), world.log)
                else g == ChosenName(disk.files, plan.id, now)
    {
      g := GenerationName(plan.id, now);
      var directories := world.Ask(Directories);
      OneAnswer(old(world.log), world.log, Answer(Directories, directories));
      if !directories.Granted? { return None, g; }
      var resumption := ResumableGeneration(disk, plan.id);
      if resumption.ResumeError? { return None, g; }
      if resumption.ResumeAt? { g := resumption.generation; }
      ToldMeansChosen(disk.files, plan.id, now, g, resumption);
      choice := Some(resumption);
    }

    /** Apply once its generation has been chosen. */
    method ApplyAt(plan: Plan, g: GenerationId, now: nat, resumption: Resumption) returns (outcome: Outcome)
      requires plan.Valid() && Chosen(disk.files, plan.id, now, g) && ResumptionTold(disk.files, plan.id, g, resumption)
      modifies disk, world, launcherDisk
      ensures ApplyRelation(old(disk.files), disk.files, plan, now, outcome)
      ensures !outcome.Refused? ==> outcome.generation == g
      ensures KeptSince(old(disk.files), old(disk.history), disk.files, disk.history, plan.components, g)
      ensures outcome.Applied? ==> Passed(old(disk.files), old(disk.history), disk.history, plan, now, outcome)
      ensures outcome.Applied? ==>
                LaunchersWritten(enableLaunchers, old(launcherDisk.files), launcherDisk.files, outcome.launchers)
      ensures outcome.Applied? && !enableLaunchers ==> outcome.launchers == []
      ensures Launchers.OnlyMarkedChanged(old(launcherDisk.files), launcherDisk.files)
      ensures outcome.Refused? || outcome.Suspended? || (outcome.Broke? && outcome.launchersBack) ==>
                launcherDisk.files == old(launcherDisk.files)
      ensures old(Live(disk.files) && !PointsAt(disk.files, CurrentPath, g))
              && !outcome.StatusLost? && (outcome.Broke? ==> outcome.restored) ==>
                LiveSince(old(disk.history), disk.history) && Live(disk.files)
      ensures old(world.log) <= world.log
      ensures ApplyTold(old(disk.files), old(world.log), disk.files, world.log, plan, disk.healthy, outcome)
      ensures disk.healthy && outcome.Broke? ==> outcome.removed && Gone(disk.files, g)
      ensures outcome.Applied? ==> disk.refused == old(disk.refused)
      ensures outcome.Broke? || outcome.StatusLost? ==>
                Damage(outcome) + (if outcome.removed then 0 else 1) <= disk.refused - old(disk.refused)
      ensures disk.healthy && outcome.Refused? ==> !AllGranted(old(world.log), world.log)
      ensures Untroubled() && AllGranted(old(world.log), world.log) && Applicable(old(disk.files), plan, g)
              && LaunchersReady(old(launcherDisk.files), plan, g) ==>
                outcome.Applied?
    {
      hide Launchers.OnlyMarkedChanged, LaunchersWritten, SuspendedRelation, AppliedRelation, Applicable, Entered,
           Fresh, PointsAt, ApplyFrame, SwitchedTo, Inv, Live, Chosen, ResumptionTold, RefusedRelation, KeptSince,
           Still, LaunchersReady, ApplyTold, Gone, NothingLost, Unhindered, CutOff, LiveSince, Quiet, Passed,
           SameBut, AllGranted, ApplyRelation, BrokeRelation, Recorded, Damage;
      ghost var b, past := disk.files, disk.history;
      ghost var safe := Live(b) && !PointsAt(b, CurrentPath, g);
      ghost var heard := world.log;
      Launchers.OnlyMarkedChangedRefl(launcherDisk.files);
      var entered := Enter(plan, g, now, resumption);
      if safe { QuietIsLive(b, past, disk.files, disk.history, plan.id, g); }
      if !entered {
        RefusalTold(b, heard, disk.files, world.log, plan, disk.healthy);
        RefusedRelates(b, disk.files, plan, now);
        return Refused;
      }
      ghost var told, entry := world.log, disk.files;
      outcome := ApplyInto(plan, g, now, resumption, b, past);
      EndingRelates(b, disk.files, plan, now, resumption, outcome);
      FromFirstAnswer(heard, told, world.log);
      ToldFromBefore(b, heard, entry, told, disk.files, world.log, plan, disk.healthy, outcome, g);
      if outcome.Suspended? || outcome.Applied? { return; }
      ghost var f := disk.files;
      ghost var failure := outcome;
      outcome := RemoveFailed(plan, g, now, outcome, b, past);
      DamageStays(failure, outcome.removed);
      CleanupTold(b, heard, f, disk.files, world.log, plan, disk.healthy, failure, outcome.removed);
    }

    /** The deferred removal, as part of the Apply that failed. */
    method RemoveFailed(plan: Plan, g: GenerationId, now: nat, failure: Outcome, ghost b: Files, ghost past: seq<Files>)
      returns (outcome: Outcome)
      requires (failure.Broke? || failure.StatusLost?) && !failure.removed && failure.generation == g
      requires ApplyRelation(b, disk.files, plan, now, failure)
      requires KeptSince(b, past, disk.files, disk.history, plan.components, g)
      modifies disk
      ensures (outcome.Broke? || outcome.StatusLost?) && outcome == failure.(removed := outcome.removed)
      ensures ApplyRelation(b, disk.files, plan, now, outcome)
      ensures KeptSince(b, past, disk.files, disk.history, plan.components, g)
      ensures disk.healthy ==> outcome.removed && Gone(disk.files, g)
      ensures disk.refused == if outcome.removed then old(disk.refused) else old(disk.refused) + 1
      ensures Live(b) && !PointsAt(b, CurrentPath, g) && old(LiveSince(past, disk.history) && Live(disk.files))
              && failure.Broke? && failure.restored ==>
                LiveSince(past, disk.history) && Live(disk.files)
    {
      hide SuspendedRelation, AppliedRelation, PointsAt, ApplyFrame, SwitchedTo, Live, KeptSince, Still, Gone;
      ghost var f, h := disk.files, disk.history;
      var removed := Cleanup(g, plan.id);
      CleanedUp(b, f, disk.files, plan, now, failure, removed);
      StillIsKept(f, h, disk.files, disk.history, plan.components, g);
      KeptSinceTransitive(b, past, f, h, disk.files, disk.history, plan.components, g);
      ghost var safe := Live(b) && !PointsAt(b, CurrentPath, g) && Live(f) && LiveSince(past, h);
      if safe && failure.Broke? && failure.restored {
        StillElsewhere(b, f, g);
        QuietIsLive(f, h, disk.files, disk.history, plan.id, g);
        LiveSinceTransitive(past, h, disk.history);
      }
      outcome := failure.(removed := removed);
    }

    /** The status record and the generation directory. */
    method Enter(plan: Plan, g: GenerationId, now: nat, resumption: Resumption) returns (entered: bool)
      requires Chosen(disk.files, plan.id, now, g)
      requires ResumptionTold(disk.files, plan.id, g, resumption)
      modifies disk, world
      ensures Quiet(old(disk.files), old(disk.history), disk.files, disk.history, plan.id, g)
      ensures disk.refused >= old(disk.refused) && (entered ==> disk.refused == old(disk.refused))
      ensures KeptSince(old(disk.files), old(disk.history), disk.files, disk.history, plan.components, g)
      ensures entered ==> Entered(old(disk.files), old(disk.history), disk.files, disk.history, plan, g, resumption)
      ensures !entered ==> RefusedRelation(old(disk.files), disk.files, plan.id, now)
      ensures old(world.log) <= world.log && |world.log| <= |old(world.log)| + 1
      ensures forall i :: |old(world.log)| <= i < |world.log| ==> world.log[i].question == Entering
      ensures entered ==> |world.log| == |old(world.log)| + 1 && world.log[|old(world.log)|].reply.Granted?
      ensures entered ==>
                && SameBut(old(disk.files), disk.files, {OperationPath(plan.id), GenerationDir(g)})
                && GenerationDir(g) in disk.files && NothingLost(old(disk.files), disk.files)
      ensures !entered && disk.healthy ==>
                !AllGranted(old(world.log), world.log) && Recorded(disk.files, plan.id, g, {Interrupted})
      ensures Applicable(old(disk.files), plan, g) && entered ==> Applicable(disk.files, plan, g)
    {
      hide Still, KeptSince, Quiet, ReceiptsKept, AllGranted, Chosen, ResumptionTold, ApplyRelation, Applicable,
           RefusedRelation, NothingLost;
      ghost var b, past := disk.files, disk.history;
      NothingAsked(world.log);
      QuietRefl(b, past, plan.id, g);
      NothingStirred(b, past);
      var noted := WriteOperation(disk, plan.id, g, Staging, now);
      StillIsKept(b, past, disk.files, disk.history, plan.components, g);
      if !noted {
        NothingDone(b, past, plan, now);
        return false;
      }
      ghost var f, h := disk.files, disk.history;
      ReceiptsUntouched(b, b[OperationPath(plan.id) := f[OperationPath(plan.id)]][GenerationDir(g) := Folder],
          plan.components, g);
      var current := world.Ask(Entering);
      OneAnswer(old(world.log), world.log, Answer(Entering, current));
      if !current.Granted? {
        var again := WriteOperation(disk, plan.id, g, Interrupted, now);
        QuietAndStill(b, past, f, h, disk.files, disk.history, plan, g);
        RefusedWith(b, f, disk.files, plan.id, g, now);
        return false;
      }
      entered := ScratchWrite(disk, GenerationDir(g), Folder, plan.id, g);
      if entered && Applicable(b, plan, g) { ApplicableStays(b, disk.files, plan, g); }
      QuietAndStill(b, past, f, h, disk.files, disk.history, plan, g);
      KeptMeans(b, past, disk.files, disk.history, plan.components, g);
      EnteredWith(b, f, disk.files, plan.id, g, now, entered);
    }
  }

  lemma WindowAssembles(b: Files, m: Files, s: Files, plan: Plan, g: GenerationId, now: nat)
    requires SwitchedTo(b, s, plan.id, g, now) && Recorded(m, plan.id, g, {Staging})
    requires SameAt(m, s, OperationPath(plan.id))
    requires Backed(m, Pointer(plan.id, g, now)) && SameAt(m, s, GenerationDir(g)) && SameAt(m, s, ManifestPath(g))
    ensures InWindow(b, s, plan, g, now)
  {
    hide SwitchedTo;
  }

  lemma AssembledAt(b: Files, m: Files, plan: Plan, g: GenerationId, now: nat, receipts: seq<Receipt>,
                    launchers: seq<Launchers.Launcher>)
    requires SameOutside(b, m, plan.id, g) && Recorded(m, plan.id, g, {Staging}) && GenerationDir(g) in m
    requires ManifestFor(m, plan, g, now, receipts, launchers) && ReceiptsKept(b, m, plan.components, g)
    requires ComponentOrder.Order(plan.components).Done?
    requires var ordered := ComponentOrder.Order(plan.components).walk.ordered;
             StagedUpTo(m, ordered, receipts, |ordered|, g)
    ensures Assembled(b, m, plan, g, now, receipts, launchers)
  {
    hide SameOutside, ManifestFor, ReceiptsKept, StagedUpTo;
  }

  lemma PassedBoth(b: Files, past: seq<Files>, m: Files, between: seq<Files>, s: Files, later: seq<Files>,
                   history: seq<Files>, plan: Plan, now: nat, o: Outcome)
    requires o.Applied? && Assembled(b, m, plan, o.generation, now, o.receipts, o.launchers)
    requires InWindow(b, s, plan, o.generation, now)
    requires Ends(past, between, m) && Ends(between, later, s) && Grew(between, later) && Grew(later, history)
    ensures Passed(b, past, history, plan, now, o)
  {
    hide Assembled, InWindow;
    var i, j := |between| - 1, |later| - 1;
    assert history[i] == later[i] == between[i] == m && history[j] == later[j] == s;
  }

  lemma ToldMeansChosen(b: Files, planId: string, now: nat, g: GenerationId, resumption: Resumption)
    requires if resumption.ResumeAt? then g == resumption.generation && Resumable(b, planId) == Some(g)
             else resumption.StartFresh? && g == GenerationName(planId, now)
                  && (resumption == StartFresh(false) ==> Resumable(b, planId) == None)
    ensures Chosen(b, planId, now, g) && ResumptionTold(b, planId, g, resumption)
  {
  }

  /** Whenever the record still says so, the plan can be taken up again. */
  lemma KeptIsStopped(b: Files, past: seq<Files>, a: Files, history: seq<Files>, plan: Plan, stop: Stop)
    requires KeptSince(b, past, a, history, plan.components, stop.generation)
    requires Chosen(b, plan.id, stop.at, stop.generation)
              && ResumptionTold(b, plan.id, stop.generation, stop.resumption)
    ensures Grew(past, history)
    ensures forall i :: |past| <= i < |history| && Resumable(history[i], plan.id) == Some(stop.generation) ==>
              StoppedRelation(b, history[i], plan, stop)
  {
    hide ReceiptsKept, Chosen, ResumptionTold;
  }

  lemma NothingStirred(b: Files, past: seq<Files>)
    ensures Still(b, past, b, past)
  {
  }

  lemma RefusedWith(b: Files, f: Files, a: Files, planId: string, g: GenerationId, now: nat)
    requires SameBut(b, f, {OperationPath(planId)}) && SameBut(f, a, {OperationPath(planId)})
    requires Chosen(b, planId, now, g) && Recorded(a, planId, g, {Staging, Interrupted})
    ensures RefusedRelation(b, a, planId, now)
  {
    hide Chosen, Recorded;
    SameButTransitive(b, f, a, {OperationPath(planId)});
  }

  /** The directory made, or not. */
  lemma EnteredWith(b: Files, f: Files, a: Files, planId: string, g: GenerationId, now: nat, made: bool)
    requires SameBut(b, f, {OperationPath(planId)}) && OperationPath(planId) in f
    requires a == if made then f[GenerationDir(g) := Folder] else f
    requires Chosen(b, planId, now, g) && Recorded(f, planId, g, {Staging})
    ensures made ==> SameBut(b, a, {OperationPath(planId), GenerationDir(g)}) && NothingLost(b, a)
    ensures !made ==> RefusedRelation(b, a, planId, now)
  {
    SameButWider(b, f, {OperationPath(planId)}, {OperationPath(planId), GenerationDir(g)});
    NothingLostBut(b, f, {OperationPath(planId)});
    assert Recorded(f, planId, g, {Staging, Interrupted});
    hide Chosen, Recorded;
  }

  lemma QuietAndStill(b: Files, past: seq<Files>, f: Files, h: seq<Files>, a: Files, history: seq<Files>, plan: Plan,
                      g: GenerationId)
    requires Quiet(b, past, f, h, plan.id, g) && Quiet(f, h, a, history, plan.id, g)
    requires Still(b, past, f, h) && Still(f, h, a, history)
    ensures Quiet(b, past, a, history, plan.id, g) && KeptSince(b, past, a, history, plan.components, g)
  {
    QuietTransitive(b, past, f, h, a, history, plan.id, g);
    StillTransitive(b, past, f, h, a, history);
    StillIsKept(b, past, a, history, plan.components, g);
  }

  lemma StatusStirsNothing(b: Files, past: seq<Files>, planId: string, document: Document)
    ensures var a := b[OperationPath(planId) := document]; Still(b, past, a, past + [a])
  {
  }

  lemma KeptMeans(b: Files, past: seq<Files>, a: Files, history: seq<Files>, components: seq<ComponentPlan>,
                  g: GenerationId)
    requires KeptSince(b, past, a, history, components, g)
    ensures ReceiptsKept(b, a, components, g) && Grew(past, history)
  {
  }

  lemma AfterFail(b: Files, past: seq<Files>, f: Files, h: seq<Files>, a: Files, history: seq<Files>, plan: Plan,
                  g: GenerationId)
    requires Quiet(b, past, f, h, plan.id, g) && Quiet(f, h, a, history, plan.id, g)
    requires SameBut(f, a, {OperationPath(plan.id)}) && ReceiptsKept(b, f, plan.components, g)
    ensures Quiet(b, past, a, history, plan.id, g)
    ensures SameAt(f, a, GenerationDir(g))
    ensures ReceiptsKept(b, a, plan.components, g)
  {
    QuietTransitive(b, past, f, h, a, history, plan.id, g);
    SameButAt(f, a, {OperationPath(plan.id)}, GenerationDir(g));
    ReceiptsUntouchedBut(f, a, {OperationPath(plan.id)}, plan.components, g);
    ReceiptsKeptTransitive(b, f, a, plan.components, g);
  }
}
