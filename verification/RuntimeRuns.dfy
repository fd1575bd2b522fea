/** Manager.Rollback, and what whole runs of Apply and Rollback keep
    (internal/managedruntime/manager.go). */
module RuntimeRuns {
  import opened Text
  import opened RuntimeTypes
  import opened FileSystem
  import opened RuntimeState
  import opened RuntimeStaging
  import opened RuntimeManager
  import opened RuntimeApply
  import ComponentOrder
  import Launchers

  /** `refused` is false when the disk, not its contents, was at fault. */
  datatype RollbackResult = RolledBack | HalfRolledBack | NotRolledBack(refused: bool)

  // ------------------------------------------------------------------- contract

  /** There is a previous generation to go back to. */
  ghost predicate CanReturn(files: Files) {
    && CurrentPath in files && PreviousPath in files && files[PreviousPath].PointerDoc?
    && files[PreviousPath].pointer.generation != ""
    && GenerationDir(files[PreviousPath].pointer.generation) in files
  }

  ghost predicate CanSelect(files: Files, target: GenerationId) {
    && CurrentPath in files && GenerationDir(target) in files
    && ManifestPath(target) in files && files[ManifestPath(target)].ManifestDoc?
    && files[ManifestPath(target)].manifest.generation == target && ManifestValid(files[ManifestPath(target)].manifest)
  }

  /** Rollback(""): the two pointer files trade places. */
  ghost predicate ReturnRelation(before: Files, after: Files, result: RollbackResult) {
    match result
    case NotRolledBack(refused) => after == before && (refused ==> !CanReturn(before))
    case RolledBack =>
      CanReturn(before) && after == before[CurrentPath := before[PreviousPath]][PreviousPath := before[CurrentPath]]
    case HalfRolledBack => CanReturn(before) && after == before[CurrentPath := before[PreviousPath]]
  }

  /** Rollback(target): the current pointer is kept as previous and the target
      is named instead. */
  ghost predicate SelectRelation(before: Files, after: Files, target: GenerationId, now: nat, result: RollbackResult) {
    match result
    case NotRolledBack(refused) => after == before && (refused ==> !CanSelect(before, target))
    case RolledBack =>
      && CanSelect(before, target)
      && after == before[PreviousPath := before[CurrentPath]]
                        [CurrentPath := PointerDoc(Pointer(before[ManifestPath(target)].manifest.planId, target, now))]
    case HalfRolledBack => CanSelect(before, target) && after == before[PreviousPath := before[CurrentPath]]
  }

  ghost predicate RollbackRelation(before: Files, after: Files, target: GenerationId, now: nat,
                                   result: RollbackResult)
  {
    if target == "" then ReturnRelation(before, after, result) else SelectRelation(before, after, target, now, result)
  }

  // -------------------------------------------------------------------- methods

  method RollbackToPrevious(disk: RuntimeDisk) returns (result: RollbackResult)
    modifies disk
    ensures ReturnRelation(old(disk.files), disk.files, result)
    ensures old(Inv(disk.files)) ==> LiveSince(old(disk.history), disk.history)
    ensures disk.healthy ==> if CanReturn(old(disk.files)) then result.RolledBack? else result == NotRolledBack(true)
  {
    var current := disk.Inspect(CurrentPath);
    if !current.Found? { return NotRolledBack(current.Missing?); }
    var previous := disk.Inspect(PreviousPath);
    if !previous.Found? { return NotRolledBack(previous.Missing?); }
    if !previous.file.PointerDoc? || previous.file.pointer.generation == "" { return NotRolledBack(true); }
    var folder := disk.Inspect(GenerationDir(previous.file.pointer.generation));
    if !folder.Found? { return NotRolledBack(folder.Missing?); }
    var named := disk.AtomicWriteFile(CurrentPath, previous.file);
    if !named { return NotRolledBack(false); }
    var kept := disk.AtomicWriteFile(PreviousPath, current.file);
    return if kept then RolledBack else HalfRolledBack;
  }

  method RollbackToTarget(disk: RuntimeDisk, target: GenerationId, now: nat) returns (result: RollbackResult)
    modifies disk
    ensures SelectRelation(old(disk.files), disk.files, target, now, result)
    ensures old(Inv(disk.files)) ==> LiveSince(old(disk.history), disk.history)
    ensures disk.healthy ==>
              if CanSelect(old(disk.files), target) then result.RolledBack? else result == NotRolledBack(true)
  {
    var current := disk.Inspect(CurrentPath);
    if !current.Found? { return NotRolledBack(current.Missing?); }
    var folder := disk.Inspect(GenerationDir(target));
    if !folder.Found? { return NotRolledBack(folder.Missing?); }
    var manifest := disk.Inspect(ManifestPath(target));
    if !manifest.Found? { return NotRolledBack(manifest.Missing?); }
    if !manifest.file.ManifestDoc? || manifest.file.manifest.generation != target
        || !ManifestValid(manifest.file.manifest) {
      return NotRolledBack(true);
    }
    var kept := disk.AtomicWriteFile(PreviousPath, current.file);
    if !kept { return NotRolledBack(false); }
    var named := disk.AtomicWriteFile(CurrentPath, PointerDoc(Pointer(manifest.file.manifest.planId, target, now)));
    return if named then RolledBack else HalfRolledBack;
  }

  /** Manager.Rollback, which looks at the requested name without edge blanks. */
  method Rollback(disk: RuntimeDisk, world: RuntimeWorld, requested: string, now: nat)
    returns (result: RollbackResult)
    modifies disk, world
    ensures RollbackRelation(old(disk.files), disk.files, Trim(requested), now, result)
    ensures old(Inv(disk.files)) ==> LiveSince(old(disk.history), disk.history)
    ensures Asked(old(world.log), world.log, RollingBack)
    ensures !AllGranted(old(world.log), world.log) ==> result == NotRolledBack(false) && disk.files == old(disk.files)
    ensures disk.healthy && AllGranted(old(world.log), world.log) ==>
              if (if Blank(requested) then CanReturn(old(disk.files)) else CanSelect(old(disk.files), Trim(requested)))
              then result.RolledBack? else result == NotRolledBack(true)
    ensures AllGranted(old(world.log), world.log) ==> EndsWith(old(world.log), world.log, Answer(Directories, Granted))
  {
    BlankIsTrimmed(requested);
    hide Trim, Blank, Inv;
    var current := world.Ask(RollingBack);
    assert world.log[|old(world.log)|] == Answer(RollingBack, current);
    if !current.Granted? { return NotRolledBack(false); }
    var directories := world.Ask(Directories);
    assert world.log[|old(world.log)| + 1] == Answer(Directories, directories);
    if !directories.Granted? { return NotRolledBack(false); }
    var target := Trim(requested);
    if target == "" {
      result := RollbackToPrevious(disk);
    } else {
      result := RollbackToTarget(disk, target, now);
    }
  }

  // ----------------------------------------------------------------------- runs

  lemma RollbackKeepsInv(before: Files, after: Files, target: GenerationId, now: nat, result: RollbackResult)
    requires Inv(before) && RollbackRelation(before, after, target, now, result)
    ensures Inv(after)
  {
    forall p ensures Resumable(after, p) == Resumable(before, p) {}
    forall p, g ensures Names(after, p, g) <==> Names(before, p, g) {}
  }

  datatype Event =
    | ApplyEvent(plan: Plan, now: nat, outcome: Outcome)
    | RollbackEvent(target: GenerationId, now: nat, result: RollbackResult)

  /** Generation names are time stamps, so a new one is new. */
  ghost predicate Follows(before: Files, after: Files, e: Event) {
    match e
    case ApplyEvent(plan, now, o) => ApplyRelation(before, after, plan, now, o)
        && Fresh(before, GenerationName(plan.id, now))
    case RollbackEvent(target, now, result) => RollbackRelation(before, after, target, now, result)
  }

  ghost predicate EndsSoundly(before: Files, after: Files, e: Event) { e.ApplyEvent? ==>
      Sound(before, after, e.outcome) }

  /** A run: one state before, between and after the events. */
  ghost predicate Run(states: seq<Files>, events: seq<Event>) {
    |states| == |events| + 1 && forall i :: 0 <= i < |events| ==> Follows(states[i], states[i + 1], events[i])
  }

  lemma EventKeepsInvExactly(before: Files, after: Files, e: Event)
    requires Inv(before) && Follows(before, after, e)
    ensures Inv(after) <==> EndsSoundly(before, after, e)
  {
    hide ApplyRelation, RollbackRelation, Sound, Fresh, Inv;
    match e
    case ApplyEvent(plan, now, o) => ApplyKeepsInvExactly(before, after, plan, now, o);
    case RollbackEvent(target, now, result) => RollbackKeepsInv(before, after, target, now, result);
  }

  /** In every run from a good runtime root, at every point between calls up to
      which the Applies ended soundly, both pointers are absent or name an
      existing generation whose manifest carries the pointer's plan. */
  lemma {:induction false} RunsKeepPointersGood(states: seq<Files>, events: seq<Event>, n: nat)
    requires Run(states, events) && Inv(states[0]) && n < |states|
    requires forall i :: 0 <= i < n ==> EndsSoundly(states[i], states[i + 1], events[i])
    ensures Inv(states[n]) && Live(states[n])
  {
    InvMeansLive(states[0]);
    hide Follows, EndsSoundly, Inv;
    if n > 0 {
      RunsKeepPointersGood(states, events, n - 1);
      assert Follows(states[n - 1], states[n - 1 + 1], events[n - 1]);
      EventKeepsInvExactly(states[n - 1], states[n], events[n - 1]);
      InvMeansLive(states[n]);
    }
  }

  /** The invariant holds all through a run exactly when all its Applies end
      soundly. */
  lemma RunsAreGoodExactly(states: seq<Files>, events: seq<Event>)
    requires Run(states, events) && Inv(states[0])
    ensures (forall n :: 0 <= n < |states| ==> Inv(states[n]))
            <==> forall i :: 0 <= i < |events| ==> EndsSoundly(states[i], states[i + 1], events[i])
  {
    hide Follows, EndsSoundly, Inv;
    if forall n :: 0 <= n < |states| ==> Inv(states[n]) {
      forall i | 0 <= i < |events| ensures EndsSoundly(states[i], states[i + 1], events[i]) {
        assert Inv(states[i]) && Follows(states[i], states[i + 1], events[i]);
        EventKeepsInvExactly(states[i], states[i + 1], events[i]);
      }
    }
    if forall i :: 0 <= i < |events| ==> EndsSoundly(states[i], states[i + 1], events[i]) {
      forall n | 0 <= n < |states| ensures Inv(states[n]) { RunsKeepPointersGood(states, events, n); }
    }
  }

  lemma EmptyRootIsGood()
    ensures Inv(map[])
  {
  }

  // --------------------------------------------------- what unsound endings cost

  function WithinPaths(files: Files, g: GenerationId): set<Path> { set p | p in files && Within(p, g) }

  /** A generation that is active and can still be resumed: a failing Apply of its
      plan deletes it under current.json. */
  lemma ActiveMayBeOrphaned(files: Files, plan: Plan, g: GenerationId, now: nat) returns (orphaned: Files, o: Outcome)
    requires Resumable(files, plan.id) == Some(g) && PointsAt(files, CurrentPath, g)
    ensures ApplyRelation(files, orphaned, plan, now, o)
    ensures o == Broke(g, StagingFailed, true, true, true, true) && !Live(orphaned)
  {
    var failed := files[OperationPath(plan.id) := OperationDoc(Operation(plan.id, g, Failed, now))];
    orphaned := failed - WithinPaths(failed, g);
    o := Broke(g, StagingFailed, true, true, true, true);
    assert Within(GenerationDir(g), g);
    assert CurrentPath in orphaned && orphaned[CurrentPath] == files[CurrentPath];
  }

  /** A generation with a valid manifest becomes active by a rollback to it, the
      record staying as it is. */
  lemma SelectedIsActive(files: Files, plan: Plan, g: GenerationId, selectedAt: nat) returns (selected: Files)
    requires Resumable(files, plan.id) == Some(g) && CanSelect(files, g)
    requires files[ManifestPath(g)].manifest.planId == plan.id
    ensures SelectRelation(files, selected, g, selectedAt, RolledBack) && Live(selected)
    ensures Resumable(selected, plan.id) == Some(g) && PointsAt(selected, CurrentPath, g)
  {
    hide ManifestValid;
    selected := files[PreviousPath := files[CurrentPath]][CurrentPath := PointerDoc(Pointer(plan.id, g, selectedAt))];
  }

  ghost predicate Digits(s: string) { forall i :: 0 <= i < |s| ==> IsDigit(s[i]) }

  lemma DigitsBeforeDash(a: string, b: string, rest: string)
    requires Digits(a) && Digits(b) && |a| < |b + "-" + rest| && (b + "-" + rest)[..|a| + 1] == a + "-"
    ensures a == b
  {
    var s := b + "-" + rest;
    assert forall i :: 0 <= i < |b| ==> s[i] == b[i];
    assert s[|b|] == '-' && s[..|a| + 1][|a|] == s[|a|] == '-';
    assert forall i :: 0 <= i < |a| ==> s[i] == s[..|a| + 1][i] == a[i];
    assert !IsDigit('-');
    assert |a| == |b|;
  }

  lemma CommonPrefix(prefix: string, a: string, s: string)
    requires |prefix + a| <= |prefix + s| && (prefix + s)[..|prefix + a|] == prefix + a
    ensures |a| <= |s| && s[..|a|] == a
  {
    forall i | 0 <= i < |a| ensures s[i] == a[i] {
      assert (prefix + s)[..|prefix + a|][|prefix| + i] == (prefix + s)[|prefix| + i] == s[i];
      assert (prefix + a)[|prefix| + i] == a[i];
    }
  }

  /** Generation names of one plan at different times share no receipt file. */
  lemma ReceiptsOfTimesApart(planId: string, at: nat, later: nat, c: ComponentId)
    requires GenerationName(planId, at) != GenerationName(planId, later)
    ensures !NamedFor(ReceiptName(GenerationName(planId, later), c), GenerationName(planId, at))
  {
    DecimalRoundTrip(at);
    DecimalRoundTrip(later);
    hide Decimal, NumberOf;
    var prefix, a, b := "generation-" + planId + "-", Decimal(at), Decimal(later);
    var g, name := GenerationName(planId, at), ReceiptName(GenerationName(planId, later), c);
    var rest := c + ".json";
    assert g + "-" == prefix + (a + "-") && name == prefix + (b + "-" + rest);
    if NamedFor(name, g) {
      CommonPrefix(prefix, a + "-", b + "-" + rest);
      DigitsBeforeDash(a, b, rest);
    }
  }

  /** Building one generation leaves the name of another new. */
  lemma StaysFresh(before: Files, after: Files, planId: string, at: nat, later: nat)
    requires var g, h := GenerationName(planId, at), GenerationName(planId, later);
             g != h && Fresh(before, h) && Recorded(after, planId, g, {Staging})
    requires forall p :: !Scratch(p, planId, GenerationName(planId, at)) && p !in POINTERS ==> SameAt(before, after, p)
    ensures Fresh(after, GenerationName(planId, later))
  {
    var g, h := GenerationName(planId, at), GenerationName(planId, later);
    forall q ensures !Names(after, q, h) {
      if q != planId { assert SameAt(before, after, OperationPath(q)) && !Names(before, q, h); }
    }
    assert SameAt(before, after, GenerationDir(h)) && SameAt(before, after, ManifestPath(h));
    forall c ensures ComponentDir(h, c) !in after { assert SameAt(before, after, ComponentDir(h, c)); }
    forall c ensures ReceiptPath(ReceiptName(h, c)) !in after {
      ReceiptsOfTimesApart(planId, at, later, c);
      assert SameAt(before, after, ReceiptPath(ReceiptName(h, c)));
    }
  }

  /** An Apply that built its generation and then could neither switch to it, nor
      record that, nor remove anything. */
  lemma AssembledMayFail(before: Files, failed: Files, plan: Plan, now: nat, receipts: seq<Receipt>,
                         launchers: seq<Launchers.Launcher>) returns (o: Outcome)
    requires Assembled(before, failed, plan, GenerationName(plan.id, now), now, receipts, launchers)
    ensures o == Broke(GenerationName(plan.id, now), ActivationFailed, false, true, true, false)
    ensures ApplyRelation(before, failed, plan, now, o)
  {
    hide StagedUpTo, ManifestFor, ReceiptsKept;
    var g := GenerationName(plan.id, now);
    o := Broke(g, ActivationFailed, false, true, true, false);
    assert SameAt(before, failed, CurrentPath) && SameAt(before, failed, PreviousPath);
  }

  lemma AssembledMayBeSelected(before: Files, failed: Files, plan: Plan, now: nat, receipts: seq<Receipt>,
                               launchers: seq<Launchers.Launcher>)
    requires Assembled(before, failed, plan, GenerationName(plan.id, now), now, receipts, launchers)
    requires Live(before) && CurrentPath in before && Fresh(before, GenerationName(plan.id, now))
    ensures var g := GenerationName(plan.id, now);
            && g != "" && Resumable(failed, plan.id) == Some(g) && CanSelect(failed, g)
            && failed[ManifestPath(g)].manifest.planId == plan.id && Live(failed)
  {
    hide StagedUpTo, ReceiptsKept, ManifestValid;
    var g := GenerationName(plan.id, now);
    assert g[0] == 'g';
    assert !PointsAt(before, CurrentPath, g);
    LiveOutside(before, failed, plan.id, g);
  }

  /** The run that shows it, from whatever a completed staging of any valid plan
      left: with new generation names, every pointer write and the last status
      write succeeding, a failure that could be neither recorded nor cleaned up,
      a rollback to its generation and a failing Apply leave current.json naming
      nothing. */
  lemma UnrecordedFailureOrphans(before: Files, failed: Files, plan: Plan, now: nat, receipts: seq<Receipt>,
                                 launchers: seq<Launchers.Launcher>, selectedAt: nat, later: nat)
    returns (states: seq<Files>, events: seq<Event>)
    requires Inv(before) && CurrentPath in before && plan.Valid()
    requires Fresh(before, GenerationName(plan.id, now)) && Fresh(before, GenerationName(plan.id, later))
    requires GenerationName(plan.id, later) != GenerationName(plan.id, now)
    requires Assembled(before, failed, plan, GenerationName(plan.id, now), now, receipts, launchers)
    ensures |states| == 4 && |events| == 3 && states[0] == before && states[1] == failed && Run(states, events)
    ensures events[0].ApplyEvent? && events[0].outcome.Broke? && events[0].outcome.restored
    ensures events[1].RollbackEvent? && events[1].result == RolledBack
    ensures events[2].ApplyEvent? && events[2].outcome.Broke?
    ensures events[2].outcome.restored && events[2].outcome.recorded
    ensures Live(states[1]) && Live(states[2]) && !Live(states[3])
  {
    var g := GenerationName(plan.id, now);
    InvMeansLive(before);
    var o := AssembledMayFail(before, failed, plan, now, receipts, launchers);
    AssembledMayBeSelected(before, failed, plan, now, receipts, launchers);
    var selected := SelectedIsActive(failed, plan, g, selectedAt);
    var orphaned, p := ActiveMayBeOrphaned(selected, plan, g, later);
    SelectedStaysFresh(before, failed, selected, plan, now, receipts, launchers, selectedAt, later);
    hide Inv, Live, ApplyRelation, SelectRelation, Assembled, Fresh, GenerationName;
    states := [before, failed, selected, orphaned];
    events := [ApplyEvent(plan, now, o), RollbackEvent(g, selectedAt, RolledBack), ApplyEvent(plan, later, p)];
    hide Run;
    ThreeEventsRun(states, events);
  }

  lemma ThreeEventsRun(states: seq<Files>, events: seq<Event>)
    requires |states| == 4 && |events| == 3
    requires Follows(states[0], states[1], events[0]) && Follows(states[1], states[2], events[1])
    requires Follows(states[2], states[3], events[2])
    ensures Run(states, events)
  {
    hide Follows;
  }

  lemma SelectedStaysFresh(before: Files, failed: Files, selected: Files, plan: Plan, now: nat, receipts: seq<Receipt>,
                           launchers: seq<Launchers.Launcher>, selectedAt: nat, later: nat)
    requires Assembled(before, failed, plan, GenerationName(plan.id, now), now, receipts, launchers)
    requires SelectRelation(failed, selected, GenerationName(plan.id, now), selectedAt, RolledBack)
    requires Fresh(before, GenerationName(plan.id, later))
    requires GenerationName(plan.id, later) != GenerationName(plan.id, now)
    ensures Fresh(selected, GenerationName(plan.id, later))
  {
    hide StagedUpTo, ReceiptsKept, ManifestFor, CanSelect;
    var g := GenerationName(plan.id, now);
    forall p | !Scratch(p, plan.id, g) && p !in POINTERS ensures SameAt(before, selected, p) {
      assert SameAt(before, failed, p);
    }
    StaysFresh(before, selected, plan.id, now, later);
  }

  /** Apply and then Rollback("") gives back the bytes current.json had. */
  lemma ApplyThenRollbackRestores(before: Files, between: Files, after: Files, plan: Plan, now: nat, o: Outcome)
    requires ApplyRelation(before, between, plan, now, o) && o.Applied? && CurrentPath in before
    requires ReturnRelation(between, after, RolledBack)
    ensures SameAt(before, after, CurrentPath)
    ensures after[PreviousPath] == PointerDoc(Pointer(plan.id, o.generation, now))
  {
  }

  /** Rolling back twice changes nothing at all. */
  lemma RollbackTwiceIsIdentity(before: Files, between: Files, after: Files)
    requires ReturnRelation(before, between, RolledBack) && ReturnRelation(between, after, RolledBack)
    ensures after == before
  {
  }

  // --------------------------------------------------------------- resumption

  lemma FreshAgrees(files: Files, components: seq<ComponentPlan>, g: GenerationId)
    requires Fresh(files, g)
    ensures ReceiptsAgree(files, components, g)
  {
  }

  /** A suspended Apply can be resumed, in the same generation, by the same plan. */
  lemma SuspendedIsStopped(before: Files, after: Files, plan: Plan, now: nat, o: Outcome)
    requires ApplyRelation(before, after, plan, now, o) && o.Suspended?
    ensures StoppedRelation(before, after, plan, Stop(now, o.generation, o.resumption))
  {
  }

  /** A chain of Applies of one plan that were cancelled or killed, each able to
      see the directory of the generation it should resume. */
  ghost predicate Stops(states: seq<Files>, plan: Plan, stops: seq<Stop>) {
    && 0 < |stops| && |states| == |stops| + 1
    && forall i :: 0 <= i < |stops| ==>
         StoppedRelation(states[i], states[i + 1], plan, stops[i]) && stops[i].resumption != StartFresh(true)
  }

  lemma {:induction false} StopsKeepGeneration(states: seq<Files>, plan: Plan, stops: seq<Stop>, n: nat)
    requires Stops(states, plan, stops) && 0 < n < |states|
    requires Fresh(states[0], GenerationName(plan.id, stops[0].at)) && Resumable(states[0], plan.id) == None
    ensures var g := GenerationName(plan.id, stops[0].at);
            && Resumable(states[n], plan.id) == Some(g)
            && ReceiptsAgree(states[n], plan.components, g)
            && OnlyPlannedReceipts(states[0], states[n], plan.components, g)
  {
    hide NamedFor;
    var g := GenerationName(plan.id, stops[0].at);
    FreshAgrees(states[0], plan.components, g);
    if n > 1 { StopsKeepGeneration(states, plan, stops, n - 1); }
    assert StoppedRelation(states[n - 1], states[n - 1 + 1], plan, stops[n - 1]);
    ReceiptsKeptTransitive(states[0], states[n - 1], states[n], plan.components, g);
  }

  /** However often it was cancelled or killed, at whatever instant, the Apply
      that completes ends in the generation the first one started, with the
      manifest an uninterrupted Apply would have written, timestamps aside. */
  lemma ResumedEqualsUninterrupted(states: seq<Files>, plan: Plan, stops: seq<Stop>, after: Files, now: nat,
                                   resumed: Outcome, direct: Files, uninterrupted: Outcome)
    requires Stops(states, plan, stops)
    requires Fresh(states[0], GenerationName(plan.id, stops[0].at)) && Resumable(states[0], plan.id) == None
    requires ApplyRelation(states[|states| - 1], after, plan, now, resumed)
    requires resumed.Applied? && resumed.resumption != StartFresh(true)
    requires ApplyRelation(states[0], direct, plan, stops[0].at, uninterrupted) && uninterrupted.Applied?
    ensures resumed.generation == uninterrupted.generation
    ensures resumed.resumption == ResumeAt(uninterrupted.generation)
    ensures |resumed.receipts| == |uninterrupted.receipts|
    ensures forall i :: 0 <= i < |resumed.receipts| ==>
              Timeless(resumed.receipts[i]) == Timeless(uninterrupted.receipts[i])
    ensures forall i :: 0 <= i < |resumed.receipts| ==>
              Timeless(after[ManifestPath(resumed.generation)].manifest.components[i])
              == Timeless(direct[ManifestPath(resumed.generation)].manifest.components[i])
  {
    StopsKeepGeneration(states, plan, stops, |states| - 1);
    FreshAgrees(states[0], plan.components, GenerationName(plan.id, stops[0].at));
  }

  /** Any other failure whose cleanup ran, a cancellation noticed while a receipt
      is being re-read included, leaves nothing to resume. */
  lemma BrokenIsNotResumable(before: Files, after: Files, plan: Plan, now: nat, o: Outcome)
    requires ApplyRelation(before, after, plan, now, o) && o.Broke? && o.removed
    ensures Resumable(after, plan.id) == None
  {
  }

  /** A failure whose generation has been deleted behind it. */
  predicate CleanedUp(p: Outcome, g: GenerationId) { p.Broke? && p.restored && p.removed && p.generation == g }

  /** A process killed between activation and the last status write, which every
      completing Apply passes through, leaves its generation active, whole and
      resumable. */
  lemma WindowIsResumable(before: Files, crashed: Files, plan: Plan, g: GenerationId, now: nat)
    requires Chosen(before, plan.id, now, g) && InWindow(before, crashed, plan, g, now)
    ensures Live(crashed) && PointsAt(crashed, CurrentPath, g) && Resumable(crashed, plan.id) == Some(g)
  {
  }

  /** From there one failing Apply of the same plan that resumed it deletes the
      generation in use, and such an Apply exists. */
  lemma CrashThenFailureOrphans(before: Files, crashed: Files, plan: Plan, g: GenerationId, now: nat, later: nat)
    returns (after: Files, o: Outcome)
    requires Chosen(before, plan.id, now, g) && InWindow(before, crashed, plan, g, now)
    ensures ApplyRelation(crashed, after, plan, later, o) && o.Broke? && o.restored && o.recorded && !Live(after)
    ensures forall a, p: Outcome :: ApplyRelation(crashed, a, plan, later, p) && CleanedUp(p, g) ==> !Live(a)
  {
    WindowIsResumable(before, crashed, plan, g, now);
    after, o := ActiveMayBeOrphaned(crashed, plan, g, later);
    forall a, p: Outcome | ApplyRelation(crashed, a, plan, later, p) && CleanedUp(p, g) ensures !Live(a) {
      FailureKeepsPointerExactly(crashed, a, plan, later, p);
    }
  }
}
