/** The checkpoint lock between hook processes, as a step protocol
    (internal/continuity/lock.go, internal/continuity/continuity.go). */
module CheckpointLock {
  import opened Text

  /** A goroutine of a process. */
  datatype Thread = Thread(process: nat, id: nat)

  /** Where a call of withCheckpointLock stands.  Trying: about to create the
      lock file; Blocked: the file existed, its age not yet looked at; Stealing:
      it looked stale, about to be removed; Holding: the file is ours; Saved(k):
      the k-th commit to the store is ours, the checkpoint not yet written;
      Unlocking: about to remove the lock file; Leaving: about to release the
      process mutex. */
  datatype Place = Idle | Trying | Blocked | Stealing | Waiting | Holding | Saved(k: nat) | Unlocking | Leaving | Dead

  /** `lock` is the lock file, by its creator; `mutex` the holders of the process
      mutexes; `commits` what the store has held, oldest first; `checkpoint` the
      content of checkpoint.json and `written` the commits it showed so far. */
  datatype State = State(
    place: map<Thread, Place>,
    mutex: map<nat, Thread>,
    lock: Option<Thread>,
    commits: seq<string>,
    checkpoint: Option<string>,
    written: seq<nat>)

  datatype Action =
    | Enter(t: Thread)                          // checkpointProcessMu.Lock
    | CreateLock(t: Thread)                     // O_CREATE|O_EXCL succeeds
    | SeeLock(t: Thread)                        // the file exists, or is confirmed by Stat
    | Vanished(t: Thread)                       // another error, and Stat finds no file
    | CreateFails(t: Thread)                    // a real error
    | LooksFresh(t: Thread)
    | LooksStale(t: Thread)                     // ModTime at least five minutes ago
    | RemoveStale(t: Thread, removed: bool)
    | Tick(t: Thread)                           // ten milliseconds later
    | GiveUp(t: Thread)                         // ctx.Done
    | CloseFails(t: Thread, removed: bool)
    | Commit(t: Thread, work: string, ok: bool) // UpdateWorkState
    | WriteCheckpoint(t: Thread, ok: bool)      // AtomicWriteFile
    | RemoveLock(t: Thread, removed: bool)      // deferred os.Remove
    | Exit(t: Thread)                           // deferred Unlock
    | Crash(process: nat)
    | CommitLocal(work: string)                 // SaveLocal

  predicate At(s: State, t: Thread, p: Place) { t in s.place && s.place[t] == p }

  predicate Enabled(s: State, a: Action) {
    match a
    case Enter(t) => At(s, t, Idle) && t.process !in s.mutex
    case CreateLock(t) => At(s, t, Trying) && s.lock.None?
    case SeeLock(t) => At(s, t, Trying) && s.lock.Some?
    case Vanished(t) => At(s, t, Trying)
    case CreateFails(t) => At(s, t, Trying)
    case LooksFresh(t) => At(s, t, Blocked)
    case LooksStale(t) => At(s, t, Blocked) && s.lock.Some?
    case RemoveStale(t, removed) => At(s, t, Stealing) && (removed ==> s.lock.Some?)
    case Tick(t) => At(s, t, Waiting)
    case GiveUp(t) => At(s, t, Waiting)
    case CloseFails(t, removed) => At(s, t, Holding) && (removed ==> s.lock.Some?)
    case Commit(t, _, _) => At(s, t, Holding)
    case WriteCheckpoint(t, _) => t in s.place && s.place[t].Saved? && s.place[t].k < |s.commits|
    case RemoveLock(t, removed) => At(s, t, Unlocking) && (removed ==> s.lock.Some?)
    case Exit(t) => At(s, t, Leaving)
    case Crash(_) => true
    case CommitLocal(_) => true
  }

  function Move(s: State, t: Thread, p: Place): State { s.(place := s.place[t := p]) }

  /** Removing the lock file removes whichever file has the name by then. */
  function Unlock(s: State, removed: bool): State { if removed then s.(lock := None) else s }

  function Next(s: State, a: Action): State
    requires Enabled(s, a)
  {
    match a
    case Enter(t) => Move(s.(mutex := s.mutex[t.process := t]), t, Trying)
    case CreateLock(t) => Move(s.(lock := Some(t)), t, Holding)
    case SeeLock(t) => Move(s, t, Blocked)
    case Vanished(t) => s
    case CreateFails(t) => Move(s, t, Leaving)
    case LooksFresh(t) => Move(s, t, Waiting)
    case LooksStale(t) => Move(s, t, Stealing)
    case RemoveStale(t, removed) => Move(Unlock(s, removed), t, if removed then Trying else Waiting)
    case Tick(t) => Move(s, t, Trying)
    case GiveUp(t) => Move(s, t, Leaving)
    case CloseFails(t, removed) => Move(Unlock(s, removed), t, Leaving)
    case Commit(t, work, ok) =>
      if ok then Move(s.(commits := s.commits + [work]), t, Saved(|s.commits|)) else Move(s, t, Unlocking)
    case WriteCheckpoint(t, ok) =>
      var k := s.place[t].k;
      if ok then Move(s.(checkpoint := Some(s.commits[k]), written := s.written + [k]), t, Unlocking)
          else Move(s, t, Unlocking)
    case RemoveLock(t, removed) => Move(Unlock(s, removed), t, Leaving)
    case Exit(t) => Move(s.(mutex := s.mutex - {t.process}), t, Idle)
    case Crash(process) =>
      s.(place := map t | t in s.place :: if t.process == process then Dead
          else s.place[t], mutex := s.mutex - {process})
    case CommitLocal(work) => s.(commits := s.commits + [work])
  }

  /** Who looks at a lock file, or removes one, finds one; a crash and a local
      commit are always possible. */
  lemma FilesSeenExist(s: State, a: Action)
    ensures Enabled(s, a) && (a.SeeLock? || a.LooksStale?) ==> s.lock.Some?
    ensures Enabled(s, a) && (a.RemoveStale? || a.CloseFails? || a.RemoveLock?) && a.removed ==> s.lock.Some?
    ensures a.Crash? || a.CommitLocal? ==> Enabled(s, a)
  {
  }

  /** Where a step goes whose file or store call fails; nothing but the place of
      its goroutine changes. */
  function AfterFailure(a: Action): Place
    requires a.RemoveStale? || a.CloseFails? || a.Commit? || a.WriteCheckpoint? || a.RemoveLock?
  {
    match a
    case RemoveStale(_, _) => Waiting
    case CloseFails(_, _) => Leaving
    case RemoveLock(_, _) => Leaving
    case _ => Unlocking
  }

  lemma FailedStepsOnlyMove(s: State, a: Action)
    requires Enabled(s, a)
    ensures (a.RemoveStale? || a.CloseFails? || a.RemoveLock?) && !a.removed ==>
              Next(s, a) == s.(place := s.place[a.t := AfterFailure(a)])
    ensures (a.Commit? || a.WriteCheckpoint?) && !a.ok ==> Next(s, a) == s.(place := s.place[a.t := AfterFailure(a)])
  {
  }

  /** A call that succeeds removes the file, adds the commit, or shows the commit
      that was made. */
  lemma SucceededSteps(s: State, a: Action)
    requires Enabled(s, a)
    ensures (a.RemoveStale? || a.CloseFails? || a.RemoveLock?) && a.removed ==>
              Next(s, a).lock == None && Next(s, a).commits == s.commits && Next(s, a).written == s.written
    ensures a.RemoveStale? && a.removed ==> Next(s, a).place == s.place[a.t := Trying]
    ensures a.Commit? && a.ok ==>
              && Next(s, a).commits == s.commits + [a.work] && Next(s, a).lock == s.lock
              && Next(s, a).place == s.place[a.t := Saved(|s.commits|)]
    ensures a.WriteCheckpoint? && a.ok ==>
              && Next(s, a).checkpoint == Some(s.commits[s.place[a.t].k]) && Next(s, a).commits == s.commits
              && Next(s, a).written == s.written + [s.place[a.t].k] && Next(s, a).place == s.place[a.t := Unlocking]
  {
  }

  // ------------------------------------------------------------------ properties

  predicate Inside(p: Place) { p.Holding? || p.Saved? || p.Unlocking? }

  /** t runs fn under the lock. */
  predicate InsideLock(s: State, t: Thread) { t in s.place && Inside(s.place[t]) }

  ghost predicate MutualExclusion(s: State) {
    forall t, u :: InsideLock(s, t) && InsideLock(s, u) ==> t == u
  }

  /** Whoever is inside owns the file. */
  ghost predicate Owned(s: State) { forall t :: InsideLock(s, t) ==> s.lock == Some(t) }

  ghost predicate StrictlyIncreasing(w: seq<nat>) { forall i, j :: 0 <= i < j < |w| ==> w[i] < w[j] }

  /** checkpoint.json shows a committed state, and commits are shown in order. */
  ghost predicate CheckpointGood(s: State) {
    && StrictlyIncreasing(s.written)
    && (forall i :: 0 <= i < |s.written| ==> s.written[i] < |s.commits|)
    && s.checkpoint == (if s.written == [] then None else Some(s.commits[s.written[|s.written| - 1]]))
  }

  /** A commit waiting to be shown is newer than everything shown. */
  ghost predicate PendingNewest(s: State) {
    forall t :: t in s.place && s.place[t].Saved? ==>
      s.place[t].k < |s.commits| && forall i :: 0 <= i < |s.written| ==> s.written[i] < s.place[t].k
  }

  /** One goroutine of a process at a time gets past the process mutex. */
  ghost predicate MutexHeld(s: State) {
    && (forall p :: p in s.mutex ==> s.mutex[p].process == p)
    && (forall t :: t in s.place && s.place[t] != Idle && s.place[t] != Dead ==>
        t.process in s.mutex && s.mutex[t.process] == t)
  }

  ghost predicate Inv(s: State) { Owned(s) && CheckpointGood(s) && PendingNewest(s) && MutexHeld(s) }

  ghost predicate Initial(s: State) {
    && (forall t :: t in s.place ==> s.place[t] == Idle)
    && s.mutex == map[] && s.lock == None && s.checkpoint == None && s.written == []
  }

  /** The one harmful step: a file judged stale is removed although its creator
      is inside. */
  predicate LiveSteal(s: State, a: Action) {
    a.RemoveStale? && a.removed && s.lock.Some? && InsideLock(s, s.lock.value)
  }

  lemma OwnedExcludes(s: State)
    requires Owned(s)
    ensures MutualExclusion(s)
  {
  }

  /** One step keeps ownership exactly when it does not steal from the living. */
  lemma StepKeepsOwnershipExactly(s: State, a: Action)
    requires Owned(s) && Enabled(s, a)
    ensures Owned(Next(s, a)) <==> !LiveSteal(s, a)
  {
    var n := Next(s, a);
    if LiveSteal(s, a) {
      assert s.lock.value != a.t;
      assert InsideLock(n, s.lock.value);
    } else {
      forall t | InsideLock(n, t) ensures n.lock == Some(t) {
        assert InsideLock(s, t) || a == CreateLock(t);
        if a.RemoveLock? || a.CloseFails? { assert InsideLock(s, a.t); }
      }
    }
  }

  lemma StepKeepsInv(s: State, a: Action)
    requires Inv(s) && Enabled(s, a) && !LiveSteal(s, a)
    ensures Inv(Next(s, a))
  {
    StepKeepsOwnershipExactly(s, a);
    StepKeepsMutex(s, a);
    StepKeepsCheckpoint(s, a);
  }

  lemma StepKeepsMutex(s: State, a: Action)
    requires MutexHeld(s) && Enabled(s, a)
    ensures MutexHeld(Next(s, a))
  {
    match a
    case Enter(t) => EnterKeepsMutex(s, t);
    case Exit(t) => ExitKeepsMutex(s, t);
    case Crash(p) => CrashKeepsMutex(s, p);
    case _ => MoveKeepsMutex(s, a);
  }

  lemma EnterKeepsMutex(s: State, t: Thread)
    requires MutexHeld(s) && Enabled(s, Enter(t))
    ensures MutexHeld(Next(s, Enter(t)))
  {
  }

  lemma ExitKeepsMutex(s: State, t: Thread)
    requires MutexHeld(s) && Enabled(s, Exit(t))
    ensures MutexHeld(Next(s, Exit(t)))
  {
  }

  lemma CrashKeepsMutex(s: State, p: nat)
    requires MutexHeld(s) && Enabled(s, Crash(p))
    ensures MutexHeld(Next(s, Crash(p)))
  {
  }

  /** In between nobody takes or leaves the mutex. */
  lemma MoveKeepsMutex(s: State, a: Action)
    requires MutexHeld(s) && Enabled(s, a) && !a.Enter? && !a.Exit? && !a.Crash?
    ensures MutexHeld(Next(s, a))
  {
    OthersLeaveMutex(s, a);
    hide Next, Enabled;
  }

  lemma OthersLeaveMutex(s: State, a: Action)
    requires Enabled(s, a) && !a.Enter? && !a.Exit? && !a.Crash?
    ensures var n := Next(s, a);
            && n.mutex == s.mutex
            && forall t :: t in n.place && n.place[t] != Idle && n.place[t] != Dead ==>
                 t in s.place && s.place[t] != Idle && s.place[t] != Dead
  {
  }

  lemma StepKeepsCheckpoint(s: State, a: Action)
    requires Inv(s) && Enabled(s, a) && !LiveSteal(s, a)
    ensures CheckpointGood(Next(s, a)) && PendingNewest(Next(s, a))
  {
    if a.WriteCheckpoint? {
      WriteKeepsCheckpoint(s, a);
    } else if a.Commit? {
      CommitKeepsCheckpoint(s, a);
    } else if a.CommitLocal? {
      assert Next(s, a).commits == s.commits + [a.work];
    } else {
      OthersKeepCheckpoint(s, a);
    }
  }

  lemma OthersKeepCheckpoint(s: State, a: Action)
    requires CheckpointGood(s) && PendingNewest(s) && Enabled(s, a)
    requires !a.WriteCheckpoint? && !a.Commit? && !a.CommitLocal?
    ensures CheckpointGood(Next(s, a)) && PendingNewest(Next(s, a))
  {
    OthersShowNothing(s, a);
    hide Next, Enabled;
  }

  lemma OthersShowNothing(s: State, a: Action)
    requires Enabled(s, a) && !a.WriteCheckpoint? && !a.Commit? && !a.CommitLocal?
    ensures var n := Next(s, a);
            && n.commits == s.commits && n.written == s.written && n.checkpoint == s.checkpoint
            && forall t :: t in n.place && n.place[t].Saved? ==> t in s.place && s.place[t] == n.place[t]
  {
  }

  lemma CommitKeepsCheckpoint(s: State, a: Action)
    requires CheckpointGood(s) && PendingNewest(s) && Enabled(s, a) && a.Commit?
    ensures CheckpointGood(Next(s, a)) && PendingNewest(Next(s, a))
  {
  }

  lemma WriteKeepsCheckpoint(s: State, a: Action)
    requires Inv(s) && Enabled(s, a) && a.WriteCheckpoint?
    ensures CheckpointGood(Next(s, a)) && PendingNewest(Next(s, a))
  {
    var n := Next(s, a);
    forall t | t in n.place && n.place[t].Saved? ensures false {
      assert InsideLock(s, t) && InsideLock(s, a.t);
    }
  }

  // ------------------------------------------------------------------------ runs

  /** The state after a run of enabled actions. */
  ghost predicate Runs(s: State, actions: seq<Action>)
    decreases |actions|, 0
  {
    |actions| == 0 || (Runs(s, actions[..|actions| - 1])
        && Enabled(After(s, actions[..|actions| - 1]), actions[|actions| - 1]))
  }

  ghost function After(s: State, actions: seq<Action>): State
    requires Runs(s, actions)
    decreases |actions|, 1
  {
    if |actions| == 0 then s else Next(After(s, actions[..|actions| - 1]), actions[|actions| - 1])
  }

  ghost predicate NoLiveSteal(s: State, actions: seq<Action>)
    requires Runs(s, actions)
    decreases |actions|
  {
    |actions| == 0
    || (NoLiveSteal(s, actions[..|actions| - 1])
        && !LiveSteal(After(s, actions[..|actions| - 1]), actions[|actions| - 1]))
  }

  /** In every interleaving without a live steal: one goroutine inside at a time,
      and checkpoint.json always shows a committed state, in commit order. */
  lemma {:induction false} RunsAreSafe(s: State, actions: seq<Action>)
    requires Initial(s) && Runs(s, actions) && NoLiveSteal(s, actions)
    ensures Inv(After(s, actions)) && MutualExclusion(After(s, actions))
    decreases |actions|
  {
    if |actions| > 0 {
      RunsAreSafe(s, actions[..|actions| - 1]);
      StepKeepsInv(After(s, actions[..|actions| - 1]), actions[|actions| - 1]);
    }
    OwnedExcludes(After(s, actions));
  }

  /** In particular when no lock file is ever seen older than five minutes. */
  lemma {:induction false} NothingStaleNothingStolen(s: State, actions: seq<Action>)
    requires Initial(s) && Runs(s, actions)
    requires forall a :: a in actions ==> !a.LooksStale?
    ensures NoLiveSteal(s, actions)
    ensures forall t :: t in After(s, actions).place ==> After(s, actions).place[t] != Stealing
    decreases |actions|
  {
    if |actions| > 0 {
      var shorter, a := actions[..|actions| - 1], actions[|actions| - 1];
      assert a in actions;
      assert forall b :: b in shorter ==> b in actions;
      NothingStaleNothingStolen(s, shorter);
      assert Enabled(After(s, shorter), a);
    }
  }

  lemma StepExtends(s: State, a: Action)
    requires Enabled(s, a)
    ensures s.written <= Next(s, a).written && s.commits <= Next(s, a).commits
  {
  }

  /** What a successful Save showed is never replaced by an older commit. */
  lemma {:induction false} CheckpointNeverGoesBack(s: State, actions: seq<Action>, n: nat)
    requires n <= |actions| && Runs(s, actions) && Runs(s, actions[..n])
    ensures After(s, actions[..n]).written <= After(s, actions).written
    ensures After(s, actions[..n]).commits <= After(s, actions).commits
    decreases |actions|
  {
    hide Next, Enabled;
    if n < |actions| {
      var shorter := actions[..|actions| - 1];
      assert shorter[..n] == actions[..n];
      CheckpointNeverGoesBack(s, shorter, n);
      StepExtends(After(s, shorter), actions[|actions| - 1]);
    } else {
      assert actions[..n] == actions;
    }
  }

  // ---------------------------------------------------------------- the exception

  lemma Extend(s: State, actions: seq<Action>, m: State, a: Action) returns (longer: seq<Action>, n: State)
    requires Runs(s, actions) && After(s, actions) == m && Enabled(m, a)
    ensures longer == actions + [a] && Runs(s, longer) && n == After(s, longer) == Next(m, a)
  {
    longer := actions + [a];
    assert longer[..|longer| - 1] == actions;
    n := After(s, longer);
  }

  lemma EmptyRun(s: State)
    ensures Runs(s, []) && After(s, []) == s
  {
  }

  /** A process dies holding the lock. */
  lemma AbandonedLock(s: State, a: Thread) returns (actions: seq<Action>, n: State)
    requires Initial(s) && At(s, a, Idle)
    ensures Runs(s, actions) && After(s, actions) == n
    ensures n.lock == Some(a) && n.mutex == map[] && n.commits == s.commits && n.written == [] && n.checkpoint == None
    ensures forall t :: t in s.place && t.process != a.process ==> At(n, t, Idle)
  {
    hide Runs, After;
    actions, n := [], s;
    EmptyRun(s);
    actions, n := Extend(s, actions, n, Enter(a));
    actions, n := Extend(s, actions, n, CreateLock(a));
    actions, n := Extend(s, actions, n, Crash(a.process));
  }

  /** A waiter finds the lock file stale. */
  lemma FindsItStale(s: State, before: seq<Action>, m: State, t: Thread) returns (actions: seq<Action>, n: State)
    requires Runs(s, before) && After(s, before) == m && At(m, t, Idle) && t.process !in m.mutex && m.lock.Some?
    ensures Runs(s, actions) && After(s, actions) == n
    ensures n == m.(place := m.place[t := Stealing], mutex := m.mutex[t.process := t])
  {
    hide Runs, After;
    actions, n := Extend(s, before, m, Enter(t));
    actions, n := Extend(s, actions, n, SeeLock(t));
    actions, n := Extend(s, actions, n, LooksStale(t));
  }

  /** Both remove what has the name by then, and both take the lock. */
  lemma BothSteal(s: State, before: seq<Action>, m: State, b: Thread, c: Thread)
    returns (actions: seq<Action>, n: State)
    requires Runs(s, before) && After(s, before) == m && b != c
    requires At(m, b, Stealing) && At(m, c, Stealing) && m.lock.Some?
    ensures Runs(s, actions) && After(s, actions) == n && At(n, b, Holding) && At(n, c, Holding)
    ensures n.commits == m.commits && n.written == m.written && n.checkpoint == m.checkpoint
  {
    hide Runs, After;
    actions, n := Extend(s, before, m, RemoveStale(b, true));
    actions, n := Extend(s, actions, n, CreateLock(b));
    actions, n := Extend(s, actions, n, RemoveStale(c, true));
    actions, n := Extend(s, actions, n, CreateLock(c));
  }

  /** Two inside: the later commit is shown first, the earlier one stays. */
  lemma BothWrite(s: State, before: seq<Action>, m: State, b: Thread, c: Thread)
    returns (actions: seq<Action>, n: State)
    requires Runs(s, before) && After(s, before) == m && b != c && At(m, b, Holding) && At(m, c, Holding)
    requires m.commits == [] && m.written == []
    ensures Runs(s, actions) && After(s, actions) == n
    ensures n.commits == ["b", "c"] && n.checkpoint == Some("b") && n.written == [1, 0]
  {
    hide Runs, After;
    actions, n := Extend(s, before, m, Commit(b, "b", true));
    actions, n := Extend(s, actions, n, Commit(c, "c", true));
    actions, n := Extend(s, actions, n, WriteCheckpoint(c, true));
    actions, n := Extend(s, actions, n, WriteCheckpoint(b, true));
  }

  /** Two waiters that judge one abandoned file stale: the second removes the
      first one's new file, both are inside, and the checkpoint ends behind the
      store. */
  lemma TwoWaitersStealTwice() returns (s: State, actions: seq<Action>, more: seq<Action>)
    ensures Initial(s) && Runs(s, actions) && !MutualExclusion(After(s, actions))
    ensures Runs(s, more) && After(s, more).commits == ["b", "c"] && After(s, more).checkpoint == Some("b")
    ensures !StrictlyIncreasing(After(s, more).written)
  {
    var a, b, c := Thread(0, 0), Thread(1, 0), Thread(2, 0);
    s := State(map[a := Idle, b := Idle, c := Idle], map[], None, [], None, []);
    hide Runs, After, Next, Enabled;
    var n;
    actions, n := AbandonedLock(s, a);
    actions, n := FindsItStale(s, actions, n, b);
    actions, n := FindsItStale(s, actions, n, c);
    actions, n := BothSteal(s, actions, n, b, c);
    assert InsideLock(n, b) && InsideLock(n, c);
    more, n := BothWrite(s, actions, n, b, c);
    assert n.written[0] == 1 && n.written[1] == 0;
  }
}
