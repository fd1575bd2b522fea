/** Bounded concurrent discovery: goroutines behind a semaphore, one result each
    on a buffered channel (internal/app/bootstrap_plan.go). */
module Discovery {
  import opened Text

  const MAX_CONCURRENCY: nat := 6

  /** install.ComponentState, opaque here. */
  type Component = string

  /** What a task sent: a component state, an error that stems from a cancelled or
      expired context, or any other error. */
  datatype Answer = Found(state: Component) | Interrupted | Broken

  /** Queued: at the select on the semaphore; Running: inside Run; Sent(failed):
      the result is on the channel; Ending: only the semaphore slot is left to
      give back; Finished: waitGroup.Done. */
  datatype Place = Queued | Running | Sent(failed: bool) | Ending | Finished

  datatype Delivery = Delivery(task: nat, answer: Answer)

  /** `slots` is the semaphore's fill, `results` the result channel, `cancelled`
      the work context, `stopped` the caller's context. */
  datatype State = State(place: seq<Place>, slots: nat, results: seq<Delivery>, cancelled: bool, stopped: bool)

  datatype Action =
    | Acquire(task: nat)
    | GiveUp(task: nat)
    | Return(task: nat, answer: Answer)
    | Cancel(task: nat)
    | Release(task: nat)
    | Stop

  predicate At(s: State, task: nat, p: Place) { task < |s.place| && s.place[task] == p }

  /** A send blocks while the channel is full. */
  predicate CanSend(s: State) { |s.results| < |s.place| }

  predicate Enabled(s: State, a: Action) {
    match a
    case Acquire(t) => At(s, t, Queued) && s.slots < MAX_CONCURRENCY
    case GiveUp(t) => At(s, t, Queued) && s.cancelled && CanSend(s)
    case Return(t, _) => At(s, t, Running) && CanSend(s)
    case Cancel(t) => At(s, t, Sent(true))
    case Release(t) => (At(s, t, Sent(false)) || At(s, t, Ending)) && s.slots > 0
    case Stop => true
  }

  function Move(s: State, task: nat, p: Place): State
    requires task < |s.place|
  {
    s.(place := s.place[task := p])
  }

  function Next(s: State, a: Action): State
    requires Enabled(s, a)
  {
    match a
    case Acquire(t) => Move(s.(slots := s.slots + 1), t, Running)
    case GiveUp(t) => Move(s.(results := s.results + [Delivery(t, Interrupted)]), t, Finished)
    case Return(t, answer) => Move(s.(results := s.results + [Delivery(t, answer)]), t, Sent(!answer.Found?))
    case Cancel(t) => Move(s.(cancelled := true), t, Ending)
    case Release(t) => Move(s.(slots := s.slots - 1), t, Finished)
    case Stop => s.(cancelled := true, stopped := true)
  }

  function Start(n: nat): State { State(seq(n, i => Queued), 0, [], false, false) }

  /** What holds a step back: a full semaphore, a full channel, a slot that is not
      held; only a cancelled run lets a queued task give up, and only a failure
      cancels it; the caller may stop the run at any time. */
  lemma GuardsExactly(s: State, t: nat)
    ensures Enabled(s, Acquire(t)) <==> At(s, t, Queued) && s.slots <= 5
    ensures Enabled(s, GiveUp(t)) <==> At(s, t, Queued) && s.cancelled && |s.results| + 1 <= |s.place|
    ensures forall a :: Enabled(s, Return(t, a)) <==> At(s, t, Running) && |s.results| + 1 <= |s.place|
    ensures Enabled(s, Cancel(t)) <==> At(s, t, Sent(true))
    ensures Enabled(s, Release(t)) <==> (At(s, t, Sent(false)) || At(s, t, Ending)) && s.slots >= 1
    ensures Enabled(s, Stop) && Next(s, Stop).stopped && Next(s, Stop).cancelled
    ensures !Start(t).cancelled && !Start(t).stopped && Start(t).results == [] && |Start(t).place| == t
  {
  }

  // ------------------------------------------------------------------- invariant

  predicate Inside(p: Place) { p.Running? || p.Sent? || p.Ending? }

  function HoldingSlots(s: State): set<nat> { set t: nat | t < |s.place| && Inside(s.place[t]) }

  function Answered(s: State): set<nat> { set t: nat | t < |s.place| && !s.place[t].Queued? && !s.place[t].Running? }

  function Senders(results: seq<Delivery>): set<nat> { set i | 0 <= i < |results| :: results[i].task }

  ghost predicate OneEach(results: seq<Delivery>) {
    forall i, j :: 0 <= i < j < |results| ==> results[i].task != results[j].task
  }

  ghost predicate Inv(s: State) {
    && s.slots == |HoldingSlots(s)| && s.slots <= MAX_CONCURRENCY
    && OneEach(s.results) && Senders(s.results) == Answered(s) && |s.results| == |Answered(s)|
    && (s.stopped ==> s.cancelled)
  }

  lemma BelowBound(tasks: set<nat>, n: nat)
    requires forall t :: t in tasks ==> t < n
    ensures |tasks| <= n
  {
    if n > 0 {
      BelowBound(tasks - {n - 1}, n - 1);
    } else {
      assert tasks == {};
    }
  }

  lemma MissingOne(tasks: set<nat>, n: nat, t: nat)
    requires (forall u :: u in tasks ==> u < n) && t < n && t !in tasks
    ensures |tasks| < n
  {
    BelowBound(tasks + {t}, n);
  }

  lemma StartIsGood(n: nat)
    ensures Inv(Start(n))
  {
  }

  /** At most six tasks run, and a task that has not answered can always send. */
  lemma InvBounds(s: State, t: nat)
    requires Inv(s) && t < |s.place|
    ensures |set u: nat | u < |s.place| && s.place[u].Running?| <= MAX_CONCURRENCY
    ensures s.place[t].Queued? || s.place[t].Running? ==> CanSend(s)
  {
    var running := set u: nat | u < |s.place| && s.place[u].Running?;
    SubsetSize(running, HoldingSlots(s));
    if s.place[t].Queued? || s.place[t].Running? { MissingOne(Answered(s), |s.place|, t); }
  }

  lemma SubsetSize(a: set<nat>, b: set<nat>)
    requires a <= b
    ensures |a| <= |b|
  {
    assert b == a + (b - a);
  }

  lemma SendersGrow(results: seq<Delivery>, d: Delivery)
    ensures Senders(results + [d]) == Senders(results) + {d.task}
  {
    var longer := results + [d];
    assert longer[|results|].task == d.task;
    forall t | t in Senders(results) ensures t in Senders(longer) {
      var i :| 0 <= i < |results| && results[i].task == t;
      assert longer[i].task == t;
    }
  }

  lemma MovedSets(s: State, n: State, t: nat, p: Place)
    requires t < |s.place| && n.place == s.place[t := p]
    ensures HoldingSlots(n) == if Inside(p) then HoldingSlots(s) + {t} else HoldingSlots(s) - {t}
    ensures Answered(n) == if p.Queued? || p.Running? then Answered(s) - {t} else Answered(s) + {t}
  {
  }

  lemma Membership(s: State, t: nat)
    requires t < |s.place|
    ensures t in HoldingSlots(s) <==> Inside(s.place[t])
    ensures t in Answered(s) <==> !s.place[t].Queued? && !s.place[t].Running?
  {
  }

  lemma SendKeepsResults(s: State, d: Delivery)
    requires Inv(s) && d.task < |s.place| && d.task !in Answered(s)
    ensures OneEach(s.results + [d]) && Senders(s.results + [d]) == Answered(s) + {d.task}
    ensures |s.results + [d]| == |Answered(s) + {d.task}|
  {
    SendersGrow(s.results, d);
    forall i | 0 <= i < |s.results| ensures s.results[i].task != d.task {
      assert s.results[i].task in Senders(s.results);
    }
  }

  lemma SameSets(s: State, n: State)
    requires n.place == s.place
    ensures HoldingSlots(n) == HoldingSlots(s) && Answered(n) == Answered(s)
  {
  }

  lemma AcquireKeepsInv(s: State, t: nat)
    requires Inv(s) && Enabled(s, Acquire(t))
    ensures Inv(Next(s, Acquire(t)))
  {
    hide HoldingSlots, Senders, Answered, OneEach;
    Membership(s, t);
    MovedSets(s, Next(s, Acquire(t)), t, Running);
    assert Answered(s) - {t} == Answered(s);
  }

  lemma SendKeepsInv(s: State, a: Action)
    requires Inv(s) && Enabled(s, a) && (a.GiveUp? || a.Return?)
    ensures Inv(Next(s, a))
  {
    hide HoldingSlots, Senders, Answered, OneEach;
    var answer := if a.GiveUp? then Interrupted else a.answer;
    Membership(s, a.task);
    SendKeepsResults(s, Delivery(a.task, answer));
    MovedSets(s, Next(s, a), a.task, if a.GiveUp? then Finished else Sent(!answer.Found?));
    assert a.GiveUp? ==> HoldingSlots(s) - {a.task} == HoldingSlots(s);
    assert a.Return? ==> HoldingSlots(s) + {a.task} == HoldingSlots(s);
  }

  lemma CancelKeepsInv(s: State, t: nat)
    requires Inv(s) && Enabled(s, Cancel(t))
    ensures Inv(Next(s, Cancel(t)))
  {
    hide HoldingSlots, Senders, Answered, OneEach;
    Membership(s, t);
    MovedSets(s, Next(s, Cancel(t)), t, Ending);
    assert Answered(s) + {t} == Answered(s) && HoldingSlots(s) + {t} == HoldingSlots(s);
  }

  lemma ReleaseKeepsInv(s: State, t: nat)
    requires Inv(s) && Enabled(s, Release(t))
    ensures Inv(Next(s, Release(t)))
  {
    hide HoldingSlots, Senders, Answered, OneEach;
    Membership(s, t);
    MovedSets(s, Next(s, Release(t)), t, Finished);
    assert Answered(s) + {t} == Answered(s);
  }

  lemma StepKeepsInv(s: State, a: Action)
    requires Inv(s) && Enabled(s, a)
    ensures Inv(Next(s, a))
  {
    match a
    case Acquire(t) => AcquireKeepsInv(s, t);
    case GiveUp(_) => SendKeepsInv(s, a);
    case Return(_, _) => SendKeepsInv(s, a);
    case Cancel(t) => CancelKeepsInv(s, t);
    case Release(t) => ReleaseKeepsInv(s, t);
    case Stop => SameSets(s, Next(s, a));
  }

  // ------------------------------------------------------------------------ runs

  ghost predicate Runs(s: State, actions: seq<Action>)
    decreases |actions|, 0
  {
    |actions| == 0 || (Runs(s, actions[..|actions| - 1])
        && Enabled(After(s, actions[..|actions| - 1]), actions[|actions| - 1]))
  }

  ghost function After(s: State, actions: seq<Action>): State
    requires Runs(s, actions)
    decreases |actions|, 1
  {
    if |actions| == 0 then s else Next(After(s, actions[..|actions| - 1]), actions[|actions| - 1])
  }

  /** Steps a task still has to make. */
  ghost function Left(p: Place): nat {
    match p
    case Queued => 4
    case Running => 3
    case Sent(failed) => if failed then 2 else 1
    case Ending => 1
    case Finished => 0
  }

  ghost function Measure(place: seq<Place>): nat { if |place| == 0 then 0
      else Left(place[|place| - 1]) + Measure(place[..|place| - 1]) }

  lemma {:induction false} MeasureUpdate(place: seq<Place>, t: nat, p: Place)
    requires t < |place|
    ensures Measure(place[t := p]) == Measure(place) - Left(place[t]) + Left(p)
  {
    var n := |place| - 1;
    var after := place[t := p];
    if t == n {
      assert after[..n] == place[..n];
    } else {
      assert after[..n] == place[..n][t := p];
      MeasureUpdate(place[..n], t, p);
    }
  }

  /** A task's own step always brings the wait group closer to its end. */
  lemma TaskStepsDecrease(s: State, a: Action)
    requires Enabled(s, a) && !a.Stop?
    ensures Measure(Next(s, a).place) < Measure(s.place)
  {
    MeasureUpdate(s.place, a.task, Next(s, a).place[a.task]);
  }

  ghost predicate AllFinished(s: State) { forall t :: 0 <= t < |s.place| ==> s.place[t] == Finished }

  /** Nothing ever deadlocks: while a task is unfinished some task can step. */
  lemma SomeTaskCanStep(s: State, answer: Answer)
    requires Inv(s) && !AllFinished(s)
    ensures exists a: Action :: !a.Stop? && Enabled(s, a)
  {
    var t: nat :| t < |s.place| && s.place[t] != Finished;
    if HoldingSlots(s) == {} {
      assert !Inside(s.place[t]) by { assert t !in HoldingSlots(s); }
      assert Enabled(s, Acquire(t));
    } else {
      var u :| u in HoldingSlots(s);
      InvBounds(s, u);
      match s.place[u]
      case Running => assert Enabled(s, Return(u, answer));
      case Sent(failed) => assert Enabled(s, if failed then Cancel(u) else Release(u));
      case Ending => assert Enabled(s, Release(u));
    }
  }

  lemma {:induction false} RunsKeepInv(n: nat, actions: seq<Action>)
    requires Runs(Start(n), actions)
    ensures Inv(After(Start(n), actions)) && |After(Start(n), actions).place| == n
    ensures |actions| + Measure(After(Start(n), actions).place) <= 4 * n + Stops(actions)
    decreases |actions|
  {
    if |actions| > 0 {
      RunsKeepInv(n, actions[..|actions| - 1]);
      var before, a := After(Start(n), actions[..|actions| - 1]), actions[|actions| - 1];
      StepKeepsInv(before, a);
      if !a.Stop? { TaskStepsDecrease(before, a); }
    } else {
      StartIsGood(n);
      StartMeasure(seq(n, i => Queued));
    }
  }

  lemma {:induction false} StartMeasure(place: seq<Place>)
    requires forall i :: 0 <= i < |place| ==> place[i] == Queued
    ensures Measure(place) == 4 * |place|
  {
    if |place| > 0 { StartMeasure(place[..|place| - 1]); }
  }

  ghost function Stops(actions: seq<Action>): nat {
    if |actions| == 0 then 0
    else Stops(actions[..|actions| - 1]) + if actions[|actions| - 1].Stop? then 1 else 0
  }

  // ------------------------------------------------------------------ conclusion

  datatype Result = Result(name: string, answer: Answer)

  datatype Verdict = Plan(components: map<string, Component>) | QueryFailed(name: string) | ContextError

  predicate ByName(a: Result, b: Result) { AtMost(a.name, b.name) }

  ghost predicate SortedByName(s: seq<Result>) { forall i, j :: 0 <= i < j < |s| ==> ByName(s[i], s[j]) }

  function Insert(x: Result, s: seq<Result>): (r: seq<Result>)
    ensures forall y :: y in r <==> y == x || y in s
    ensures |r| == |s| + 1
  {
    if |s| == 0 then [x]
    else if Less(x.name, s[0].name) then [x] + s
    else
      assert s == [s[0]] + s[1..];
      [s[0]] + Insert(x, s[1..])
  }

  lemma {:induction false} InsertSorts(x: Result, s: seq<Result>)
    requires SortedByName(s)
    ensures SortedByName(Insert(x, s))
  {
    if |s| > 0 {
      LessIsStrictTotal(x.name, s[0].name);
      if Less(x.name, s[0].name) {
        forall j | 0 <= j < |s| ensures ByName(x, s[j]) { AtMostTransitive(x.name, s[0].name, s[j].name); }
      } else {
        InsertSorts(x, s[1..]);
        var rest := Insert(x, s[1..]);
        forall j | 0 <= j < |rest| ensures ByName(s[0], rest[j]) {
          assert rest[j] == x || rest[j] in s[1..];
        }
      }
    }
  }

  /** sort.SliceStable by name: equal names keep their order. */
  function SortByName(s: seq<Result>): (r: seq<Result>)
    ensures forall y :: y in r <==> y in s
    ensures |r| == |s|
  {
    if |s| == 0 then []
    else
      assert s == s[..|s| - 1] + [s[|s| - 1]];
      Insert(s[|s| - 1], SortByName(s[..|s| - 1]))
  }

  lemma {:induction false} SortByNameSorts(s: seq<Result>)
    ensures SortedByName(SortByName(s))
  {
    if |s| > 0 {
      SortByNameSorts(s[..|s| - 1]);
      InsertSorts(s[|s| - 1], SortByName(s[..|s| - 1]));
    }
  }

  /** The last answer under a name, if there is one. */
  function LastNamed(s: seq<Result>, name: string): Option<Answer> {
    if |s| == 0 then None
    else if s[|s| - 1].name == name then Some(s[|s| - 1].answer)
    else LastNamed(s[..|s| - 1], name)
  }

  lemma {:induction false} LastNamedMeans(s: seq<Result>, name: string)
    ensures LastNamed(s, name).None? <==> forall x :: x in s ==> x.name != name
    ensures LastNamed(s, name).Some? ==> exists x :: x in s && x.name == name && x.answer == LastNamed(s, name).value
  {
    if |s| > 0 {
      assert s == s[..|s| - 1] + [s[|s| - 1]];
      LastNamedMeans(s[..|s| - 1], name);
    }
  }

  lemma {:induction false} LastNamedBehind(x: Result, s: seq<Result>, name: string)
    ensures LastNamed([x] + s, name)
            == if LastNamed(s, name).Some? then LastNamed(s, name) else if x.name == name then Some(x.answer) else None
  {
    if |s| > 0 {
      assert ([x] + s)[..|s|] == [x] + s[..|s| - 1];
      LastNamedBehind(x, s[..|s| - 1], name);
    } else {
      assert [x] + s == [x] && [x][..0] == [];
    }
  }

  /** Insertion puts a result behind those of its name. */
  lemma {:induction false} InsertedIsLast(x: Result, s: seq<Result>, name: string)
    requires SortedByName(s)
    ensures LastNamed(Insert(x, s), name) == if x.name == name then Some(x.answer) else LastNamed(s, name)
  {
    LastNamedMeans([], name);
    hide LastNamed;
    if |s| == 0 {
      LastNamedBehind(x, [], name);
      assert [x] + [] == [x] && s == [];
    } else if Less(x.name, s[0].name) {
      LastNamedBehind(x, s, name);
      LastNamedMeans(s, name);
      if x.name == name { NoneBelow(x, s); }
    } else {
      InsertedIsLast(x, s[1..], name);
      LastNamedBehind(s[0], s[1..], name);
      LastNamedBehind(s[0], Insert(x, s[1..]), name);
      assert s == [s[0]] + s[1..];
    }
  }

  lemma NoneBelow(x: Result, s: seq<Result>)
    requires |s| > 0 && SortedByName(s) && Less(x.name, s[0].name)
    ensures forall y :: y in s ==> y.name != x.name
  {
    hide Less;
    forall y | y in s ensures y.name != x.name {
      var i :| 0 <= i < |s| && s[i] == y;
      if i > 0 { assert ByName(s[0], s[i]); }
      LessIsStrictTotal(x.name, s[0].name);
      LessIsStrictTotal(s[0].name, x.name);
    }
  }

  /** Sorting keeps the last answer of every name. */
  lemma {:induction false} SortKeepsLast(s: seq<Result>, name: string)
    ensures LastNamed(SortByName(s), name) == LastNamed(s, name)
  {
    hide Insert;
    if |s| > 0 {
      SortKeepsLast(s[..|s| - 1], name);
      SortByNameSorts(s[..|s| - 1]);
      InsertedIsLast(s[|s| - 1], SortByName(s[..|s| - 1]), name);
    }
  }

  /** Every name with the state that arrived last under it. */
  ghost predicate MapOf(m: map<string, Component>, results: seq<Result>) {
    forall name ::
      && (name in m <==> LastNamed(results, name).Some?)
      && (name in m ==> LastNamed(results, name) == Some(Found(m[name])))
  }

  /** From the closed channel to the answer of the call: no error exactly when
      every task found its state and the caller was not stopped; the first real
      error by name is the one reported. */
  method Conclude(results: seq<Result>, stopped: bool) returns (verdict: Verdict)
    ensures verdict.Plan? <==> !stopped && forall r :: r in results ==> r.answer.Found?
    ensures verdict.Plan? ==> MapOf(verdict.components, results)
    ensures verdict.QueryFailed? <==> exists r :: r in results && r.answer.Broken?
    ensures verdict.QueryFailed? ==>
              && (exists r :: r in results && r.answer.Broken? && r.name == verdict.name)
              && forall r :: r in results && r.answer.Broken? ==> AtMost(verdict.name, r.name)
  {
    hide Less, AtMost, Insert, SortByName, ByName, LastNamed;
    var ordered := SortByName(results);
    SortByNameSorts(results);
    for n := 0 to |ordered|
      invariant forall i :: 0 <= i < n ==> !ordered[i].answer.Broken?
    {
      if ordered[n].answer.Broken? {
        FirstBroken(results, ordered, n);
        return QueryFailed(ordered[n].name);
      }
    }
    assert forall r :: r in results ==> r in ordered;
    if stopped { return ContextError; }
    for n := 0 to |ordered|
      invariant forall i :: 0 <= i < n ==> ordered[i].answer.Found?
    {
      if !ordered[n].answer.Found? {
        assert ordered[n] in results;
        return ContextError;
      }
    }
    var plan := Assemble(ordered);
    forall name { SortKeepsLast(results, name); }
    return Plan(plan);
  }

  /** The last loop: a later result of the same name replaces an earlier one. */
  method Assemble(ordered: seq<Result>) returns (plan: map<string, Component>)
    requires forall i :: 0 <= i < |ordered| ==> ordered[i].answer.Found?
    ensures MapOf(plan, ordered)
  {
    plan := map[];
    for n := 0 to |ordered|
      invariant MapOf(plan, ordered[..n])
    {
      assert ordered[..n + 1][..n] == ordered[..n];
      plan := plan[ordered[n].name := ordered[n].answer.state];
    }
    assert ordered[..|ordered|] == ordered;
  }

  lemma FirstBroken(results: seq<Result>, ordered: seq<Result>, n: nat)
    requires SortedByName(ordered) && n < |ordered| && ordered[n].answer.Broken?
    requires forall i :: 0 <= i < n ==> !ordered[i].answer.Broken?
    requires forall r :: r in results <==> r in ordered
    ensures ordered[n] in results
    ensures forall r :: r in results && r.answer.Broken? ==> AtMost(ordered[n].name, r.name)
  {
    hide AtMost;
    forall r | r in results && r.answer.Broken? ensures AtMost(ordered[n].name, r.name) {
      FirstIsLeast(ordered, n, r);
    }
  }

  lemma FirstIsLeast(ordered: seq<Result>, n: nat, r: Result)
    requires SortedByName(ordered) && n < |ordered| && r in ordered && r.answer.Broken?
    requires forall i :: 0 <= i < n ==> !ordered[i].answer.Broken?
    ensures AtMost(ordered[n].name, r.name)
  {
    var j :| 0 <= j < |ordered| && ordered[j] == r;
    if n < j { assert ByName(ordered[n], ordered[j]); }
  }

  ghost predicate Named(names: seq<string>, deliveries: seq<Delivery>, results: seq<Result>) {
    && |results| == |deliveries|
    && forall i :: 0 <= i < |deliveries| ==>
         deliveries[i].task < |names| && results[i] == Result(names[deliveries[i].task], deliveries[i].answer)
  }

  /** Two complete schedules of the same tasks in which every task found the same
      state yield the same plan, whatever order they ran in. */
  lemma PlanIsScheduleIndependent(names: seq<string>, one: seq<Action>, two: seq<Action>, first: seq<Result>,
                                  second: seq<Result>, p: map<string, Component>, q: map<string, Component>)
    requires forall i, j :: 0 <= i < j < |names| ==> names[i] != names[j]
    requires Runs(Start(|names|), one) && AllFinished(After(Start(|names|), one))
    requires Runs(Start(|names|), two) && AllFinished(After(Start(|names|), two))
    requires Named(names, After(Start(|names|), one).results, first)
    requires Named(names, After(Start(|names|), two).results, second)
    requires forall a, b :: a in first && b in second && a.name == b.name ==> a.answer == b.answer
    requires MapOf(p, first) && MapOf(q, second)
    ensures p == q && p.Keys == set name | name in names
  {
    EveryTaskAnswers(names, one, first);
    EveryTaskAnswers(names, two, second);
    SamePlan(names, first, second, p, q);
  }

  ghost predicate Covers(names: seq<string>, results: seq<Result>) {
    forall name :: name in names <==> exists r :: r in results && r.name == name
  }

  lemma PlanHas(names: seq<string>, results: seq<Result>, p: map<string, Component>, name: string)
    requires Covers(names, results) && MapOf(p, results)
    ensures name in p <==> name in names
    ensures name in p ==> exists r :: r in results && r.name == name && r.answer == Found(p[name])
  {
    LastNamedMeans(results, name);
    assert name in p <==> LastNamed(results, name).Some?;
  }

  lemma SamePlan(names: seq<string>, first: seq<Result>, second: seq<Result>, p: map<string, Component>,
                 q: map<string, Component>)
    requires Covers(names, first) && Covers(names, second) && MapOf(p, first) && MapOf(q, second)
    requires forall a, b :: a in first && b in second && a.name == b.name ==> a.answer == b.answer
    ensures p == q && p.Keys == set name | name in names
  {
    hide Covers, MapOf;
    forall name ensures (name in p <==> name in names) && (name in q <==> name in names) {
      PlanHas(names, first, p, name);
      PlanHas(names, second, q, name);
    }
    forall name | name in p ensures q[name] == p[name] {
      PlanHas(names, first, p, name);
      PlanHas(names, second, q, name);
      var a :| a in first && a.name == name && a.answer == Found(p[name]);
      var b :| b in second && b.name == name && b.answer == Found(q[name]);
    }
  }

  function Range(n: nat): (r: set<nat>)
    ensures |r| == n && forall t: nat :: t in r <==> t < n
  {
    if n == 0 then {} else Range(n - 1) + {n - 1}
  }

  /** When all goroutines are done each task has sent exactly one result. */
  lemma EveryTaskAnswers(names: seq<string>, actions: seq<Action>, results: seq<Result>)
    requires Runs(Start(|names|), actions) && AllFinished(After(Start(|names|), actions))
    requires Named(names, After(Start(|names|), actions).results, results)
    ensures |results| == |names| && Covers(names, results)
  {
    RunsKeepInv(|names|, actions);
    FinishedCovers(names, After(Start(|names|), actions), results);
  }

  lemma FinishedCovers(names: seq<string>, s: State, results: seq<Result>)
    requires Inv(s) && AllFinished(s) && |s.place| == |names| && Named(names, s.results, results)
    ensures |results| == |names| && Covers(names, results)
  {
    AllHaveSent(s);
    hide Inv, AllFinished;
    forall name | name in names ensures exists r :: r in results && r.name == name {
      var t: nat :| t < |names| && names[t] == name;
      SentByTask(names, s.results, results, t);
    }
    forall r | r in results ensures r.name in names {
      var i :| 0 <= i < |results| && results[i] == r;
    }
  }

  lemma AllHaveSent(s: State)
    requires Inv(s) && AllFinished(s)
    ensures Senders(s.results) == Range(|s.place|) && |s.results| == |s.place|
  {
    assert Answered(s) == Range(|s.place|);
  }

  lemma SentByTask(names: seq<string>, deliveries: seq<Delivery>, results: seq<Result>, t: nat)
    requires Named(names, deliveries, results) && t < |names| && t in Senders(deliveries)
    ensures exists r :: r in results && r.name == names[t]
  {
    var i :| 0 <= i < |deliveries| && deliveries[i].task == t;
    assert results[i] in results;
  }
}
