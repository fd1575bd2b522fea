/** Merging saved work states (internal/continuity/continuity.go). */
module Continuity {
  import opened Text
  import opened FileSystem

  // ----------------------------------------------------------- bounded merging

  /** The first element of each key that is not in `seen`, in order. */
  function New<T>(seen: set<string>, s: seq<T>, key: T -> string): (r: seq<T>)
    ensures |r| <= |s|
    decreases |s|
  {
    if |s| == 0 then []
    else if key(s[0]) in seen then New(seen, s[1..], key)
    else [s[0]] + New(seen + {key(s[0])}, s[1..], key)
  }

  function KeysOf<T>(s: seq<T>, key: T -> string): set<string> {
    if |s| == 0 then {} else {key(s[0])} + KeysOf(s[1..], key)
  }

  function Take<T>(s: seq<T>, n: nat): (r: seq<T>)
    ensures r <= s && |r| == if |s| < n then |s| else n
  {
    if |s| < n then s else s[..n]
  }

  /** A limit below one still lets the first element in. */
  function Cap(limit: int): nat { if limit < 1 then 1 else limit }

  /** Both lists in order, each key once, up to the limit. */
  function Merged<T>(seen: set<string>, existing: seq<T>, next: seq<T>, key: T -> string, limit: int): seq<T> {
    Take(New(seen, existing + next, key), Cap(limit))
  }

  lemma {:induction false} NewAppend<T>(seen: set<string>, a: seq<T>, b: seq<T>, key: T -> string)
    ensures New(seen, a + b, key) == New(seen, a, key) + New(seen + KeysOf(a, key), b, key)
    ensures KeysOf(a + b, key) == KeysOf(a, key) + KeysOf(b, key)
    decreases |a|
  {
    if |a| == 0 {
      assert a + b == b && seen + KeysOf(a, key) == seen;
    } else {
      assert (a + b)[1..] == a[1..] + b;
      var k := key(a[0]);
      var grown := if k in seen then seen else seen + {k};
      NewAppend(grown, a[1..], b, key);
      assert grown + KeysOf(a[1..], key) == seen + KeysOf(a, key);
    }
  }

  /** What has been filtered with a smaller set filters the same again. */
  lemma {:induction false} NewOfNew<T>(small: set<string>, seen: set<string>, s: seq<T>, key: T -> string)
    requires small <= seen
    ensures New(seen, New(small, s, key), key) == New(seen, s, key)
    decreases |s|
  {
    if |s| > 0 {
      var k := key(s[0]);
      if k in small {
        NewOfNew(small, seen, s[1..], key);
      } else {
        var rest := New(small + {k}, s[1..], key);
        assert New(small, s, key) == [s[0]] + rest && ([s[0]] + rest)[1..] == rest;
        NewOfNew(small + {k}, seen + {k}, s[1..], key);
        if k in seen { assert seen + {k} == seen; }
      }
    }
  }

  lemma {:induction false} NewKeys<T>(seen: set<string>, s: seq<T>, key: T -> string)
    ensures seen + KeysOf(New(seen, s, key), key) == seen + KeysOf(s, key)
    decreases |s|
  {
    if |s| > 0 {
      var k := key(s[0]);
      if k in seen {
        NewKeys(seen, s[1..], key);
      } else {
        var rest := New(seen + {k}, s[1..], key);
        assert ([s[0]] + rest)[1..] == rest;
        NewKeys(seen + {k}, s[1..], key);
        calc {
          seen + KeysOf([s[0]] + rest, key);
          (seen + {k}) + KeysOf(rest, key);
          (seen + {k}) + KeysOf(s[1..], key);
          seen + KeysOf(s, key);
        }
      }
    }
  }

  /** A list all of whose keys are new and different. */
  ghost predicate Clean<T>(seen: set<string>, s: seq<T>, key: T -> string) { New(seen, s, key) == s }

  lemma NewIsClean<T>(seen: set<string>, s: seq<T>, key: T -> string)
    ensures Clean(seen, New(seen, s, key), key)
  {
    NewOfNew(seen, seen, s, key);
  }

  lemma CleanPrefix<T>(seen: set<string>, s: seq<T>, n: nat, key: T -> string)
    requires Clean(seen, s, key) && n <= |s|
    ensures Clean(seen, s[..n], key)
  {
    assert s == s[..n] + s[n..];
    NewAppend(seen, s[..n], s[n..], key);
  }

  /** The head of a clean list has a new key, and the rest is clean behind it. */
  lemma CleanHead<T>(seen: set<string>, s: seq<T>, key: T -> string)
    requires |s| > 0 && Clean(seen, s, key)
    ensures key(s[0]) !in seen && Clean(seen + {key(s[0])}, s[1..], key)
  {
    assert |New(seen, s[1..], key)| < |s|;
    assert s == [s[0]] + s[1..];
    assert s[1..] == New(seen + {key(s[0])}, s[1..], key);
  }

  /** Filtering a clean list with more keys loses at most one element a key. */
  lemma {:induction false} FewLost<T>(seen: set<string>, more: set<string>, s: seq<T>, key: T -> string)
    requires Clean(seen, s, key) && seen !! more
    ensures |New(seen + more, s, key)| + |more| >= |s|
    decreases |s|
  {
    if |s| > 0 {
      var k := key(s[0]);
      CleanHead(seen, s, key);
      hide Clean;
      if k in more {
        FewLost(seen + {k}, more - {k}, s[1..], key);
        assert (seen + {k}) + (more - {k}) == seen + more;
      } else {
        FewLost(seen + {k}, more, s[1..], key);
        assert (seen + {k}) + more == (seen + more) + {k};
      }
    }
  }

  lemma {:induction false} CleanKeyCount<T>(seen: set<string>, s: seq<T>, key: T -> string)
    requires Clean(seen, s, key)
    ensures |KeysOf(s, key)| == |s| && KeysOf(s, key) !! seen
    decreases |s|
  {
    if |s| > 0 {
      var k := key(s[0]);
      CleanHead(seen, s, key);
      CleanKeyCount(seen + {k}, s[1..], key);
    }
  }

  /** Cutting the left operand first changes nothing. */
  lemma CutLeft<T>(seen: set<string>, x: seq<T>, y: seq<T>, key: T -> string, n: nat)
    ensures Take(New(seen, Take(New(seen, x, key), n) + y, key), n) == Take(New(seen, x + y, key), n)
  {
    var d := New(seen, x, key);
    var t := Take(d, n);
    NewIsClean(seen, x, key);
    CleanPrefix(seen, d, |t|, key);
    NewAppend(seen, t, y, key);
    NewAppend(seen, x, y, key);
    if |d| <= n { NewKeys(seen, x, key); }
  }

  /** Neither does cutting the right one: it loses no more than the left
      operand makes superfluous. */
  lemma CutRight<T>(seen: set<string>, x: seq<T>, y: seq<T>, key: T -> string, n: nat)
    ensures Take(New(seen, x + Take(New(seen, y, key), n), key), n) == Take(New(seen, x + y, key), n)
  {
    hide New, KeysOf;
    var d := New(seen, y, key);
    var left := New(seen, x, key);
    var known := seen + KeysOf(x, key);
    NewAppend(seen, x, y, key);
    NewAppend(seen, x, Take(d, n), key);
    NewOfNew(seen, known, y, key);
    if |d| > n {
      var t := d[..n];
      assert d == t + d[n..];
      NewAppend(known, t, d[n..], key);
      EnoughLeft(seen, x, y, key, n);
      TakeStable(left, New(known, t, key), New(known + KeysOf(t, key), d[n..], key), n);
    } else {
      assert Take(d, n) == d;
    }
  }

  lemma TakeStable<T>(l: seq<T>, a: seq<T>, rest: seq<T>, n: nat)
    requires |l| + |a| >= n
    ensures Take(l + a, n) == Take(l + (a + rest), n)
  {
  }

  lemma EnoughLeft<T>(seen: set<string>, x: seq<T>, y: seq<T>, key: T -> string, n: nat)
    requires |New(seen, y, key)| > n
    ensures |New(seen, x, key)| + |New(seen + KeysOf(x, key), New(seen, y, key)[..n], key)| >= n
  {
    hide New, KeysOf;
    var d := New(seen, y, key);
    var left := New(seen, x, key);
    NewIsClean(seen, y, key);
    NewIsClean(seen, x, key);
    NewKeys(seen, x, key);
    CleanPrefix(seen, d, n, key);
    CleanKeyCount(seen, left, key);
    FewLost(seen, KeysOf(left, key), d[..n], key);
  }

  /** Bounded merging is associative at any fixed limit. */
  lemma MergedIsAssociative<T>(seen: set<string>, a: seq<T>, b: seq<T>, c: seq<T>, key: T -> string, limit: int)
    ensures Merged(seen, Merged(seen, a, b, key, limit), c, key, limit)
              == Merged(seen, a, Merged(seen, b, c, key, limit), key, limit)
  {
    CutLeft(seen, a + b, c, key, Cap(limit));
    CutRight(seen, a, b + c, key, Cap(limit));
    assert (a + b) + c == a + (b + c);
  }

  /** A stored list: clean and within the limit. */
  ghost predicate Normal<T>(seen: set<string>, s: seq<T>, key: T -> string, limit: int) {
    Clean(seen, s, key) && |s| <= Cap(limit)
  }

  /** A merge keeps a stored list as a prefix, and a full one as it is. */
  lemma MergedExtends<T>(seen: set<string>, existing: seq<T>, next: seq<T>, key: T -> string, limit: int)
    ensures Normal(seen, Merged(seen, existing, next, key, limit), key, limit)
    ensures Normal(seen, existing, key, limit) ==> existing <= Merged(seen, existing, next, key, limit)
    ensures Normal(seen, existing, key, limit) && |existing| == Cap(limit) ==>
              Merged(seen, existing, next, key, limit) == existing
  {
    var all := New(seen, existing + next, key);
    NewIsClean(seen, existing + next, key);
    CleanPrefix(seen, all, |Take(all, Cap(limit))|, key);
    NewAppend(seen, existing, next, key);
  }

  /** Merging the same list again changes nothing. */
  lemma MergedTwice<T>(seen: set<string>, existing: seq<T>, next: seq<T>, key: T -> string, limit: int)
    ensures Merged(seen, Merged(seen, existing, next, key, limit), next, key, limit)
              == Merged(seen, existing, next, key, limit)
  {
    CutLeft(seen, existing + next, next, key, Cap(limit));
    NewAppend(seen, existing + next, next, key);
    NewAppend(seen, existing, next, key);
    NothingNew(seen + KeysOf(existing + next, key), next, key);
  }

  lemma {:induction false} NothingNew<T>(seen: set<string>, s: seq<T>, key: T -> string)
    requires KeysOf(s, key) <= seen
    ensures New(seen, s, key) == []
  {
    if |s| > 0 { NothingNew(seen, s[1..], key); }
  }

  // ------------------------------------------------------------------ work states

  datatype Status = Unset | Planned | InProgress | Blocked | TaskFailed | Completed | Interrupted

  datatype Task = Task(
    id: string, goal: string, status: Status, lastSuccessfulStep: string, currentStep: string, nextAction: string,
    completionVerified: bool, completionPolicy: string, verificationEvent: string, verificationKind: string,
    verificationScope: string, errorRef: string)

  datatype TestEvidence = TestEvidence(command: string, summary: string, status: string, observedAt: string)

  datatype ErrorEvidence = ErrorEvidence(class_: string, summary: string, files: seq<string>, observedAt: string)

  datatype Repository = Repository(
    head: string, branch: string, changedFiles: seq<string>, statusSummary: string, diffHash: string,
        observedAt: string)

  datatype WorkState = WorkState(
    projectId: string, projectName: string, activeTaskId: string, task: Task, repository: Repository,
        latestTest: TestEvidence,
    errors: seq<ErrorEvidence>, lastClient: string, sessionState: string, sessionId: string, updatedAt: nat)

  const FILE_LIMIT: nat := 500
  const ERROR_LIMIT: nat := 20

  function Same(s: string): string { s }

  function ErrorKey(e: ErrorEvidence): string { e.class_ + "\0" + e.summary }

  function UnionOf(existing: seq<string>, next: seq<string>, limit: int): seq<string> {
    Merged({""}, existing, next, Same, limit)
  }

  function ErrorsOf(existing: seq<ErrorEvidence>, next: seq<ErrorEvidence>, limit: int): seq<ErrorEvidence> {
    Merged({}, existing, next, ErrorKey, limit)
  }

  lemma NewSnoc<T>(seen: set<string>, s: seq<T>, x: T, key: T -> string)
    ensures New(seen, s + [x], key) == New(seen, s, key) + if key(x) in seen + KeysOf(s, key) then [] else [x]
    ensures KeysOf(s + [x], key) == KeysOf(s, key) + {key(x)}
  {
    NewAppend(seen, s, [x], key);
  }

  lemma NewPrefix<T>(seen: set<string>, s: seq<T>, n: nat, key: T -> string)
    requires n <= |s|
    ensures New(seen, s[..n], key) <= New(seen, s, key)
  {
    NewAppend(seen, s[..n], s[n..], key);
    assert s == s[..n] + s[n..];
  }

  /** One inner loop of unionStrings: it stops as soon as the limit is reached. */
  method UnionInto(merged: seq<string>, seen: set<string>, values: seq<string>, limit: int, ghost before: seq<string>)
    returns (result: seq<string>, grown: set<string>, full: bool)
    requires merged == New({""}, before, Same) && {""} + seen == {""} + KeysOf(before, Same) && |merged| < Cap(limit)
    ensures full ==> result == Take(New({""}, before + values, Same), Cap(limit)) && |result| == Cap(limit)
    ensures !full ==>
              && result == New({""}, before + values, Same) && |result| < Cap(limit)
              && {""} + grown == {""} + KeysOf(before + values, Same)
  {
    hide New, KeysOf;
    result, grown := merged, seen;
    assert before + values[..0] == before;
    for n := 0 to |values|
      invariant result == New({""}, before + values[..n], Same) && |result| < Cap(limit)
      invariant {""} + grown == {""} + KeysOf(before + values[..n], Same)
    {
      var value := values[n];
      assert before + values[..n + 1] == (before + values[..n]) + [value];
      NewSnoc({""}, before + values[..n], value, Same);
      if value != "" && value !in grown {
        grown := grown + {value};
        result := result + [value];
        if |result| >= limit {
          assert before + values[..n + 1] == (before + values)[..|before| + n + 1];
          NewPrefix({""}, before + values, |before| + n + 1, Same);
          return result, grown, true;
        }
      }
    }
    assert values[..|values|] == values;
    return result, grown, false;
  }

  method UnionStrings(existing: seq<string>, next: seq<string>, limit: int) returns (merged: seq<string>)
    ensures merged == UnionOf(existing, next, limit)
  {
    var seen, full;
    merged, seen, full := UnionInto([], {}, existing, limit, []);
    assert [] + existing == existing;
    if full {
      NewPrefix({""}, existing + next, |existing|, Same);
      assert (existing + next)[..|existing|] == existing;
      return;
    }
    merged, seen, full := UnionInto(merged, seen, next, limit, existing);
  }

  method ErrorsInto(merged: seq<ErrorEvidence>, seen: set<string>, values: seq<ErrorEvidence>, limit: int,
                    ghost before: seq<ErrorEvidence>)
    returns (result: seq<ErrorEvidence>, grown: set<string>, full: bool)
    requires merged == New({}, before, ErrorKey) && seen == KeysOf(before, ErrorKey) && |merged| < Cap(limit)
    ensures full ==> result == Take(New({}, before + values, ErrorKey), Cap(limit)) && |result| == Cap(limit)
    ensures !full ==>
              && result == New({}, before + values, ErrorKey) && |result| < Cap(limit)
              && grown == KeysOf(before + values, ErrorKey)
  {
    hide New, KeysOf, ErrorKey;
    result, grown := merged, seen;
    assert before + values[..0] == before;
    for n := 0 to |values|
      invariant result == New({}, before + values[..n], ErrorKey) && |result| < Cap(limit)
      invariant grown == KeysOf(before + values[..n], ErrorKey)
    {
      var value := values[n];
      assert before + values[..n + 1] == (before + values[..n]) + [value];
      NewSnoc({}, before + values[..n], value, ErrorKey);
      if ErrorKey(value) !in grown {
        grown := grown + {ErrorKey(value)};
        result := result + [value];
        if |result| >= limit {
          assert before + values[..n + 1] == (before + values)[..|before| + n + 1];
          NewPrefix({}, before + values, |before| + n + 1, ErrorKey);
          return result, grown, true;
        }
      }
    }
    assert values[..|values|] == values;
    return result, grown, false;
  }

  method MergeErrors(existing: seq<ErrorEvidence>, next: seq<ErrorEvidence>, limit: int)
    returns (merged: seq<ErrorEvidence>)
    ensures merged == ErrorsOf(existing, next, limit)
  {
    var seen, full;
    merged, seen, full := ErrorsInto([], {}, existing, limit, []);
    assert [] + existing == existing;
    if full {
      NewPrefix({}, existing + next, |existing|, ErrorKey);
      assert (existing + next)[..|existing|] == existing;
      return;
    }
    merged, seen, full := ErrorsInto(merged, seen, next, limit, existing);
  }

  // -------------------------------------------------------------------- merging

  function Or(next: string, existing: string): string { if next == "" then existing else next }

  function MergeTask(e: Task, n: Task): Task {
    Task(
      Or(n.id, e.id), Or(n.goal, e.goal),
      if n.status == Unset || (n.status == InProgress && e.status == Completed && !n.completionVerified) then e.status
          else n.status,
      Or(n.lastSuccessfulStep, e.lastSuccessfulStep), Or(n.currentStep, e.currentStep), Or(n.nextAction, e.nextAction),
      n.completionVerified || e.completionVerified, Or(n.completionPolicy, e.completionPolicy),
      Or(n.verificationEvent, e.verificationEvent), Or(n.verificationKind, e.verificationKind),
      Or(n.verificationScope, e.verificationScope), Or(n.errorRef, e.errorRef))
  }

  function MergeRepository(e: Repository, n: Repository): Repository {
    Repository(Or(n.head, e.head), Or(n.branch, e.branch), UnionOf(e.changedFiles, n.changedFiles, FILE_LIMIT),
               Or(n.statusSummary, e.statusSummary), Or(n.diffHash, e.diffHash), n.observedAt)
  }

  /** mergeWorkState. */
  function Merge(e: WorkState, n: WorkState): WorkState {
    WorkState(
      Or(n.projectId, e.projectId), Or(n.projectName, e.projectName), Or(n.activeTaskId, e.activeTaskId),
      MergeTask(e.task, n.task), MergeRepository(e.repository, n.repository),
      if n.latestTest.command == "" && n.latestTest.summary == "" then e.latestTest else n.latestTest,
      ErrorsOf(e.errors, n.errors, ERROR_LIMIT), Or(n.lastClient, e.lastClient), n.sessionState,
          Or(n.sessionId, e.sessionId),
      n.updatedAt)
  }

  method MergeTaskState(e: Task, n: Task) returns (t: Task)
    ensures t == MergeTask(e, n)
  {
    hide Or;
    t := n;
    t := t.(goal := Or(t.goal, e.goal));
    t := t.(id := Or(t.id, e.id));
    t := t.(lastSuccessfulStep := Or(t.lastSuccessfulStep, e.lastSuccessfulStep));
    t := t.(currentStep := Or(t.currentStep, e.currentStep));
    t := t.(nextAction := Or(t.nextAction, e.nextAction));
    if t.status == Unset || (t.status == InProgress && e.status == Completed && !t.completionVerified) {
      t := t.(status := e.status);
    }
    if e.completionVerified { t := t.(completionVerified := true); }
    t := t.(completionPolicy := Or(t.completionPolicy, e.completionPolicy));
    t := t.(verificationEvent := Or(t.verificationEvent, e.verificationEvent));
    t := t.(verificationKind := Or(t.verificationKind, e.verificationKind));
    t := t.(verificationScope := Or(t.verificationScope, e.verificationScope));
    t := t.(errorRef := Or(t.errorRef, e.errorRef));
  }

  method MergeWorkState(e: WorkState, n: WorkState) returns (w: WorkState)
    ensures w == Merge(e, n)
  {
    hide Or, MergeTask, UnionOf, ErrorsOf;
    w := n;
    w := w.(projectId := Or(w.projectId, e.projectId));
    w := w.(projectName := Or(w.projectName, e.projectName));
    var task := MergeTaskState(e.task, n.task);
    w := w.(task := task);
    if w.latestTest.command == "" && w.latestTest.summary == "" { w := w.(latestTest := e.latestTest); }
    var r := w.repository;
    r := r.(head := Or(r.head, e.repository.head));
    r := r.(branch := Or(r.branch, e.repository.branch));
    r := r.(diffHash := Or(r.diffHash, e.repository.diffHash));
    r := r.(statusSummary := Or(r.statusSummary, e.repository.statusSummary));
    var files := UnionStrings(e.repository.changedFiles, r.changedFiles, FILE_LIMIT);
    var errors := MergeErrors(e.errors, n.errors, ERROR_LIMIT);
    w := w.(repository := r.(changedFiles := files), errors := errors);
    w := w.(lastClient := Or(w.lastClient, e.lastClient));
    w := w.(sessionId := Or(w.sessionId, e.sessionId));
    w := w.(activeTaskId := Or(w.activeTaskId, e.activeTaskId));
  }

  /** The newer text wherever it says something, elsewhere the older one. */
  ghost predicate Wins(older: string, newer: string, result: string) {
    (|newer| > 0 ==> result == newer) && (|newer| == 0 ==> result == older)
  }

  ghost predicate TaskTextWins(e: Task, n: Task, t: Task) {
    && Wins(e.id, n.id, t.id) && Wins(e.goal, n.goal, t.goal)
    && Wins(e.lastSuccessfulStep, n.lastSuccessfulStep, t.lastSuccessfulStep)
    && Wins(e.currentStep, n.currentStep, t.currentStep) && Wins(e.nextAction, n.nextAction, t.nextAction)
    && Wins(e.completionPolicy, n.completionPolicy, t.completionPolicy)
    && Wins(e.verificationEvent, n.verificationEvent, t.verificationEvent)
    && Wins(e.verificationKind, n.verificationKind, t.verificationKind)
    && Wins(e.verificationScope, n.verificationScope, t.verificationScope) && Wins(e.errorRef, n.errorRef, t.errorRef)
  }

  ghost predicate RepositoryTextWins(e: Repository, n: Repository, r: Repository) {
    && Wins(e.head, n.head, r.head) && Wins(e.branch, n.branch, r.branch)
    && Wins(e.statusSummary, n.statusSummary, r.statusSummary) && Wins(e.diffHash, n.diffHash, r.diffHash)
  }

  ghost predicate SessionTextWins(e: WorkState, n: WorkState, w: WorkState) {
    && Wins(e.activeTaskId, n.activeTaskId, w.activeTaskId) && Wins(e.lastClient, n.lastClient, w.lastClient)
    && Wins(e.sessionId, n.sessionId, w.sessionId)
  }

  /** Whatever was just saved wins wherever it says something; where it is silent
      the stored state speaks. */
  lemma NewerTextWins(e: WorkState, n: WorkState)
    ensures var w := Merge(e, n);
            && Wins(e.projectId, n.projectId, w.projectId) && Wins(e.projectName, n.projectName, w.projectName)
            && SessionTextWins(e, n, w) && TaskTextWins(e.task, n.task, w.task)
            && RepositoryTextWins(e.repository, n.repository, w.repository)
  {
    hide UnionOf, ErrorsOf;
  }

  /** What the latest test, the status and the rest of a merge are. */
  lemma NewerFactsWin(e: WorkState, n: WorkState)
    ensures Merge(e, n).latestTest
            == if n.latestTest.command != "" || n.latestTest.summary != "" then n.latestTest else e.latestTest
    ensures n.task.status != Unset && n.task.status != InProgress ==> Merge(e, n).task.status == n.task.status
    ensures n.task.status == Unset ==> Merge(e, n).task.status == e.task.status
    ensures n.task.status == InProgress && (e.task.status != Completed || n.task.completionVerified) ==>
              Merge(e, n).task.status == InProgress
    ensures Merge(e, n).task.completionVerified <==> e.task.completionVerified || n.task.completionVerified
    ensures Merge(e, n).sessionState == n.sessionState && Merge(e, n).updatedAt == n.updatedAt
    ensures Merge(e, n).repository.observedAt == n.repository.observedAt
  {
    hide UnionOf, ErrorsOf, Or;
  }

  lemma {:induction false} NewHas<T>(seen: set<string>, s: seq<T>, key: T -> string, k: string)
    ensures k in KeysOf(New(seen, s, key), key) <==> k in KeysOf(s, key) && k !in seen
    decreases |s|
  {
    if |s| > 0 {
      var grown := seen + {key(s[0])};
      NewHas(seen, s[1..], key, k);
      NewHas(grown, s[1..], key, k);
      var rest := New(grown, s[1..], key);
      assert ([s[0]] + rest)[1..] == rest;
    }
  }

  lemma {:induction false} KeysAre<T>(s: seq<T>, key: T -> string, k: string)
    ensures k in KeysOf(s, key) <==> exists i :: 0 <= i < |s| && key(s[i]) == k
  {
    if |s| > 0 {
      KeysAre(s[1..], key, k);
      if exists i :: 0 <= i < |s| && key(s[i]) == k {
        var i :| 0 <= i < |s| && key(s[i]) == k;
        if i > 0 { assert s[1..][i - 1] == s[i]; }
      } else {
        assert forall i :: 0 <= i < |s| - 1 ==> s[1..][i] == s[i + 1];
      }
    }
  }

  /** Which files a merge lists: those of either side, at most five hundred, and
      all of them as long as there is room. */
  lemma MergedFiles(e: WorkState, n: WorkState, file: string)
    ensures |Merge(e, n).repository.changedFiles| <= 500
    ensures file in Merge(e, n).repository.changedFiles ==>
              file != "" && (file in e.repository.changedFiles || file in n.repository.changedFiles)
    ensures |Merge(e, n).repository.changedFiles| < 500 && file != ""
            && (file in e.repository.changedFiles || file in n.repository.changedFiles) ==>
              file in Merge(e, n).repository.changedFiles
  {
    var mine, theirs := e.repository.changedFiles, n.repository.changedFiles;
    NewHas({""}, mine + theirs, Same, file);
    KeysAre(New({""}, mine + theirs, Same), Same, file);
    KeysAre(mine + theirs, Same, file);
    InEither(mine, theirs, file);
    hide New, KeysOf;
  }

  lemma InEither<T>(a: seq<T>, b: seq<T>, x: T)
    ensures x in a + b <==> x in a || x in b
  {
  }

  /** Which errors it lists, by class and summary: at most twenty. */
  lemma MergedErrors(e: WorkState, n: WorkState, k: string)
    ensures |Merge(e, n).errors| <= 20
    ensures forall x :: x in Merge(e, n).errors ==> x in e.errors || x in n.errors
    ensures |Merge(e, n).errors| < 20 ==>
              (k in KeysOf(Merge(e, n).errors, ErrorKey)
               <==> k in KeysOf(e.errors, ErrorKey) || k in KeysOf(n.errors, ErrorKey))
  {
    NewHas({}, e.errors + n.errors, ErrorKey, k);
    NewAppend({}, e.errors, n.errors, ErrorKey);
    NewIsAmong({}, e.errors + n.errors, ErrorKey);
    hide New, KeysOf, ErrorKey;
  }

  lemma {:induction false} NewIsAmong<T>(seen: set<string>, s: seq<T>, key: T -> string)
    ensures forall x :: x in New(seen, s, key) ==> x in s
    decreases |s|
  {
    if |s| > 0 {
      NewIsAmong(seen, s[1..], key);
      NewIsAmong(seen + {key(s[0])}, s[1..], key);
    }
  }

  /** The separator keeps errors apart as long as no class contains it. */
  lemma ErrorKeySeparates(a: ErrorEvidence, b: ErrorEvidence)
    requires '\0' !in a.class_ && '\0' !in b.class_
    ensures ErrorKey(a) == ErrorKey(b) <==> a.class_ == b.class_ && a.summary == b.summary
  {
    if ErrorKey(a) == ErrorKey(b) {
      var k := ErrorKey(a);
      assert k[|a.class_|] == '\0' && k[|b.class_|] == ErrorKey(b)[|b.class_|] == '\0';
      assert forall i :: 0 <= i < |a.class_| ==> k[i] == a.class_[i];
      assert forall i :: 0 <= i < |b.class_| ==> k[i] == b.class_[i];
      assert a.class_ == k[..|a.class_|] && b.class_ == k[..|b.class_|];
      assert a.summary == k[|a.class_| + 1..] && b.summary == k[|b.class_| + 1..];
    }
  }

  /** Saving the same state once more changes nothing, timestamps included. */
  lemma ReplayedSaveIsHarmless(e: WorkState, n: WorkState)
    ensures Merge(Merge(e, n), n) == Merge(e, n)
  {
    MergedTwice({""}, e.repository.changedFiles, n.repository.changedFiles, Same, FILE_LIMIT);
    MergedTwice({}, e.errors, n.errors, ErrorKey, ERROR_LIMIT);
  }

  /** The lists of three saves do not depend on how they are grouped. */
  lemma MergedListsAreAssociative(a: WorkState, b: WorkState, c: WorkState)
    ensures Merge(Merge(a, b), c).repository.changedFiles == Merge(a, Merge(b, c)).repository.changedFiles
    ensures Merge(Merge(a, b), c).errors == Merge(a, Merge(b, c)).errors
  {
    MergedIsAssociative({""}, a.repository.changedFiles, b.repository.changedFiles, c.repository.changedFiles, Same,
        FILE_LIMIT);
    MergedIsAssociative({}, a.errors, b.errors, c.errors, ErrorKey, ERROR_LIMIT);
  }

  /** The status of three saves does. */
  lemma StatusIsNotAssociative(a: Task, b: Task, c: Task)
    requires a.status == Completed && b.status == Unset && b.completionVerified
    requires c.status == InProgress && !c.completionVerified
    ensures MergeTask(MergeTask(a, b), c).status == Completed && MergeTask(a, MergeTask(b, c)).status == InProgress
  {
  }

  /** A completed task is reopened exactly by another explicit status, or by work
      in progress that claims its own verification. */
  lemma CompletedStaysExactly(e: Task, n: Task)
    requires e.status == Completed
    ensures MergeTask(e, n).status == Completed
            <==> n.status == Unset || n.status == Completed || (n.status == InProgress && !n.completionVerified)
  {
  }

  // ------------------------------------------------------------------------ runs

  /** What the store can hold: text that does not decode, or a state. */
  datatype Stored = Undecodable | Work(state: WorkState)

  ghost predicate NormalState(w: WorkState) {
    && Normal({""}, w.repository.changedFiles, Same, FILE_LIMIT)
    && Normal({}, w.errors, ErrorKey, ERROR_LIMIT)
  }

  /** The store's transaction, and the file written from it. */
  datatype Question = UpdateStore | WriteCheckpoint

  type SaveWorld = World<Question>

  class Engine {
    const projectId: string
    const projectName: string
    var stored: Option<Stored>
    var checkpoint: Option<WorkState>

    constructor (projectId: string, projectName: string)
      ensures stored == None && checkpoint == None
      ensures this.projectId == projectId && this.projectName == projectName
    {
      this.projectId, this.projectName, stored, checkpoint := projectId, projectName, None, None;
    }

    /** The state save hands to the store, missing identities filled in. */
    function Filled(state: WorkState): WorkState {
      state.(projectId := Or(state.projectId, projectId), projectName := Or(state.projectName, projectName))
    }

    function Saved(before: Option<Stored>, state: WorkState, now: nat): WorkState {
      var filled := Filled(state);
      var merged := if before.Some? && before.value.Work? then Merge(before.value.state, filled) else filled;
      if merged.updatedAt == 0 then merged.(updatedAt := now) else merged
    }

    /** What is saved: the stored state merged with the new one, whose missing
        identities are the engine's, stamped if it had no time. */
    lemma SavedMeans(e: WorkState, state: WorkState, now: nat)
      ensures var w := Saved(Some(Work(e)), state, now);
              && w.projectId == (if state.projectId != "" then state.projectId
                                 else if projectId != "" then projectId else e.projectId)
              && w.projectName == (if state.projectName != "" then state.projectName
                                   else if projectName != "" then projectName else e.projectName)
              && SessionTextWins(e, state, w) && TaskTextWins(e.task, state.task, w.task)
              && RepositoryTextWins(e.repository, state.repository, w.repository)
              && w.updatedAt == if state.updatedAt == 0 then now else state.updatedAt
    {
      hide UnionOf, ErrorsOf;
      NewerTextWins(e, Filled(state));
      hide MergeTask, MergeRepository;
    }

    /** The first state saved is kept as it is, but for what was missing. */
    lemma FirstSaved(before: Option<Stored>, state: WorkState, now: nat)
      requires before.None? || before.value.Undecodable?
      ensures var w := Saved(before, state, now);
              && w.projectId == (if state.projectId != "" then state.projectId else projectId)
              && w.projectName == (if state.projectName != "" then state.projectName else projectName)
              && w.updatedAt == (if state.updatedAt == 0 then now else state.updatedAt)
              && w.(projectId := "", projectName := "", updatedAt := 0)
                 == state.(projectId := "", projectName := "", updatedAt := 0)
    {
    }

    /** Engine.save under the lock: the store first, then the checkpoint. */
    method Save(world: SaveWorld, state: WorkState, materialize: bool, now: nat) returns (ok: bool)
      modifies this, world
      ensures |old(world.log)| < |world.log| && old(world.log) <= world.log
      ensures world.log[|old(world.log)|].question == UpdateStore
      ensures stored == if world.log[|old(world.log)|].reply.Granted? then Some(Work(Saved(old(stored), state, now)))
                        else old(stored)
      ensures checkpoint == if ok && materialize then Some(Saved(old(stored), state, now)) else old(checkpoint)
      ensures ok <==> AllGranted(old(world.log), world.log)
      ensures ok ==> world.log == old(world.log) + [Answer(UpdateStore, Granted)]
                                  + if materialize then [Answer(WriteCheckpoint, Granted)] else []
    {
      var filled := Filled(state);
      ghost var heard := world.log;
      var updated := world.Ask(UpdateStore);
      assert world.log[|heard|] == Answer(UpdateStore, updated);
      if !updated.Granted? { return false; }
      var merged := filled;
      if stored.Some? && stored.value.Work? { merged := MergeWorkState(stored.value.state, filled); }
      if merged.updatedAt == 0 { merged := merged.(updatedAt := now); }
      stored := Some(Work(merged));
      if materialize {
        var written := world.Ask(WriteCheckpoint);
        assert world.log[|heard| + 1] == Answer(WriteCheckpoint, written);
        ok := written.Granted?;
        if ok { checkpoint := Some(merged); }
      } else {
        ok := true;
      }
    }
  }

  /** A run of saves: each state is the one before merged with what was saved. */
  ghost predicate SaveRun(states: seq<WorkState>, saved: seq<WorkState>) {
    |states| == |saved| + 1
    && forall i :: 0 <= i < |saved| ==> states[i + 1].(updatedAt := 0) == Merge(states[i], saved[i]).(updatedAt := 0)
  }

  /** Along any run from a normalised state the stored lists only grow at the
      end, freeze when they reach their caps, and a verified completion is never
      taken back. */
  lemma {:induction false} ListsOnlyExtend(states: seq<WorkState>, saved: seq<WorkState>, m: nat, n: nat)
    requires SaveRun(states, saved) && NormalState(states[0]) && m <= n < |states|
    ensures NormalState(states[m]) && NormalState(states[n])
    ensures states[m].repository.changedFiles <= states[n].repository.changedFiles
              && states[m].errors <= states[n].errors
    ensures |states[m].repository.changedFiles| == FILE_LIMIT ==>
              states[n].repository.changedFiles == states[m].repository.changedFiles
    ensures |states[m].errors| == ERROR_LIMIT ==> states[n].errors == states[m].errors
    ensures states[m].task.completionVerified ==> states[n].task.completionVerified
    decreases n
  {
    if n == 0 {
    } else {
      ListsOnlyExtend(states, saved, if m < n then m else n - 1, n - 1);
      var e, s := states[n - 1], saved[n - 1];
      var after := states[n - 1 + 1];
      assert after.(updatedAt := 0) == Merge(e, s).(updatedAt := 0);
      assert after.repository == Merge(e, s).repository && after.errors == Merge(e, s).errors
          && after.task == Merge(e, s).task;
      MergedExtends({""}, e.repository.changedFiles, s.repository.changedFiles, Same, FILE_LIMIT);
      MergedExtends({}, e.errors, s.errors, ErrorKey, ERROR_LIMIT);
    }
  }

  /** The first merge already normalises whatever was stored. */
  lemma OneMergeNormalises(e: WorkState, n: WorkState)
    ensures NormalState(Merge(e, n))
  {
    MergedExtends({""}, e.repository.changedFiles, n.repository.changedFiles, Same, FILE_LIMIT);
    MergedExtends({}, e.errors, n.errors, ErrorKey, ERROR_LIMIT);
  }
}
