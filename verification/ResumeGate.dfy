/** Whether new work may start while tasks are unresolved
    (internal/continuity/resume_gate.go). */
module ResumeGate {
  import opened Text

  datatype FileEvidence = FileEvidence(path: string, strength: string)

  /** The part of a ledger task the gate reads. */
  datatype Task = Task(
    id: string, status: string, goal: string, currentStep: string, nextAction: string, head: string, diff: string,
    changedFiles: seq<string>, modulePaths: seq<string>, dependencies: seq<string>, fileEvidence: seq<FileEvidence>,
    updatedAt: string)

  datatype Scope = Scope(
    id: string, goal: string, changedFiles: seq<string>, modulePaths: seq<string>, dependencies: seq<string>,
    head: string, diff: string, fileEvidence: seq<FileEvidence>, explicitScope: bool)

  datatype Input = Input(
    localReadable: bool, ledgerReadable: bool, head: string, diff: string, branch: string,
    tasks: seq<Task>, requested: Scope, recallRequested: bool)

  datatype Outcome =
    | LocalSufficient
    | RemoteRecoveryRequired
    | OverlapRequiresResume
    | UnrelatedWorkAllowed
    | InsufficientScope

  // ----------------------------------------------------------------------- paths

  function NormalizePath(path: string): string {
    var p := Trim(ReplaceChar(path, '\\', '/'));
    if HasPrefix(p, "./") then p[2..] else p
  }

  const WEAK_FOLDERS: set<string> := {".baron/", ".git/", "docs/", "generated/"}
  const WEAK_NAMES: set<string> := {"package-lock.json", "pnpm-lock.yaml", "yarn.lock", "go.sum", "cargo.lock"}
  const WEAK_ENDINGS: set<string> := {".gen.go", ".generated.ts", ".generated.go", ".pb.go", ".lock"}
  const WEAK_SUFFIXES: set<string> := {".md", ".rst", ".json", ".yaml", ".yml", ".toml"}

  /** classifyTaskPath: documents, lock files and generated code are weak evidence. */
  predicate WeakPath(path: string) {
    var lower := ToLower(Trim(path));
    var base := PathBase(lower);
    || (exists p :: p in WEAK_FOLDERS && HasPrefix(lower, p))
    || HasPrefix(base, "generated") || HasPrefix(base, "readme")
    || (exists e :: e in WEAK_ENDINGS && HasSuffix(base, e))
    || base in WEAK_NAMES
    || (exists e :: e in WEAK_SUFFIXES && HasSuffix(lower, e))
  }

  /** What a scope says about its files: explicit evidence, or the changed files
      classified by their names. */
  function Evidence(changedFiles: seq<string>, fileEvidence: seq<FileEvidence>): seq<FileEvidence> {
    if |fileEvidence| > 0 then fileEvidence else Classified(changedFiles)
  }

  function Classified(files: seq<string>): seq<FileEvidence> {
    seq(|files|, i requires 0 <= i < |files| => FileEvidence(files[i], if WeakPath(files[i]) then "weak" else "strong"))
  }

  predicate CountsAsWeak(e: FileEvidence) { ToLower(Trim(e.strength)) == "weak" || WeakPath(NormalizePath(e.path)) }

  function StrongFiles(evidence: seq<FileEvidence>): set<string> {
    set e | e in evidence && NormalizePath(e.path) != "" && !CountsAsWeak(e) :: NormalizePath(e.path)
  }

  function WeakFiles(evidence: seq<FileEvidence>): set<string> {
    set e | e in evidence && NormalizePath(e.path) != "" && CountsAsWeak(e) :: NormalizePath(e.path)
  }

  function Values(values: seq<string>): set<string> {
    set v | v in values && ToLower(Trim(v)) != "" :: ToLower(Trim(v))
  }

  /** Two scopes touch: a strong file, a module, a dependency, or the same diff
      on the same commit. */
  ghost predicate StrongOverlap(t: Task, r: Scope) {
    || StrongFiles(Evidence(t.changedFiles, t.fileEvidence)) * StrongFiles(Evidence(r.changedFiles,
        r.fileEvidence)) != {}
    || Values(t.modulePaths) * Values(r.modulePaths) != {}
    || Values(t.dependencies) * Values(r.dependencies) != {}
    || (t.head != "" && t.head == r.head && t.diff != "" && t.diff == r.diff)
  }

  /** Two scopes share a file that is weak evidence on both sides and nothing more
      in the task. */
  ghost predicate WeakOverlap(t: Task, r: Scope) {
    var evidence := Evidence(t.changedFiles, t.fileEvidence);
    WeakFiles(Evidence(r.changedFiles, r.fileEvidence)) * (WeakFiles(evidence) - StrongFiles(evidence)) != {}
  }

  predicate HasStructuredScope(r: Scope) {
    || r.explicitScope || Trim(r.goal) != "" || r.changedFiles != [] || r.modulePaths != [] || r.dependencies != []
    || Trim(r.head) != "" || Trim(r.diff) != ""
  }

  predicate RepositoryReadable(head: string, diff: string) { Trim(head) != "" && Trim(diff) != "" }

  /** The decision, without any order among the tasks. */
  ghost function Decision(i: Input): Outcome {
    if !i.localReadable || !i.ledgerReadable || !RepositoryReadable(i.head, i.diff) || i.recallRequested
        then RemoteRecoveryRequired
    else if i.tasks == [] then LocalSufficient
    else if Trim(i.requested.id) != "" && exists t :: t in i.tasks && t.id == i.requested.id then OverlapRequiresResume
    else if !HasStructuredScope(i.requested) then InsufficientScope
    else if exists t :: t in i.tasks && StrongOverlap(t, i.requested) then OverlapRequiresResume
    else UnrelatedWorkAllowed
  }

  // --------------------------------------------------------------------- methods

  /** addFileEvidence over a list. */
  method CollectFiles(evidence: seq<FileEvidence>) returns (strong: set<string>, weak: set<string>)
    ensures strong == StrongFiles(evidence) && weak == WeakFiles(evidence)
  {
    hide NormalizePath, CountsAsWeak;
    strong, weak := {}, {};
    for n := 0 to |evidence|
      invariant strong == StrongFiles(evidence[..n]) && weak == WeakFiles(evidence[..n])
    {
      var e := evidence[n];
      assert evidence[..n + 1] == evidence[..n] + [e];
      var path := NormalizePath(e.path);
      if path != "" {
        if CountsAsWeak(e) { weak := weak + {path}; } else { strong := strong + {path}; }
      }
    }
    assert evidence[..|evidence|] == evidence;
  }

  /** sharedValues. */
  method SharedValues(left: seq<string>, right: seq<string>) returns (shared: bool)
    ensures shared <==> Values(left) * Values(right) != {}
  {
    hide ToLower, Trim;
    var seen: set<string> := {};
    for n := 0 to |left|
      invariant seen == Values(left[..n])
    {
      assert left[..n + 1] == left[..n] + [left[n]];
      var value := ToLower(Trim(left[n]));
      if value != "" { seen := seen + {value}; }
    }
    assert left[..|left|] == left;
    for n := 0 to |right|
      invariant forall i :: 0 <= i < n ==> ToLower(Trim(right[i])) !in seen
    {
      if ToLower(Trim(right[n])) in seen {
        assert ToLower(Trim(right[n])) in Values(left) * Values(right);
        return true;
      }
    }
    return false;
  }

  /** taskScopeOverlap. */
  method TaskScopeOverlap(t: Task, r: Scope) returns (strong: bool, weakOnly: bool)
    ensures strong <==> StrongOverlap(t, r)
    ensures weakOnly <==> !strong && WeakOverlap(t, r)
  {
    hide StrongFiles, WeakFiles, Evidence, Values;
    var taskStrong, taskWeak := CollectFiles(Evidence(t.changedFiles, t.fileEvidence));
    var requestedStrong, requestedWeak := CollectFiles(Evidence(r.changedFiles, r.fileEvidence));
    if taskStrong * requestedStrong != {} { return true, false; }
    var modules := SharedValues(t.modulePaths, r.modulePaths);
    if modules { return true, false; }
    var dependencies := SharedValues(t.dependencies, r.dependencies);
    if dependencies { return true, false; }
    if t.head != "" && r.head != "" && t.head == r.head && t.diff != "" && r.diff != ""
        && t.diff == r.diff { return true, false; }
    return false, requestedWeak * (taskWeak - taskStrong) != {};
  }

  /** EvaluateResumeGate: the loops return early, the decision does not depend on
      which task they meet first. */
  method EvaluateResumeGate(input: Input) returns (outcome: Outcome, matched: string)
    ensures outcome == Decision(input)
    ensures outcome == OverlapRequiresResume ==>
              exists t :: t in input.tasks && t.id == matched
                  && (t.id == input.requested.id || StrongOverlap(t, input.requested))
    ensures outcome != OverlapRequiresResume ==> matched == ""
  {
    hide StrongOverlap, HasStructuredScope, RepositoryReadable, Trim;
    if !input.localReadable || !input.ledgerReadable || !RepositoryReadable(input.head, input.diff) {
      return RemoteRecoveryRequired, "";
    }
    if input.recallRequested { return RemoteRecoveryRequired, ""; }
    if |input.tasks| == 0 { return LocalSufficient, ""; }
    if Trim(input.requested.id) != "" {
      for n := 0 to |input.tasks|
        invariant forall i :: 0 <= i < n ==> input.tasks[i].id != input.requested.id
      {
        if input.tasks[n].id == input.requested.id { return OverlapRequiresResume, input.tasks[n].id; }
      }
    }
    if !HasStructuredScope(input.requested) { return InsufficientScope, ""; }
    for n := 0 to |input.tasks|
      invariant forall i :: 0 <= i < n ==> !StrongOverlap(input.tasks[i], input.requested)
    {
      var strong, weakOnly := TaskScopeOverlap(input.tasks[n], input.requested);
      if strong { return OverlapRequiresResume, input.tasks[n].id; }
    }
    return UnrelatedWorkAllowed, "";
  }

  // ----------------------------------------------------------------- fingerprint

  function Collect<T>(s: seq<T>, f: T -> Option<string>): seq<string> {
    if |s| == 0 then []
    else (if f(s[0]).Some? then [f(s[0]).value] else []) + Collect(s[1..], f)
  }

  function NormalizedValue(value: string): Option<string> {
    var p := NormalizePath(value);
    if p == "" then None else Some(ToLower(p))
  }

  function SortedNormalized(values: seq<string>): seq<string> { SortStrings(Collect(values, NormalizedValue)) }

  /** One task's contribution. */
  function TaskLine(t: Task): string {
    Joined([t.id, t.status, t.goal, t.currentStep, t.nextAction, t.head, t.diff,
            Joined(SortedNormalized(t.changedFiles), ","), Joined(SortedNormalized(t.modulePaths), ","),
            Joined(SortedNormalized(t.dependencies), ","), t.updatedAt], "|")
  }

  function TaskLines(tasks: seq<Task>): seq<string> { SortStrings(Collect(tasks, t => Some(TaskLine(t)))) }

  /** RecoveryFingerprint; `hash` is the hexadecimal SHA-256. */
  function Fingerprint(i: Input, hash: string -> string): string {
    var r := i.requested;
    hash(Joined(
      ["historical=" + (if i.recallRequested then "true" else "false"), i.head, i.diff, i.branch, r.id, r.goal,
       Joined(SortedNormalized(r.changedFiles), ","), Joined(SortedNormalized(r.modulePaths), ","),
       Joined(SortedNormalized(r.dependencies), ",")] + TaskLines(i.tasks), "\0"))
  }

  // ---------------------------------------------------------------- permutations

  lemma {:induction false} CollectAppend<T>(a: seq<T>, b: seq<T>, f: T -> Option<string>)
    ensures Collect(a + b, f) == Collect(a, f) + Collect(b, f)
    decreases |a|
  {
    if |a| == 0 {
      assert a + b == b;
    } else {
      assert (a + b)[1..] == a[1..] + b;
      CollectAppend(a[1..], b, f);
    }
  }

  lemma DropOne<T>(front: seq<T>, x: T, back: seq<T>)
    ensures multiset(front + back) == multiset(front + [x] + back) - multiset{x}
    ensures |front + [x] + back| == |front + back| + 1
  {
  }

  /** A rearranged list holds the first element somewhere, between the others. */
  lemma PullFirst<T>(a: seq<T>, b: seq<T>) returns (front: seq<T>, back: seq<T>)
    requires |a| > 0 && multiset(a) == multiset(b)
    ensures b == front + [a[0]] + back && multiset(a[1..]) == multiset(front + back)
  {
    assert a[0] in multiset(a);
    var i := PlaceOf(a[0], b);
    front, back := b[..i], b[i + 1..];
    assert b == front + [a[0]] + back;
    TailMultiset(a);
    DropOne(front, a[0], back);
  }

  lemma PlaceOf<T>(x: T, b: seq<T>) returns (i: nat)
    requires x in multiset(b)
    ensures i < |b| && b[i] == x
  {
    i :| i < |b| && b[i] == x;
  }

  lemma CollectAround<T>(front: seq<T>, x: T, back: seq<T>, f: T -> Option<string>)
    ensures multiset(Collect(front + [x] + back, f)) == multiset(Collect([x], f)) + multiset(Collect(front + back, f))
  {
    hide Collect;
    CollectAppend(front, back, f);
    CollectAppend(front, [x], f);
    CollectAppend(front + [x], back, f);
  }

  /** Collecting from a rearranged list gives a rearranged list. */
  lemma {:induction false} CollectPermuted<T>(a: seq<T>, b: seq<T>, f: T -> Option<string>)
    requires multiset(a) == multiset(b)
    ensures multiset(Collect(a, f)) == multiset(Collect(b, f))
    decreases |a|
  {
    hide Collect;
    if |a| == 0 {
      assert |multiset(b)| == 0;
      assert a == b;
    } else {
      var front, back := PullFirst(a, b);
      CollectPermuted(a[1..], front + back, f);
      CollectAround(front, a[0], back, f);
      assert a == [a[0]] + a[1..];
      CollectAppend([a[0]], a[1..], f);
    }
  }

  lemma NormalizedForgetsOrder(a: seq<string>, b: seq<string>)
    requires multiset(a) == multiset(b)
    ensures SortedNormalized(a) == SortedNormalized(b)
  {
    CollectPermuted(a, b, NormalizedValue);
    SortForgetsOrder(Collect(a, NormalizedValue), Collect(b, NormalizedValue));
  }

  ghost predicate Rearranged<T>(a: seq<T>, b: seq<T>) { multiset(a) == multiset(b) }

  lemma SameMembers<T>(a: seq<T>, b: seq<T>)
    requires Rearranged(a, b)
    ensures forall x :: x in a <==> x in b
    ensures |a| == |b|
  {
    forall x ensures x in a <==> x in b { assert x in multiset(a) <==> x in multiset(b); }
    assert |multiset(a)| == |a| && |multiset(b)| == |b|;
  }

  /** The same task with its lists in another order. */
  ghost predicate SameTask(t: Task, u: Task) {
    && u == t.(changedFiles := u.changedFiles, modulePaths := u.modulePaths, dependencies := u.dependencies,
        fileEvidence := u.fileEvidence)
    && Rearranged(t.changedFiles, u.changedFiles) && Rearranged(t.modulePaths, u.modulePaths)
    && Rearranged(t.dependencies, u.dependencies) && Rearranged(t.fileEvidence, u.fileEvidence)
  }

  ghost predicate SameScope(r: Scope, q: Scope) {
    && q == r.(changedFiles := q.changedFiles, modulePaths := q.modulePaths, dependencies := q.dependencies,
        fileEvidence := q.fileEvidence)
    && Rearranged(r.changedFiles, q.changedFiles) && Rearranged(r.modulePaths, q.modulePaths)
    && Rearranged(r.dependencies, q.dependencies) && Rearranged(r.fileEvidence, q.fileEvidence)
  }

  /** The same input with tasks in another order and lists inside them, and
      inside the request, in another order; `middle` is `i` with only its task
      list rearranged. */
  ghost predicate SameInput(i: Input, middle: seq<Task>, j: Input) {
    && j == i.(tasks := j.tasks, requested := j.requested)
    && SameScope(i.requested, j.requested) && Rearranged(i.tasks, middle)
    && |middle| == |j.tasks| && forall n :: 0 <= n < |middle| ==> SameTask(middle[n], j.tasks[n])
  }

  lemma ClassifiedMembers(files: seq<string>, e: FileEvidence)
    ensures e in Classified(files) <==> e.path in files && e.strength == if WeakPath(e.path) then "weak" else "strong"
  {
    hide WeakPath;
    if e in Classified(files) {
      var i :| 0 <= i < |files| && Classified(files)[i] == e;
    }
    if e.path in files {
      var i :| 0 <= i < |files| && files[i] == e.path;
      assert Classified(files)[i].path == e.path;
      assert Classified(files)[i] in Classified(files);
    }
  }

  lemma EvidenceForgetsOrder(a: seq<string>, b: seq<string>, c: seq<FileEvidence>, d: seq<FileEvidence>)
    requires Rearranged(a, b) && Rearranged(c, d)
    ensures StrongFiles(Evidence(a, c)) == StrongFiles(Evidence(b, d))
  {
    hide WeakPath, NormalizePath, CountsAsWeak;
    SameMembers(a, b);
    SameMembers(c, d);
    forall e ensures e in Evidence(a, c) <==> e in Evidence(b, d) {
      ClassifiedMembers(a, e);
      ClassifiedMembers(b, e);
    }
  }

  lemma OverlapForgetsOrder(t: Task, u: Task, r: Scope, q: Scope)
    requires SameTask(t, u) && SameScope(r, q)
    ensures StrongOverlap(t, r) <==> StrongOverlap(u, q)
  {
    hide StrongFiles, Evidence, ToLower, Trim;
    EvidenceForgetsOrder(t.changedFiles, u.changedFiles, t.fileEvidence, u.fileEvidence);
    EvidenceForgetsOrder(r.changedFiles, q.changedFiles, r.fileEvidence, q.fileEvidence);
    SameMembers(t.modulePaths, u.modulePaths);
    SameMembers(r.modulePaths, q.modulePaths);
    SameMembers(t.dependencies, u.dependencies);
    SameMembers(r.dependencies, q.dependencies);
  }

  lemma ScopeForgetsOrder(r: Scope, q: Scope)
    requires SameScope(r, q)
    ensures HasStructuredScope(r) <==> HasStructuredScope(q)
  {
  }

  /** The decision does not depend on the order of tasks, files, modules or
      dependencies. */
  lemma DecisionForgetsOrder(i: Input, middle: seq<Task>, j: Input)
    requires SameInput(i, middle, j)
    ensures Decision(i) == Decision(j)
  {
    hide StrongOverlap, HasStructuredScope, RepositoryReadable, Trim, SameTask, SameScope;
    SameMembers(i.tasks, middle);
    ScopeForgetsOrder(i.requested, j.requested);
    assert j.requested.id == i.requested.id by { ScopeId(i.requested, j.requested); }
    forall t | t in i.tasks
      ensures exists u :: u in j.tasks && u.id == t.id
                && (StrongOverlap(t, i.requested) <==> StrongOverlap(u, j.requested))
    {
      var n :| 0 <= n < |middle| && middle[n] == t;
      TaskIdKept(t, j.tasks[n]);
      OverlapForgetsOrder(t, j.tasks[n], i.requested, j.requested);
    }
    forall u | u in j.tasks
      ensures exists t :: t in i.tasks && u.id == t.id
                && (StrongOverlap(t, i.requested) <==> StrongOverlap(u, j.requested))
    {
      var n :| 0 <= n < |j.tasks| && j.tasks[n] == u;
      assert middle[n] in i.tasks;
      TaskIdKept(middle[n], u);
      OverlapForgetsOrder(middle[n], u, i.requested, j.requested);
    }
  }

  lemma ScopeId(r: Scope, q: Scope)
    requires SameScope(r, q)
    ensures r.id == q.id
  {
  }

  lemma TaskIdKept(t: Task, u: Task)
    requires SameTask(t, u)
    ensures t.id == u.id
  {
  }

  lemma {:induction false} LinesForgetInnerOrder(a: seq<Task>, b: seq<Task>)
    requires |a| == |b| && forall n :: 0 <= n < |a| ==> SameTask(a[n], b[n])
    ensures Collect(a, t => Some(TaskLine(t))) == Collect(b, t => Some(TaskLine(t)))
  {
    if |a| > 0 {
      assert SameTask(a[0], b[0]);
      NormalizedForgetsOrder(a[0].changedFiles, b[0].changedFiles);
      NormalizedForgetsOrder(a[0].modulePaths, b[0].modulePaths);
      NormalizedForgetsOrder(a[0].dependencies, b[0].dependencies);
      assert TaskLine(a[0]) == TaskLine(b[0]);
      LinesForgetInnerOrder(a[1..], b[1..]);
    }
  }

  /** Neither does the fingerprint. */
  lemma FingerprintForgetsOrder(i: Input, middle: seq<Task>, j: Input, hash: string -> string)
    requires SameInput(i, middle, j)
    ensures Fingerprint(i, hash) == Fingerprint(j, hash)
  {
    hide SortedNormalized, Joined, SortStrings, TaskLine, SameTask;
    NormalizedForgetsOrder(i.requested.changedFiles, j.requested.changedFiles);
    NormalizedForgetsOrder(i.requested.modulePaths, j.requested.modulePaths);
    NormalizedForgetsOrder(i.requested.dependencies, j.requested.dependencies);
    CollectPermuted(i.tasks, middle, t => Some(TaskLine(t)));
    LinesForgetInnerOrder(middle, j.tasks);
    SortForgetsOrder(Collect(i.tasks, t => Some(TaskLine(t))), Collect(middle, t => Some(TaskLine(t))));
  }

  // --------------------------------------------------------------- in plain terms

  /** Separators, edge blanks and one leading "./" make no difference to a path. */
  lemma NormalizePathMeans(path: string)
    ensures '\\' !in NormalizePath(path)
    ensures '\\' !in path && NoEdgeSpace(path) ==>
              NormalizePath(path) == if |path| >= 2 && path[0] == '.' && path[1] == '/' then path[2..] else path
    ensures NormalizePath(ReplaceChar(path, '\\', '/')) == NormalizePath(path)
    ensures '\\' !in path ==> NormalizePath(Trim(path)) == NormalizePath(path)
  {
    NoBackslashLeft(path);
    UnifiedFirst(path);
    if '\\' !in path {
      TrimmedFirst(path);
      if NoEdgeSpace(path) { PlainPathKept(path); }
    }
    hide *;
  }

  lemma NoBackslashLeft(path: string)
    ensures '\\' !in NormalizePath(path)
  {
    SlashesUnified(path);
    TrimIsPart(ReplaceChar(path, '\\', '/'));
    hide ReplaceChar, Trim;
  }

  lemma UnifiedFirst(path: string)
    ensures NormalizePath(ReplaceChar(path, '\\', '/')) == NormalizePath(path)
  {
    SlashesUnified(path);
    hide ReplaceChar, Trim, HasPrefix;
  }

  lemma TrimmedFirst(path: string)
    requires '\\' !in path
    ensures NormalizePath(Trim(path)) == NormalizePath(path)
  {
    TrimIsPart(path);
    SlashesUnified(path);
    SlashesUnified(Trim(path));
    TrimTwice(path);
    hide ReplaceChar, Trim, HasPrefix;
  }

  lemma PlainPathKept(path: string)
    requires '\\' !in path && NoEdgeSpace(path)
    ensures NormalizePath(path) == if |path| >= 2 && path[0] == '.' && path[1] == '/' then path[2..] else path
  {
    SlashesUnified(path);
    hide ReplaceChar, Trim;
    assert |path| >= 2 ==> path[..2] == [path[0], path[1]];
  }

  lemma SlashesUnified(path: string)
    ensures var unified := ReplaceChar(path, '\\', '/');
            && '\\' !in unified && ReplaceChar(unified, '\\', '/') == unified
            && ('\\' !in path ==> unified == path)
  {
    var unified := ReplaceChar(path, '\\', '/');
    ReplacedChars(path, '\\', '/');
    ReplacedChars(unified, '\\', '/');
    hide ReplaceChar;
    assert ReplaceChar(unified, '\\', '/') == unified;
    if '\\' !in path { assert unified == path; }
  }

  lemma TrimIsPart(s: string)
    ensures forall c :: c in Trim(s) ==> c in s
  {
    var left := TrimLeft(s);
    assert forall c :: c in left ==> c in s by {
      forall c | c in left ensures c in s {
        var i :| 0 <= i < |left| && left[i] == c;
        assert s[|s| - |left| + i] == c;
      }
    }
    var right := TrimRight(left);
    assert forall i :: 0 <= i < |right| ==> right[i] == left[i];
  }

  lemma {:induction false} ReplacedChars(s: string, from: char, to: char)
    ensures |ReplaceChar(s, from, to)| == |s|
    ensures forall i :: 0 <= i < |s| ==> ReplaceChar(s, from, to)[i] == if s[i] == from then to else s[i]
  {
    if s != "" { ReplacedChars(s[1..], from, to); }
  }

  /** Which paths are weak evidence: what lies in four folders, what is generated
      or a readme, lock files, and documents and settings by their endings. */
  lemma WeakPathExactly(path: string)
    ensures var lower := ToLower(Trim(path));
            var name := PathBase(lower);
            WeakPath(path)
            <==> || StartsWithOne(lower, [".baron/", ".git/", "docs/", "generated/"])
                 || StartsWithOne(name, ["generated", "readme"])
                 || EndsWithOne(name, [".gen.go", ".generated.ts", ".generated.go", ".pb.go", ".lock"])
                 || name in ["package-lock.json", "pnpm-lock.yaml", "yarn.lock", "go.sum", "cargo.lock"]
                 || EndsWithOne(lower, [".md", ".rst", ".json", ".yaml", ".yml", ".toml"])
  {
    hide ToLower, Trim, PathBase, HasPrefix, HasSuffix;
    var lower := ToLower(Trim(path));
    var name := PathBase(lower);
    FoldersListed(lower);
    EndingsListed(name);
    SuffixesListed(lower);
    var names := ["package-lock.json", "pnpm-lock.yaml", "yarn.lock", "go.sum", "cargo.lock"];
    assert forall n :: n in names <==> n in WEAK_NAMES;
    var starts := ["generated", "readme"];
    assert starts[0] == "generated" && starts[1] == "readme";
    assert StartsWithOne(name, starts) <==> HasPrefix(name, "generated") || HasPrefix(name, "readme");
  }

  ghost predicate StartsWithOne(s: string, starts: seq<string>) {
    exists i :: 0 <= i < |starts| && HasPrefix(s, starts[i])
  }

  ghost predicate EndsWithOne(s: string, ends: seq<string>) { exists i :: 0 <= i < |ends| && HasSuffix(s, ends[i]) }

  lemma FoldersListed(s: string)
    ensures StartsWithOne(s, [".baron/", ".git/", "docs/", "generated/"])
            <==> exists p :: p in WEAK_FOLDERS && HasPrefix(s, p)
  {
    hide HasPrefix;
    var starts := [".baron/", ".git/", "docs/", "generated/"];
    assert forall p :: p in starts <==> p in WEAK_FOLDERS;
    assert forall i :: 0 <= i < |starts| ==> starts[i] in starts;
  }

  lemma EndingsListed(s: string)
    ensures EndsWithOne(s, [".gen.go", ".generated.ts", ".generated.go", ".pb.go", ".lock"])
            <==> exists e :: e in WEAK_ENDINGS && HasSuffix(s, e)
  {
    hide HasSuffix;
    var ends := [".gen.go", ".generated.ts", ".generated.go", ".pb.go", ".lock"];
    assert forall p :: p in ends <==> p in WEAK_ENDINGS;
    assert forall i :: 0 <= i < |ends| ==> ends[i] in ends;
  }

  lemma SuffixesListed(s: string)
    ensures EndsWithOne(s, [".md", ".rst", ".json", ".yaml", ".yml", ".toml"])
            <==> exists e :: e in WEAK_SUFFIXES && HasSuffix(s, e)
  {
    hide HasSuffix;
    var ends := [".md", ".rst", ".json", ".yaml", ".yml", ".toml"];
    assert forall p :: p in ends <==> p in WEAK_SUFFIXES;
    assert forall i :: 0 <= i < |ends| ==> ends[i] in ends;
  }

  /** A path that some entry gives as strong evidence: neither the entry nor the
      path says it is weak. */
  ghost predicate ListedStrong(p: string, files: seq<string>, evidence: seq<FileEvidence>) {
    p != "" && !WeakPath(p)
    && if |evidence| > 0
       then exists e :: e in evidence && NormalizePath(e.path) == p && ToLower(Trim(e.strength)) != "weak"
       else exists f :: f in files && NormalizePath(f) == p && !WeakPath(f)
  }

  lemma StrongFilesExactly(p: string, files: seq<string>, evidence: seq<FileEvidence>)
    ensures p in StrongFiles(Evidence(files, evidence)) <==> ListedStrong(p, files, evidence)
  {
    StrengthsDiffer();
    hide WeakPath, NormalizePath, ToLower, Trim;
    if |evidence| == 0 {
      var classified := Classified(files);
      forall f | f in files && NormalizePath(f) == p && !WeakPath(f) ensures FileEvidence(f, "strong") in classified {
        var i :| 0 <= i < |files| && files[i] == f;
        assert classified[i] == FileEvidence(f, "strong");
      }
    }
  }

  lemma StrengthsDiffer()
    ensures ToLower(Trim("weak")) == "weak" && ToLower(Trim("strong")) != "weak"
  {
    assert NoEdgeSpace("weak") && NoEdgeSpace("strong");
    assert |ToLower("strong")| == 6;
  }

  /** A value as it is compared: cases and edge blanks aside. */
  ghost function Folded(v: string): string { ToLower(Trim(v)) }

  /** The two lists have a value in common. */
  ghost predicate ShareValue(a: seq<string>, b: seq<string>) {
    exists i, j :: 0 <= i < |a| && 0 <= j < |b| && !Blank(a[i]) && Folded(a[i]) == Folded(b[j])
  }

  lemma FoldedToNothing(v: string)
    ensures Folded(v) == "" <==> Blank(v)
  {
    BlankIsTrimmed(v);
    hide Blank, Trim;
    assert |ToLower(Trim(v))| == |Trim(v)|;
  }

  lemma ValueListed(v: string, values: seq<string>)
    ensures v in Values(values) <==> v != "" && exists i :: 0 <= i < |values| && Folded(values[i]) == v
  {
    hide ToLower, Trim;
  }

  lemma ValuesShared(a: seq<string>, b: seq<string>)
    ensures Values(a) * Values(b) != {} <==> ShareValue(a, b)
  {
    hide Blank, Folded, Values;
    if ShareValue(a, b) {
      var i, j :| 0 <= i < |a| && 0 <= j < |b| && !Blank(a[i]) && Folded(a[i]) == Folded(b[j]);
      FoldedToNothing(a[i]);
      ValueListed(Folded(a[i]), a);
      ValueListed(Folded(a[i]), b);
      assert Folded(a[i]) in Values(a) * Values(b);
    }
    if Values(a) * Values(b) != {} {
      var v :| v in Values(a) * Values(b);
      ValueListed(v, a);
      ValueListed(v, b);
      var i :| 0 <= i < |a| && Folded(a[i]) == v;
      var j :| 0 <= j < |b| && Folded(b[j]) == v;
      FoldedToNothing(a[i]);
    }
  }

  /** When a task and a request overlap. */
  lemma OverlapExactly(t: Task, r: Scope)
    ensures StrongOverlap(t, r)
            <==> || (exists p :: ListedStrong(p, t.changedFiles, t.fileEvidence)
                                 && ListedStrong(p, r.changedFiles, r.fileEvidence))
                 || ShareValue(t.modulePaths, r.modulePaths) || ShareValue(t.dependencies, r.dependencies)
                 || (|t.head| > 0 && |t.diff| > 0 && t.head == r.head && t.diff == r.diff)
  {
    ValuesShared(t.modulePaths, r.modulePaths);
    ValuesShared(t.dependencies, r.dependencies);
    var mine, theirs := StrongFiles(Evidence(t.changedFiles, t.fileEvidence)),
                        StrongFiles(Evidence(r.changedFiles, r.fileEvidence));
    forall p ensures p in mine * theirs <==> ListedStrong(p, t.changedFiles, t.fileEvidence)
                                             && ListedStrong(p, r.changedFiles, r.fileEvidence) {
      StrongFilesExactly(p, t.changedFiles, t.fileEvidence);
      StrongFilesExactly(p, r.changedFiles, r.fileEvidence);
    }
    hide ListedStrong, ShareValue, StrongFiles, Evidence, Values;
    if mine * theirs != {} {
      var p :| p in mine * theirs;
    }
  }

  /** The request says nothing about what it is going to touch. */
  ghost predicate Silent(r: Scope) {
    && Blank(r.goal) && Blank(r.head) && Blank(r.diff) && !r.explicitScope
    && |r.changedFiles| == |r.modulePaths| == |r.dependencies| == 0
  }

  ghost predicate NamesTask(i: Input) {
    !Blank(i.requested.id) && exists t :: t in i.tasks && t.id == i.requested.id
  }

  /** When each outcome is given. */
  lemma DecisionExactly(i: Input)
    ensures var lost := !i.localReadable || !i.ledgerReadable || Blank(i.head) || Blank(i.diff) || i.recallRequested;
            var touched := exists t :: t in i.tasks && StrongOverlap(t, i.requested);
            Decision(i) == if lost then RemoteRecoveryRequired
                           else if |i.tasks| == 0 then LocalSufficient
                           else if NamesTask(i) || (!Silent(i.requested) && touched) then OverlapRequiresResume
                           else if Silent(i.requested) then InsufficientScope
                           else UnrelatedWorkAllowed
  {
    BlankIsTrimmed(i.head);
    BlankIsTrimmed(i.diff);
    BlankIsTrimmed(i.requested.id);
    BlankIsTrimmed(i.requested.goal);
    BlankIsTrimmed(i.requested.head);
    BlankIsTrimmed(i.requested.diff);
    hide Blank, Trim, StrongOverlap;
  }

  // -------------------------------------------------------------------- caution

  /** Work may start as unrelated exactly when the state is readable, its scope
      is structured, and it overlaps with none of the unresolved tasks there are. */
  lemma UnrelatedExactly(i: Input)
    ensures Decision(i) == UnrelatedWorkAllowed
            <==> && i.localReadable && i.ledgerReadable && RepositoryReadable(i.head, i.diff) && !i.recallRequested
                 && HasStructuredScope(i.requested) && i.tasks != []
                 && forall t :: t in i.tasks ==>
                     !StrongOverlap(t, i.requested) && (Trim(i.requested.id) == "" || t.id != i.requested.id)
  {
  }

  /** One more unresolved task never turns a blocking outcome into an allowing
      one, and an overlap stays an overlap. */
  lemma MoreTasksAreNoLessCautious(i: Input, t: Task, at: nat)
    requires at <= |i.tasks|
    ensures var more := i.(tasks := i.tasks[..at] + [t] + i.tasks[at..]);
            && (Decision(i) !in {LocalSufficient, UnrelatedWorkAllowed} ==>
                  Decision(more) !in {LocalSufficient, UnrelatedWorkAllowed})
            && (Decision(i) == OverlapRequiresResume ==> Decision(more) == OverlapRequiresResume)
            && (Decision(i) == UnrelatedWorkAllowed ==> Decision(more) in {UnrelatedWorkAllowed, OverlapRequiresResume})
  {
    hide StrongOverlap, HasStructuredScope, RepositoryReadable, Trim;
    var tasks := i.tasks[..at] + [t] + i.tasks[at..];
    forall x ensures x in tasks <==> x in i.tasks || x == t {
      assert i.tasks == i.tasks[..at] + i.tasks[at..];
    }
  }
}
