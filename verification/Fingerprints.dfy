/** What the recovery fingerprint tells apart (internal/continuity/resume_gate.go):
    the text that is hashed, its separators, and when they separate. */
module Fingerprints {
  import opened Text
  import opened ResumeGate

  predicate AllFree(parts: seq<string>, c: char) { forall p :: p in parts ==> c !in p }

  // ------------------------------------------------------------------- separators

  lemma CutAtSame(a: string, x: string, b: string, y: string, c: char)
    requires c !in a && c !in b && a + [c] + x == b + [c] + y
    ensures a == b && x == y
  {
    var s, t := a + [c] + x, b + [c] + y;
    assert s[|a|] == c && forall n :: 0 <= n < |a| ==> s[n] == a[n] != c;
    assert t[|b|] == c && forall n :: 0 <= n < |b| ==> t[n] == b[n] != c;
    assert a == s[..|a|] && b == s[..|b|] && x == s[|a| + 1..] && y == s[|b| + 1..];
  }

  /** Joining can be undone when the separator is in none of the parts. */
  lemma {:induction false} JoinedSeparates(a: seq<string>, b: seq<string>, c: char)
    requires a != [] && b != [] && AllFree(a, c) && AllFree(b, c)
    ensures Joined(a, [c]) == Joined(b, [c]) <==> a == b
    decreases |a|
  {
    assert a[0] in a && b[0] in b;
    assert |a| > 1 ==> Joined(a, [c])[|a[0]|] == c;
    assert |b| > 1 ==> Joined(b, [c])[|b[0]|] == c;
    if |a| > 1 && |b| > 1 && Joined(a, [c]) == Joined(b, [c]) {
      CutAtSame(a[0], Joined(a[1..], [c]), b[0], Joined(b[1..], [c]), c);
      JoinedSeparates(a[1..], b[1..], c);
      assert a == [a[0]] + a[1..] && b == [b[0]] + b[1..];
    }
  }

  lemma {:induction false} JoinedIsFree(parts: seq<string>, separator: string, c: char)
    requires AllFree(parts, c) && c !in separator
    ensures c !in Joined(parts, separator)
  {
    if |parts| > 1 { JoinedIsFree(parts[1..], separator, c); }
  }

  lemma {:induction false} CollectedAreNotEmpty(values: seq<string>)
    ensures "" !in Collect(values, NormalizedValue)
  {
    hide NormalizePath, ToLower;
    if |values| > 0 {
      CollectedAreNotEmpty(values[1..]);
      NormalizedIsNotEmpty(values[0]);
    }
  }

  lemma NormalizedIsNotEmpty(value: string)
    ensures NormalizedValue(value) != Some("")
  {
    hide NormalizePath;
  }

  lemma NamesAreNotEmpty(values: seq<string>)
    ensures "" !in SortedNormalized(values)
  {
    CollectedAreNotEmpty(values);
    assert forall v :: v in SortedNormalized(values) ==> v in multiset(Collect(values, NormalizedValue));
  }

  /** Lists of names without commas can be read back. */
  lemma NamesSeparate(a: seq<string>, b: seq<string>)
    requires AllFree(a, ',') && AllFree(b, ',') && "" !in a && "" !in b
    ensures Joined(a, ",") == Joined(b, ",") <==> a == b
  {
    JoinedNames(a);
    JoinedNames(b);
    if a != [] && b != [] { JoinedSeparates(a, b, ','); }
  }

  lemma JoinedNames(a: seq<string>)
    requires "" !in a
    ensures Joined(a, ",") == "" <==> a == []
  {
    if |a| > 0 { assert a[0] in a; }
  }

  // ------------------------------------------------------------------------ tasks

  /** The part of a task the fingerprint compares. */
  datatype TaskKey = TaskKey(
    id: string, status: string, goal: string, currentStep: string, nextAction: string, head: string, diff: string,
    files: seq<string>, modules: seq<string>, dependencies: seq<string>, updatedAt: string)

  function KeyOf(t: Task): TaskKey {
    TaskKey(t.id, t.status, t.goal, t.currentStep, t.nextAction, t.head, t.diff, SortedNormalized(t.changedFiles),
            SortedNormalized(t.modulePaths), SortedNormalized(t.dependencies), t.updatedAt)
  }

  function Fields(k: TaskKey): seq<string> {
    [k.id, k.status, k.goal, k.currentStep, k.nextAction, k.head, k.diff, Joined(k.files, ","), Joined(k.modules, ","),
     Joined(k.dependencies, ","), k.updatedAt]
  }

  function Line(k: TaskKey): string { Joined(Fields(k), "|") }

  lemma LineOfTask(t: Task)
    ensures TaskLine(t) == Line(KeyOf(t))
  {
    hide SortedNormalized, Joined;
  }

  ghost predicate NamesPlain(names: seq<string>) { AllFree(names, ',') && "" !in names }

  /** No separator is inside a field of the task. */
  ghost predicate TaskPlain(k: TaskKey) {
    && AllFree(Fields(k), '|') && AllFree(Fields(k), '\0')
    && NamesPlain(k.files) && NamesPlain(k.modules) && NamesPlain(k.dependencies)
  }

  /** Plain tasks have the same line exactly when they compare equal. */
  lemma LineSeparates(k: TaskKey, l: TaskKey)
    requires TaskPlain(k) && TaskPlain(l)
    ensures Line(k) == Line(l) <==> k == l
  {
    hide Joined;
    JoinedSeparates(Fields(k), Fields(l), '|');
    var f, g := Fields(k), Fields(l);
    if f == g {
      assert forall i :: 0 <= i < 11 ==> f[i] == g[i];
      assert Joined(k.files, ",") == f[7] && Joined(l.files, ",") == g[7];
      assert Joined(k.modules, ",") == f[8] && Joined(l.modules, ",") == g[8];
      assert Joined(k.dependencies, ",") == f[9] && Joined(l.dependencies, ",") == g[9];
      NamesSeparate(k.files, l.files);
      NamesSeparate(k.modules, l.modules);
      NamesSeparate(k.dependencies, l.dependencies);
    }
  }

  function KeysOf(tasks: seq<Task>): seq<TaskKey> { seq(|tasks|, i requires 0 <= i < |tasks| => KeyOf(tasks[i])) }

  function Lines(keys: seq<TaskKey>): seq<string> { Collect(keys, k => Some(Line(k))) }

  lemma {:induction false} LinesOfTasks(tasks: seq<Task>)
    ensures Collect(tasks, t => Some(TaskLine(t))) == Lines(KeysOf(tasks))
  {
    hide TaskLine, Line, KeyOf;
    if |tasks| > 0 {
      LineOfTask(tasks[0]);
      LinesOfTasks(tasks[1..]);
      assert KeysOf(tasks)[1..] == KeysOf(tasks[1..]);
    }
  }

  lemma {:induction false} CountOfLine(keys: seq<TaskKey>, k: TaskKey)
    requires TaskPlain(k) && forall l :: l in keys ==> TaskPlain(l)
    ensures multiset(Lines(keys))[Line(k)] == multiset(keys)[k]
  {
    hide TaskPlain, Line;
    if |keys| > 0 {
      CountOfLine(keys[1..], k);
      LineSeparates(keys[0], k);
      assert keys == [keys[0]] + keys[1..];
      assert Lines(keys) == [Line(keys[0])] + Lines(keys[1..]);
    }
  }

  lemma SameLinesSameKeys(k: seq<TaskKey>, l: seq<TaskKey>)
    requires forall x :: x in k || x in l ==> TaskPlain(x)
    requires multiset(Lines(k)) == multiset(Lines(l))
    ensures multiset(k) == multiset(l)
  {
    hide TaskPlain, Line, Collect;
    forall x ensures multiset(k)[x] == multiset(l)[x] {
      if x in k || x in l {
        CountOfLine(k, x);
        CountOfLine(l, x);
      }
    }
  }

  /** Plain task lists have the same sorted lines exactly when they hold the same
      tasks as often. */
  lemma TasksSeparate(a: seq<Task>, b: seq<Task>)
    requires forall t :: t in a || t in b ==> TaskPlain(KeyOf(t))
    ensures TaskLines(a) == TaskLines(b) <==> multiset(KeysOf(a)) == multiset(KeysOf(b))
  {
    hide TaskPlain, Line, TaskLine, KeyOf, Collect;
    LinesOfTasks(a);
    LinesOfTasks(b);
    var k, l := KeysOf(a), KeysOf(b);
    if multiset(k) == multiset(l) {
      CollectPermuted(k, l, x => Some(Line(x)));
      SortForgetsOrder(Lines(k), Lines(l));
    }
    if TaskLines(a) == TaskLines(b) {
      SameLinesSameKeys(k, l);
    }
  }

  // ------------------------------------------------------------------------ input

  /** What the fingerprint compares of an input. */
  datatype Compared = Compared(
    recall: bool, head: string, diff: string, branch: string, id: string, goal: string,
    files: seq<string>, modules: seq<string>, dependencies: seq<string>, tasks: multiset<TaskKey>)

  ghost function ComparedOf(i: Input): Compared {
    var r := i.requested;
    Compared(i.recallRequested, i.head, i.diff, i.branch, r.id, r.goal, SortedNormalized(r.changedFiles),
             SortedNormalized(r.modulePaths), SortedNormalized(r.dependencies), multiset(KeysOf(i.tasks)))
  }

  /** The parts of the hashed text before the task lines. */
  function Head(i: Input): seq<string> {
    var r := i.requested;
    ["historical=" + (if i.recallRequested then "true" else "false"), i.head, i.diff, i.branch, r.id, r.goal,
     Joined(SortedNormalized(r.changedFiles), ","), Joined(SortedNormalized(r.modulePaths), ","),
     Joined(SortedNormalized(r.dependencies), ",")]
  }

  /** The text that is hashed. */
  function Hashed(i: Input): string { Joined(Head(i) + TaskLines(i.tasks), "\0") }

  lemma FingerprintHashes(i: Input, hash: string -> string)
    ensures Fingerprint(i, hash) == hash(Hashed(i))
  {
    hide SortedNormalized, Joined, TaskLines;
  }

  /** No separator is inside anything the fingerprint compares. */
  ghost predicate Plain(i: Input) {
    var r := i.requested;
    && AllFree([i.head, i.diff, i.branch, r.id, r.goal], '\0')
    && AllFree(SortedNormalized(r.changedFiles) + SortedNormalized(r.modulePaths) + SortedNormalized(r.dependencies),
        '\0')
    && AllFree(SortedNormalized(r.changedFiles) + SortedNormalized(r.modulePaths) + SortedNormalized(r.dependencies),
        ',')
    && forall t :: t in i.tasks ==> TaskPlain(KeyOf(t))
  }

  lemma HeadIsFree(i: Input)
    requires Plain(i)
    ensures AllFree(Head(i), '\0')
  {
    hide SortedNormalized, Joined, TaskPlain;
    var r := i.requested;
    JoinedIsFree(SortedNormalized(r.changedFiles), ",", '\0');
    JoinedIsFree(SortedNormalized(r.modulePaths), ",", '\0');
    JoinedIsFree(SortedNormalized(r.dependencies), ",", '\0');
  }

  lemma LinesAreFree(tasks: seq<Task>)
    requires forall t :: t in tasks ==> TaskPlain(KeyOf(t))
    ensures AllFree(TaskLines(tasks), '\0')
  {
    hide SortedNormalized, Joined, KeyOf, Fields, TaskLine, Collect, TaskPlain;
    LinesOfTasks(tasks);
    forall s | s in TaskLines(tasks) ensures '\0' !in s {
      assert s in multiset(Lines(KeysOf(tasks)));
      var k := LineComesFrom(KeysOf(tasks), s);
      PlainLineIsFree(k);
    }
  }

  lemma PlainLineIsFree(k: TaskKey)
    requires TaskPlain(k)
    ensures '\0' !in Line(k)
  {
    JoinedIsFree(Fields(k), "|", '\0');
  }

  lemma {:induction false} LineComesFrom(keys: seq<TaskKey>, s: string) returns (k: TaskKey)
    requires s in Lines(keys)
    ensures k in keys && s == Line(k)
  {
    hide Line;
    if s == Line(keys[0]) { k := keys[0]; } else { k := LineComesFrom(keys[1..], s); }
  }

  lemma RecallSeparates(a: bool, b: bool)
    ensures "historical=" + (if a then "true" else "false") == "historical=" + (if b then "true" else "false") <==>
              a == b
  {
    assert |"historical=" + "true"| != |"historical=" + "false"|;
  }

  /** The parts before the tasks tell the requests apart. */
  lemma HeadSeparates(i: Input, j: Input)
    requires Plain(i) && Plain(j)
    ensures Head(i) == Head(j) <==> ComparedOf(i).(tasks := multiset{}) == ComparedOf(j).(tasks := multiset{})
  {
    hide SortedNormalized, Joined, TaskPlain, KeysOf;
    var r, q, a, b := i.requested, j.requested, Head(i), Head(j);
    NamesAreNotEmpty(r.changedFiles);
    NamesAreNotEmpty(r.modulePaths);
    NamesAreNotEmpty(r.dependencies);
    NamesAreNotEmpty(q.changedFiles);
    NamesAreNotEmpty(q.modulePaths);
    NamesAreNotEmpty(q.dependencies);
    NamesSeparate(SortedNormalized(r.changedFiles), SortedNormalized(q.changedFiles));
    NamesSeparate(SortedNormalized(r.modulePaths), SortedNormalized(q.modulePaths));
    NamesSeparate(SortedNormalized(r.dependencies), SortedNormalized(q.dependencies));
    RecallSeparates(i.recallRequested, j.recallRequested);
    if a == b {
      assert forall n :: 0 <= n < 9 ==> a[n] == b[n];
    }
  }

  /** The hashed text of plain inputs is the same exactly when everything compared
      is: the request, its normalised names, and the unresolved tasks in any order. */
  lemma HashedSeparates(i: Input, j: Input)
    requires Plain(i) && Plain(j)
    ensures Hashed(i) == Hashed(j) <==> ComparedOf(i) == ComparedOf(j)
  {
    HeadIsFree(i);
    HeadIsFree(j);
    LinesAreFree(i.tasks);
    LinesAreFree(j.tasks);
    HeadSeparates(i, j);
    TasksSeparate(i.tasks, j.tasks);
    hide SortedNormalized, Joined, TaskPlain, KeysOf, TaskLines, Plain;
    JoinedSeparates(Head(i) + TaskLines(i.tasks), Head(j) + TaskLines(j.tasks), '\0');
    var a, b := Head(i) + TaskLines(i.tasks), Head(j) + TaskLines(j.tasks);
    assert |Head(i)| == |Head(j)| == 9;
    assert a[..9] == Head(i) && b[..9] == Head(j) && a[9..] == TaskLines(i.tasks) && b[9..] == TaskLines(j.tasks);
  }

  /** Where the hash does not collide the fingerprint tells plain inputs apart. */
  lemma FingerprintSeparates(i: Input, j: Input, hash: string -> string)
    requires Plain(i) && Plain(j)
    requires hash(Hashed(i)) == hash(Hashed(j)) ==> Hashed(i) == Hashed(j)
    ensures Fingerprint(i, hash) == Fingerprint(j, hash) <==> ComparedOf(i) == ComparedOf(j)
  {
    hide Plain, Hashed, ComparedOf;
    FingerprintHashes(i, hash);
    FingerprintHashes(j, hash);
    HashedSeparates(i, j);
  }

  // ------------------------------------------------- what each separator is worth

  lemma {:induction false} JoinShifts(before: seq<string>, x: string, y: string, z: string, after: seq<string>,
                                      separator: string)
    ensures Joined(before + [x + separator + y, z] + after, separator)
              == Joined(before + [x, y + separator + z] + after, separator)
    decreases |before|
  {
    var left, right := before + [x + separator + y, z] + after, before + [x, y + separator + z] + after;
    if |before| == 0 {
      assert left[1..] == [z] + after && right[1..] == [y + separator + z] + after;
      assert left[1..][1..] == after && right[1..][1..] == after;
      if after == [] {
        assert Joined(left, separator) == (x + separator + y) + separator + z == x + separator + (y + separator + z)
            == Joined(right, separator);
      } else {
        var rest := Joined(after, separator);
        assert Joined(left, separator) == (x + separator + y) + separator + (z + separator + rest);
        assert Joined(right, separator) == x + separator + ((y + separator + z) + separator + rest);
      }
    } else {
      assert left[1..] == before[1..] + [x + separator + y, z] + after;
      assert right[1..] == before[1..] + [x, y + separator + z] + after;
      JoinShifts(before[1..], x, y, z, after, separator);
    }
  }

  /** A NUL in the commit: what follows it may belong to the diff. */
  lemma NulShiftsFields(i: Input, x: string, y: string, z: string)
    ensures Hashed(i.(head := x + "\0" + y, diff := z)) == Hashed(i.(head := x, diff := y + "\0" + z))
    ensures y != "" || z != "" ==>
              ComparedOf(i.(head := x + "\0" + y, diff := z)) != ComparedOf(i.(head := x, diff := y + "\0" + z))
  {
    hide SortedNormalized, Joined, TaskLines, KeysOf;
    var a, b := i.(head := x + "\0" + y, diff := z), i.(head := x, diff := y + "\0" + z);
    var before, after := Head(i)[..1], Head(i)[3..] + TaskLines(i.tasks);
    assert Head(a) + TaskLines(i.tasks) == before + [x + "\0" + y, z] + after;
    assert Head(b) + TaskLines(i.tasks) == before + [x, y + "\0" + z] + after;
    JoinShifts(before, x, y, z, after, "\0");
    assert |a.head| > |b.head|;
  }

  /** A bar in a task's goal: what follows it may belong to the current step. */
  lemma BarShiftsFields(i: Input, t: Task, x: string, y: string, z: string)
    ensures var t1, t2 := t.(goal := x + "|" + y, currentStep := z), t.(goal := x, currentStep := y + "|" + z);
            Hashed(i.(tasks := [t1])) == Hashed(i.(tasks := [t2]))
                && ComparedOf(i.(tasks := [t1])) != ComparedOf(i.(tasks := [t2]))
  {
    hide SortedNormalized, Joined, SortStrings;
    var t1, t2 := t.(goal := x + "|" + y, currentStep := z), t.(goal := x, currentStep := y + "|" + z);
    var f := Fields(KeyOf(t));
    assert Fields(KeyOf(t1)) == f[..2] + [x + "|" + y, z] + f[4..];
    assert Fields(KeyOf(t2)) == f[..2] + [x, y + "|" + z] + f[4..];
    JoinShifts(f[..2], x, y, z, f[4..], "|");
    LineOfTask(t1);
    LineOfTask(t2);
    assert Collect([t1], t => Some(TaskLine(t))) == Collect([t2], t => Some(TaskLine(t)));
    assert |t1.goal| > |t2.goal|;
    assert KeysOf([t1]) == [KeyOf(t1)] && KeysOf([t2]) == [KeyOf(t2)];
    assert KeyOf(t1) in multiset(KeysOf([t1])) && KeyOf(t1) !in multiset(KeysOf([t2]));
  }

  /** Names that normalising leaves alone. */
  ghost predicate PlainName(s: string) {
    && s != "" && NoEdgeSpace(s) && !HasPrefix(s, "./")
    && forall i :: 0 <= i < |s| ==> s[i] != '\\' && !('A' <= s[i] <= 'Z')
  }

  lemma {:induction false} ReplacesNothing(s: string, from: char, to: char)
    requires from !in s
    ensures ReplaceChar(s, from, to) == s
  {
    if s != "" {
      ReplacesNothing(s[1..], from, to);
      assert s == [s[0]] + s[1..];
    }
  }

  lemma PlainNameStays(s: string)
    requires PlainName(s)
    ensures NormalizedValue(s) == Some(s)
  {
    hide Trim;
    ReplacesNothing(s, '\\', '/');
    assert ToLower(s) == s;
  }

  lemma OneName(x: string)
    requires PlainName(x)
    ensures SortedNormalized([x]) == [x]
  {
    hide NormalizedValue, PlainName;
    PlainNameStays(x);
    assert [x][1..] == [];
    assert Collect([x], NormalizedValue) == [x];
    SortedUnique(SortStrings([x]), [x]);
  }

  lemma TwoNames(x: string, y: string)
    requires PlainName(x) && PlainName(y) && AtMost(x, y)
    ensures SortedNormalized([x, y]) == [x, y]
  {
    hide NormalizedValue, PlainName, AtMost;
    PlainNameStays(x);
    PlainNameStays(y);
    assert [x, y][1..] == [y] && [y][1..] == [];
    assert Collect([y], NormalizedValue) == [y] && Collect([x, y][1..], NormalizedValue) == [y];
    assert Collect([x, y], NormalizedValue) == [x] + [y];
    SortedUnique(SortStrings([x, y]), [x, y]);
  }

  lemma PlainPair(x: string, y: string)
    requires PlainName(x) && PlainName(y)
    ensures PlainName(x + "," + y)
  {
    var s := x + "," + y;
    var n := |x|;
    assert s[0] == x[0] && s[|s| - 1] == y[|y| - 1];
    forall i | 0 <= i < |s| ensures s[i] != '\\' && !('A' <= s[i] <= 'Z') {
      assert if i < n then s[i] == x[i] else if i == n then s[i] == ',' else s[i] == y[i - n - 1];
    }
    assert s[..2] == if n > 1 then x[..2] else x + ",";
    assert n == 1 ==> s[..2][1] == ',';
  }

  /** A comma in a name: for any two plain names in order, one file named by both
      looks like two files. */
  lemma CommaInNameIsAmbiguous(i: Input, x: string, y: string)
    requires PlainName(x) && PlainName(y) && AtMost(x, y)
    ensures var r := i.requested;
            var one, two := i.(requested := r.(changedFiles := [x + "," + y])),
                i.(requested := r.(changedFiles := [x, y]));
            Hashed(one) == Hashed(two) && ComparedOf(one) != ComparedOf(two)
  {
    hide PlainName, AtMost, SortedNormalized, TaskLines, KeysOf;
    PlainPair(x, y);
    OneName(x + "," + y);
    TwoNames(x, y);
    assert [x, y][1..] == [y];
    assert Joined([x, y], ",") == x + "," + y == Joined([x + "," + y], ",");
    hide Joined;
    assert |[x, y]| != |[x + "," + y]|;
  }
}
