/** LauncherTransaction (internal/managedruntime/launchers.go): every launcher
    path is inspected first, then written, and put back if anything fails. */
module Launchers {
  import opened Text
  import opened FileSystem

  const MARKER := "baron-nexus: managed runtime launcher v1"
  const LAUNCHER_MODE: nat := 448 // 0o700

  /** A directory entry; directories and symbolic links are Irregular. */
  datatype Entry = Regular(data: string, mode: nat) | Irregular

  /** A launcher request after its name, identity, target and PATH entries have
      been validated. */
  datatype Spec = Spec(name: string, target: string, identity: string, managedPath: seq<string>)

  datatype Launcher = Launcher(name: string, path: string, target: string, identity: string,
                               managedPath: seq<string>, collision: bool)

  datatype Change = Change(path: string, original: Option<Entry>)

  type Directory = map<string, Entry>

  // ----------------------------------------------------------------- rendering

  function Quote(s: string): string { "'" + QuoteBody(s) + "'" }

  function QuoteBody(s: string): string {
    if |s| == 0 then ""
    else (if s[0] == '\'' then "'\\''" else [s[0]]) + QuoteBody(s[1..])
  }

  function IdentityLine(identity: string): string {
    if identity == "" then "" else "export BARON_CLIENT='" + identity + "'\n"
  }

  function PathLine(managedPath: seq<string>): string {
    if |managedPath| == 0 then ""
    else
      var value := Quote(Joined(managedPath, ":"));
      "if [ -n \"${PATH:-}\" ]; then\nexport PATH=" + value + ":\"$PATH\"\nelse\nexport PATH=" + value + "\nfi\n"
  }

  /** renderLauncher on POSIX systems. */
  function Render(target: string, identity: string, managedPath: seq<string>): (text: string)
    ensures Contains(text, MARKER)
  {
    var tail := "\nset -eu\n" + IdentityLine(identity) + PathLine(managedPath) + "exec " + Quote(target) + " \"$@\"\n";
    ContainsInContext("#!/bin/sh\n# ", MARKER, tail);
    "#!/bin/sh\n# " + MARKER + tail
  }

  lemma {:induction false} QuoteBodyIdentity(s: string)
    requires '\'' !in s
    ensures QuoteBody(s) == s
  {
    if |s| > 0 { QuoteBodyIdentity(s[1..]); }
  }

  lemma RenderedTargetIsVisible(target: string, identity: string, managedPath: seq<string>)
    requires '\'' !in target
    ensures Contains(Render(target, identity, managedPath), target)
  {
    QuoteBodyIdentity(target);
    var shebang := "#!/bin/sh\n# " + MARKER;
    var setup := "\nset -eu\n" + IdentityLine(identity) + PathLine(managedPath) + "exec ";
    var arguments := " \"$@\"\n";
    assert Render(target, identity, managedPath) == shebang + (setup + ("'" + target + "'") + arguments);
    hide Render, IdentityLine, PathLine, MARKER, Contains;
    Regroup(shebang, setup, "'", target, arguments);
    ContainsInContext(shebang + (setup + "'"), target, "'" + arguments);
  }

  lemma Regroup(a: string, b: string, quote: string, text: string, c: string)
    ensures a + (b + (quote + text + quote) + c) == (a + (b + quote)) + text + (quote + c)
  {
  }

  // ----------------------------------------------------------------- ownership

  /** A regular file that carries Baron's marker. */
  predicate Marked(e: Entry) { e.Regular? && Contains(e.data, MARKER) }

  lemma MarkedExactly(e: Entry)
    ensures Marked(e) <==> e.Regular? && exists before, after ::
              e.data == before + "baron-nexus: managed runtime launcher v1" + after
  {
    if Marked(e) {
      var i :| 0 <= i <= |e.data| && OccursAt(e.data, MARKER, i);
      assert e.data == e.data[..i] + MARKER + e.data[i + |MARKER|..];
    }
    if e.Regular? {
      forall before, after | e.data == before + MARKER + after ensures Contains(e.data, MARKER) {
        ContainsInContext(before, MARKER, after);
      }
    }
  }

  function AliasOf(name: string): string { "baron-" + name }

  /** `to` differs from `from` only where there was nothing, or a marked file. */
  ghost predicate OnlyMarkedChanged(from: Directory, to: Directory) {
    forall p :: p in from && !Marked(from[p]) ==> p in to && to[p] == from[p]
  }

  lemma OnlyMarkedChangedRefl(files: Directory)
    ensures OnlyMarkedChanged(files, files)
  {
  }

  /** The file a launcher request may use: the bare name unless something
      unmarked has it, then the alias unless something unmarked has that. */
  ghost predicate Selected(files: Directory, name: string, path: string) {
    if name !in files || Marked(files[name]) then path == name
    else path == AliasOf(name) && (path !in files || Marked(files[path]))
  }

  /** Requests that can all be planned: no name twice, a path for each, no path
      twice (one request's alias may be another's name). */
  ghost predicate Preparable(files: Directory, specs: seq<Spec>) {
    && SpecNamesApart(specs)
    && (forall i :: 0 <= i < |specs| ==> HasPath(files, specs[i].name))
    && (forall i, j, p :: 0 <= i < j < |specs| && Selected(files, specs[i].name, p) ==>
        !Selected(files, specs[j].name, p))
  }

  ghost predicate HasPath(files: Directory, name: string) { exists p :: Selected(files, name, p) }

  ghost predicate SpecNamesApart(specs: seq<Spec>) {
    forall i, j :: 0 <= i < j < |specs| ==> specs[i].name != specs[j].name
  }

  datatype Selection = Use(path: string, collision: bool) | NoPath

  // -------------------------------------------------------- transaction algebra

  ghost function Written(d: string): Entry { Regular(d, LAUNCHER_MODE) }

  /** The directory once the first n launchers have been written. */
  ghost function After(base: Directory, changes: seq<Change>, desired: map<string, string>, n: nat): Directory
    requires n <= |changes| && forall c :: c in changes ==> c.path in desired
  {
    if n == 0 then base
    else After(base, changes, desired, n - 1)[changes[n - 1].path := Written(desired[changes[n - 1].path])]
  }

  /** What PrepareLaunchers records about the directory it looked at. */
  ghost predicate Recorded(base: Directory, changes: seq<Change>, desired: map<string, string>) {
    && (forall i, j :: 0 <= i < j < |changes| ==> changes[i].path != changes[j].path)
    && (forall c :: c in changes ==> c.path in desired && Contains(desired[c.path], MARKER))
    && (forall c :: c in changes ==> c.original == Original(base, c.path))
    && (forall c :: c in changes && c.path in base ==> Marked(base[c.path]))
  }

  ghost function Original(files: Directory, path: string): Option<Entry> {
    if path in files then Some(files[path]) else None
  }

  ghost function PathsOf(changes: seq<Change>): set<string> {
    set c | c in changes :: c.path
  }

  lemma AfterNothing(base: Directory, changes: seq<Change>, desired: map<string, string>)
    ensures Recorded(base, changes, desired) ==> After(base, changes, desired, 0) == base
  {
  }

  /** The directory is what the first n writes make of it. */
  ghost predicate StepOf(base: Directory, changes: seq<Change>, desired: map<string, string>, files: Directory,
                         n: nat)
  {
    Recorded(base, changes, desired) && n <= |changes| && files == After(base, changes, desired, n)
  }

  lemma {:induction false} AfterAt(base: Directory, changes: seq<Change>, desired: map<string, string>, n: nat)
    requires Recorded(base, changes, desired) && n <= |changes|
    ensures forall i :: 0 <= i < n ==>
              changes[i].path in After(base, changes, desired, n)
              && After(base, changes, desired, n)[changes[i].path] == Written(desired[changes[i].path])
    ensures forall p :: p !in PathsOf(changes[..n]) ==>
              (p in After(base, changes, desired, n) <==> p in base)
              && (p in base ==> After(base, changes, desired, n)[p] == base[p])
  {
    if n > 0 {
      AfterAt(base, changes, desired, n - 1);
      assert changes[..n] == changes[..n - 1] + [changes[n - 1]];
    }
  }

  lemma UpdateBack<V>(m: map<string, V>, p: string, v: V)
    ensures p in m ==> m[p := v][p := m[p]] == m
    ensures p !in m ==> m[p := v] - {p} == m
  {
  }

  /** Putting back the last written launcher undoes one step. */
  lemma UndoOne(base: Directory, changes: seq<Change>, desired: map<string, string>, n: nat)
    requires Recorded(base, changes, desired) && 0 < n <= |changes|
    ensures var c := changes[n - 1];
            var before := After(base, changes, desired, n - 1);
            var after := After(base, changes, desired, n);
            && c.path in after && after[c.path] == Written(desired[c.path])
            && before == (if c.original.Some? then after[c.path := c.original.value] else after - {c.path})
  {
    var c := changes[n - 1];
    assert c in changes;
    var before := After(base, changes, desired, n - 1);
    AfterAt(base, changes, desired, n - 1);
    UpdateBack(before, c.path, Written(desired[c.path]));
    assert c.path !in PathsOf(changes[..n - 1]) by {
      forall x | x in changes[..n - 1] ensures x.path != c.path {
        var i :| 0 <= i < n - 1 && changes[i] == x;
      }
    }
  }

  /** What the transaction wrote last still carries the marker. */
  lemma LastWrittenIsMarked(base: Directory, changes: seq<Change>, desired: map<string, string>, files: Directory,
                            index: nat)
    requires index < |changes| && StepOf(base, changes, desired, files, index + 1)
    ensures changes[index].path in files && Marked(files[changes[index].path])
  {
    UndoOne(base, changes, desired, index + 1);
    assert changes[index] in changes;
  }

  lemma AfterOnlyMarkedChanged(base: Directory, changes: seq<Change>, desired: map<string, string>, n: nat)
    requires Recorded(base, changes, desired) && n <= |changes|
    ensures OnlyMarkedChanged(base, After(base, changes, desired, n))
  {
    AfterAt(base, changes, desired, n);
  }

  /** What one turn of the rollback loop does to the directory: it puts the
      recorded original of its launcher back, or reports an error and changes
      nothing; what is there and not a marked launcher is such an error. */
  ghost predicate UndoTurn(from: Directory, to: Directory, change: Change, ok: bool) {
    && to == (if !ok then from else if change.original.Some? then from[change.path := change.original.value]
              else from - {change.path})
    && (change.path in from && !Marked(from[change.path]) ==> !ok)
  }

  lemma UndoTurnOnlyMarked(from: Directory, to: Directory, change: Change, ok: bool)
    requires UndoTurn(from, to, change, ok)
    ensures OnlyMarkedChanged(from, to) && SameBut(from, to, {change.path})
  {
    hide Marked;
  }

  lemma OnlyMarkedChangedTransitive(a: Directory, b: Directory, c: Directory)
    requires OnlyMarkedChanged(a, b) && OnlyMarkedChanged(b, c)
    ensures OnlyMarkedChanged(a, c)
  {
    hide Marked;
  }

  lemma UndoTurnKeepsStep(base: Directory, changes: seq<Change>, desired: map<string, string>, index: nat,
                          from: Directory, to: Directory, ok: bool)
    requires Recorded(base, changes, desired) && index < |changes|
    requires UndoTurn(from, to, changes[index], ok) && OnlyMarkedChanged(base, from)
    ensures OnlyMarkedChanged(base, to)
    ensures ok && from == After(base, changes, desired, index + 1) ==> to == After(base, changes, desired, index)
  {
    hide OnlyMarkedChanged, Marked, SameBut, Recorded;
    UndoOne(base, changes, desired, index + 1);
    UndoTurnOnlyMarked(from, to, changes[index], ok);
    OnlyMarkedChangedTransitive(base, from, to);
  }

  lemma NothingElse(files: Directory, paths: set<string>)
    ensures SameBut(files, files, paths)
  {
  }

  lemma OwnPathOnly(changes: seq<Change>, index: nat, from: Directory, to: Directory)
    requires index < |changes| && SameBut(from, to, {changes[index].path})
    ensures SameBut(from, to, PathsOf(changes))
    ensures forall base :: SameBut(base, from, PathsOf(changes)) ==> SameBut(base, to, PathsOf(changes))
  {
    assert changes[index] in changes;
    assert changes[index].path in PathsOf(changes);
    SameButWider(from, to, {changes[index].path}, PathsOf(changes));
    forall base | SameBut(base, from, PathsOf(changes)) ensures SameBut(base, to, PathsOf(changes)) {
      SameButTransitive(base, from, to, PathsOf(changes));
    }
  }

  // --------------------------------------------------------------- transaction

  datatype ApplyResult =
    | Applied
    | AlreadyApplied
    | NoContent(path: string)
    | WriteFailed(path: string, rolledBack: bool)

  type LauncherDisk = Disk<string, Entry>

  class LauncherTransaction {
    var changes: seq<Change>
    var desired: map<string, string>
    var applied: nat
    /** The directory PrepareLaunchers saw. */
    ghost var base: Directory

    ghost predicate Prepared()
      reads this
    {
      Recorded(base, changes, desired) && applied <= |changes|
    }

    /** The directory is what this transaction has made of it so far. */
    ghost predicate InStep(disk: LauncherDisk)
      reads this, disk
    {
      Prepared() && disk.files == After(base, changes, desired, applied)
    }

    constructor (changes: seq<Change>, desired: map<string, string>, ghost base: Directory)
      requires Recorded(base, changes, desired)
      ensures Prepared() && applied == 0
      ensures this.changes == changes && this.desired == desired && this.base == base
    {
      this.changes, this.desired, this.applied, this.base := changes, desired, 0, base;
    }

    /** All desired launchers are written; or, when the directory was as
        prepared and the undo writes succeed, none are.  Files that carry no
        marker are never touched, whatever fails. */
    method Apply(disk: LauncherDisk) returns (result: ApplyResult)
      modifies this, disk
      ensures changes == old(changes) && desired == old(desired) && base == old(base)
      ensures result.AlreadyApplied? <==> old(applied) != 0
      ensures result.AlreadyApplied? ==> disk.files == old(disk.files) && applied == old(applied)
      ensures result.Applied? ==> applied == |changes|
      ensures result.WriteFailed? ==> applied == 0
      ensures SameBut(old(disk.files), disk.files, PathsOf(changes))
      ensures old(InStep(disk)) ==> !result.NoContent?
      ensures old(InStep(disk)) && result.Applied? ==> InStep(disk)
      ensures old(InStep(disk)) && result.WriteFailed? && result.rolledBack ==> disk.files == base
      ensures old(InStep(disk)) ==> OnlyMarkedChanged(base, disk.files)
      ensures disk.healthy && old(InStep(disk)) && old(applied) == 0 ==> result.Applied?
    {
      hide OnlyMarkedChanged, SameBut, PathsOf;
      NothingElse(disk.files, PathsOf(changes));
      ghost var ready := InStep(disk);
      if ready { AfterOnlyMarkedChanged(base, changes, desired, applied); }
      if applied != 0 { return AlreadyApplied; }
      ghost var cs, ds, b := changes, desired, base;
      for index := 0 to |changes|
        invariant changes == cs && desired == ds && base == b
        invariant applied == index
        invariant SameBut(old(disk.files), disk.files, PathsOf(cs))
        invariant ready ==> InStep(disk)
      {
        ghost var files := disk.files;
        var change := changes[index];
        if change.path !in desired {
          return NoContent(change.path);
        }
        var ok := disk.AtomicWriteFile(change.path, Regular(desired[change.path], LAUNCHER_MODE));
        if !ok {
          var undone := RollbackApplied(disk, index);
          SameButTransitive(old(disk.files), files, disk.files, PathsOf(cs));
          return WriteFailed(change.path, undone);
        }
        OwnPathOnly(cs, index, files, disk.files);
        applied := index + 1;
        if ready { assert disk.files == After(base, changes, desired, applied); }
      }
      if ready { AfterOnlyMarkedChanged(base, changes, desired, applied); }
      return Applied;
    }

    method Rollback(disk: LauncherDisk) returns (ok: bool)
      modifies this, disk
      ensures changes == old(changes) && desired == old(desired) && base == old(base) && applied == 0
      ensures old(InStep(disk)) && ok ==> disk.files == base
      ensures old(InStep(disk)) ==> OnlyMarkedChanged(base, disk.files)
      ensures OnlyMarkedChanged(old(disk.files), disk.files)
      ensures old(applied) == 0 ==> ok && disk.files == old(disk.files)
      ensures disk.healthy && old(InStep(disk)) ==> ok
    {
      ok := RollbackApplied(disk, applied);
    }

    method Commit()
      modifies this
      ensures changes == [] && desired == map[] && applied == 0
    {
      changes, desired, applied := [], map[], 0;
    }

    /** rollbackApplied: walk backwards, remember the first error, carry on
        regardless. */
    method RollbackApplied(disk: LauncherDisk, limit: nat) returns (ok: bool)
      modifies this, disk
      ensures changes == old(changes) && desired == old(desired) && base == old(base) && applied == 0
      ensures limit == 0 ==> ok && disk.files == old(disk.files)
      ensures SameBut(old(disk.files), disk.files, PathsOf(changes))
      ensures OnlyMarkedChanged(old(disk.files), disk.files)
      ensures old(Prepared()) && limit <= |changes| && old(disk.files) == After(base, changes, desired, limit) ==>
                (ok ==> disk.files == base) && OnlyMarkedChanged(base, disk.files) && (disk.healthy ==> ok)
    {
      hide OnlyMarkedChanged, After, Recorded, PathsOf, UndoTurn;
      OnlyMarkedChangedRefl(disk.files);
      var index := if limit > |changes| then |changes| else limit;
      ok := true;
      ghost var b, cs, ds := base, changes, desired;
      ghost var ready := applied <= |cs| && StepOf(b, cs, ds, disk.files, limit);
      if ready { AfterOnlyMarkedChanged(b, cs, ds, limit); }
      while index > 0
        invariant 0 <= index <= |cs|
        invariant changes == cs && desired == ds && base == b
        invariant limit == 0 ==> ok && index == 0 && disk.files == old(disk.files)
        invariant SameBut(old(disk.files), disk.files, PathsOf(cs)) && OnlyMarkedChanged(old(disk.files), disk.files)
        invariant ready ==> OnlyMarkedChanged(b, disk.files)
        invariant ready ==> Recorded(b, cs, ds)
        invariant ready && ok ==> StepOf(b, cs, ds, disk.files, index)
        invariant ready && disk.healthy ==> ok
      {
        index := index - 1;
        ghost var files := disk.files;
        if ready && ok { LastWrittenIsMarked(b, cs, ds, files, index); }
        var restored := RestoreOne(disk, changes[index]);
        UndoTurnOnlyMarked(files, disk.files, cs[index], restored);
        OnlyMarkedChangedTransitive(old(disk.files), files, disk.files);
        OwnPathOnly(cs, index, files, disk.files);
        if ready { UndoTurnKeepsStep(b, cs, ds, index, files, disk.files, restored); }
        ok := ok && restored;
      }
      AfterNothing(b, cs, ds);
      applied := 0;
    }
  }

  /** One turn of the rollback loop: what is no longer a marked regular file is
      left alone. */
  method RestoreOne(disk: LauncherDisk, change: Change) returns (ok: bool)
    modifies disk
    ensures UndoTurn(old(disk.files), disk.files, change, ok)
    ensures disk.healthy && (change.path in old(disk.files) ==> Marked(old(disk.files)[change.path])) ==> ok
  {
    var seen := disk.Inspect(change.path);
    var marked := seen.Found? && Marked(seen.file);
    if change.original.Some? {
      if !marked && !seen.Missing? { return false; }
      ok := disk.AtomicWriteFile(change.path, change.original.value);
    } else if !marked {
      ok := seen.Missing?;
    } else {
      var removed := disk.Remove(change.path);
      ok := removed != Stuck;
    }
  }

  // --------------------------------------------------------------- preparation

  datatype Problem =
    | DuplicateName(name: string)
    | DuplicatePath(path: string)
    | BothNamesTaken(name: string)
    | InspectionFailed

  datatype Preparation =
    | Ready(transaction: LauncherTransaction, launchers: seq<Launcher>, collisions: seq<string>)
    | Refused(problem: Problem)

  function LauncherFor(spec: Spec, path: string): Launcher {
    Launcher(spec.name, path, spec.target, spec.identity, spec.managedPath, path != spec.name)
  }

  function CollidingNames(launchers: seq<Launcher>): seq<string> {
    if |launchers| == 0 then []
    else
      var last := launchers[|launchers| - 1];
      CollidingNames(launchers[..|launchers| - 1]) + (if last.collision then [last.name] else [])
  }

  /** launcherOwnership and selectLauncherPath. */
  method SelectPath(disk: LauncherDisk, name: string) returns (result: Option<Selection>)
    ensures result.Some? && result.value.Use? ==>
              Selected(disk.files, name, result.value.path) && result.value.collision == (result.value.path != name)
    ensures result == Some(NoPath) ==> forall path :: !Selected(disk.files, name, path)
    ensures disk.healthy ==> result.Some?
  {
    var bare := disk.Inspect(name);
    if bare.Unreadable? { return None; }
    if bare.Missing? || Marked(bare.file) { return Some(Use(name, false)); }
    var other := disk.Inspect(AliasOf(name));
    if other.Unreadable? { return None; }
    if other.Found? && !Marked(other.file) { return Some(NoPath); }
    assert |AliasOf(name)| == |name| + 6;
    return Some(Use(AliasOf(name), true));
  }

  /** One launcher per request, on a path that holds nothing or a marked file. */
  ghost predicate Planned(files: Directory, specs: seq<Spec>, launchers: seq<Launcher>, desired: map<string, string>) {
    && |launchers| == |specs|
    && (forall i :: 0 <= i < |specs| ==>
          && launchers[i] == LauncherFor(specs[i], launchers[i].path)
          && Selected(files, specs[i].name, launchers[i].path)
          && launchers[i].path in desired
          && desired[launchers[i].path] == Render(specs[i].target, specs[i].identity, specs[i].managedPath))
    && (forall i, j :: 0 <= i < j < |launchers| ==> launchers[i].path != launchers[j].path)
  }

  /** A transaction fresh from PrepareLaunchers, and the launchers it will write. */
  ghost predicate PreparedFor(t: LauncherTransaction, disk: LauncherDisk, launchers: seq<Launcher>)
    reads t, disk
  {
    && t.InStep(disk) && t.applied == 0 && t.base == disk.files
    && ChangesFor(t.changes, launchers) && NamesApart(launchers)
    && exists specs :: Planned(t.base, specs, launchers, t.desired)
  }

  ghost predicate NamesApart(launchers: seq<Launcher>) {
    forall i, j :: 0 <= i < j < |launchers| ==>
        launchers[i].name != launchers[j].name && launchers[i].path != launchers[j].path
  }

  ghost predicate ChangesFor(changes: seq<Change>, launchers: seq<Launcher>) {
    |changes| == |launchers| && forall i :: 0 <= i < |changes| ==> changes[i].path == launchers[i].path
  }

  /** The lists PrepareLaunchers is filling. */
  datatype Draft = Draft(changes: seq<Change>, desired: map<string, string>, launchers: seq<Launcher>,
                         collisions: seq<string>)
  {
    function Add(spec: Spec, path: string, original: Option<Entry>): Draft {
      Draft(changes + [Change(path, original)],
            desired[path := Render(spec.target, spec.identity, spec.managedPath)],
            launchers + [LauncherFor(spec, path)],
            if path != spec.name then collisions + [spec.name] else collisions)
    }

    ghost predicate Fits(files: Directory, specs: seq<Spec>) {
      && Recorded(files, changes, desired)
      && Planned(files, specs, launchers, desired)
      && ChangesFor(changes, launchers)
      && collisions == CollidingNames(launchers)
    }
  }

  lemma AddPlanned(files: Directory, specs: seq<Spec>, launchers: seq<Launcher>, desired: map<string, string>,
                   spec: Spec, path: string)
    requires Planned(files, specs, launchers, desired) && Selected(files, spec.name, path)
    requires forall l :: l in launchers ==> l.path != path
    ensures Planned(files, specs + [spec], launchers + [LauncherFor(spec, path)],
                    desired[path := Render(spec.target, spec.identity, spec.managedPath)])
  {
    hide Render, Selected, LauncherFor;
    assert LauncherFor(spec, path).path == path by { PathOfLauncher(spec, path); }
  }

  lemma PathOfLauncher(spec: Spec, path: string)
    ensures LauncherFor(spec, path).path == path
  {
  }

  lemma PathsOfAppend(changes: seq<Change>, c: Change)
    ensures PathsOf(changes + [c]) == PathsOf(changes) + {c.path}
  {
    forall p | p in PathsOf(changes) + {c.path} ensures p in PathsOf(changes + [c]) {
      if p == c.path {
        assert c in changes + [c];
      } else {
        var d :| d in changes && d.path == p;
        assert d in changes + [c];
      }
    }
  }

  lemma NotAmongLaunchers(changes: seq<Change>, launchers: seq<Launcher>, path: string)
    requires ChangesFor(changes, launchers) && path !in PathsOf(changes)
    ensures forall c :: c in changes ==> c.path != path
    ensures forall l :: l in launchers ==> l.path != path
  {
    forall c | c in changes ensures c.path != path { assert c.path in PathsOf(changes); }
    forall l | l in launchers ensures l.path != path {
      var i :| 0 <= i < |launchers| && launchers[i] == l;
      assert changes[i] in changes;
    }
  }

  lemma CollidingNamesAppend(launchers: seq<Launcher>, l: Launcher)
    ensures CollidingNames(launchers + [l]) == if l.collision then CollidingNames(launchers) + [l.name]
              else CollidingNames(launchers)
  {
    assert (launchers + [l])[..|launchers|] == launchers;
  }

  lemma AddFits(files: Directory, specs: seq<Spec>, draft: Draft, spec: Spec, path: string)
    requires draft.Fits(files, specs) && path !in PathsOf(draft.changes)
    requires Selected(files, spec.name, path)
    ensures var next := draft.Add(spec, path, Original(files, path));
            next.Fits(files, specs + [spec]) && PathsOf(next.changes) == PathsOf(draft.changes) + {path}
  {
    hide Render, Contains, Selected, Marked, Original, CollidingNames;
    NotAmongLaunchers(draft.changes, draft.launchers, path);
    AddRecorded(files, draft, spec, path);
    AddPlanned(files, specs, draft.launchers, draft.desired, spec, path);
    PathsOfAppend(draft.changes, Change(path, Original(files, path)));
    CollidingNamesAppend(draft.launchers, LauncherFor(spec, path));
  }

  lemma AddRecorded(files: Directory, draft: Draft, spec: Spec, path: string)
    requires Recorded(files, draft.changes, draft.desired) && Selected(files, spec.name, path)
    requires forall c :: c in draft.changes ==> c.path != path
    ensures var next := draft.Add(spec, path, Original(files, path));
            Recorded(files, next.changes, next.desired)
  {
  }

  lemma SelectedBefore(files: Directory, specs: seq<Spec>, draft: Draft, path: string)
    requires draft.Fits(files, specs) && path in PathsOf(draft.changes)
    ensures exists i :: 0 <= i < |specs| && Selected(files, specs[i].name, path)
  {
    hide Selected, Render, Recorded;
    var c :| c in draft.changes && c.path == path;
    var i :| 0 <= i < |draft.changes| && draft.changes[i] == c;
    assert Selected(files, specs[i].name, draft.launchers[i].path);
  }

  /** Plans one request, or says what is wrong with it. */
  method PlanLauncher(disk: LauncherDisk, ghost specs: seq<Spec>, spec: Spec, taken: set<string>, draft: Draft)
    returns (problem: Option<Problem>, next: Draft, path: string)
    requires draft.Fits(disk.files, specs) && PathsOf(draft.changes) == taken
    ensures problem.None? ==> next.Fits(disk.files, specs + [spec]) && PathsOf(next.changes) == taken + {path}
    ensures problem.None? ==> path !in taken
    ensures problem.Some? ==> !problem.value.DuplicateName?
    ensures problem.Some? && problem.value.BothNamesTaken? ==>
              problem.value.name == spec.name && forall p :: !Selected(disk.files, spec.name, p)
    ensures problem.Some? && problem.value.DuplicatePath? ==>
              Selected(disk.files, spec.name, problem.value.path)
              && exists i :: 0 <= i < |specs| && Selected(disk.files, specs[i].name, problem.value.path)
    ensures disk.healthy ==> problem != Some(InspectionFailed)
  {
    next, path := draft, "";
    var selection := SelectPath(disk, spec.name);
    if selection.None? { return Some(InspectionFailed), next, path; }
    if selection.value.NoPath? { return Some(BothNamesTaken(spec.name)), next, path; }
    path := selection.value.path;
    if path in taken {
      SelectedBefore(disk.files, specs, draft, path);
      return Some(DuplicatePath(path)), next, path;
    }
    var seen := disk.Inspect(path);
    if seen.Unreadable? || (seen.Found? && !Marked(seen.file)) { return Some(InspectionFailed), next, path; }
    AddFits(disk.files, specs, draft, spec, path);
    next := draft.Add(spec, path, if seen.Found? then Some(seen.file) else None);
    return None, next, path;
  }

  function NamesOf(specs: seq<Spec>): set<string> { set s | s in specs :: s.name }

  lemma NoNames()
    ensures NamesOf([]) == {} && SpecNamesApart([])
  {
  }

  /** A name is new, or two requests share it. */
  lemma AnotherName(specs: seq<Spec>, n: nat)
    requires n < |specs| && SpecNamesApart(specs[..n])
    ensures NamesOf(specs[..n + 1]) == NamesOf(specs[..n]) + {specs[n].name}
    ensures if specs[n].name in NamesOf(specs[..n])
            then exists i, j :: 0 <= i < j < |specs| && specs[i].name == specs[j].name == specs[n].name
            else SpecNamesApart(specs[..n + 1])
  {
    assert specs[..n + 1] == specs[..n] + [specs[n]];
    if specs[n].name in NamesOf(specs[..n]) {
      var s :| s in specs[..n] && s.name == specs[n].name;
      var i :| 0 <= i < n && specs[..n][i] == s;
      assert specs[i].name == specs[n].name;
    }
  }

  lemma LauncherNamesApart(files: Directory, specs: seq<Spec>, launchers: seq<Launcher>, desired: map<string, string>)
    requires Planned(files, specs, launchers, desired)
    requires SpecNamesApart(specs)
    ensures NamesApart(launchers)
  {
    hide Render, Selected;
    forall i | 0 <= i < |specs| ensures launchers[i].name == specs[i].name {
      assert launchers[i] == LauncherFor(specs[i], launchers[i].path);
    }
  }

  lemma SharedNameForbids(files: Directory, specs: seq<Spec>)
    requires exists i, j :: 0 <= i < j < |specs| && specs[i].name == specs[j].name
    ensures !Preparable(files, specs)
  {
  }

  lemma ProblemForbids(files: Directory, specs: seq<Spec>, n: nat, problem: Problem)
    requires n < |specs|
    requires problem.BothNamesTaken? ==> problem.name == specs[n].name && forall p :: !Selected(files, specs[n].name, p)
    requires problem.DuplicatePath? ==>
               Selected(files, specs[n].name, problem.path)
               && exists i :: 0 <= i < n && Selected(files, specs[..n][i].name, problem.path)
    ensures problem.BothNamesTaken? ==> !Preparable(files, specs) && !HasPath(files, problem.name)
    ensures problem.DuplicatePath? ==>
              && !Preparable(files, specs)
              && exists i, j :: 0 <= i < j < |specs| && Selected(files, specs[i].name, problem.path)
                                && Selected(files, specs[j].name, problem.path)
  {
    hide Selected, SpecNamesApart;
    if problem.DuplicatePath? {
      var i :| 0 <= i < n && Selected(files, specs[..n][i].name, problem.path);
      assert Selected(files, specs[i].name, problem.path);
    }
  }

  lemma SelectedIsUnique(files: Directory, name: string, p: string, q: string)
    requires Selected(files, name, p) && Selected(files, name, q)
    ensures p == q
  {
  }

  lemma PlannedIsPreparable(files: Directory, specs: seq<Spec>, launchers: seq<Launcher>, desired: map<string, string>)
    requires Planned(files, specs, launchers, desired) && SpecNamesApart(specs)
    ensures Preparable(files, specs)
  {
    hide Selected, Render, LauncherFor, SpecNamesApart;
    forall i, j, p | 0 <= i < j < |specs| && Selected(files, specs[i].name, p)
        ensures !Selected(files, specs[j].name, p) {
      SelectedIsUnique(files, specs[i].name, p, launchers[i].path);
      if Selected(files, specs[j].name, p) { SelectedIsUnique(files, specs[j].name, p, launchers[j].path); }
    }
    forall i | 0 <= i < |specs| ensures HasPath(files, specs[i].name) {
      assert Selected(files, specs[i].name, launchers[i].path);
    }
  }

  method PrepareLaunchers(disk: LauncherDisk, specs: seq<Spec>) returns (result: Preparation)
    ensures result.Ready? ==>
              && fresh(result.transaction) && result.transaction.base == disk.files
              && result.transaction.InStep(disk) && result.transaction.applied == 0
              && Planned(disk.files, specs, result.launchers, result.transaction.desired)
              && ChangesFor(result.transaction.changes, result.launchers) && NamesApart(result.launchers)
              && result.collisions == CollidingNames(result.launchers)
    ensures result.Refused? && result.problem.DuplicateName? ==>
              exists i, j :: 0 <= i < j < |specs| && specs[i].name == specs[j].name == result.problem.name
    ensures result.Refused? && result.problem.BothNamesTaken? ==> !HasPath(disk.files, result.problem.name)
    ensures result.Refused? && result.problem.DuplicatePath? ==>
              exists i, j :: 0 <= i < j < |specs| && Selected(disk.files, specs[i].name, result.problem.path)
                             && Selected(disk.files, specs[j].name, result.problem.path)
    ensures result.Ready? ==> Preparable(disk.files, specs)
    ensures result.Refused? && !result.problem.InspectionFailed? ==> !Preparable(disk.files, specs)
    ensures disk.healthy ==> (result.Ready? <==> Preparable(disk.files, specs))
  {
    hide Render, Contains, Selected, Marked, LauncherFor, NamesOf, SpecNamesApart, NamesApart, Preparable, HasPath;
    NoNames();
    var draft := Draft([], map[], [], []);
    var seenNames: set<string> := {};
    var seenPaths: set<string> := {};
    for n := 0 to |specs|
      invariant draft.Fits(disk.files, specs[..n]) && PathsOf(draft.changes) == seenPaths
      invariant seenNames == NamesOf(specs[..n]) && SpecNamesApart(specs[..n])
    {
      AnotherName(specs, n);
      if specs[n].name in seenNames {
        SharedNameForbids(disk.files, specs);
        return Refused(DuplicateName(specs[n].name));
      }
      seenNames := seenNames + {specs[n].name};
      var problem, next, path := PlanLauncher(disk, specs[..n], specs[n], seenPaths, draft);
      if problem.Some? {
        ProblemForbids(disk.files, specs, n, problem.value);
        return Refused(problem.value);
      }
      assert specs[..n + 1] == specs[..n] + [specs[n]];
      draft, seenPaths := next, seenPaths + {path};
    }
    assert specs[..|specs|] == specs;
    LauncherNamesApart(disk.files, specs, draft.launchers, draft.desired);
    PlannedIsPreparable(disk.files, specs, draft.launchers, draft.desired);
    var transaction := new LauncherTransaction(draft.changes, draft.desired, disk.files);
    return Ready(transaction, draft.launchers, draft.collisions);
  }

  datatype InstallResult =
    | Installed(launchers: seq<Launcher>, collisions: seq<string>)
    | NotPrepared(problem: Problem)
    | NotWritten(rolledBack: bool)

  /** InstallLaunchers: prepare, write, commit. */
  method InstallLaunchers(disk: LauncherDisk, specs: seq<Spec>) returns (result: InstallResult)
    modifies disk
    ensures OnlyMarkedChanged(old(disk.files), disk.files)
    ensures result.NotPrepared? || (result.NotWritten? && result.rolledBack) ==> disk.files == old(disk.files)
    ensures result.Installed? ==> InstalledFrom(old(disk.files), disk.files, result.launchers)
    ensures result.Installed? ==> exists desired :: Planned(old(disk.files), specs, result.launchers, desired)
    ensures disk.healthy ==> (result.Installed? <==> Preparable(old(disk.files), specs)) && !result.NotWritten?
  {
    hide Render, Contains, Selected, Marked, Planned, Recorded, InstalledFrom, Preparable;
    ghost var base := disk.files;
    var preparation := PrepareLaunchers(disk, specs);
    if preparation.Refused? { return NotPrepared(preparation.problem); }
    var transaction := preparation.transaction;
    ghost var changes, desired := transaction.changes, transaction.desired;
    var applied := transaction.Apply(disk);
    if !applied.Applied? { return NotWritten(applied.WriteFailed? && applied.rolledBack); }
    InstalledEverywhere(base, specs, preparation.launchers, changes, desired);
    transaction.Commit();
    return Installed(preparation.launchers, preparation.collisions);
  }

  /** Every launcher holds its rendering and every other entry is as before. */
  ghost predicate InstalledFrom(base: Directory, after: Directory, launchers: seq<Launcher>) {
    && (forall l :: l in launchers ==>
          l.path in after && after[l.path] == Written(Render(l.target, l.identity, l.managedPath)))
    && (forall p :: p !in PathsInUse(launchers) ==>
          (p in after <==> p in base) && (p in after ==> after[p] == base[p]))
  }

  ghost function PathsInUse(launchers: seq<Launcher>): set<string> {
    set l | l in launchers :: l.path
  }

  lemma InstalledEverywhere(base: Directory, specs: seq<Spec>, launchers: seq<Launcher>, changes: seq<Change>,
                            desired: map<string, string>)
    requires Recorded(base, changes, desired) && Planned(base, specs, launchers, desired)
              && ChangesFor(changes, launchers)
    ensures InstalledFrom(base, After(base, changes, desired, |changes|), launchers)
  {
    hide Render, Contains, Selected, Marked, After, Recorded;
    var after := After(base, changes, desired, |changes|);
    AfterAt(base, changes, desired, |changes|);
    assert changes[..|changes|] == changes;
    forall l | l in launchers
      ensures l.path in after && after[l.path] == Written(Render(l.target, l.identity, l.managedPath))
    {
      var i :| 0 <= i < |launchers| && launchers[i] == l;
      assert changes[i].path == l.path;
    }
    SamePaths(changes, launchers);
  }

  lemma SamePaths(changes: seq<Change>, launchers: seq<Launcher>)
    requires ChangesFor(changes, launchers)
    ensures PathsOf(changes) <= PathsInUse(launchers)
  {
    forall p | p in PathsOf(changes) ensures p in PathsInUse(launchers) {
      var c :| c in changes && c.path == p;
      var i :| 0 <= i < |changes| && changes[i] == c;
      assert launchers[i] in launchers;
    }
  }

  // -------------------------------------------------------------- verification

  datatype Verdict = Accepted | Rejected | Undetermined

  ghost predicate Bound(files: Directory, l: Launcher) {
    && l.path == l.name
    && l.path in files && files[l.path].Regular?
    && files[l.path].data == Render(l.target, l.identity, l.managedPath)
    && Contains(files[l.path].data, l.target)
  }

  /** What verifyGenerationLaunchers accepts: every listed launcher is bound to
      its target under its own name, and no other marked file is left. */
  ghost predicate LaunchersGood(files: Directory, required: bool, launchers: seq<Launcher>) {
    && (required ==> launchers != [])
    && (forall l :: l in launchers ==> Bound(files, l))
    && (forall p :: p in files && Marked(files[p]) ==> p in PathsInUse(launchers))
  }

  method VerifyLauncher(disk: LauncherDisk, l: Launcher) returns (verdict: Verdict)
    ensures verdict.Accepted? ==> Bound(disk.files, l)
    ensures verdict.Rejected? ==> !Bound(disk.files, l)
    ensures disk.healthy ==> !verdict.Undetermined?
  {
    if l.path != l.name { return Rejected; }
    var seen := disk.Inspect(l.path);
    if seen.Unreadable? { return Undetermined; }
    if seen.Missing? || seen.file.Irregular? { return Rejected; }
    var data := seen.file.data;
    var expected := Render(l.target, l.identity, l.managedPath);
    if !Contains(data, MARKER) || !Contains(data, l.target) || data != expected { return Rejected; }
    return Accepted;
  }

  method VerifyListed(disk: LauncherDisk, launchers: seq<Launcher>) returns (verdict: Verdict, listed: set<string>)
    ensures verdict.Accepted? ==>
              (forall l :: l in launchers ==> Bound(disk.files, l)) && listed == PathsInUse(launchers)
    ensures verdict.Rejected? ==> exists l :: l in launchers && !Bound(disk.files, l)
    ensures disk.healthy ==> !verdict.Undetermined?
  {
    hide Bound;
    verdict, listed := Accepted, {};
    for n := 0 to |launchers|
      invariant verdict == Accepted
      invariant forall l :: l in launchers[..n] ==> Bound(disk.files, l)
      invariant listed == PathsInUse(launchers[..n])
    {
      assert launchers[n] in launchers;
      verdict := VerifyLauncher(disk, launchers[n]);
      if !verdict.Accepted? { return; }
      assert launchers[..n + 1] == launchers[..n] + [launchers[n]];
      listed := listed + {launchers[n].path};
    }
    assert launchers[..|launchers|] == launchers;
  }

  method VerifyUnlisted(disk: LauncherDisk, listed: set<string>) returns (verdict: Verdict)
    ensures verdict.Accepted? ==> forall p :: p in disk.files && Marked(disk.files[p]) ==> p in listed
    ensures verdict.Rejected? ==> exists p :: p in disk.files && Marked(disk.files[p]) && p !in listed
    ensures disk.healthy ==> !verdict.Undetermined?
  {
    hide Marked;
    var entries := disk.List();
    if entries.None? { return Undetermined; }
    for n := 0 to |entries.value|
      invariant forall i :: 0 <= i < n ==> Marked(disk.files[entries.value[i]]) ==> entries.value[i] in listed
    {
      var path := entries.value[n];
      var seen := disk.Inspect(path);
      if seen.Unreadable? || seen.Missing? { return Undetermined; }
      if Marked(seen.file) && path !in listed { return Rejected; }
    }
    return Accepted;
  }

  /** verifyGenerationLaunchers: the verdict is right whenever it is given. */
  method VerifyLaunchers(disk: LauncherDisk, required: bool, launchers: seq<Launcher>) returns (verdict: Verdict)
    ensures verdict.Accepted? ==> LaunchersGood(disk.files, required, launchers)
    ensures verdict.Rejected? ==> !LaunchersGood(disk.files, required, launchers)
    ensures disk.healthy ==>
              (verdict.Accepted? <==> LaunchersGood(disk.files, required, launchers)) && !verdict.Undetermined?
  {
    hide Bound, Marked;
    if required && |launchers| == 0 { return Rejected; }
    var listed: set<string>;
    verdict, listed := VerifyListed(disk, launchers);
    if verdict.Accepted? { verdict := VerifyUnlisted(disk, listed); }
  }

  /** After a successful transaction, verification accepts exactly when no
      launcher was moved to its alias, every target shows through the shell
      quoting, and no marked file of an earlier launcher is left over. */
  lemma VerificationAfterInstall(base: Directory, after: Directory, specs: seq<Spec>, launchers: seq<Launcher>,
                                 desired: map<string, string>, required: bool)
    requires Planned(base, specs, launchers, desired) && InstalledFrom(base, after, launchers)
    ensures LaunchersGood(after, required, launchers) <==>
              && (required ==> launchers != [])
              && (forall l :: l in launchers ==>
                  !l.collision && Contains(Render(l.target, l.identity, l.managedPath), l.target))
              && (forall p :: p in base && Marked(base[p]) ==> p in PathsInUse(launchers))
  {
    hide Render, Contains, Selected;
    forall l | l in launchers
      ensures Bound(after, l) <==> !l.collision && Contains(Render(l.target, l.identity, l.managedPath), l.target)
    {
      var i :| 0 <= i < |launchers| && launchers[i] == l;
      assert l == LauncherFor(specs[i], l.path);
    }
  }
}
