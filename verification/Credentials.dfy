/** Rotating one provider key across several credential files: stage, back up,
    commit, and roll back in reverse (internal/install/strix_credentials.go). */
module Credentials {
  import opened Text
  import opened FileSystem

  /** Directories and symbolic links are Irregular. */
  datatype Entry = File(data: string, mode: nat) | Irregular

  type Files = map<string, Entry>
  type CredentialDisk = Disk<string, Entry>

  const SECRET_MODE: nat := 384 // 0o600

  /** What a rotation asks the outside: its context, the directories above a path,
      an encoded file read back, and the bridge. */
  datatype Question = Ongoing | ParentsSafe(path: string) | ReadBack(path: string) | WriteBridge

  type RotationWorld = World<Question>
  type Answers = seq<Answer<Question>>

  /** The context was looked at n times and nothing else was asked. */
  ghost function Looks(n: nat): Answers { seq(n, i => Answer(Ongoing, Granted)) }

  /** No directory above a path was found unsafe. */
  ghost predicate ParentsStaySafe(past: Answers, log: Answers) {
    past <= log && forall i :: |past| <= i < |log| && log[i].question.ParentsSafe? ==> log[i].reply.Granted?
  }

  lemma OneMoreAnswer(past: Answers, told: Answers, log: Answers, a: Answer<Question>)
    requires past <= told && log == told + [a]
    ensures past <= log && (AllGranted(past, log) <==> AllGranted(past, told) && a.reply.Granted?)
    ensures ParentsStaySafe(past, log)
            <==> ParentsStaySafe(past, told) && (a.question.ParentsSafe? ==> a.reply.Granted?)
  {
    assert log[|told|] == a && forall i :: 0 <= i < |told| ==> log[i] == told[i];
    if AllGranted(past, told) && a.reply.Granted? {
      forall i | |past| <= i < |log| ensures log[i].reply.Granted? { if i < |told| { assert told[i].reply.Granted?; } }
    }
    if ParentsStaySafe(past, log) {
      forall i | |past| <= i < |told| && told[i].question.ParentsSafe? ensures told[i].reply.Granted? {
        assert log[i] == told[i];
      }
    }
    if AllGranted(past, log) {
      forall i | |past| <= i < |told| ensures told[i].reply.Granted? { assert log[i] == told[i]; }
    }
  }

  lemma AnswersJoin(past: Answers, told: Answers, log: Answers)
    requires past <= told <= log
    ensures past <= log && (AllGranted(past, log) <==> AllGranted(past, told) && AllGranted(told, log))
    ensures ParentsStaySafe(past, log) ==> ParentsStaySafe(past, told) && ParentsStaySafe(told, log)
  {
    if AllGranted(past, told) && AllGranted(told, log) {
      forall i | |past| <= i < |log| ensures log[i].reply.Granted? {
        if i < |told| { assert log[i] == told[i]; }
      }
    }
  }

  lemma LooksAreGranted(past: Answers, n: nat)
    ensures past <= past + Looks(n) && AllGranted(past, past + Looks(n)) && ParentsStaySafe(past, past + Looks(n))
    ensures past + Looks(n) + [Answer(Ongoing, Granted)] == past + Looks(n + 1)
  {
  }

  // ----------------------------------------------------------------------- names

  datatype Kind = Dsh | Strix | Tencent

  /** credentialData's dispatch on the target's name. */
  function KindOf(target: string): Kind {
    if HasSuffix(target, "/.credentials.yaml") then Dsh
    else if ToLower(PathBase(target)) == "strix.env" then Strix
    else Tencent
  }

  /** A file is the DSH store by its exact name, the Strix environment by its name
      in any case, and a Tencent environment otherwise. */
  lemma KindsByName(dir: string, name: string)
    requires name != "" && '/' !in name
    ensures KindOf(dir + "/" + name) == if name == ".credentials.yaml" then Dsh
                                        else if ToLower(name) == "strix.env" then Strix else Tencent
  {
    BaseOf(dir + "/", name);
    LastPart(dir, name, ".credentials.yaml");
    hide ToLower, PathBase, HasSuffix;
  }

  lemma LastPart(dir: string, name: string, last: string)
    requires '/' !in name && '/' !in last
    ensures HasSuffix(dir + "/" + name, "/" + last) <==> name == last
    ensures "/" + ".credentials.yaml" == "/.credentials.yaml"
  {
    var target, suffix := dir + "/" + name, "/" + last;
    if HasSuffix(target, suffix) {
      var before := target[..|target| - |suffix|];
      assert target == (before + "/") + last;
      AfterLastSlash(before + "/", last);
      AfterLastSlash(dir + "/", name);
    }
    if name == last {
      assert target[|dir|..] == suffix;
    }
  }

  function StagePath(target: string, id: string): string { target + ".baron-credential-" + id + ".tmp" }

  /** The temporary file renderStrixCredential encodes through. */
  function RenderPath(target: string): string { target + ".render" }

  function StagePaths(targets: seq<string>, id: string): set<string> { set t | t in targets :: StagePath(t, id) }

  function RenderPaths(targets: seq<string>): set<string> { set t | t in targets
      && KindOf(t) == Strix :: RenderPath(t) }

  function TargetSet(targets: seq<string>): set<string> { set t | t in targets }

  lemma StageNotRender(s: string, t: string, id: string)
    ensures StagePath(s, id) != RenderPath(t)
  {
    assert StagePath(s, id)[|StagePath(s, id)| - 1] == 'p';
    assert RenderPath(t)[|RenderPath(t)| - 1] == 'r';
  }

  lemma StagePathInjective(s: string, t: string, id: string)
    requires StagePath(s, id) == StagePath(t, id)
    ensures s == t
  {
    assert StagePath(s, id)[..|s|] == s && StagePath(t, id)[..|t|] == t;
  }

  ghost predicate Distinct(targets: seq<string>) {
    forall i, j :: 0 <= i < j < |targets| ==> targets[i] != targets[j]
  }

  /** What targets() keeps of the configured paths, already cleaned. */
  function TargetsOf(paths: seq<string>): (targets: seq<string>)
    ensures Distinct(targets)
    ensures forall t :: t in targets <==> t in paths && t != ""
  {
    if |paths| == 0 then []
    else
      var last := paths[|paths| - 1];
      var rest := TargetsOf(paths[..|paths| - 1]);
      if last == "" || last in rest then rest else rest + [last]
  }

  // ------------------------------------------------------------------- contract

  /** The encoders, as a function of the kind, the bytes found and the key;
      None is an existing document that cannot be extended. */
  type Renderer = (Kind, Option<string>, string) -> Option<string>

  ghost function Content(files: Files, path: string): Option<string> {
    if path in files && files[path].File? then Some(files[path].data) else None
  }

  datatype Outcome =
    | Refused
    | Unstaged(swept: bool)
    | NotCommitted(swept: bool, tidied: bool)
    | RolledBack(restored: bool, swept: bool, tidied: bool)
    | Rotated(swept: bool, tidied: bool)

  /** The stage names are new, as a time stamp with 48 random bits makes them. */
  ghost predicate FreshId(files: Files, targets: seq<string>, id: string) {
    forall t :: t in targets ==> StagePath(t, id) !in files && StagePath(t, id) !in targets
  }

  ghost predicate Rendered(before: Files, after: Files, target: string, key: string, render: Renderer) {
    && target in after && after[target].File? && after[target].mode == SECRET_MODE
    && Some(after[target].data) == render(KindOf(target), Content(before, target), key)
  }

  /** Everything RotateDeepSeek promises.  `swept`: every stage file was removed;
      `tidied`: every render file was; `restored`: so was every backup. */
  ghost predicate RotationRelation(before: Files, after: Files, targets: seq<string>, id: string, key: string,
                                   render: Renderer, o: Outcome) {
    var stages, renders := StagePaths(targets, id), RenderPaths(targets);
    match o
    case Refused => after == before
    case Unstaged(swept) =>
      && SameBut(before, after, stages + renders)
      && (swept ==> SameBut(before, after, renders))
    case NotCommitted(swept, tidied) =>
      && SameBut(before, after, stages + renders)
      && (swept ==> SameBut(before, after, renders))
      && (tidied ==> forall p :: p in renders ==> p !in after)
    case RolledBack(restored, swept, tidied) =>
      && SameBut(before, after, TargetSet(targets) + stages + renders)
      && (restored ==> SameBut(before, after, stages + renders))
      && (restored && swept ==> SameBut(before, after, renders))
      && (restored && tidied ==> forall p :: p in renders ==> p !in after)
    case Rotated(swept, tidied) =>
      && SameBut(before, after, TargetSet(targets) + stages + renders)
      && (swept ==> forall p :: p in stages ==> p !in after)
      && (forall t :: t in targets ==> t in after)
      && (forall t :: t in targets && t !in renders ==> Rendered(before, after, t, key, render))
  }

  // --------------------------------------------------------------- main theorems

  /** All or nothing: on success every target holds its rendering; on a failure
      whose undo writes succeeded every target is as it was.  The one exception
      is a target that has the name of another target's render file. */
  lemma AllOrNothing(before: Files, after: Files, targets: seq<string>, id: string, key: string, render: Renderer,
                     o: Outcome)
    requires RotationRelation(before, after, targets, id, key, render, o) && FreshId(before, targets, id)
    requires TargetSet(targets) !! RenderPaths(targets) && (o.RolledBack? ==> o.restored)
    ensures o.Rotated? ==> forall t :: t in targets ==> Rendered(before, after, t, key, render)
    ensures !o.Rotated? ==> forall t :: t in targets ==> SameAt(before, after, t)
  {
    forall t | t in targets ensures t !in RenderPaths(targets) && t !in StagePaths(targets, id) {
      assert t in TargetSet(targets);
    }
    if !o.Rotated? && !o.Refused? {
      forall t | t in targets ensures SameAt(before, after, t) {
        SameButAt(before, after, StagePaths(targets, id) + RenderPaths(targets), t);
      }
    }
  }

  /** Exactly when a rotation that got past staging gives back what it found:
      no target that existed has the name of a render file. */
  lemma UndoneExactly(before: Files, after: Files, targets: seq<string>, id: string, key: string, render: Renderer,
                      o: Outcome)
    requires RotationRelation(before, after, targets, id, key, render, o) && FreshId(before, targets, id)
    requires o.NotCommitted? || (o.RolledBack? && o.restored)
    requires o.swept && o.tidied
    ensures (forall t :: t in targets ==> SameAt(before, after, t))
            <==> forall t :: t in targets && t in RenderPaths(targets) ==> t !in before
  {
    forall t | t in targets && t !in RenderPaths(targets) ensures SameAt(before, after, t) {
      SameButAt(before, after, RenderPaths(targets), t);
    }
  }

  /** Without a Strix target a failed rotation leaves the whole directory tree
      exactly as it was. */
  lemma FailureIsIdentity(before: Files, after: Files, targets: seq<string>, id: string, key: string, render: Renderer,
                          o: Outcome)
    requires RotationRelation(before, after, targets, id, key, render, o)
    requires forall t :: t in targets ==> KindOf(t) != Strix
    requires !o.Rotated? && (o.RolledBack? ==> o.restored) && (!o.Refused? ==> o.swept)
    ensures after == before
  {
    assert RenderPaths(targets) == {};
    if !o.Refused? {
      assert before - RenderPaths(targets) == before && after - RenderPaths(targets) == after;
    }
  }

  /** No stage file outlives the call. */
  lemma NoStageSurvives(before: Files, after: Files, targets: seq<string>, id: string, key: string, render: Renderer,
                        o: Outcome, t: string)
    requires RotationRelation(before, after, targets, id, key, render, o) && FreshId(before, targets, id)
              && t in targets
    requires !o.Refused? ==> o.swept
    requires o.RolledBack? ==> o.restored
    ensures StagePath(t, id) !in after
  {
    if StagePath(t, id) in RenderPaths(targets) {
      var s :| s in targets && StagePath(t, id) == RenderPath(s);
      StageNotRender(t, s, id);
    } else if o.Rotated? {
      assert StagePath(t, id) in StagePaths(targets, id);
    } else if !o.Refused? {
      SameButAt(before, after, RenderPaths(targets), StagePath(t, id));
    }
  }

  // --------------------------------------------------------------------- staging

  /** validateCredentialTarget; the parent directories may fail it too. */
  method Validate(disk: CredentialDisk, world: RotationWorld, path: string) returns (ok: bool)
    modifies world
    ensures ok ==> path !in disk.files || disk.files[path].File?
    ensures ok <==> world.log == old(world.log) + [Answer(ParentsSafe(path), Granted)]
    ensures old(world.log) <= world.log && (ok ==> AllGranted(old(world.log), world.log))
    ensures disk.healthy && (path in disk.files ==> disk.files[path].File?)
            && ParentsStaySafe(old(world.log), world.log) ==>
              ok
  {
    var seen := disk.Inspect(path);
    if !seen.Missing? && !(seen.Found? && seen.file.File?) { return false; }
    var parentsSafe := world.Ask(ParentsSafe(path));
    OneMoreAnswer(old(world.log), old(world.log), world.log, Answer(ParentsSafe(path), parentsSafe));
    return parentsSafe.Granted?;
  }

  /** targets: the configured paths without blanks and repetitions. */
  method Targets(paths: seq<string>) returns (targets: seq<string>)
    ensures targets == TargetsOf(paths)
  {
    var seen: set<string> := {};
    targets := [];
    for n := 0 to |paths|
      invariant targets == TargetsOf(paths[..n])
      invariant forall t :: t in seen <==> t in targets
    {
      assert paths[..n + 1][..n] == paths[..n];
      if paths[n] != "" && paths[n] !in seen {
        seen := seen + {paths[n]};
        targets := targets + [paths[n]];
      }
    }
    assert paths[..|paths|] == paths;
  }

  /** A target that is absent or a regular file whose content can be extended. */
  ghost predicate Renderable(files: Files, target: string, key: string, render: Renderer) {
    && (target in files ==> files[target].File?)
    && render(KindOf(target), Content(files, target), key).Some?
  }

  function OwnRender(target: string): set<string> {
    if KindOf(target) == Strix then {RenderPath(target)} else {}
  }

  /** credentialData: a Strix environment is encoded through a temporary file
      next to it, which is removed again whatever happens. */
  method RenderTarget(disk: CredentialDisk, world: RotationWorld, target: string, key: string, render: Renderer)
    returns (data: Option<string>, tidied: bool)
    modifies disk, world
    ensures SameBut(old(disk.files), disk.files, OwnRender(target))
    ensures data.Some? ==> data == render(KindOf(target), Content(old(disk.files), target), key)
    ensures data.Some? && tidied ==> forall p :: p in OwnRender(target) ==> p !in disk.files
    ensures disk.healthy ==> tidied
    ensures tidied || disk.refused > old(disk.refused)
    ensures disk.refused >= old(disk.refused)
    ensures old(world.log) <= world.log && ParentsStaySafe(old(world.log), world.log)
    ensures data.Some? ==> AllGranted(old(world.log), world.log)
    ensures disk.healthy && AllGranted(old(world.log), world.log)
            && Renderable(old(disk.files), target, key, render) ==>
              data.Some?
  {
    hide KindOf, RenderPath;
    var seen := disk.Inspect(target);
    if seen.Unreadable? || (seen.Found? && !seen.file.File?) { return None, true; }
    data := render(KindOf(target), if seen.Found? then Some(seen.file.data) else None, key);
    tidied := true;
    if data.Some? && KindOf(target) == Strix {
      var written := disk.AtomicWriteFile(RenderPath(target), File(data.value, SECRET_MODE));
      if written {
        var readBack := world.Ask(ReadBack(RenderPath(target)));
        OneMoreAnswer(old(world.log), old(world.log), world.log, Answer(ReadBack(RenderPath(target)), readBack));
        if !readBack.Granted? { data := None; }
      } else {
        data := None;
      }
      var removed := disk.Remove(RenderPath(target));
      tidied := removed != Stuck;
    }
  }

  /** removeCredentialStages: every file is tried. */
  method Sweep(disk: CredentialDisk, paths: seq<string>) returns (swept: bool)
    modifies disk
    ensures disk.files - TargetSet(paths) == old(disk.files) - TargetSet(paths)
    ensures disk.files.Keys <= old(disk.files).Keys
    ensures swept ==> disk.files == old(disk.files) - TargetSet(paths)
    ensures disk.healthy ==> swept
    ensures disk.refused >= old(disk.refused) && (swept || disk.refused > old(disk.refused))
  {
    swept := true;
    ghost var b := disk.files;
    assert b - TargetSet(paths[..0]) == b;
    for n := 0 to |paths|
      invariant disk.files - TargetSet(paths) == b - TargetSet(paths)
      invariant disk.files.Keys <= b.Keys
      invariant swept ==> disk.files == b - TargetSet(paths[..n])
      invariant disk.healthy ==> swept
      invariant disk.refused >= old(disk.refused) && (swept || disk.refused > old(disk.refused))
    {
      assert paths[..n + 1] == paths[..n] + [paths[n]];
      assert TargetSet(paths[..n + 1]) == TargetSet(paths[..n]) + {paths[n]};
      assert paths[n] in TargetSet(paths);
      var removed := disk.Remove(paths[n]);
      swept := swept && removed != Stuck;
    }
    assert paths[..|paths|] == paths;
  }

  ghost predicate StagedAt(files: Files, targets: seq<string>, id: string, datas: seq<string>, n: nat) {
    && n <= |targets| && |datas| == n
    && forall i :: 0 <= i < n ==>
        StagePath(targets[i], id) in files && files[StagePath(targets[i], id)] == File(datas[i], SECRET_MODE)
  }

  ghost predicate RenderedFrom(before: Files, targets: seq<string>, key: string, render: Renderer, datas: seq<string>,
                               n: nat) {
    && n <= |targets| && |datas| == n
    && forall i :: 0 <= i < n && targets[i] !in RenderPaths(targets) ==>
         Some(datas[i]) == render(KindOf(targets[i]), Content(before, targets[i]), key)
  }

  function StageSeq(targets: seq<string>, id: string): (r: seq<string>)
    ensures |r| == |targets| && forall i :: 0 <= i < |targets| ==> r[i] == StagePath(targets[i], id)
  {
    seq(|targets|, i requires 0 <= i < |targets| => StagePath(targets[i], id))
  }

  lemma StageSeqIsStagePaths(targets: seq<string>, id: string)
    ensures TargetSet(StageSeq(targets, id)) == StagePaths(targets, id)
  {
    forall p | p in StagePaths(targets, id) ensures p in TargetSet(StageSeq(targets, id)) {
      var t :| t in targets && p == StagePath(t, id);
      var i :| 0 <= i < |targets| && targets[i] == t;
      assert StageSeq(targets, id)[i] == p;
    }
  }

  /** One turn of Stage: the live target is only read. */
  method StageTarget(disk: CredentialDisk, world: RotationWorld, target: string, id: string, key: string,
                     render: Renderer)
    returns (ok: bool, tidied: bool, ghost data: string)
    modifies disk, world
    ensures SameBut(old(disk.files), disk.files, OwnRender(target) + {StagePath(target, id)})
    ensures !ok ==> SameBut(old(disk.files), disk.files, OwnRender(target))
    ensures ok ==> StagePath(target, id) in disk.files && disk.files[StagePath(target, id)] == File(data, SECRET_MODE)
    ensures ok ==> Some(data) == render(KindOf(target), Content(old(disk.files), target), key)
    ensures ok && tidied ==> forall p :: p in OwnRender(target) ==> p !in disk.files
    ensures disk.healthy ==> tidied
    ensures disk.refused >= old(disk.refused) && (tidied || disk.refused > old(disk.refused))
    ensures |old(world.log)| < |world.log| && old(world.log) <= world.log
    ensures world.log[|old(world.log)|].question == Ongoing
    ensures ok ==> AllGranted(old(world.log), world.log)
    ensures disk.healthy && AllGranted(old(world.log), world.log) && Renderable(old(disk.files), target, key, render)
            && StagePath(target, id) !in old(disk.files) ==>
              ok
  {
    data := "";
    StageNotRender(target, target, id);
    ghost var b, heard := disk.files, world.log;
    var current := world.Ask(Ongoing);
    ghost var told := world.log;
    OneMoreAnswer(heard, heard, told, Answer(Ongoing, current));
    if !current.Granted? { return false, true, ""; }
    var safe := Validate(disk, world, target);
    ghost var checked := world.log;
    AnswersJoin(heard, told, checked);
    GrantedIsSafe(told, checked);
    if !safe { return false, true, ""; }
    var encoded: Option<string>;
    encoded, tidied := RenderTarget(disk, world, target, key, render);
    ghost var rendered := world.log;
    AnswersJoin(heard, checked, rendered);
    SameButWider(b, disk.files, OwnRender(target), OwnRender(target) + {StagePath(target, id)});
    if encoded.None? { return false, tidied, ""; }
    if StagePath(target, id) !in b { SameButAt(b, disk.files, OwnRender(target), StagePath(target, id)); }
    var free := Validate(disk, world, StagePath(target, id));
    AnswersJoin(heard, rendered, world.log);
    GrantedIsSafe(rendered, world.log);
    if !free { return false, tidied, ""; }
    ok := disk.AtomicWriteFile(StagePath(target, id), File(encoded.value, SECRET_MODE));
    data := encoded.value;
  }

  lemma GrantedIsSafe(past: Answers, log: Answers)
    ensures AllGranted(past, log) ==> ParentsStaySafe(past, log)
  {
  }

  lemma OwnRenderIsRender(targets: seq<string>, n: nat)
    requires n < |targets|
    ensures OwnRender(targets[n]) <= RenderPaths(targets)
    ensures RenderPaths(targets[..n + 1]) == RenderPaths(targets[..n]) + OwnRender(targets[n])
  {
    assert targets[..n + 1] == targets[..n] + [targets[n]];
    forall p | p in RenderPaths(targets[..n + 1]) ensures p in RenderPaths(targets[..n]) + OwnRender(targets[n]) {
      var t :| t in targets[..n + 1] && KindOf(t) == Strix && p == RenderPath(t);
    }
    forall p | p in RenderPaths(targets[..n]) ensures p in RenderPaths(targets[..n + 1]) {
      var t :| t in targets[..n] && KindOf(t) == Strix && p == RenderPath(t);
      assert t in targets[..n + 1];
    }
    assert targets[n] in targets[..n + 1];
  }

  /** What Stage's loop has established after n targets. */
  ghost predicate StagingSoFar(b: Files, files: Files, targets: seq<string>, id: string, key: string, render: Renderer,
                               datas: seq<string>, n: nat, tidied: bool) {
    && n <= |targets| && SameBut(b, files, StagePaths(targets[..n], id) + RenderPaths(targets))
    && StagedAt(files, targets, id, datas, n) && RenderedFrom(b, targets, key, render, datas, n)
    && (tidied ==> forall p :: p in RenderPaths(targets[..n]) ==> p !in files)
  }

  lemma StagingStep(b: Files, f: Files, a: Files, targets: seq<string>, id: string, key: string, render: Renderer,
                    datas: seq<string>, data: string, n: nat, tidied: bool)
    requires n < |targets| && Distinct(targets) && FreshId(b, targets, id)
    requires StagingSoFar(b, f, targets, id, key, render, datas, n, tidied)
    requires SameBut(f, a, OwnRender(targets[n]) + {StagePath(targets[n], id)})
    requires StagePath(targets[n], id) in a && a[StagePath(targets[n], id)] == File(data, SECRET_MODE)
    requires Some(data) == render(KindOf(targets[n]), Content(f, targets[n]), key)
    ensures StagingSoFar(b, a, targets, id, key, render, datas + [data], n + 1, false)
    ensures tidied && (forall p :: p in OwnRender(targets[n]) ==> p !in a) ==>
              StagingSoFar(b, a, targets, id, key, render, datas + [data], n + 1, true)
  {
    hide KindOf, StagePath, RenderPath, StagePaths, RenderPaths, OwnRender, StagedAt, RenderedFrom, FreshId, Content;
    var t := targets[n];
    var changed := OwnRender(t) + {StagePath(t, id)};
    var some := StagePaths(targets[..n], id) + RenderPaths(targets);
    var all := StagePaths(targets[..n + 1], id) + RenderPaths(targets);
    OwnRenderIsRender(targets, n);
    StagePathsGrow(targets, id, n);
    SameButWider(f, a, changed, all);
    SameButWider(b, f, some, all);
    SameButTransitive(b, f, a, all);
    StagedStep(f, a, targets, id, datas, data, n);
    RenderedStep(b, f, targets, id, key, render, datas, data, n);
    if tidied { TidyStep(f, a, targets, id, n); }
  }

  lemma StagedStep(f: Files, a: Files, targets: seq<string>, id: string, datas: seq<string>, data: string, n: nat)
    requires n < |targets| && Distinct(targets) && StagedAt(f, targets, id, datas, n)
    requires SameBut(f, a, OwnRender(targets[n]) + {StagePath(targets[n], id)})
    requires StagePath(targets[n], id) in a && a[StagePath(targets[n], id)] == File(data, SECRET_MODE)
    ensures StagedAt(a, targets, id, datas + [data], n + 1)
  {
    hide KindOf, StagePath, RenderPath, OwnRender;
    forall i | 0 <= i < n ensures SameAt(f, a, StagePath(targets[i], id)) {
      StagePathNotIn(targets, id, i, n);
      SameButAt(f, a, OwnRender(targets[n]) + {StagePath(targets[n], id)}, StagePath(targets[i], id));
    }
  }

  lemma RenderedStep(b: Files, f: Files, targets: seq<string>, id: string, key: string, render: Renderer,
                     datas: seq<string>, data: string, n: nat)
    requires n < |targets| && FreshId(b, targets, id) && RenderedFrom(b, targets, key, render, datas, n)
    requires SameBut(b, f, StagePaths(targets[..n], id) + RenderPaths(targets))
    requires Some(data) == render(KindOf(targets[n]), Content(f, targets[n]), key)
    ensures RenderedFrom(b, targets, key, render, datas + [data], n + 1)
  {
    hide KindOf, StagePath, RenderPath, StagePaths, RenderPaths, FreshId;
    var t := targets[n];
    if t !in RenderPaths(targets) {
      TargetIsNotStage(b, targets, id, t, n);
      SameButAt(b, f, StagePaths(targets[..n], id) + RenderPaths(targets), t);
      assert Content(f, t) == Content(b, t);
    }
  }

  lemma TidyStep(f: Files, a: Files, targets: seq<string>, id: string, n: nat)
    requires n < |targets| && SameBut(f, a, OwnRender(targets[n]) + {StagePath(targets[n], id)})
    requires forall p :: p in RenderPaths(targets[..n]) ==> p !in f
    ensures (forall p :: p in OwnRender(targets[n]) ==> p !in a) ==>
              forall p :: p in RenderPaths(targets[..n + 1]) ==> p !in a
  {
    hide KindOf, StagePath, RenderPath, OwnRender;
    var changed := OwnRender(targets[n]) + {StagePath(targets[n], id)};
    OwnRenderIsRender(targets, n);
    forall p | p in RenderPaths(targets[..n]) && p !in OwnRender(targets[n]) ensures p !in a {
      var s :| s in targets[..n] && p == RenderPath(s);
      StageNotRender(targets[n], s, id);
      SameButAt(f, a, changed, p);
    }
  }

  lemma StagePathNotIn(targets: seq<string>, id: string, i: nat, n: nat)
    requires i < n < |targets| && Distinct(targets)
    ensures StagePath(targets[i], id) !in OwnRender(targets[n]) + {StagePath(targets[n], id)}
  {
    StageNotRender(targets[i], targets[n], id);
    if StagePath(targets[i], id) == StagePath(targets[n], id) { StagePathInjective(targets[i], targets[n], id); }
  }

  lemma TargetIsNotStage(files: Files, targets: seq<string>, id: string, t: string, n: nat)
    requires FreshId(files, targets, id) && t in targets && n <= |targets|
    ensures t !in StagePaths(targets[..n], id)
  {
  }

  lemma StagePathsGrow(targets: seq<string>, id: string, n: nat)
    requires n < |targets|
    ensures StagePaths(targets[..n + 1], id) == StagePaths(targets[..n], id) + {StagePath(targets[n], id)}
    ensures StagePaths(targets[..n + 1], id) <= StagePaths(targets, id)
  {
    assert targets[..n + 1] == targets[..n] + [targets[n]];
    forall p | p in StagePaths(targets[..n], id) + {StagePath(targets[n], id)}
        ensures p in StagePaths(targets[..n + 1], id) {
      if p == StagePath(targets[n], id) {
        assert targets[n] in targets[..n + 1];
      } else {
        var t :| t in targets[..n] && p == StagePath(t, id);
        assert t in targets[..n + 1];
      }
    }
  }

  lemma StagingStart(b: Files, targets: seq<string>, id: string, key: string, render: Renderer)
    ensures StagingSoFar(b, b, targets, id, key, render, [], 0, true)
  {
  }

  /** Removing files that were not there before undoes having written them. */
  lemma SweptAway<P, F>(b: map<P, F>, m: map<P, F>, a: map<P, F>, stages: set<P>, others: set<P>, swept: bool)
    requires SameBut(b, m, stages + others) && b.Keys !! stages
    requires a - stages == m - stages && (swept ==> a == m - stages)
    ensures SameBut(b, a, stages + others)
    ensures swept ==> SameBut(b, a, others)
  {
    assert a - (stages + others) == (a - stages) - others;
    assert m - (stages + others) == (m - stages) - others;
    if swept {
      assert b - others == b - (stages + others);
    }
  }

  lemma FreshStages(files: Files, targets: seq<string>, id: string, n: nat)
    requires FreshId(files, targets, id) && n <= |targets|
    ensures files.Keys !! StagePaths(targets[..n], id)
    ensures StagePaths(targets[..n], id) <= StagePaths(targets, id)
  {
  }

  datatype Staging = AllStaged(tidied: bool) | NotStaged(swept: bool)

  /** Every target can be rendered, and none has the name of a render file. */
  ghost predicate AllRenderable(files: Files, targets: seq<string>, key: string, render: Renderer) {
    TargetSet(targets) !! RenderPaths(targets) && forall t :: t in targets ==> Renderable(files, t, key, render)
  }

  lemma NextRenderable(b: Files, f: Files, targets: seq<string>, id: string, key: string, render: Renderer,
                       datas: seq<string>, n: nat, tidied: bool)
    requires n < |targets| && Distinct(targets) && FreshId(b, targets, id) && AllRenderable(b, targets, key, render)
    requires StagingSoFar(b, f, targets, id, key, render, datas, n, tidied)
    ensures Renderable(f, targets[n], key, render) && StagePath(targets[n], id) !in f
  {
    hide KindOf, StagePath, RenderPath;
    var t := targets[n];
    var some := StagePaths(targets[..n], id) + RenderPaths(targets);
    assert t in TargetSet(targets);
    TargetIsNotStage(b, targets, id, t, n);
    SameButAt(b, f, some, t);
    if StagePath(t, id) in RenderPaths(targets) {
      var s :| s in targets && StagePath(t, id) == RenderPath(s);
      StageNotRender(t, s, id);
    }
    if StagePath(t, id) in StagePaths(targets[..n], id) {
      var s :| s in targets[..n] && StagePath(t, id) == StagePath(s, id);
      StagePathInjective(t, s, id);
    }
    SameButAt(b, f, some, StagePath(t, id));
  }

  /** CredentialFanout.Stage: the live credential files are never written. */
  method Stage(disk: CredentialDisk, world: RotationWorld, targets: seq<string>, id: string, key: string,
               render: Renderer)
    returns (result: Staging, ghost datas: seq<string>)
    requires Distinct(targets) && FreshId(disk.files, targets, id)
    modifies disk, world
    ensures result.AllStaged? ==>
              StagingSoFar(old(disk.files), disk.files, targets, id, key, render, datas, |targets|, result.tidied)
    ensures result.NotStaged? ==>
              && SameBut(old(disk.files), disk.files, StagePaths(targets, id) + RenderPaths(targets))
              && (result.swept ==> SameBut(old(disk.files), disk.files, RenderPaths(targets)))
    ensures old(world.log) <= world.log && (result.AllStaged? ==> AllGranted(old(world.log), world.log))
    ensures targets != [] ==> |old(world.log)| < |world.log| && world.log[|old(world.log)|].question == Ongoing
    ensures disk.refused >= old(disk.refused)
    ensures (if result.AllStaged? then result.tidied else result.swept) || disk.refused > old(disk.refused)
    ensures disk.healthy ==> if result.AllStaged? then result.tidied else result.swept
    ensures disk.healthy && AllGranted(old(world.log), world.log)
            && AllRenderable(old(disk.files), targets, key, render) ==>
              result.AllStaged?
  {
    hide RenderPaths, KindOf, FreshId, StagedAt, RenderedFrom, OwnRender, AllGranted;
    ghost var b, heard, missed := disk.files, world.log, disk.refused;
    LooksAreGranted(heard, 0);
    assert heard + Looks(0) == heard;
    datas := [];
    var tidied := true;
    StagingStart(b, targets, id, key, render);
    for n := 0 to |targets|
      invariant StagingSoFar(b, disk.files, targets, id, key, render, datas, n, tidied)
      invariant disk.healthy ==> tidied
      invariant disk.refused >= missed && (tidied || disk.refused > missed)
      invariant heard <= world.log && AllGranted(heard, world.log)
      invariant if n > 0 then |heard| < |world.log| && world.log[|heard|].question == Ongoing else world.log == heard
    {
      ghost var f, told := disk.files, world.log;
      var ok, clean;
      ghost var data;
      if AllRenderable(b, targets, key, render) { NextRenderable(b, f, targets, id, key, render, datas, n, tidied); }
      ok, clean, data := StageTarget(disk, world, targets[n], id, key, render);
      OwnRenderIsRender(targets, n);
      AnswersJoin(heard, told, world.log);
      assert if n > 0 then world.log[|heard|] == told[|heard|] else told == heard;
      if !ok {
        ghost var m := disk.files;
        ghost var some := StagePaths(targets[..n], id);
        SameButWider(f, m, OwnRender(targets[n]), some + RenderPaths(targets));
        StageSeqIsStagePaths(targets[..n], id);
        var swept := Sweep(disk, StageSeq(targets[..n], id));
        FreshStages(b, targets, id, n);
        SweptAway(b, m, disk.files, some, RenderPaths(targets), swept);
        SameButWider(b, disk.files, some + RenderPaths(targets), StagePaths(targets, id) + RenderPaths(targets));
        return NotStaged(swept), datas;
      }
      StagingStep(b, f, disk.files, targets, id, key, render, datas, data, n, tidied);
      datas, tidied := datas + [data], tidied && clean;
    }
    return AllStaged(tidied), datas;
  }

  // ---------------------------------------------------------- commit and rollback

  datatype Backup = Backup(target: string, original: Option<Entry>)

  ghost function Original(files: Files, path: string): Option<Entry> {
    if path in files then Some(files[path]) else None
  }

  ghost predicate BackedUp(base: Files, targets: seq<string>, backups: seq<Backup>) {
    && |backups| == |targets|
    && forall i :: 0 <= i < |targets| ==>
         && backups[i] == Backup(targets[i], Original(base, targets[i]))
         && (backups[i].original.Some? ==> backups[i].original.value.File?)
  }

  /** The files once the first n targets have been committed. */
  ghost function Committed(base: Files, targets: seq<string>, datas: seq<string>, n: nat): Files
    requires n <= |targets| == |datas|
  {
    if n == 0 then base else Committed(base, targets, datas, n - 1)[targets[n - 1] := File(datas[n - 1], SECRET_MODE)]
  }

  lemma {:induction false} CommittedAt(base: Files, targets: seq<string>, datas: seq<string>, n: nat)
    requires n <= |targets| == |datas| && Distinct(targets)
    ensures forall i :: 0 <= i < n ==>
              targets[i] in Committed(base, targets, datas, n)
              && Committed(base, targets, datas, n)[targets[i]] == File(datas[i], SECRET_MODE)
    ensures forall p :: p !in targets[..n] ==> SameAt(base, Committed(base, targets, datas, n), p)
    ensures SameBut(base, Committed(base, targets, datas, n), TargetSet(targets))
  {
    if n > 0 {
      CommittedAt(base, targets, datas, n - 1);
      assert targets[..n] == targets[..n - 1] + [targets[n - 1]];
      assert targets[n - 1] in TargetSet(targets);
    }
  }

  /** Restoring the last committed target undoes one step. */
  lemma UndoStep(base: Files, targets: seq<string>, datas: seq<string>, n: nat)
    requires 0 < n <= |targets| == |datas| && Distinct(targets)
    ensures var c := Committed(base, targets, datas, n);
            var t := targets[n - 1];
            Committed(base, targets, datas, n - 1) == if t in base then c[t := base[t]] else c - {t}
  {
    CommittedAt(base, targets, datas, n - 1);
    var t := targets[n - 1];
    assert SameAt(base, Committed(base, targets, datas, n - 1), t);
  }

  /** readCredentialBackup for every target, in order. */
  method BackUp(disk: CredentialDisk, world: RotationWorld, targets: seq<string>)
    returns (ok: bool, backups: seq<Backup>)
    modifies world
    ensures ok ==> BackedUp(disk.files, targets, backups) && world.log == old(world.log) + Looks(|targets|)
    ensures old(world.log) <= world.log
    ensures disk.healthy && AllGranted(old(world.log), world.log)
            && (forall t :: t in targets && t in disk.files ==> disk.files[t].File?) ==>
              ok
    ensures !AllGranted(old(world.log), world.log) ==> !ok
  {
    backups := [];
    ghost var heard := world.log;
    assert heard + Looks(0) == heard;
    for n := 0 to |targets|
      invariant BackedUp(disk.files, targets[..n], backups)
      invariant world.log == heard + Looks(n)
    {
      LooksAreGranted(heard, n);
      var current := world.Ask(Ongoing);
      OneMoreAnswer(heard, heard + Looks(n), world.log, Answer(Ongoing, current));
      if !current.Granted? { return false, backups; }
      var seen := disk.Inspect(targets[n]);
      if seen.Unreadable? || (seen.Found? && !seen.file.File?) { return false, backups; }
      assert targets[..n + 1] == targets[..n] + [targets[n]];
      backups := backups + [Backup(targets[n], if seen.Found? then Some(seen.file) else None)];
    }
    LooksAreGranted(heard, |targets|);
    assert targets[..|targets|] == targets;
    return true, backups;
  }

  /** The looks at the parents of the first n targets, the last one first. */
  ghost function ParentLooks(targets: seq<string>, n: nat): Answers
    requires n <= |targets|
  {
    if n == 0 then [] else [Answer(ParentsSafe(targets[n - 1]), Granted)] + ParentLooks(targets, n - 1)
  }

  lemma OneLookBack(told: Answers, targets: seq<string>, n: nat)
    requires n < |targets|
    ensures told + [Answer(ParentsSafe(targets[n]), Granted)] + ParentLooks(targets, n)
            == told + ParentLooks(targets, n + 1)
    ensures ParentLooks(targets, 0) == []
  {
  }

  /** rollbackCredentialGeneration: backwards, carrying on after an error. */
  method Rollback(disk: CredentialDisk, world: RotationWorld, backups: seq<Backup>, committed: nat, ghost base: Files,
                  ghost targets: seq<string>, ghost datas: seq<string>)
    returns (restored: bool)
    requires Distinct(targets) && |datas| == |targets| && committed <= |targets| && BackedUp(base, targets, backups)
    requires disk.files == Committed(base, targets, datas, committed)
    modifies disk, world
    ensures SameBut(base, disk.files, TargetSet(targets))
    ensures restored ==> disk.files == base && world.log == old(world.log) + ParentLooks(targets, committed)
    ensures old(world.log) <= world.log && disk.refused >= old(disk.refused)
    ensures disk.healthy && ParentsStaySafe(old(world.log), world.log) ==> restored
  {
    assert Committed(base, targets, datas, 0) == base;
    hide Committed, ParentsStaySafe, Distinct, ParentLooks, AllGranted, SameBut;
    ghost var heard := world.log;
    CommittedAt(base, targets, datas, committed);
    restored := true;
    var index := committed;
    while index > 0
      invariant 0 <= index <= committed
      invariant SameBut(base, disk.files, TargetSet(targets))
      invariant restored ==> disk.files == Committed(base, targets, datas, index)
      invariant heard <= world.log && disk.refused >= old(disk.refused)
      invariant restored ==> world.log + ParentLooks(targets, index) == heard + ParentLooks(targets, committed)
      invariant disk.healthy && ParentsStaySafe(heard, world.log) ==> restored
    {
      UndoStep(base, targets, datas, index);
      CommittedAt(base, targets, datas, index);
      index := index - 1;
      ghost var f, told := disk.files, world.log;
      var undone := RestoreBackup(disk, world, backups[index]);
      AnswersJoin(heard, told, world.log);
      assert targets[index] in TargetSet(targets);
      SameButWider(f, disk.files, {targets[index]}, TargetSet(targets));
      SameButTransitive(base, f, disk.files, TargetSet(targets));
      OneLookBack(told, targets, index);
      restored := restored && undone;
    }
  }

  method RestoreBackup(disk: CredentialDisk, world: RotationWorld, backup: Backup) returns (ok: bool)
    modifies disk, world
    ensures SameBut(old(disk.files), disk.files, {backup.target})
    ensures ok ==> disk.files == if backup.original.Some? then old(disk.files)[backup.target := backup.original.value]
                                 else old(disk.files) - {backup.target}
    ensures old(world.log) <= world.log && disk.refused >= old(disk.refused)
    ensures world.log != old(world.log) + [Answer(ParentsSafe(backup.target), Granted)] ==>
              !ok && disk.files == old(disk.files)
    ensures disk.healthy && ParentsStaySafe(old(world.log), world.log)
            && (backup.target in old(disk.files) ==> old(disk.files)[backup.target].File?) ==>
              ok
  {
    var safe := Validate(disk, world, backup.target);
    if !safe { return false; }
    if backup.original.None? {
      var removed := disk.Remove(backup.target);
      return removed != Stuck;
    }
    ok := disk.AtomicWriteFile(backup.target, backup.original.value);
  }

  /** The commit loop of RotateDeepSeek. */
  method Commit(disk: CredentialDisk, world: RotationWorld, targets: seq<string>, id: string, ghost datas: seq<string>)
    returns (committed: nat)
    requires Distinct(targets) && |datas| == |targets| && StagedAt(disk.files, targets, id, datas, |targets|)
    requires forall t :: t in targets ==> StagePath(t, id) !in targets
    modifies disk, world
    ensures committed <= |targets| && disk.files == Committed(old(disk.files), targets, datas, committed)
    ensures old(world.log) <= world.log && disk.refused >= old(disk.refused)
    ensures committed == |targets| ==> world.log == old(world.log) + Looks(|targets|)
    ensures ParentsStaySafe(old(world.log), world.log)
    ensures !AllGranted(old(world.log), world.log) ==> committed < |targets|
    ensures disk.healthy && AllGranted(old(world.log), world.log) ==> committed == |targets|
  {
    ghost var base, heard := disk.files, world.log;
    committed := 0;
    assert heard + Looks(0) == heard;
    while committed < |targets|
      invariant 0 <= committed <= |targets|
      invariant disk.files == Committed(base, targets, datas, committed)
      invariant world.log == heard + Looks(committed) && disk.refused >= old(disk.refused)
    {
      LooksAreGranted(heard, committed);
      var current := world.Ask(Ongoing);
      OneMoreAnswer(heard, heard + Looks(committed), world.log, Answer(Ongoing, current));
      if !current.Granted? { return; }
      var stage := StagePath(targets[committed], id);
      CommittedAt(base, targets, datas, committed);
      assert SameAt(base, disk.files, stage);
      var seen := disk.Inspect(stage);
      if !seen.Found? || !seen.file.File? { return; }
      var written := disk.AtomicWriteFile(targets[committed], File(seen.file.data, SECRET_MODE));
      if !written { return; }
      committed := committed + 1;
    }
    LooksAreGranted(heard, |targets|);
  }

  /** The boundary to another protected runtime; a failing write may still have
      reached it. */
  class SecretBridge {
    var secret: Option<string>

    constructor ()
      ensures secret == None
    {
      secret := None;
    }

    method Write(world: RotationWorld, key: string) returns (ok: bool)
      modifies this, world
      ensures exists reply :: world.log == old(world.log) + [Answer(WriteBridge, reply)] && (ok <==> reply.Granted?)
      ensures secret == Some(key) || secret == old(secret)
      ensures ok ==> secret == Some(key)
    {
      var reply := world.Ask(WriteBridge);
      ok := reply.Granted?;
      var reached: bool := *;
      if ok || reached { secret := Some(key); }
    }
  }

  // --------------------------------------------------------------------- rotation

  /** What Sweep does to the files when given the stage files. */
  ghost predicate SweptFrom(m: Files, a: Files, targets: seq<string>, id: string, swept: bool) {
    var stages := TargetSet(StageSeq(targets, id));
    a - stages == m - stages && a.Keys <= m.Keys && (swept ==> a == m - stages)
  }

  lemma StagedTargetsRegular(b: Files, base: Files, targets: seq<string>, id: string, key: string, render: Renderer,
                             datas: seq<string>, tidied: bool)
    requires StagingSoFar(b, base, targets, id, key, render, datas, |targets|, tidied) && FreshId(b, targets, id)
    requires AllRenderable(b, targets, key, render)
    ensures forall t :: t in targets && t in base ==> base[t].File?
  {
    forall t | t in targets && t in base ensures base[t].File? {
      assert t in TargetSet(targets);
      TargetIsNotStage(b, targets, id, t, |targets|);
      SameButAt(b, base, StagePaths(targets[..|targets|], id) + RenderPaths(targets), t);
    }
  }

  lemma StagesApart(b: Files, base: Files, targets: seq<string>, id: string, key: string, render: Renderer,
                    datas: seq<string>, tidied: bool)
    requires StagingSoFar(b, base, targets, id, key, render, datas, |targets|, tidied) && FreshId(b, targets, id)
    ensures StagedAt(base, targets, id, datas, |targets|) && RenderedFrom(b, targets, key, render, datas, |targets|)
    ensures SameBut(b, base, StagePaths(targets, id) + RenderPaths(targets))
    ensures tidied ==> forall p :: p in RenderPaths(targets) ==> p !in base
    ensures forall t :: t in targets ==> StagePath(t, id) !in targets
    ensures b.Keys !! StagePaths(targets, id) && TargetSet(targets) !! StagePaths(targets, id)
  {
    assert targets[..|targets|] == targets;
  }

  lemma NotCommittedIs(b: Files, base: Files, a: Files, targets: seq<string>, id: string, key: string, render: Renderer,
                       datas: seq<string>, tidied: bool, swept: bool)
    requires StagingSoFar(b, base, targets, id, key, render, datas, |targets|, tidied) && FreshId(b, targets, id)
    requires SweptFrom(base, a, targets, id, swept)
    ensures RotationRelation(b, a, targets, id, key, render, NotCommitted(swept, tidied))
  {
    hide StagingSoFar, RenderPaths, StagePaths, FreshId, StageSeq;
    StageSeqIsStagePaths(targets, id);
    StagesApart(b, base, targets, id, key, render, datas, tidied);
    SweptAway(b, base, a, StagePaths(targets, id), RenderPaths(targets), swept);
  }

  lemma RolledBackIs(b: Files, base: Files, m: Files, a: Files, targets: seq<string>, id: string, key: string,
                     render: Renderer, datas: seq<string>, restored: bool, tidied: bool, swept: bool)
    requires StagingSoFar(b, base, targets, id, key, render, datas, |targets|, tidied) && FreshId(b, targets, id)
    requires SameBut(base, m, TargetSet(targets)) && (restored ==> m == base) && SweptFrom(m, a, targets, id, swept)
    ensures RotationRelation(b, a, targets, id, key, render, RolledBack(restored, swept, tidied))
  {
    hide StagingSoFar, RenderPaths, StagePaths, FreshId, StageSeq, TargetSet;
    var stages, renders := StagePaths(targets, id), RenderPaths(targets);
    StageSeqIsStagePaths(targets, id);
    StagesApart(b, base, targets, id, key, render, datas, tidied);
    ChangedInAll(b, base, m, a, TargetSet(targets), stages, renders);
    if restored { SweptAway(b, base, a, stages, renders, swept); }
  }

  lemma ChangedInAll(b: Files, base: Files, m: Files, a: Files, targets: set<string>, stages: set<string>,
                     renders: set<string>)
    requires SameBut(b, base, stages + renders) && SameBut(base, m, targets) && SameBut(m, a, stages)
    ensures SameBut(b, a, targets + stages + renders)
  {
    var all := targets + stages + renders;
    SameButWider(b, base, stages + renders, all);
    SameButWider(base, m, targets, all);
    SameButWider(m, a, stages, all);
    SameButTransitive(b, base, m, all);
    SameButTransitive(b, m, a, all);
  }

  lemma RotatedIs(b: Files, base: Files, a: Files, targets: seq<string>, id: string, key: string, render: Renderer,
                  datas: seq<string>, tidied: bool, swept: bool)
    requires Distinct(targets) && |datas| == |targets|
    requires StagingSoFar(b, base, targets, id, key, render, datas, |targets|, tidied) && FreshId(b, targets, id)
    requires SweptFrom(Committed(base, targets, datas, |targets|), a, targets, id, swept)
    ensures RotationRelation(b, a, targets, id, key, render, Rotated(swept, tidied))
  {
    hide StagingSoFar, RenderPaths, StagePaths, FreshId, StageSeq, KindOf, Committed, StagedAt;
    var stages, renders := StagePaths(targets, id), RenderPaths(targets);
    var m := Committed(base, targets, datas, |targets|);
    StageSeqIsStagePaths(targets, id);
    StagesApart(b, base, targets, id, key, render, datas, tidied);
    CommittedAt(base, targets, datas, |targets|);
    ChangedInAll(b, base, m, a, TargetSet(targets), stages, renders);
    forall t | t in targets
      ensures t in a
      ensures t !in renders ==> Rendered(b, a, t, key, render)
    {
      var i :| 0 <= i < |targets| && targets[i] == t;
      assert t in TargetSet(targets);
      SameButAt(m, a, stages, t);
    }
  }

  /** No temporary file was left behind. */
  ghost predicate LeftClean(o: Outcome) {
    match o
    case Refused => true
    case Unstaged(swept) => swept
    case NotCommitted(swept, tidied) => swept && tidied
    case RolledBack(_, swept, tidied) => swept && tidied
    case Rotated(swept, tidied) => swept && tidied
  }

  /** How a rotation answers to what it was told: it completes exactly if nothing
      is refused, and what it could not undo or clean was refused by the disk. */
  ghost predicate RotationTold(past: Answers, log: Answers, healthy: bool, missed: int, bridged: bool, o: Outcome) {
    && past <= log
    && (o.Refused? ==> log == past)
    && (!o.Refused? ==> |past| < |log| && log[|past|].question == Ongoing)
    && (o.Rotated? ==> AllGranted(past, log) && (bridged ==> EndsWith(past, log, Answer(WriteBridge, Granted))))
    && (healthy ==> LeftClean(o)) && (!LeftClean(o) ==> missed > 0)
    && (healthy && o.RolledBack? && ParentsStaySafe(past, log) ==> o.restored)
  }

  /** Back up, commit, and roll back if need be: a rotation once everything is
      staged. */
  method Install(disk: CredentialDisk, world: RotationWorld, bridge: Option<SecretBridge>, targets: seq<string>,
                 key: string, id: string, tidied: bool, ghost render: Renderer, ghost b: Files,
                 ghost datas: seq<string>)
    returns (outcome: Outcome)
    requires Distinct(targets) && FreshId(b, targets, id) && |datas| == |targets|
    requires StagingSoFar(b, disk.files, targets, id, key, render, datas, |targets|, tidied)
    modifies disk, world, if bridge.Some? then {bridge.value} else {}
    ensures outcome.NotCommitted? || outcome.RolledBack? || outcome.Rotated?
    ensures RotationRelation(b, disk.files, targets, id, key, render, outcome)
    ensures outcome.Rotated? && bridge.Some? ==> bridge.value.secret == Some(key)
    ensures outcome.NotCommitted? && bridge.Some? ==> bridge.value.secret == old(bridge.value.secret)
    ensures old(world.log) <= world.log
    ensures outcome.Rotated? ==>
              && AllGranted(old(world.log), world.log)
              && (bridge.Some? ==> EndsWith(old(world.log), world.log, Answer(WriteBridge, Granted)))
    ensures disk.refused >= old(disk.refused) && (tidied && !LeftClean(outcome) ==> disk.refused > old(disk.refused))
    ensures disk.healthy && tidied ==> LeftClean(outcome)
    ensures disk.healthy && outcome.RolledBack? && ParentsStaySafe(old(world.log), world.log) ==> outcome.restored
    ensures disk.healthy && tidied && AllGranted(old(world.log), world.log)
            && (forall t :: t in targets && t in old(disk.files) ==> old(disk.files)[t].File?) ==>
              outcome == Rotated(true, true)
  {
    hide StagingSoFar, RenderPaths, StagePaths, KindOf, FreshId, StageSeq, Committed, StagedAt, RenderedFrom, Looks,
         AllGranted, ParentsStaySafe, RotationRelation, SweptFrom;
    ghost var base, heard := disk.files, world.log;
    var saved, backups := BackUp(disk, world, targets);
    ghost var read := world.log;
    if !saved {
      var swept := SweepStages(disk, targets, id);
      NotCommittedIs(b, base, disk.files, targets, id, key, render, datas, tidied, swept);
      return NotCommitted(swept, tidied);
    }
    StagesApart(b, base, targets, id, key, render, datas, tidied);
    var committed := Commit(disk, world, targets, id, datas);
    ghost var written := world.log;
    AnswersJoin(heard, read, written);
    var done := committed == |targets|;
    if done && bridge.Some? { done := bridge.value.Write(world, key); }
    ghost var told := world.log;
    BridgeAnswered(heard, written, told);
    if !done {
      var restored := Rollback(disk, world, backups, committed, base, targets, datas);
      AnswersJoin(heard, told, world.log);
      ghost var m := disk.files;
      var swept := SweepStages(disk, targets, id);
      RolledBackIs(b, base, m, disk.files, targets, id, key, render, datas, restored, tidied, swept);
      return RolledBack(restored, swept, tidied);
    }
    var swept := SweepStages(disk, targets, id);
    RotatedIs(b, base, disk.files, targets, id, key, render, datas, tidied, swept);
    return Rotated(swept, tidied);
  }

  /** The deferred removal of the stage files. */
  method SweepStages(disk: CredentialDisk, targets: seq<string>, id: string) returns (swept: bool)
    modifies disk
    ensures SweptFrom(old(disk.files), disk.files, targets, id, swept)
    ensures disk.healthy ==> swept
    ensures disk.refused >= old(disk.refused) && (swept || disk.refused > old(disk.refused))
  {
    swept := Sweep(disk, StageSeq(targets, id));
  }

  method RotateDeepSeek(disk: CredentialDisk, world: RotationWorld, bridge: Option<SecretBridge>, paths: seq<string>,
                        raw: string, id: string, render: Renderer)
    returns (outcome: Outcome)
    requires FreshId(disk.files, TargetsOf(paths), id)
    modifies disk, world, if bridge.Some? then {bridge.value} else {}
    ensures RotationRelation(old(disk.files), disk.files, TargetsOf(paths), id, Trim(raw), render, outcome)
    ensures outcome.Refused? <==> Trim(raw) == "" || '\r' in Trim(raw) || '\n' in Trim(raw) || TargetsOf(paths) == []
    ensures outcome.Rotated? && bridge.Some? ==> bridge.value.secret == Some(Trim(raw))
    ensures !outcome.Rotated? && !outcome.RolledBack? && bridge.Some? ==>
              bridge.value.secret == old(bridge.value.secret)
    ensures RotationTold(old(world.log), world.log, disk.healthy, disk.refused - old(disk.refused), bridge.Some?,
                         outcome)
    ensures disk.healthy && AllGranted(old(world.log), world.log)
            && AllRenderable(old(disk.files), TargetsOf(paths), Trim(raw), render) ==>
              outcome.Refused? || outcome == Rotated(true, true)
  {
    hide StagingSoFar, RenderPaths, StagePaths, KindOf, FreshId, AllGranted, ParentsStaySafe, Trim;
    ghost var heard := world.log;
    var key := Trim(raw);
    if key == "" || '\r' in key || '\n' in key { return Refused; }
    var targets := Targets(paths);
    if |targets| == 0 { return Refused; }
    ghost var b := disk.files;
    var staging;
    ghost var datas;
    staging, datas := Stage(disk, world, targets, id, key, render);
    if staging.NotStaged? {
      return Unstaged(staging.swept);
    }
    ghost var base, staged := disk.files, world.log;
    if AllRenderable(b, targets, key, render) {
      StagedTargetsRegular(b, base, targets, id, key, render, datas, staging.tidied);
    }
    StagedCount(b, base, targets, id, key, render, datas, staging.tidied);
    outcome := Install(disk, world, bridge, targets, key, id, staging.tidied, render, b, datas);
    AnswersJoin(heard, staged, world.log);
    if EndsWith(staged, world.log, Answer(WriteBridge, Granted)) {
      assert EndsWith(heard, world.log, Answer(WriteBridge, Granted));
    }
  }

  lemma StagedCount(b: Files, files: Files, targets: seq<string>, id: string, key: string, render: Renderer,
                    datas: seq<string>, tidied: bool)
    requires StagingSoFar(b, files, targets, id, key, render, datas, |targets|, tidied)
    ensures |datas| == |targets|
  {
  }

  lemma BridgeAnswered(past: Answers, written: Answers, log: Answers)
    requires past <= written && (log == written || exists reply :: log == written + [Answer(WriteBridge, reply)])
    ensures past <= log && (log == written ==> (AllGranted(past, log) <==> AllGranted(past, written)))
    ensures forall reply :: log == written + [Answer(WriteBridge, reply)] ==>
              (AllGranted(past, log) <==> AllGranted(past, written) && reply.Granted?)
              && EndsWith(past, log, Answer(WriteBridge, reply))
  {
    forall reply | log == written + [Answer(WriteBridge, reply)]
      ensures AllGranted(past, log) <==> AllGranted(past, written) && reply.Granted?
      ensures EndsWith(past, log, Answer(WriteBridge, reply))
    {
      OneMoreAnswer(past, written, log, Answer(WriteBridge, reply));
    }
  }
}
