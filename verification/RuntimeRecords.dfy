/** What the runtime's records say, in their own words: which plans and manifests
    are accepted, which files belong to a generation, what a receipt vouches for
    (internal/managedruntime/types.go, paths.go, manager.go). */
module RuntimeRecords {
  import opened Text
  import opened RuntimeTypes
  import opened FileSystem
  import opened RuntimeState
  import opened RuntimeStaging
  import opened RuntimeManager
  import opened RuntimeApply
  import ComponentOrder
  import Launchers

  // ------------------------------------------------------------- plans and manifests

  ghost function Elements(s: seq<string>): set<string> { set x | x in s }

  /** A list without repetitions has as many elements as places. */
  lemma {:induction false} DistinctExactly(s: seq<string>)
    ensures |Elements(s)| <= |s|
    ensures (forall i, j :: 0 <= i < j < |s| ==> s[i] != s[j]) <==> |Elements(s)| == |s|
  {
    if s == [] {
      assert Elements(s) == {};
    } else {
      var n := |s| - 1;
      var init := s[..n];
      DistinctExactly(init);
      assert s == init + [s[n]];
      assert Elements(s) == Elements(init) + {s[n]};
      assert s[n] in init <==> exists i :: 0 <= i < n && s[i] == s[n];
    }
  }

  ghost function PlannedIds(components: seq<ComponentPlan>): seq<string> {
    seq(|components|, i requires 0 <= i < |components| => components[i].id)
  }

  /** A plan is accepted exactly with a name of 1 to 128 characters, a platform and
      an architecture, and 1 to 64 components with as many IDs. */
  lemma PlanIsValidExactly(plan: Plan)
    ensures plan.Valid()
            == (&& 1 <= |plan.id| <= 128 && |plan.platform| >= 1 && |plan.architecture| >= 1
                && 1 <= |plan.components| <= 64
                && |Elements(PlannedIds(plan.components))| == |plan.components|)
  {
    var ids := PlannedIds(plan.components);
    DistinctExactly(ids);
    assert forall i :: 0 <= i < |ids| ==> ids[i] == plan.components[i].id;
  }

  ghost function ReceivedIds(receipts: seq<Receipt>): seq<string> {
    seq(|receipts|, i requires 0 <= i < |receipts| => receipts[i].component)
  }

  ghost function LauncherNames(launchers: seq<Launchers.Launcher>): seq<string> {
    seq(|launchers|, i requires 0 <= i < |launchers| => launchers[i].name)
  }

  ghost function LauncherPaths(launchers: seq<Launchers.Launcher>): seq<string> {
    seq(|launchers|, i requires 0 <= i < |launchers| => launchers[i].path)
  }

  /** A receipt that says what it is of, in a manifest of its own generation. */
  ghost predicate Accounted(r: Receipt, g: GenerationId) {
    && r.baronOwned && r.generation == g
    && !(r.component == "" || r.version == "" || r.source == "")
  }

  /** A manifest is accepted exactly with both names of 1 to 128 characters, with 1
      to 64 accounted receipts of as many components, and with launchers of as
      many names and as many paths. */
  lemma ManifestIsValidExactly(m: Manifest)
    ensures ManifestValid(m)
            == (&& 1 <= |m.planId| <= 128 && 1 <= |m.generation| <= 128 && |m.platform| >= 1 && |m.architecture| >= 1
                && 1 <= |m.components| <= 64 && (forall r :: r in m.components ==> Accounted(r, m.generation))
                && |Elements(ReceivedIds(m.components))| == |m.components|
                && |Elements(LauncherNames(m.launchers))| == |m.launchers|
                && |Elements(LauncherPaths(m.launchers))| == |m.launchers|)
  {
    var ids, names, paths := ReceivedIds(m.components), LauncherNames(m.launchers), LauncherPaths(m.launchers);
    DistinctExactly(ids);
    DistinctExactly(names);
    DistinctExactly(paths);
    hide Elements;
    assert forall i :: 0 <= i < |ids| ==> ids[i] == m.components[i].component;
    assert forall i :: 0 <= i < |names| ==> names[i] == m.launchers[i].name && paths[i] == m.launchers[i].path;
    forall i | 0 <= i < |m.components| && m.generation != ""
      ensures Accounted(m.components[i], m.generation)
              == (m.components[i].generation == m.generation && WellFormed(m.components[i]))
    {
    }
    assert (forall r :: r in m.components ==> Accounted(r, m.generation))
           == (forall i :: 0 <= i < |m.components| ==> Accounted(m.components[i], m.generation));
    hide Accounted, WellFormed;
  }

  // --------------------------------------------------------------- a generation's files

  /** Different plans, and different times, get different generations. */
  lemma GenerationNameInjective(p: string, s: nat, q: string, t: nat)
    requires GenerationName(p, s) == GenerationName(q, t)
    ensures p == q && s == t
  {
    DecimalRoundTrip(s);
    DecimalRoundTrip(t);
    hide Decimal, NumberOf;
    if |Decimal(s)| >= |Decimal(t)| {
      LastDash("generation-" + p, Decimal(s), "generation-" + q, Decimal(t));
    } else {
      LastDash("generation-" + q, Decimal(t), "generation-" + p, Decimal(s));
    }
    assert ("generation-" + p)[11..] == p && ("generation-" + q)[11..] == q;
  }

  lemma LastDash(a: string, x: string, b: string, y: string)
    requires a + "-" + x == b + "-" + y && |x| >= |y|
    requires forall c :: c in x || c in y ==> c != '-'
    ensures a == b && x == y
  {
    var n := a + "-" + x;
    assert n[|b|] == '-';
    assert forall i :: |a| < i < |n| ==> n[i] == x[i - |a| - 1] && x[i - |a| - 1] in x;
    assert |a| == |b|;
    assert x == n[|a| + 1..] && y == n[|b| + 1..];
    assert a == n[..|a|] && b == n[..|b|];
  }

  /** The directory tree of a generation: what its clean-up removes. */
  ghost predicate InTree(p: Path, g: GenerationId) {
    p == GenerationDir(g) || p == ManifestPath(g) || exists c :: p == ComponentDir(g, c)
  }

  lemma TreeExactly(p: Path, g: GenerationId)
    ensures Within(p, g) <==> InTree(p, g)
  {
    if p.ComponentDir? && p.generation == g { assert p == ComponentDir(g, p.component); }
  }

  /** Everything an Apply may touch besides the two pointers: the plan's record, the
      generation's tree and receipts, the archive cache. */
  lemma ScratchExactly(p: Path, planId: string, g: GenerationId)
    ensures Scratch(p, planId, g)
            == (|| p == OperationPath(planId) || InTree(p, g) || p.CachePath?
                || exists c :: p == ReceiptPath(ReceiptName(g, c)))
  {
    TreeExactly(p, g);
    if p.ReceiptPath? {
      NamedForExactly(p.name, g);
      if c :| p.name == ReceiptName(g, c) { assert p == ReceiptPath(ReceiptName(g, c)); }
    }
    hide NamedFor, ReceiptName;
  }

  /** A removal that ends leaves nothing of the tree. */
  lemma GoneExactly(files: Files, g: GenerationId)
    ensures Gone(files, g)
            == (GenerationDir(g) !in files && ManifestPath(g) !in files && forall c :: ComponentDir(g, c) !in files)
  {
    forall p ensures Within(p, g) <==> InTree(p, g) { TreeExactly(p, g); }
    assert Within(GenerationDir(g), g) && Within(ManifestPath(g), g) && forall c :: Within(ComponentDir(g, c), g);
  }

  /** A plan is taken up again exactly when its own record says "staging" or
      "interrupted" of a generation that still has its directory. */
  lemma ResumableExactly(files: Files, planId: string, g: GenerationId)
    ensures (Resumable(files, planId) == Some(g))
            == (&& g != "" && GenerationDir(g) in files && OperationPath(planId) in files
                && exists at :: files[OperationPath(planId)] in {OperationDoc(Operation(planId, g, Staging, at)),
                                                                 OperationDoc(Operation(planId, g, Interrupted, at))})
  {
    if OperationPath(planId) in files && files[OperationPath(planId)].OperationDoc? {
      var o := files[OperationPath(planId)].operation;
      assert o.status == Staging ==> o == Operation(o.planId, o.generation, Staging, o.updatedAt);
      assert o.status == Interrupted ==> o == Operation(o.planId, o.generation, Interrupted, o.updatedAt);
    }
  }

  // ----------------------------------------------------------------------- receipts

  /** A receipt with what is not compared taken from the plan: where it came from
      and is, whose it is, when it was checked; platform and architecture where it
      names none, the digest where the plan has none. */
  ghost function Comparable(r: Receipt, c: ComponentPlan, g: GenerationId): Receipt {
    r.(source := c.source, installPath := ComponentDir(g, c.id), baronOwned := true, verifiedAt := 0,
       platform := if r.platform == "" then c.platform else r.platform,
       architecture := if r.architecture == "" then c.architecture else r.architecture,
       digest := if c.digest == "" then "" else r.digest)
  }

  /** A staged receipt is taken for the component's exactly when, in everything that
      is compared, it is the one staging it again would write. */
  lemma MatchesExactly(r: Receipt, c: ComponentPlan, g: GenerationId)
    ensures Matches(r, c, g) <==> Comparable(r, c, g) == ReceiptFor(c, g, 0)
  {
  }

  /** The receipt of a component, field by field. */
  ghost predicate SaysOf(r: Receipt, c: ComponentPlan, g: GenerationId) {
    && r.component == c.id && r.version == c.version && r.source != "" && r.generation == g && r.baronOwned
    && r.installMethod == c.installMethod && r.package == c.package && r.entryPoint == c.entryPoint
    && r.platform in {"", c.platform} && r.architecture in {"", c.architecture}
    && (c.digest == "" || r.digest == c.digest)
  }

  /** After a successful Apply every component of the plan has its receipt on disk,
      about content that is there, and the manifest lists these receipts and no
      others. */
  lemma AppliedIsRecorded(before: Files, after: Files, plan: Plan, now: nat, o: Outcome)
    requires plan.Valid() && o.Applied? && ApplyRelation(before, after, plan, now, o)
    ensures var g := o.generation;
            && after[ManifestPath(g)] == ManifestDoc(Manifest(plan.id, g, plan.platform, plan.architecture, now,
                                                              o.receipts, o.launchers))
            && |o.receipts| == |plan.components|
            && forall c :: c in plan.components ==>
                 exists r :: r in o.receipts && SaysOf(r, c, g) && InTree(r.installPath, g) && r.installPath in after
                             && ReceiptPath(ReceiptName(g, c.id)) in after
                             && after[ReceiptPath(ReceiptName(g, c.id))] == ReceiptDoc(r)
  {
    hide ApplyFrame, SwitchedTo, Recorded, ManifestValid, OnlyPlannedReceipts, ReceiptsAgree, ReceiptsExpected,
         ResumptionTold, Elements;
    var ordered := ComponentOrder.Order(plan.components).walk.ordered;
    var g := o.generation;
    ComponentOrder.OrderIsPermutation(plan.components);
    assert |ordered| == |multiset(ordered)| == |plan.components|;
    forall c | c in plan.components
      ensures exists r :: r in o.receipts && SaysOf(r, c, g) && InTree(r.installPath, g) && r.installPath in after
                          && ReceiptPath(ReceiptName(g, c.id)) in after
                          && after[ReceiptPath(ReceiptName(g, c.id))] == ReceiptDoc(r)
    {
      assert c in multiset(plan.components);
      assert c in multiset(ordered);
      var i :| 0 <= i < |ordered| && ordered[i] == c;
      assert InPlace(after, g, ordered[i], o.receipts[i]);
      TreeExactly(o.receipts[i].installPath, g);
      assert o.receipts[i] in o.receipts && SaysOf(o.receipts[i], c, g);
    }
  }

  /** And every one of them was probed on the way, successfully. */
  lemma AppliedIsProbed(before: Files, past: Answers, after: Files, log: Answers, plan: Plan, healthy: bool, o: Outcome)
    requires plan.Valid() && o.Applied? && ApplyTold(before, past, after, log, plan, healthy, o)
    ensures forall c :: c in plan.components ==> Probed(past, log, c)
  {
    hide Probed, Unhindered, Resumed, Undamaged, CutOff;
    var ordered := ComponentOrder.Order(plan.components).walk.ordered;
    ComponentOrder.OrderIsPermutation(plan.components);
    forall c | c in plan.components ensures c in ordered {
      assert c in multiset(plan.components);
      assert c in multiset(ordered);
    }
  }
}
