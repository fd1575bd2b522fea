/** Manager.Verify and receiptsForGeneration (internal/managedruntime/manager.go). */
module RuntimeVerify {
  import opened Text
  import opened RuntimeTypes
  import opened FileSystem
  import opened RuntimeState
  import opened RuntimeStaging
  import opened RuntimeManager
  import opened RuntimeApply
  import opened RuntimeRuns
  import Launchers
  import ComponentOrder

  // -------------------------------------------------------------------- contract

  ghost predicate IsEntry(files: Files, g: GenerationId, name: string) {
    NamedFor(name, g) && ReceiptPath(name) in files
  }

  /** A receipt file that can stand for a component of this generation. */
  ghost predicate EntryGood(files: Files, g: GenerationId, name: string) {
    && ReceiptPath(name) in files && files[ReceiptPath(name)].ReceiptDoc?
    && var r := files[ReceiptPath(name)].receipt;
       r.generation == g && WellFormed(r) && Within(r.installPath, g) && r.installPath in files
  }

  ghost function ComponentAt(files: Files, name: string): Option<ComponentId> {
    if ReceiptPath(name) in files && files[ReceiptPath(name)].ReceiptDoc?
    then Some(files[ReceiptPath(name)].receipt.component) else None
  }

  /** The comparison of a receipt file with its manifest entry. */
  predicate Alike(r: Receipt, e: Receipt) {
    && r.version == e.version && r.installPath == e.installPath && r.digest == e.digest
    && r.installMethod == e.installMethod && r.package == e.package && r.entryPoint == e.entryPoint
    && (r.platform == "" || e.platform == "" || r.platform == e.platform)
    && (r.architecture == "" || e.architecture == "" || r.architecture == e.architecture)
  }

  ghost predicate ListedIn(m: Manifest, files: Files, name: string) {
    && ReceiptPath(name) in files && files[ReceiptPath(name)].ReceiptDoc?
    && exists e :: e in m.components && ComponentAt(files, name) == Some(e.component)
        && Alike(files[ReceiptPath(name)].receipt, e)
  }

  /** Receipt files and manifest components are in bijection and agree. */
  ghost predicate ReceiptsMatch(files: Files, g: GenerationId, m: Manifest) {
    && (forall name :: IsEntry(files, g, name) ==> EntryGood(files, g, name) && ListedIn(m, files, name))
    && (forall a, b :: IsEntry(files, g, a) && IsEntry(files, g, b) && a != b ==>
        ComponentAt(files, a) != ComponentAt(files, b))
    && (forall e :: e in m.components ==>
        exists name :: IsEntry(files, g, name) && ComponentAt(files, name) == Some(e.component))
  }

  ghost predicate ManifestReadable(files: Files, g: GenerationId) {
    && ManifestPath(g) in files && files[ManifestPath(g)].ManifestDoc?
    && files[ManifestPath(g)].manifest.generation == g && ManifestValid(files[ManifestPath(g)].manifest)
  }

  ghost predicate ReceiptsGood(files: Files, g: GenerationId) {
    ManifestReadable(files, g) && ReceiptsMatch(files, g, files[ManifestPath(g)].manifest)
  }

  datatype Host = Host(platform: string, architecture: string)

  /** What Verify accepts, probes aside. */
  ghost predicate VerifyGood(files: Files, directory: Launchers.Directory, wanted: GenerationId, host: Host,
                             enableLaunchers: bool) {
    && CurrentPath in files && files[CurrentPath].PointerDoc?
    && var p := files[CurrentPath].pointer;
       && p.generation != "" && (Blank(wanted) || wanted == p.generation)
       && GenerationDir(p.generation) in files
       && ReceiptsGood(files, p.generation)
       && var m := files[ManifestPath(p.generation)].manifest;
          && m.platform == host.platform && m.architecture == host.architecture
          && (p.planId == "" || p.planId == "rollback" || m.planId == p.planId)
          && (enableLaunchers || m.launchers != [] ==> Launchers.LaunchersGood(directory, enableLaunchers, m.launchers))
  }

  // --------------------------------------------------------------------- methods

  datatype Listing = Listed(receipts: seq<Receipt>) | Mismatch | IoFailed

  method ReadManifest(disk: RuntimeDisk, g: GenerationId) returns (result: Option<Manifest>, faulty: bool)
    ensures result.Some? ==> ManifestReadable(disk.files, g) && disk.files[ManifestPath(g)].manifest == result.value
    ensures result.None? && !faulty ==> !ManifestReadable(disk.files, g)
    ensures disk.healthy ==> !faulty
  {
    var seen := disk.Inspect(ManifestPath(g));
    if !seen.Found? { return None, seen.Unreadable?; }
    if !seen.file.ManifestDoc? { return None, false; }
    var m := seen.file.manifest;
    if m.generation != g || !ManifestValid(m) { return None, false; }
    return Some(m), false;
  }

  /** expected: the manifest's components by ID. */
  method Expect(components: seq<Receipt>) returns (expected: map<ComponentId, Receipt>)
    requires DistinctComponents(components)
    ensures forall e :: e in components ==> e.component in expected && expected[e.component] == e
    ensures forall c :: c in expected ==> expected[c] in components && expected[c].component == c
    ensures |expected| == |components|
  {
    expected := map[];
    for n := 0 to |components|
      invariant Collected(components, n, expected)
    {
      CollectedGrows(components, n, expected);
      expected := expected[components[n].component := components[n]];
    }
  }

  /** The first n components, by ID. */
  ghost predicate Collected(components: seq<Receipt>, n: nat, expected: map<ComponentId, Receipt>)
    requires n <= |components|
  {
    && (forall i :: 0 <= i < n ==>
          components[i].component in expected && expected[components[i].component] == components[i])
    && (forall c :: c in expected ==> Among(components, n, c))
    && |expected| == n
  }

  ghost predicate Among(components: seq<Receipt>, n: nat, c: ComponentId)
    requires n <= |components|
  {
    exists i :: 0 <= i < n && components[i].component == c
  }

  lemma OneMoreAmong(components: seq<Receipt>, n: nat)
    requires DistinctComponents(components) && n < |components|
    ensures !Among(components, n, components[n].component) && Among(components, n + 1, components[n].component)
    ensures forall c :: Among(components, n, c) ==> Among(components, n + 1, c)
  {
  }

  lemma CollectedGrows(components: seq<Receipt>, n: nat, expected: map<ComponentId, Receipt>)
    requires DistinctComponents(components) && n < |components| && Collected(components, n, expected)
    ensures Collected(components, n + 1, expected[components[n].component := components[n]])
  {
    OneMoreAmong(components, n);
    hide DistinctComponents, Among;
    assert components[n].component !in expected;
  }

  ghost predicate DistinctComponents(components: seq<Receipt>) {
    forall i, j :: 0 <= i < j < |components| ==> components[i].component != components[j].component
  }

  ghost predicate ExpectedOf(m: Manifest, expected: map<ComponentId, Receipt>) {
    forall c :: c in expected ==> expected[c] in m.components && expected[c].component == c
  }

  datatype EntryCheck = Fits(receipt: Receipt) | Wrong | Faulty

  /** The loop body of receiptsForGeneration. */
  method CheckEntry(disk: RuntimeDisk, g: GenerationId, name: string, ghost m: Manifest,
                    expected: map<ComponentId, Receipt>)
    returns (result: EntryCheck)
    requires IsEntry(disk.files, g, name) && DistinctComponents(m.components) && ExpectedOf(m, expected)
    ensures result.Fits? ==>
              && EntryGood(disk.files, g, name) && ListedIn(m, disk.files, name)
              && disk.files[ReceiptPath(name)] == ReceiptDoc(result.receipt) && result.receipt.component in expected
    ensures result.Wrong? ==>
              || !EntryGood(disk.files, g, name) || !ListedIn(m, disk.files, name)
              || disk.files[ReceiptPath(name)].receipt.component !in expected
    ensures disk.healthy ==> !result.Faulty?
  {
    var seen := disk.Inspect(ReceiptPath(name));
    if !seen.Found? { return Faulty; }
    if !seen.file.ReceiptDoc? { return Wrong; }
    var r := seen.file.receipt;
    if r.generation != g || !WellFormed(r) || !Within(r.installPath, g) { return Wrong; }
    var content := disk.Inspect(r.installPath);
    if !content.Found? { return if content.Missing? then Wrong else Faulty; }
    if r.component !in expected { return Wrong; }
    if !Alike(r, expected[r.component]) {
      forall e | e in m.components && e.component == r.component ensures e == expected[r.component] {
        OneForEachComponent(m.components, e, expected[r.component]);
      }
      return Wrong;
    }
    return Fits(r);
  }

  lemma OneForEachComponent(components: seq<Receipt>, a: Receipt, b: Receipt)
    requires DistinctComponents(components)
    requires a in components && b in components && a.component == b.component
    ensures a == b
  {
  }

  /** What the listing loop knows: `names` are the entries met so far, matched
      with different components, and `expected` holds the components left. */
  ghost predicate Matching(files: Files, g: GenerationId, m: Manifest, names: seq<string>, receipts: seq<Receipt>,
                           expected: map<ComponentId, Receipt>) {
    && |names| == |receipts| && |receipts| + |expected| == |m.components|
    && (forall i :: 0 <= i < |names| ==>
          && IsEntry(files, g, names[i]) && EntryGood(files, g, names[i]) && ListedIn(m, files, names[i])
          && files[ReceiptPath(names[i])] == ReceiptDoc(receipts[i]))
    && (forall i, j :: 0 <= i < j < |names| ==> receipts[i].component != receipts[j].component)
    && ExpectedOf(m, expected)
    && (forall e :: e in m.components ==>
        e.component in expected || exists i :: 0 <= i < |receipts| && receipts[i].component == e.component)
    && (forall i :: 0 <= i < |receipts| ==> receipts[i].component !in expected)
  }

  lemma MatchingGrows(files: Files, g: GenerationId, m: Manifest, names: seq<string>, receipts: seq<Receipt>,
                      expected: map<ComponentId, Receipt>, name: string, r: Receipt)
    requires Matching(files, g, m, names, receipts, expected)
    requires IsEntry(files, g, name) && EntryGood(files, g, name) && ListedIn(m, files, name)
    requires files[ReceiptPath(name)] == ReceiptDoc(r) && r.component in expected
    ensures Matching(files, g, m, names + [name], receipts + [r], expected - {r.component})
  {
    hide EntryGood, ListedIn, IsEntry, ExpectedOf;
    AccountedFor(m, receipts, expected, r);
    ExpectedShrinks(m, expected, r.component);
  }

  lemma ExpectedShrinks(m: Manifest, expected: map<ComponentId, Receipt>, c: ComponentId)
    requires ExpectedOf(m, expected) && c in expected
    ensures ExpectedOf(m, expected - {c}) && |expected - {c}| == |expected| - 1
  {
    assert (expected - {c}).Keys == expected.Keys - {c};
    assert |expected.Keys| == |expected| && |(expected - {c}).Keys| == |expected - {c}|;
  }

  /** A component no longer expected has its receipt among those read. */
  lemma AccountedFor(m: Manifest, receipts: seq<Receipt>, expected: map<ComponentId, Receipt>, r: Receipt)
    requires forall e :: e in m.components ==>
               e.component in expected || exists i :: 0 <= i < |receipts| && receipts[i].component == e.component
    ensures forall e :: e in m.components ==>
              e.component in expected - {r.component}
              || exists i :: 0 <= i < |receipts + [r]| && (receipts + [r])[i].component == e.component
  {
    forall e | e in m.components && e.component !in expected - {r.component}
      ensures exists i :: 0 <= i < |receipts + [r]| && (receipts + [r])[i].component == e.component
    {
      if e.component == r.component {
        assert (receipts + [r])[|receipts|].component == e.component;
      } else {
        var i :| 0 <= i < |receipts| && receipts[i].component == e.component;
        assert (receipts + [r])[i].component == e.component;
      }
    }
  }

  lemma ListedComponent(files: Files, m: Manifest, name: string) returns (e: Receipt)
    requires ListedIn(m, files, name)
    ensures e in m.components && ComponentAt(files, name) == Some(e.component)
  {
    e :| e in m.components && ComponentAt(files, name) == Some(e.component);
  }

  lemma WrongEntryBreaksMatch(files: Files, g: GenerationId, m: Manifest, names: seq<string>, receipts: seq<Receipt>,
                              expected: map<ComponentId, Receipt>, name: string)
    requires Matching(files, g, m, names, receipts, expected) && IsEntry(files, g, name) && name !in names
    requires !EntryGood(files, g, name) || !ListedIn(m, files, name)
              || files[ReceiptPath(name)].receipt.component !in expected
    ensures !ReceiptsMatch(files, g, m)
  {
  }

  lemma FullMatching(files: Files, g: GenerationId, m: Manifest, names: seq<string>, receipts: seq<Receipt>,
                     expected: map<ComponentId, Receipt>)
    requires Matching(files, g, m, names, receipts, expected)
    requires forall name :: IsEntry(files, g, name) <==> name in names
    ensures ReceiptsMatch(files, g, m) <==> expected == map[]
  {
  }

  /** The receipts a listing returns are those of the entries, one for each. */
  ghost predicate ReceiptsOf(files: Files, g: GenerationId, receipts: seq<Receipt>) {
    forall r :: r in receipts <==> exists name :: IsEntry(files, g, name) && files[ReceiptPath(name)] == ReceiptDoc(r)
  }

  lemma MatchingReceipts(files: Files, g: GenerationId, m: Manifest, names: seq<string>, receipts: seq<Receipt>,
                         expected: map<ComponentId, Receipt>)
    requires Matching(files, g, m, names, receipts, expected)
    requires forall name :: IsEntry(files, g, name) <==> name in names
    ensures ReceiptsOf(files, g, receipts)
  {
  }

  lemma NothingMatched(files: Files, g: GenerationId, m: Manifest, expected: map<ComponentId, Receipt>)
    requires forall e :: e in m.components ==> e.component in expected
    requires ExpectedOf(m, expected)
    requires |expected| == |m.components|
    ensures Matching(files, g, m, [], [], expected)
  {
  }

  lemma MatchingExpects(files: Files, g: GenerationId, m: Manifest, names: seq<string>, receipts: seq<Receipt>,
                        expected: map<ComponentId, Receipt>)
    requires Matching(files, g, m, names, receipts, expected)
    ensures ExpectedOf(m, expected) && |receipts| + |expected| == |m.components|
  {
  }

  ghost predicate Seen(files: Files, g: GenerationId, names: seq<string>, paths: seq<Path>) {
    forall name :: name in names <==> IsEntry(files, g, name) && ReceiptPath(name) in paths
  }

  /** The next path is an entry, new among those seen, or none. */
  lemma EntriesSeen(files: Files, g: GenerationId, names: seq<string>, paths: seq<Path>, n: nat)
    requires n < |paths| && paths[n] in files && paths[n] !in paths[..n] && Seen(files, g, names, paths[..n])
    ensures if paths[n].ReceiptPath? && NamedFor(paths[n].name, g)
            then IsEntry(files, g, paths[n].name) && paths[n].name !in names
                && Seen(files, g, names + [paths[n].name], paths[..n + 1])
            else Seen(files, g, names, paths[..n + 1])
  {
    hide NamedFor;
    assert paths[..n + 1] == paths[..n] + [paths[n]];
  }

  lemma NothingSeen(files: Files, g: GenerationId, paths: seq<Path>)
    ensures Seen(files, g, [], paths[..0])
  {
  }

  lemma AllSeen(files: Files, g: GenerationId, names: seq<string>, paths: seq<Path>)
    requires Seen(files, g, names, paths) && forall p :: p in files ==> p in paths
    ensures forall name :: IsEntry(files, g, name) <==> name in names
  {
    hide NamedFor;
  }

  /** What the end of the listing decides. */
  lemma ListingDecides(files: Files, g: GenerationId, m: Manifest, names: seq<string>, receipts: seq<Receipt>,
                       expected: map<ComponentId, Receipt>)
    requires Matching(files, g, m, names, receipts, expected) && m.components != []
    requires forall name :: IsEntry(files, g, name) <==> name in names
    ensures |expected| != 0 || |receipts| == 0 ==> !ReceiptsMatch(files, g, m)
    ensures |expected| == 0 ==>
              ReceiptsMatch(files, g, m) && |receipts| == |m.components| && ReceiptsOf(files, g, receipts)
  {
    MatchingExpects(files, g, m, names, receipts, expected);
    hide Matching, ReceiptsMatch, ReceiptsOf, IsEntry, ExpectedOf;
    FullMatching(files, g, m, names, receipts, expected);
    MatchingReceipts(files, g, m, names, receipts, expected);
  }

  /** The listing loop, for a manifest already read. */
  method MatchReceipts(disk: RuntimeDisk, g: GenerationId, m: Manifest) returns (result: Listing)
    requires DistinctComponents(m.components) && m.components != []
    ensures result.Listed? ==> ReceiptsMatch(disk.files, g, m)
    ensures result.Listed? ==> |result.receipts| == |m.components| && ReceiptsOf(disk.files, g, result.receipts)
    ensures result == Mismatch ==> !ReceiptsMatch(disk.files, g, m)
    ensures disk.healthy ==> result != IoFailed
  {
    hide EntryGood, ListedIn, Matching, ReceiptsMatch, NamedFor, ReceiptsOf, ComponentAt, Seen, IsEntry,
         DistinctComponents, ExpectedOf;
    ghost var files := disk.files;
    var expected := Expect(m.components);
    var listing := disk.List();
    if listing.None? { return IoFailed; }
    var paths := listing.value;
    var receipts: seq<Receipt> := [];
    ghost var names: seq<string> := [];
    NothingMatched(files, g, m, expected);
    NothingSeen(files, g, paths);
    for n := 0 to |paths|
      invariant Matching(files, g, m, names, receipts, expected)
      invariant Seen(files, g, names, paths[..n])
    {
      MatchingExpects(files, g, m, names, receipts, expected);
      EntriesSeen(files, g, names, paths, n);
      if paths[n].ReceiptPath? && NamedFor(paths[n].name, g) {
        var name := paths[n].name;
        var check := CheckEntry(disk, g, name, m, expected);
        if check.Faulty? { return IoFailed; }
        if check.Wrong? {
          WrongEntryBreaksMatch(files, g, m, names, receipts, expected, name);
          return Mismatch;
        }
        MatchingGrows(files, g, m, names, receipts, expected, name, check.receipt);
        names, receipts, expected := names + [name], receipts + [check.receipt], expected - {check.receipt.component};
      }
    }
    assert paths[..|paths|] == paths;
    AllSeen(files, g, names, paths);
    ListingDecides(files, g, m, names, receipts, expected);
    if |expected| != 0 || |receipts| == 0 { return Mismatch; }
    return Listed(receipts);
  }

  /** The fields of a receipt that must be the same in the manifest. */
  ghost function Compared(r: Receipt): Receipt {
    r.(source := "", platform := "", architecture := "", generation := "", baronOwned := true, verifiedAt := 0)
  }

  /** Two names that do not contradict each other. */
  ghost predicate Compatible(a: string, b: string) { a != "" && b != "" ==> a == b }

  /** A receipt file says what some entry of the manifest says: the same component,
      version, method, package, entry point, path and digest, for a compatible
      platform and architecture. */
  ghost predicate Vouched(files: Files, name: string, m: Manifest) {
    ReceiptPath(name) in files && files[ReceiptPath(name)].ReceiptDoc?
    && exists e :: e in m.components
         && Compared(files[ReceiptPath(name)].receipt) == Compared(e)
         && Compatible(files[ReceiptPath(name)].receipt.platform, e.platform)
         && Compatible(files[ReceiptPath(name)].receipt.architecture, e.architecture)
  }

  lemma ListedIsVouched(files: Files, name: string, m: Manifest)
    ensures ListedIn(m, files, name) <==> Vouched(files, name, m)
  {
    if ReceiptPath(name) in files && files[ReceiptPath(name)].ReceiptDoc? {
      var r := files[ReceiptPath(name)].receipt;
      forall e: Receipt ensures r.component == e.component && Alike(r, e)
                       <==> Compared(r) == Compared(e) && Compatible(r.platform, e.platform)
                            && Compatible(r.architecture, e.architecture) {}
    }
  }

  /** receiptsForGeneration: it succeeds only on a bijection, every file agreeing
      with its entry, and a mismatch is reported only when there is none. */
  method ReceiptsForGeneration(disk: RuntimeDisk, g: GenerationId) returns (result: Listing)
    ensures result.Listed? ==> ReceiptsGood(disk.files, g)
    ensures result.Listed? ==>
              |result.receipts| == |disk.files[ManifestPath(g)].manifest.components|
                  && ReceiptsOf(disk.files, g, result.receipts)
    ensures result == Mismatch ==> !ReceiptsGood(disk.files, g)
    ensures disk.healthy ==> (result.Listed? <==> ReceiptsGood(disk.files, g)) && result != IoFailed
    ensures result.Listed? ==>
              forall name :: IsEntry(disk.files, g, name) ==>
                Vouched(disk.files, name, disk.files[ManifestPath(g)].manifest)
    ensures disk.healthy && ManifestReadable(disk.files, g)
            && (exists name :: IsEntry(disk.files, g, name)
                  && !Vouched(disk.files, name, disk.files[ManifestPath(g)].manifest)) ==>
              result == Mismatch
  {
    hide ReceiptsOf, ManifestReadable, Vouched;
    if ManifestReadable(disk.files, g) { MatchIsVouched(disk.files, g); }
    hide ReceiptsMatch;
    var manifest, faulty := ReadManifest(disk, g);
    if manifest.None? { return if faulty then IoFailed else Mismatch; }
    ManifestMeans(disk.files, g);
    result := MatchReceipts(disk, g, manifest.value);
  }

  lemma ManifestMeans(files: Files, g: GenerationId)
    requires ManifestReadable(files, g)
    ensures ManifestPath(g) in files && files[ManifestPath(g)].ManifestDoc?
    ensures var m := files[ManifestPath(g)].manifest; DistinctComponents(m.components) && m.components != []
  {
  }

  lemma MatchIsVouched(files: Files, g: GenerationId)
    requires ManifestReadable(files, g)
    ensures ReceiptsMatch(files, g, files[ManifestPath(g)].manifest) ==>
              forall name :: IsEntry(files, g, name) ==> Vouched(files, name, files[ManifestPath(g)].manifest)
  {
    var m := files[ManifestPath(g)].manifest;
    if ReceiptsMatch(files, g, m) {
      forall name | IsEntry(files, g, name) ensures Vouched(files, name, m) { ListedIsVouched(files, name, m); }
    }
  }

  /** The probes of Verify, in the order of the listing. */
  ghost function Probes(receipts: seq<Receipt>): Answers {
    seq(|receipts|, i requires 0 <= i < |receipts| => Answer(ActiveProbe(receipts[i].component), Granted))
  }

  /** Every listed component is probed until one fails. */
  method ProbeAll(world: RuntimeWorld, receipts: seq<Receipt>) returns (probed: bool)
    modifies world
    ensures old(world.log) <= world.log
    ensures probed <==> AllGranted(old(world.log), world.log)
    ensures probed ==> world.log == old(world.log) + Probes(receipts)
  {
    ghost var heard := world.log;
    for n := 0 to |receipts|
      invariant world.log == heard + Probes(receipts[..n])
      invariant AllGranted(heard, world.log)
    {
      var reply := world.Ask(ActiveProbe(receipts[n].component));
      assert world.log[|world.log| - 1] == Answer(ActiveProbe(receipts[n].component), reply);
      if !reply.Granted? { return false; }
      assert Probes(receipts[..n + 1]) == Probes(receipts[..n]) + [Answer(ActiveProbe(receipts[n].component), Granted)];
    }
    assert receipts[..|receipts|] == receipts;
    return true;
  }

  /** Manager.Verify: a verdict is right whenever it is given; refused answers and
      disk faults leave it open.  Nothing is accepted unless every receipt of the
      generation agrees with its manifest and every component was probed. */
  method Verify(disk: RuntimeDisk, world: RuntimeWorld, launcherDisk: Launchers.LauncherDisk, wanted: GenerationId,
                host: Host, enableLaunchers: bool)
    returns (verdict: Launchers.Verdict)
    modifies world
    ensures verdict.Accepted? ==> VerifyGood(disk.files, launcherDisk.files, wanted, host, enableLaunchers)
    ensures verdict.Rejected? ==> !VerifyGood(disk.files, launcherDisk.files, wanted, host, enableLaunchers)
    ensures Asked(old(world.log), world.log, Verifying)
    ensures !AllGranted(old(world.log), world.log) ==> verdict.Undetermined?
    ensures disk.healthy && launcherDisk.healthy && AllGranted(old(world.log), world.log) ==>
              (verdict.Accepted? <==> VerifyGood(disk.files, launcherDisk.files, wanted, host, enableLaunchers))
              && !verdict.Undetermined?
    ensures verdict.Accepted? ==> AcceptedTold(disk.files, old(world.log), world.log)
    ensures disk.healthy && launcherDisk.healthy && AllGranted(old(world.log), world.log)
            && HasStranger(disk.files) ==>
              verdict.Rejected?
  {
    BlankIsTrimmed(wanted);
    hide ReceiptsMatch, ReceiptsOf, Launchers.LaunchersGood, ManifestValid, Vouched, IsEntry, Trim, Blank;
    var ongoing := world.Ask(Verifying);
    assert world.log[|old(world.log)|] == Answer(Verifying, ongoing);
    if !ongoing.Granted? { return Launchers.Undetermined; }
    var current := disk.Inspect(CurrentPath);
    if !current.Found? { return if current.Missing? then Launchers.Rejected else Launchers.Undetermined; }
    if !current.file.PointerDoc? || current.file.pointer.generation == "" { return Launchers.Rejected; }
    var p := current.file.pointer;
    if Trim(wanted) != "" && p.generation != wanted { return Launchers.Rejected; }
    var folder := disk.Inspect(GenerationDir(p.generation));
    if !folder.Found? { return if folder.Missing? then Launchers.Rejected else Launchers.Undetermined; }
    var manifest, faulty := ReadManifest(disk, p.generation);
    if manifest.None? { return if faulty then Launchers.Undetermined else Launchers.Rejected; }
    var m := manifest.value;
    if m.platform != host.platform || m.architecture != host.architecture { return Launchers.Rejected; }
    if p.planId != "" && p.planId != "rollback" && m.planId != p.planId { return Launchers.Rejected; }
    var listing := ReceiptsForGeneration(disk, p.generation);
    if !listing.Listed? { return if listing.Mismatch? then Launchers.Rejected else Launchers.Undetermined; }
    ghost var told := world.log;
    var probed := ProbeAll(world, listing.receipts);
    AfterFirst(old(world.log), told, world.log);
    if !probed { return Launchers.Undetermined; }
    if !enableLaunchers && |m.launchers| == 0 { return Launchers.Accepted; }
    verdict := Launchers.VerifyLaunchers(launcherDisk, enableLaunchers, m.launchers);
  }

  lemma AfterFirst(heard: Answers, told: Answers, log: Answers)
    requires heard <= told <= log && |told| == |heard| + 1 && told[|heard|].reply.Granted?
    ensures AllGranted(heard, log) <==> AllGranted(told, log)
  {
  }

  /** What an acceptance has seen: the receipts of the active generation agree
      with its manifest, and each of its components was probed. */
  ghost predicate AcceptedTold(files: Files, past: Answers, log: Answers) {
    && CurrentPath in files && files[CurrentPath].PointerDoc?
    && var g := files[CurrentPath].pointer.generation;
       && ManifestReadable(files, g)
       && (forall name :: IsEntry(files, g, name) ==> Vouched(files, name, files[ManifestPath(g)].manifest))
       && exists receipts ::
            ReceiptsOf(files, g, receipts) && log == past + [Answer(Verifying, Granted)] + Probes(receipts)
  }

  /** A receipt file of the active generation that its manifest does not vouch for. */
  ghost predicate HasStranger(files: Files) {
    && CurrentPath in files && files[CurrentPath].PointerDoc?
    && var g := files[CurrentPath].pointer.generation;
       && ManifestReadable(files, g)
       && exists name :: IsEntry(files, g, name) && !Vouched(files, name, files[ManifestPath(g)].manifest)
  }

  // --------------------------------------------------------- after an Apply

  /** A receipt file under this generation's prefix that the plan did not ask for. */
  ghost predicate NoForeignReceipts(files: Files, components: seq<ComponentPlan>, g: GenerationId) {
    forall name :: IsEntry(files, g, name) ==> name in ReceiptNames(components, g)
  }

  lemma PlannedName(components: seq<ComponentPlan>, ordered: seq<ComponentPlan>, g: GenerationId, name: string)
    returns (i: nat)
    requires multiset(ordered) == multiset(components) && name in ReceiptNames(components, g)
    ensures i < |ordered| && name == ReceiptName(g, ordered[i].id)
  {
    var c :| c in components && name == ReceiptName(g, c.id);
    assert c in multiset(ordered);
    i :| i < |ordered| && ordered[i] == c;
  }

  lemma NameIsPlanned(components: seq<ComponentPlan>, ordered: seq<ComponentPlan>, g: GenerationId, i: nat)
    requires multiset(ordered) == multiset(components) && i < |ordered|
    ensures ReceiptName(g, ordered[i].id) in ReceiptNames(components, g)
  {
    assert ordered[i] in multiset(components);
    assert ordered[i] in components;
  }

  /** Everything staged, nothing foreign: the receipts match the manifest. */
  lemma StagedMatches(files: Files, components: seq<ComponentPlan>, ordered: seq<ComponentPlan>, g: GenerationId,
                      m: Manifest)
    requires multiset(ordered) == multiset(components) && DistinctIds(ordered)
    requires StagedUpTo(files, ordered, m.components, |ordered|, g) && NoForeignReceipts(files, components, g)
    ensures ReceiptsMatch(files, g, m)
  {
    hide NamedFor, WellFormed, Within, ReceiptName;
    forall name | IsEntry(files, g, name)
      ensures EntryGood(files, g, name) && ListedIn(m, files, name)
    {
      var i := PlannedName(components, ordered, g, name);
      assert InPlace(files, g, ordered[i], m.components[i]);
      assert m.components[i] in m.components;
      assert Alike(m.components[i], m.components[i]);
    }
    forall a, b | IsEntry(files, g, a) && IsEntry(files, g, b) && a != b
      ensures ComponentAt(files, a) != ComponentAt(files, b)
    {
      var i := PlannedName(components, ordered, g, a);
      var j := PlannedName(components, ordered, g, b);
      assert InPlace(files, g, ordered[i], m.components[i]) && InPlace(files, g, ordered[j], m.components[j]);
    }
    forall e | e in m.components
      ensures exists name :: IsEntry(files, g, name) && ComponentAt(files, name) == Some(e.component)
    {
      var i :| 0 <= i < |m.components| && m.components[i] == e;
      assert InPlace(files, g, ordered[i], e);
      ReceiptNameIsNamedFor(g, ordered[i].id);
      assert IsEntry(files, g, ReceiptName(g, ordered[i].id));
    }
  }

  /** A foreign receipt under the prefix cannot be matched with anything. */
  lemma ForeignBreaksMatch(files: Files, components: seq<ComponentPlan>, ordered: seq<ComponentPlan>, g: GenerationId,
                           m: Manifest, name: string)
    requires multiset(ordered) == multiset(components)
    requires StagedUpTo(files, ordered, m.components, |ordered|, g)
    requires IsEntry(files, g, name) && name !in ReceiptNames(components, g)
    ensures !ReceiptsMatch(files, g, m)
  {
    hide NamedFor, WellFormed, Within, ReceiptName, ReceiptNames, Alike;
    if ListedIn(m, files, name) {
      var e := ListedComponent(files, m, name);
      var i :| 0 <= i < |m.components| && m.components[i] == e;
      assert InPlace(files, g, ordered[i], e);
      ReceiptNameIsNamedFor(g, ordered[i].id);
      NameIsPlanned(components, ordered, g, i);
      assert IsEntry(files, g, ReceiptName(g, ordered[i].id));
    }
  }

  /** Receipts of an applied plan pass exactly when no other generation's
      receipt file starts with this generation's prefix. */
  lemma AppliedReceiptsMatchExactly(before: Files, after: Files, plan: Plan, now: nat, o: Outcome)
    requires plan.Valid() && ApplyRelation(before, after, plan, now, o) && o.Applied?
    ensures ReceiptsGood(after, o.generation) <==> NoForeignReceipts(after, plan.components, o.generation)
  {
    var ordered := ComponentOrder.Order(plan.components).walk.ordered;
    var g := o.generation;
    var m := after[ManifestPath(g)].manifest;
    ComponentOrder.OrderIsPermutation(plan.components);
    OrderedIsPlanned(plan.components);
    AppliedIsStaged(before, after, plan, now, o);
    hide AppliedRelation, StagedUpTo, NoForeignReceipts, ReceiptsMatch;
    if NoForeignReceipts(after, plan.components, g) {
      StagedMatches(after, plan.components, ordered, g, m);
    } else {
      var name := SomeForeign(after, plan.components, g);
      ForeignBreaksMatch(after, plan.components, ordered, g, m, name);
    }
  }

  lemma SomeForeign(files: Files, components: seq<ComponentPlan>, g: GenerationId) returns (name: string)
    requires !NoForeignReceipts(files, components, g)
    ensures IsEntry(files, g, name) && name !in ReceiptNames(components, g)
  {
    name :| IsEntry(files, g, name) && name !in ReceiptNames(components, g);
  }

  lemma AppliedIsStaged(before: Files, after: Files, plan: Plan, now: nat, o: Outcome)
    requires ApplyRelation(before, after, plan, now, o) && o.Applied?
    ensures var g := o.generation;
            var ordered := ComponentOrder.Order(plan.components).walk.ordered;
            && ManifestReadable(after, g)
            && after[ManifestPath(g)].manifest
                == Manifest(plan.id, g, plan.platform, plan.architecture, now, o.receipts, o.launchers)
            && StagedUpTo(after, ordered, o.receipts, |ordered|, g)
  {
  }

  /** None was moved to its alias or hidden by quoting, and no marked launcher is
      left over. */
  ghost predicate LaunchersAllow(directory: Launchers.Directory, launchers: seq<Launchers.Launcher>) {
    && launchers != []
    && (forall l :: l in launchers ==>
        !l.collision && Contains(Launchers.Render(l.target, l.identity, l.managedPath), l.target))
    && (forall p :: p in directory && Launchers.Marked(directory[p]) ==> p in Launchers.PathsInUse(launchers))
  }

  /** Right after a successful Apply on the host the plan was made for, Verify
      accepts exactly when no foreign receipt shares the prefix and, with
      launchers in use, none was moved to its alias or hidden by quoting and no
      marked launcher is left over. */
  lemma VerifyAfterApplyExactly(before: Files, after: Files, directory: Launchers.Directory,
                                launched: Launchers.Directory, plan: Plan, now: nat, o: Outcome, enableLaunchers: bool)
    requires plan.Valid() && ApplyRelation(before, after, plan, now, o) && o.Applied?
    requires LaunchersWritten(enableLaunchers, directory, launched, o.launchers)
              && (!enableLaunchers ==> o.launchers == [])
    ensures VerifyGood(after, launched, "", Host(plan.platform, plan.architecture), enableLaunchers) <==>
              && NoForeignReceipts(after, plan.components, o.generation)
              && (enableLaunchers ==> LaunchersAllow(directory, o.launchers))
  {
    AppliedReceiptsMatchExactly(before, after, plan, now, o);
    VerdictAfterApply(before, after, launched, plan, now, o, enableLaunchers);
    hide *;
    if enableLaunchers { LaunchersAfterApply(directory, launched, o.launchers); }
  }

  /** What is left to decide about a generation just applied. */
  lemma VerdictAfterApply(before: Files, after: Files, launched: Launchers.Directory, plan: Plan, now: nat, o: Outcome,
                          enableLaunchers: bool)
    requires plan.Valid() && ApplyRelation(before, after, plan, now, o) && o.Applied?
    requires !enableLaunchers ==> o.launchers == []
    ensures VerifyGood(after, launched, "", Host(plan.platform, plan.architecture), enableLaunchers) <==>
              && ReceiptsGood(after, o.generation)
              && (enableLaunchers ==> Launchers.LaunchersGood(launched, true, o.launchers))
  {
    AppliedIsStaged(before, after, plan, now, o);
    hide StagedUpTo, ReceiptsGood, ManifestValid, Launchers.LaunchersGood;
  }

  lemma LaunchersAfterApply(directory: Launchers.Directory, launched: Launchers.Directory,
                            launchers: seq<Launchers.Launcher>)
    requires LaunchersWritten(true, directory, launched, launchers)
    ensures Launchers.LaunchersGood(launched, true, launchers) <==> LaunchersAllow(directory, launchers)
  {
    hide Launchers.LaunchersGood, Launchers.Planned, Launchers.InstalledFrom, Launchers.Render, Contains,
         Launchers.Marked;
    var specs, desired :| Launchers.Planned(directory, specs, launchers, desired);
    Launchers.VerificationAfterInstall(directory, launched, specs, launchers, desired, true);
  }

  /** A generation that was new when its first Apply began has no foreign
      receipts, however often that Apply was resumed. */
  lemma FreshHasNoForeign(before: Files, after: Files, components: seq<ComponentPlan>, g: GenerationId)
    requires Fresh(before, g) && OnlyPlannedReceipts(before, after, components, g)
    ensures NoForeignReceipts(after, components, g)
  {
    forall name | IsEntry(after, g, name) ensures name in ReceiptNames(components, g) {
      NamedForExactly(name, g);
      var c :| name == ReceiptName(g, c);
      assert ReceiptPath(ReceiptName(g, c)) !in before;
    }
  }

  /** A plan cancelled, killed and resumed any number of times ends in a generation
      Verify accepts exactly when its launchers allow it: the receipts always do. */
  lemma ResumedApplyVerifiesExactly(states: seq<Files>, plan: Plan, stops: seq<Stop>, after: Files, now: nat,
                                    o: Outcome, directory: Launchers.Directory, launched: Launchers.Directory,
                                    enableLaunchers: bool)
    requires plan.Valid() && Stops(states, plan, stops)
    requires Fresh(states[0], GenerationName(plan.id, stops[0].at)) && Resumable(states[0], plan.id) == None
    requires ApplyRelation(states[|states| - 1], after, plan, now, o) && o.Applied? && o.resumption != StartFresh(true)
    requires LaunchersWritten(enableLaunchers, directory, launched, o.launchers)
              && (!enableLaunchers ==> o.launchers == [])
    ensures VerifyGood(after, launched, "", Host(plan.platform, plan.architecture), enableLaunchers)
            <==> enableLaunchers ==> LaunchersAllow(directory, o.launchers)
  {
    hide LaunchersWritten, LaunchersAllow;
    var g := GenerationName(plan.id, stops[0].at);
    var last := states[|states| - 1];
    StopsKeepGeneration(states, plan, stops, |states| - 1);
    assert o.generation == g;
    forall name | NamedFor(name, g) && ReceiptPath(name) in after && ReceiptPath(name) !in states[0]
      ensures name in ReceiptNames(plan.components, g)
    {
      assert ReceiptPath(name) in last || ReceiptPath(name) !in last;
    }
    FreshHasNoForeign(states[0], after, plan.components, g);
    VerifyAfterApplyExactly(last, after, directory, launched, plan, now, o, enableLaunchers);
  }

  // ------------------------------------------------------------- exceptions

  /** Plan IDs that extend one another share the prefix: after both have been
      applied, the shorter one's generation no longer verifies. */
  lemma PrefixClash(files: Files, planId: string, at: nat, suffix: string, later: nat, c: ComponentId)
    requires ReceiptPath(ReceiptName(GenerationName(planId + "-" + Decimal(at) + "-" + suffix, later), c)) in files
    requires var p := ReceiptPath(ReceiptName(GenerationName(planId + "-" + Decimal(at) + "-" + suffix, later), c));
             files[p].ReceiptDoc? && files[p].receipt.generation
                 == GenerationName(planId + "-" + Decimal(at) + "-" + suffix, later)
    ensures !ReceiptsGood(files, GenerationName(planId, at))
  {
    var g := GenerationName(planId, at);
    var h := GenerationName(planId + "-" + Decimal(at) + "-" + suffix, later);
    var rest := suffix + "-" + Decimal(later) + "-" + c;
    assert h == g + "-" + suffix + "-" + Decimal(later);
    assert |h| > |g|;
    assert ReceiptName(h, c) == ReceiptName(g, rest);
    ReceiptNameIsNamedFor(g, rest);
    assert IsEntry(files, g, ReceiptName(h, c));
  }

  /** A generation name over the manifest's limit is only discovered when the
      manifest is written: such a plan can never be applied from scratch. */
  lemma LongPlanIdNeverApplies(before: Files, after: Files, plan: Plan, now: nat, o: Outcome)
    requires ApplyRelation(before, after, plan, now, o) && !o.Refused? && o.generation == GenerationName(plan.id, now)
    requires |plan.id| + |Decimal(now)| > MAX_PLAN_ID - 12
    ensures !o.Applied?
  {
  }
}
