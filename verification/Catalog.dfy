/** Choosing releases from a catalog (internal/managedruntime/catalog.go). */
module Catalog {
  import opened Text

  const MAX_INT: nat := 0x7FFF_FFFF_FFFF_FFFF

  datatype Version = Version(major: nat, minor: nat, patch: nat, pre: string)

  datatype Asset = Asset(url: string, digest: string, platform: string, architecture: string)

  datatype Release = Release(
    component: string, version: string, stable: bool, verifiedPrerelease: bool, requiresPython: string,
        assets: seq<Asset>)

  /** Zero bounds are no bounds. */
  datatype Matrix = Matrix(minMajor: nat, minMinor: nat, maxMajor: nat, maxMinor: nat)

  // -------------------------------------------------------------------- ordering

  /** semanticVersion.less. */
  predicate Earlier(a: Version, b: Version) {
    if a.major != b.major then a.major < b.major
    else if a.minor != b.minor then a.minor < b.minor
    else if a.patch != b.patch then a.patch < b.patch
    else if a.pre == "" then false
    else b.pre == ""
  }

  ghost predicate SameCore(a: Version, b: Version) { a.major == b.major && a.minor == b.minor && a.patch == b.patch }

  ghost predicate CoreBefore(a: Version, b: Version) {
    a.major < b.major || (a.major == b.major && (a.minor < b.minor || (a.minor == b.minor && a.patch < b.patch)))
  }

  ghost predicate Tied(a: Version, b: Version) { !Earlier(a, b) && !Earlier(b, a) }

  /** Precedence as in section 11 of SemVer 2.0.0, for any order of the
      pre-release parts. */
  ghost predicate Precedes(a: Version, b: Version, pre: (string, string) -> bool) {
    CoreBefore(a, b)
    || (SameCore(a, b) && a.pre != b.pre && (b.pre == "" || (a.pre != "" && pre(a.pre, b.pre))))
  }

  /** A strict weak order: what ties, ties consistently. */
  lemma EarlierIsStrictWeakOrder(a: Version, b: Version, c: Version)
    ensures !Earlier(a, a)
    ensures Earlier(a, b) ==> !Earlier(b, a)
    ensures Earlier(a, b) && Earlier(b, c) ==> Earlier(a, c)
    ensures Tied(a, b) && Tied(b, c) ==> Tied(a, c)
    ensures Tied(a, b) <==> SameCore(a, b) && (a.pre == "" <==> b.pre == "")
  {
  }

  /** It is that precedence, except that pre-releases of one version tie. */
  lemma EarlierIsPrecedence(a: Version, b: Version, pre: (string, string) -> bool)
    ensures Earlier(a, b) <==> Precedes(a, b, pre) && !(SameCore(a, b) && a.pre != "" && b.pre != "")
  {
  }

  // --------------------------------------------------------------------- parsing

  function IndexOf(s: string, c: char): (r: nat)
    ensures r <= |s| && (r < |s| ==> s[r] == c) && forall i :: 0 <= i < r ==> s[i] != c
  {
    if s == "" || s[0] == c then 0 else 1 + IndexOf(s[1..], c)
  }

  /** strings.Split on one character. */
  function Split(s: string, c: char): (r: seq<string>)
    ensures |r| > 0
  {
    var i := IndexOf(s, c);
    if i == |s| then [s] else [s[..i]] + Split(s[i + 1..], c)
  }

  /** One of the three numbers: digits, no leading zero, within an int. */
  function ParsePart(part: string): Option<nat> {
    if part == "" || (|part| > 1 && part[0] == '0') then None
    else if exists i :: 0 <= i < |part| && !IsDigit(part[i]) then None
    else if NumberOf(part) > MAX_INT then None
    else Some(NumberOf(part))
  }

  function ParseCore(core: string, pre: string): Option<Version> {
    var parts := Split(core[..IndexOf(core, '+')], '.');
    if |parts| != 3 then None
    else
      var a, b, c := ParsePart(parts[0]), ParsePart(parts[1]), ParsePart(parts[2]);
      if a.None? || b.None? || c.None? then None else Some(Version(a.value, b.value, c.value, pre))
  }

  /** parseSemanticVersion. */
  function ParseVersion(raw: string): Option<Version> {
    var trimmed := Trim(raw);
    var value := if HasPrefix(trimmed, "v") then trimmed[1..] else trimmed;
    if value == "" || HasBlank(value) then None else ParseSolid(value)
  }

  /** strings.ContainsAny with the four blanks. */
  predicate HasBlank(s: string) { exists i :: 0 <= i < |s| && s[i] in {' ', '\t', '\r', '\n'} }

  /** The part of parseVersion that looks for the hyphen. */
  function ParseSolid(value: string): Option<Version> {
    var dash := IndexOf(value, '-');
    if dash == |value| then ParseCore(value, "")
    else if dash + 1 == |value| then None
    else ParseCore(value[..dash], value[dash + 1..])
  }

  function Core(v: Version): string { Decimal(v.major) + "." + Decimal(v.minor) + "." + Decimal(v.patch) }

  function Print(v: Version): string { Core(v) + if v.pre == "" then "" else "-" + v.pre }

  ghost predicate Printable(v: Version) {
    && v.major <= MAX_INT && v.minor <= MAX_INT && v.patch <= MAX_INT
    && forall i :: 0 <= i < |v.pre| ==> !IsSpace(v.pre[i])
  }

  lemma {:induction false} IndexOfSkips(a: string, b: string, c: char)
    requires forall i :: 0 <= i < |a| ==> a[i] != c
    ensures IndexOf(a + b, c) == |a| + IndexOf(b, c)
  {
    if a == "" {
      assert a + b == b;
    } else {
      assert (a + b)[1..] == a[1..] + b;
      IndexOfSkips(a[1..], b, c);
    }
  }

  lemma SplitFirst(a: string, rest: string, c: char)
    requires forall i :: 0 <= i < |a| ==> a[i] != c
    ensures Split(a + [c] + rest, c) == [a] + Split(rest, c)
    ensures Split(a, c) == [a]
  {
    var s := a + [c] + rest;
    assert s == a + ([c] + rest);
    IndexOfSkips(a, [c] + rest, c);
    assert IndexOf([c] + rest, c) == 0;
    assert s[..|a|] == a && s[|a| + 1..] == rest;
    assert a + "" == a;
    IndexOfSkips(a, "", c);
  }

  lemma DecimalIsPlain(n: nat)
    ensures forall i :: 0 <= i < |Decimal(n)| ==> IsDigit(Decimal(n)[i])
    ensures n <= MAX_INT ==> ParsePart(Decimal(n)) == Some(n)
  {
    DecimalRoundTrip(n);
  }

  lemma CoreIsPlain(v: Version)
    ensures Core(v) != "" && IsDigit(Core(v)[0])
    ensures forall i :: 0 <= i < |Core(v)| ==> IsDigit(Core(v)[i]) || Core(v)[i] == '.'
  {
    hide Decimal;
    DecimalRoundTrip(v.major);
    DecimalRoundTrip(v.minor);
    DecimalRoundTrip(v.patch);
    var a, b, c := Decimal(v.major), Decimal(v.minor), Decimal(v.patch);
    assert Core(v) == a + "." + b + "." + c;
    assert Core(v)[0] == a[0];
  }

  lemma CoreSplits(v: Version)
    ensures Split(Core(v), '.') == [Decimal(v.major), Decimal(v.minor), Decimal(v.patch)]
  {
    hide Decimal, Split, IndexOf;
    DecimalRoundTrip(v.major);
    DecimalRoundTrip(v.minor);
    DecimalRoundTrip(v.patch);
    var a, b, c := Decimal(v.major), Decimal(v.minor), Decimal(v.patch);
    assert Core(v) == a + ['.'] + (b + ['.'] + c);
    SplitFirst(a, b + ['.'] + c, '.');
    SplitFirst(b, c, '.');
    SplitFirst(c, "", '.');
  }

  /** A core, with or without build metadata behind it. */
  lemma CoreParses(v: Version, build: string, pre: string)
    requires v.major <= MAX_INT && v.minor <= MAX_INT && v.patch <= MAX_INT
    requires build == "" || build[0] == '+'
    ensures ParseCore(Core(v) + build, pre) == Some(v.(pre := pre))
  {
    hide Decimal, ParsePart, Core, Split;
    CoreIsPlain(v);
    CoreSplits(v);
    DecimalIsPlain(v.major);
    DecimalIsPlain(v.minor);
    DecimalIsPlain(v.patch);
    IndexOfSkips(Core(v), build, '+');
    assert (Core(v) + build)[..|Core(v)|] == Core(v);
  }

  /** Without blanks around or inside and without a leading v, the text is read
      as it stands. */
  lemma SolidIsParsed(s: string)
    requires s != "" && IsDigit(s[0]) && forall i :: 0 <= i < |s| ==> !IsSpace(s[i])
    ensures ParseVersion(s) == ParseSolid(s)
  {
    SolidText(s);
    hide ParseSolid, Trim, HasPrefix, HasBlank, IsSpace, IsDigit;
  }

  lemma SolidText(s: string)
    requires s != "" && IsDigit(s[0]) && forall i :: 0 <= i < |s| ==> !IsSpace(s[i])
    ensures Trim(s) == s && !HasPrefix(s, "v") && !HasBlank(s)
  {
    hide Trim;
    assert NoEdgeSpace(s);
    assert s[..1] != "v" by { assert s[..1][0] == s[0]; }
  }

  /** Reading back what a version prints as. */
  lemma ParsePrinted(v: Version)
    requires Printable(v)
    ensures ParseVersion(Print(v)) == Some(v)
  {
    hide ParseCore, ParseVersion, IndexOf, Core;
    CoreIsPlain(v);
    CoreParses(v, "", v.pre);
    var s := Print(v);
    assert Core(v) + "" == Core(v);
    forall i | 0 <= i < |s| ensures !IsSpace(s[i]) {
      assert i > |Core(v)| ==> s[i] == v.pre[i - |Core(v)| - 1];
    }
    if v.pre == "" {
      IndexOfSkips(Core(v), "", '-');
      EmptyIndex('-');
    } else {
      assert s == Core(v) + ("-" + v.pre);
      IndexOfSkips(Core(v), "-" + v.pre, '-');
      HeadIndex("-" + v.pre, '-');
      assert s[..|Core(v)|] == Core(v) && s[|Core(v)| + 1..] == v.pre;
    }
    SolidIsParsed(s);
  }

  lemma EmptyIndex(c: char)
    ensures IndexOf("", c) == 0
  {
  }

  lemma HeadIndex(s: string, c: char)
    requires s != "" && s[0] == c
    ensures IndexOf(s, c) == 0
  {
  }

  /** What becomes of a version with build metadata: behind a pre-release it is
      read as part of it; otherwise its first hyphen starts a pre-release, and
      one at its end makes the whole version unreadable. */
  lemma BuildIsRead(v: Version, build: string)
    requires Printable(v) && forall i :: 0 <= i < |build| ==> !IsSpace(build[i])
    ensures ParseVersion(Print(v) + "+" + build)
            == if v.pre != "" then Some(v.(pre := v.pre + "+" + build))
               else if IndexOf(build, '-') == |build| then Some(v)
               else if IndexOf(build, '-') + 1 == |build| then None
               else Some(v.(pre := build[IndexOf(build, '-') + 1..]))
  {
    hide ParseCore, ParseVersion, IndexOf, Core;
    CoreIsPlain(v);
    if v.pre != "" {
      var w := v.(pre := v.pre + "+" + build);
      CoreIgnoresPre(v, w.pre);
      assert Core(v) + ("-" + v.pre) + "+" + build == Core(v) + ("-" + w.pre);
      ParsePrinted(w);
    } else {
      assert Core(v) + "" + "+" + build == Core(v) + ("+" + build);
      BuildUnfolds(v, build);
      var dash := IndexOf(build, '-');
      if dash + 1 < |build| { CoreParses(v, "+" + build[..dash], build[dash + 1..]); }
    }
  }

  lemma CoreIgnoresPre(v: Version, pre: string)
    ensures Core(v.(pre := pre)) == Core(v)
  {
  }

  lemma CoreWithBuild(v: Version, build: string)
    requires forall i :: 0 <= i < |build| ==> !IsSpace(build[i])
    ensures var s := Core(v) + ("+" + build);
            && s != "" && IsDigit(s[0]) && (forall i :: 0 <= i < |s| ==> !IsSpace(s[i]))
            && IndexOf(s, '-') == |Core(v)| + 1 + IndexOf(build, '-')
  {
    hide IndexOf, Core;
    CoreIsPlain(v);
    var s := Core(v) + ("+" + build);
    forall i | 0 <= i < |s| ensures !IsSpace(s[i]) { assert i > |Core(v)| ==> s[i] == build[i - |Core(v)| - 1]; }
    IndexOfSkips(Core(v), "+" + build, '-');
    IndexOfSkips("+", build, '-');
  }

  lemma CutBehind(core: string, build: string, dash: nat)
    requires dash < |build|
    ensures (core + ("+" + build))[..|core| + 1 + dash] == core + ("+" + build[..dash])
    ensures (core + ("+" + build))[|core| + 1 + dash + 1..] == build[dash + 1..]
  {
  }

  lemma BuildUnfolds(v: Version, build: string)
    requires Printable(v) && v.pre == "" && forall i :: 0 <= i < |build| ==> !IsSpace(build[i])
    ensures var s, dash := Core(v) + ("+" + build), IndexOf(build, '-');
            ParseVersion(s) == if dash == |build| then Some(v) else if dash + 1 == |build| then None
                               else ParseCore(Core(v) + ("+" + build[..dash]), build[dash + 1..])
  {
    hide ParseCore, ParseVersion, IndexOf, Core, IsSpace;
    CoreWithBuild(v, build);
    var s, dash := Core(v) + ("+" + build), IndexOf(build, '-');
    SolidIsParsed(s);
    if dash == |build| {
      CoreParses(v, "+" + build, "");
      assert v.(pre := "") == v;
    } else if dash + 1 < |build| {
      CutBehind(Core(v), build, dash);
    }
  }

  /** Build metadata is ignored, as section 10 of SemVer 2.0.0 asks, exactly when
      the version is no pre-release and the metadata holds no hyphen. */
  lemma BuildIsIgnoredExactly(v: Version, build: string)
    requires Printable(v) && forall i :: 0 <= i < |build| ==> !IsSpace(build[i])
    ensures ParseVersion(Print(v) + "+" + build) == Some(v) <==> v.pre == "" && '-' !in build
  {
    hide ParseVersion, IndexOf, Print;
    BuildIsRead(v, build);
    var dash := IndexOf(build, '-');
    assert v.pre != "" ==> |v.pre + "+" + build| > |v.pre|;
    assert dash < |build| ==> build[dash] == '-';
    assert dash + 1 < |build| ==> |build[dash + 1..]| > 0;
  }

  // -------------------------------------------------------------- python clauses

  datatype Operator = AtLeast | AtMostOf | Above | Below | Exactly

  datatype Clause = Clause(operator: Operator, version: Version)

  function Dots(s: string): nat { |Split(s, '.')| - 1 }

  /** One part of requires-python; a bare version means equality. */
  function ParseClause(raw: string): Option<Clause> {
    var part := Trim(raw);
    var (operator, rest) :=
      if HasPrefix(part, ">=") then (AtLeast, Trim(part[2..]))
      else if HasPrefix(part, "<=") then (AtMostOf, Trim(part[2..]))
      else if HasPrefix(part, ">") then (Above, Trim(part[1..]))
      else if HasPrefix(part, "<") then (Below, Trim(part[1..]))
      else if HasPrefix(part, "==") then (Exactly, Trim(part[2..]))
      else (Exactly, part);
    var version := ParseVersion(if Dots(rest) == 1 then rest + ".0" else rest);
    if version.None? then None else Some(Clause(operator, version.value))
  }

  function ParseClauses(parts: seq<string>): Option<seq<Clause>> {
    if |parts| == 0 then Some([])
    else
      var before := ParseClauses(parts[..|parts| - 1]);
      var last := ParseClause(parts[|parts| - 1]);
      if before.None? || last.None? then None else Some(before.value + [last.value])
  }

  lemma {:induction false} ClausesFail(parts: seq<string>, n: nat)
    requires n <= |parts| && ParseClauses(parts[..n]).None?
    ensures ParseClauses(parts).None?
    decreases |parts|
  {
    hide ParseClause;
    if n < |parts| {
      assert parts[..|parts| - 1][..n] == parts[..n];
      ClausesFail(parts[..|parts| - 1], n);
    } else {
      assert parts[..n] == parts;
    }
  }

  /** parsePythonConstraint. */
  method ParsePythonConstraint(raw: string) returns (clauses: Option<seq<Clause>>)
    ensures clauses == if Trim(raw) == "" then None else ParseClauses(Split(Trim(raw), ','))
  {
    hide ParseClause, Split, Trim;
    if Trim(raw) == "" { return None; }
    var parts := Split(Trim(raw), ',');
    var found: seq<Clause> := [];
    for n := 0 to |parts|
      invariant ParseClauses(parts[..n]) == Some(found)
    {
      assert parts[..n + 1][..n] == parts[..n];
      var clause := ParseClause(parts[n]);
      if clause.None? {
        ClausesFail(parts, n + 1);
        return None;
      }
      found := found + [clause.value];
    }
    assert parts[..|parts|] == parts;
    return Some(found);
  }

  ghost predicate Satisfies(v: Version, c: Clause) {
    match c.operator
    case AtLeast => Earlier(c.version, v) || Tied(c.version, v)
    case AtMostOf => Earlier(v, c.version) || Tied(c.version, v)
    case Above => Earlier(c.version, v)
    case Below => Earlier(v, c.version)
    case Exactly => Tied(c.version, v)
  }

  ghost predicate SatisfiesAll(v: Version, clauses: seq<Clause>) { forall c :: c in clauses ==> Satisfies(v, c) }

  /** pythonConstraints.matches. */
  method Matches(clauses: seq<Clause>, v: Version) returns (ok: bool)
    ensures ok <==> SatisfiesAll(v, clauses)
  {
    hide Earlier;
    for n := 0 to |clauses|
      invariant forall i :: 0 <= i < n ==> Satisfies(v, clauses[i])
    {
      var c := clauses[n];
      EarlierIsStrictWeakOrder(v, c.version, v);
      EarlierIsStrictWeakOrder(c.version, v, c.version);
      var less, greater := Earlier(v, c.version), Earlier(c.version, v);
      var violated :=
        match c.operator
        case AtLeast => less
        case Above => !greater
        case AtMostOf => greater
        case Below => !less
        case Exactly => less || greater;
      assert violated <==> !Satisfies(v, c);
      if violated {
        assert c in clauses;
        return false;
      }
    }
    return true;
  }

  /** Between releases proper, the operators compare the three numbers. */
  lemma SatisfiesIsNumeric(v: Version, c: Clause)
    requires v.pre == "" && c.version.pre == ""
    ensures Satisfies(v, c) <==>
              match c.operator
              case AtLeast => !CoreBefore(v, c.version)
              case AtMostOf => !CoreBefore(c.version, v)
              case Above => CoreBefore(c.version, v)
              case Below => CoreBefore(v, c.version)
              case Exactly => SameCore(v, c.version)
  {
  }

  predicate InMatrix(v: Version, m: Matrix) {
    && (m.minMajor != 0 ==> v.major > m.minMajor || (v.major == m.minMajor && v.minor >= m.minMinor))
    && (m.maxMajor != 0 ==> v.major < m.maxMajor || (v.major == m.maxMajor && v.minor <= m.maxMinor))
  }

  // ------------------------------------------------------------------- selection

  function Folded(s: string): string { ToLower(Trim(s)) }

  predicate Suits(a: Asset, platform: string, architecture: string) {
    Folded(a.platform) == Folded(platform) && Folded(a.architecture) == Folded(architecture)
  }

  function AssetFor(assets: seq<Asset>, platform: string, architecture: string): (r: Option<Asset>)
    ensures r.Some? ==> r.value in assets && Suits(r.value, platform, architecture)
    ensures r.None? ==> forall a :: a in assets ==> !Suits(a, platform, architecture)
  {
    if |assets| == 0 then None
    else if Suits(assets[0], platform, architecture) then Some(assets[0])
    else AssetFor(assets[1..], platform, architecture)
  }

  predicate Names(r: Release, component: string) { r.component == "" || ToLower(r.component) == ToLower(component) }

  predicate Stable(r: Release, v: Version) { r.stable && v.pre == "" }

  /** releaseIsSelectable, with its one narrow exception. */
  predicate Selectable(r: Release, v: Version) {
    Stable(r, v) || (r.component == "dsh" && r.verifiedPrerelease && r.stable && v.pre != "")
  }

  datatype Want = Want(component: string, platform: string, architecture: string)

  /** The version a release competes with, if it may compete at all. */
  function Candidate(r: Release, w: Want): Option<Version> {
    var v := ParseVersion(r.version);
    if Names(r, w.component) && v.Some? && Selectable(r, v.value)
        && AssetFor(r.assets, w.platform, w.architecture).Some?
    then v else None
  }

  ghost function PythonCandidate(r: Release, w: Want, matrix: Matrix, clauses: seq<Clause>): Option<Version> {
    var v := ParseVersion(r.version);
    if Names(r, w.component) && v.Some? && Stable(r, v.value) && InMatrix(v.value, matrix)
        && SatisfiesAll(v.value, clauses)
       && AssetFor(r.assets, w.platform, w.architecture).Some?
    then v else None
  }

  /** The first of the latest candidates. */
  ghost predicate FirstBest(ranks: seq<Option<Version>>, k: int) {
    && 0 <= k < |ranks| && ranks[k].Some?
    && (forall j :: 0 <= j < |ranks| && ranks[j].Some? ==> !Earlier(ranks[k].value, ranks[j].value))
    && (forall j :: 0 <= j < k && ranks[j].Some? ==> Earlier(ranks[j].value, ranks[k].value))
  }

  ghost predicate NoCandidate(ranks: seq<Option<Version>>) { forall j :: 0 <= j < |ranks| ==> ranks[j].None? }

  /** However a catalog is ordered, the chosen versions tie. */
  lemma ChoiceIgnoresOrder(a: seq<Option<Version>>, b: seq<Option<Version>>, k: int, l: int)
    requires multiset(a) == multiset(b) && FirstBest(a, k) && FirstBest(b, l)
    ensures Tied(a[k].value, b[l].value)
  {
    hide Earlier;
    assert a[k] in multiset(b) && b[l] in multiset(a);
    var i :| 0 <= i < |b| && b[i] == a[k];
    var j :| 0 <= j < |a| && a[j] == b[l];
  }

  /** What a selection loop knows: the first best so far, or that there is none. */
  ghost predicate Tracks(ranks: seq<Option<Version>>, best: int, version: Version) {
    && best < |ranks|
    && (if best < 0 then NoCandidate(ranks) else FirstBest(ranks, best) && ranks[best] == Some(version))
  }

  lemma TracksNone(ranks: seq<Option<Version>>, best: int, version: Version)
    requires Tracks(ranks, best, version)
    ensures Tracks(ranks + [None], best, version)
  {
    hide Earlier;
  }

  lemma TracksWorse(ranks: seq<Option<Version>>, best: int, version: Version, v: Version)
    requires Tracks(ranks, best, version) && best >= 0 && !Earlier(version, v)
    ensures Tracks(ranks + [Some(v)], best, version)
  {
    hide Earlier;
  }

  lemma TracksBetter(ranks: seq<Option<Version>>, best: int, version: Version, v: Version)
    requires Tracks(ranks, best, version) && (best < 0 || Earlier(version, v))
    ensures Tracks(ranks + [Some(v)], |ranks|, v)
  {
  }

  ghost function Ranks(releases: seq<Release>, w: Want): seq<Option<Version>> {
    seq(|releases|, i requires 0 <= i < |releases| => Candidate(releases[i], w))
  }

  ghost function PythonRanks(releases: seq<Release>, w: Want, matrix: Matrix, clauses: seq<Clause>)
    : seq<Option<Version>>
  {
    seq(|releases|, i requires 0 <= i < |releases| => PythonCandidate(releases[i], w, matrix, clauses))
  }

  /** The tests of selectRelease's loop body. */
  method CandidateVersion(r: Release, w: Want) returns (v: Option<Version>)
    ensures v == Candidate(r, w)
  {
    hide Names, ParseVersion, Selectable, AssetFor;
    if !Names(r, w.component) { return None; }
    v := ParseVersion(r.version);
    if v.None? || !Selectable(r, v.value) { return None; }
    var asset := AssetFor(r.assets, w.platform, w.architecture);
    if asset.None? { return None; }
  }

  /** The tests of selectPythonRelease's loop body. */
  method PythonCandidateVersion(r: Release, w: Want, matrix: Matrix, clauses: seq<Clause>) returns (v: Option<Version>)
    ensures v == PythonCandidate(r, w, matrix, clauses)
  {
    hide Names, ParseVersion, Stable, AssetFor, InMatrix, SatisfiesAll;
    if !Names(r, w.component) { return None; }
    v := ParseVersion(r.version);
    if v.None? || !Stable(r, v.value) || !InMatrix(v.value, matrix) { return None; }
    var matches := Matches(clauses, v.value);
    if !matches { return None; }
    var asset := AssetFor(r.assets, w.platform, w.architecture);
    if asset.None? { return None; }
  }

  /** There is an asset for the platform, cases and edge blanks aside. */
  ghost predicate Offered(r: Release, w: Want) {
    exists i :: 0 <= i < |r.assets|
                && ToLower(Trim(r.assets[i].platform)) == ToLower(Trim(w.platform))
                && ToLower(Trim(r.assets[i].architecture)) == ToLower(Trim(w.architecture))
  }

  /** The release is for this component, or for any. */
  ghost predicate Meant(r: Release, component: string) {
    |r.component| > 0 ==> ToLower(r.component) == ToLower(component)
  }

  /** What a release must be to be chosen: marked stable, and a pre-release only
      if it is a verified one of dsh. */
  ghost predicate Eligible(r: Release, w: Want, v: Version) {
    && ParseVersion(r.version) == Some(v) && Meant(r, w.component) && Offered(r, w)
    && r.stable && (|v.pre| > 0 ==> r.component == "dsh" && r.verifiedPrerelease)
  }

  ghost function PythonVersion(major: nat, minor: nat): Version { Version(major, minor, 0, "") }

  /** The first two numbers lie between the bounds there are. */
  ghost predicate Tested(v: Version, m: Matrix) {
    && (m.minMajor > 0 ==> !CoreBefore(PythonVersion(v.major, v.minor), PythonVersion(m.minMajor, m.minMinor)))
    && (m.maxMajor > 0 ==> !CoreBefore(PythonVersion(m.maxMajor, m.maxMinor), PythonVersion(v.major, v.minor)))
  }

  /** What a Python release must be: no pre-release at all, within the tested
      matrix, and as demanded. */
  ghost predicate EligiblePython(r: Release, w: Want, matrix: Matrix, clauses: seq<Clause>, v: Version) {
    && ParseVersion(r.version) == Some(v) && Meant(r, w.component) && Offered(r, w)
    && r.stable && |v.pre| == 0 && Tested(v, matrix) && SatisfiesAll(v, clauses)
  }

  lemma OfferedExactly(r: Release, w: Want)
    ensures AssetFor(r.assets, w.platform, w.architecture).Some? <==> Offered(r, w)
  {
    hide ToLower, Trim, AssetFor;
    var a := AssetFor(r.assets, w.platform, w.architecture);
    if a.Some? {
      var i :| 0 <= i < |r.assets| && r.assets[i] == a.value;
    }
    if Offered(r, w) {
      var i :| 0 <= i < |r.assets| && ToLower(Trim(r.assets[i].platform)) == ToLower(Trim(w.platform))
               && ToLower(Trim(r.assets[i].architecture)) == ToLower(Trim(w.architecture));
      assert r.assets[i] in r.assets && Suits(r.assets[i], w.platform, w.architecture);
    }
  }

  lemma CandidateExactly(r: Release, w: Want, v: Version)
    ensures Candidate(r, w) == Some(v) <==> Eligible(r, w, v)
  {
    OfferedExactly(r, w);
    hide ToLower, ParseVersion, AssetFor, Offered;
  }

  lemma TestedExactly(v: Version, m: Matrix)
    ensures InMatrix(v, m) <==> Tested(v, m)
  {
  }

  lemma PythonCandidateExactly(r: Release, w: Want, matrix: Matrix, clauses: seq<Clause>, v: Version)
    ensures PythonCandidate(r, w, matrix, clauses) == Some(v) <==> EligiblePython(r, w, matrix, clauses, v)
  {
    OfferedExactly(r, w);
    TestedExactly(v, matrix);
    hide ToLower, ParseVersion, AssetFor, Offered, SatisfiesAll, InMatrix, Tested;
  }

  /** The first of the latest eligible releases is chosen, and one is if there is
      any. */
  ghost predicate ChosenFrom(releases: seq<Release>, w: Want, best: int) {
    if best < 0 then forall i, v :: 0 <= i < |releases| ==> !Eligible(releases[i], w, v)
    else
      best < |releases|
      && exists v :: Eligible(releases[best], w, v)
           && forall i, u :: 0 <= i < |releases| && Eligible(releases[i], w, u) ==>
                !Earlier(v, u) && (i < best ==> Earlier(u, v))
  }

  ghost predicate PythonChosenFrom(releases: seq<Release>, w: Want, matrix: Matrix, clauses: seq<Clause>, best: int) {
    if best < 0 then forall i, v :: 0 <= i < |releases| ==> !EligiblePython(releases[i], w, matrix, clauses, v)
    else
      best < |releases|
      && exists v :: EligiblePython(releases[best], w, matrix, clauses, v)
           && forall i, u :: 0 <= i < |releases| && EligiblePython(releases[i], w, matrix, clauses, u) ==>
                !Earlier(v, u) && (i < best ==> Earlier(u, v))
  }

  lemma RanksChoose(ranks: seq<Option<Version>>, releases: seq<Release>, w: Want, best: int)
    requires |ranks| == |releases| && forall i :: 0 <= i < |ranks| ==> ranks[i] == Candidate(releases[i], w)
    requires if best >= 0 then FirstBest(ranks, best) else NoCandidate(ranks)
    ensures ChosenFrom(releases, w, best)
  {
    hide Eligible, Candidate, Earlier;
    if best < 0 {
      forall i, v | 0 <= i < |releases| ensures !Eligible(releases[i], w, v) { CandidateExactly(releases[i], w, v); }
    } else {
      var v := ranks[best].value;
      CandidateExactly(releases[best], w, v);
      forall i, u | 0 <= i < |releases| && Eligible(releases[i], w, u)
        ensures !Earlier(v, u) && (i < best ==> Earlier(u, v))
      {
        CandidateExactly(releases[i], w, u);
        assert ranks[i] == Some(u);
      }
    }
  }

  lemma PythonRanksChoose(ranks: seq<Option<Version>>, releases: seq<Release>, w: Want, matrix: Matrix,
                          clauses: seq<Clause>, best: int)
    requires |ranks| == |releases|
    requires forall i :: 0 <= i < |ranks| ==> ranks[i] == PythonCandidate(releases[i], w, matrix, clauses)
    requires if best >= 0 then FirstBest(ranks, best) else NoCandidate(ranks)
    ensures PythonChosenFrom(releases, w, matrix, clauses, best)
  {
    hide EligiblePython, PythonCandidate, Earlier;
    if best < 0 {
      forall i, v | 0 <= i < |releases| ensures !EligiblePython(releases[i], w, matrix, clauses, v) {
        PythonCandidateExactly(releases[i], w, matrix, clauses, v);
      }
    } else {
      var v := ranks[best].value;
      PythonCandidateExactly(releases[best], w, matrix, clauses, v);
      forall i, u | 0 <= i < |releases| && EligiblePython(releases[i], w, matrix, clauses, u)
        ensures !Earlier(v, u) && (i < best ==> Earlier(u, v))
      {
        PythonCandidateExactly(releases[i], w, matrix, clauses, u);
        assert ranks[i] == Some(u);
      }
    }
  }

  /** selectRelease. */
  method SelectRelease(releases: seq<Release>, w: Want) returns (best: int)
    ensures best >= 0 ==> FirstBest(Ranks(releases, w), best)
    ensures best < 0 ==> NoCandidate(Ranks(releases, w))
    ensures ChosenFrom(releases, w, best)
  {
    hide Earlier, Candidate, FirstBest, NoCandidate, ChosenFrom;
    best := -1;
    var version := Version(0, 0, 0, "");
    ghost var ranks: seq<Option<Version>> := [];
    NothingTracked(version);
    for n := 0 to |releases|
      invariant |ranks| == n && forall i :: 0 <= i < n ==> ranks[i] == Candidate(releases[i], w)
      invariant Tracks(ranks, best, version)
    {
      var v := CandidateVersion(releases[n], w);
      if v.None? {
        TracksNone(ranks, best, version);
      } else if best < 0 || Earlier(version, v.value) {
        TracksBetter(ranks, best, version, v.value);
        best, version := n, v.value;
      } else {
        TracksWorse(ranks, best, version, v.value);
      }
      ranks := ranks + [v];
    }
    assert ranks == Ranks(releases, w);
    TracksMeans(ranks, best, version);
    RanksChoose(ranks, releases, w, best);
  }

  lemma TracksMeans(ranks: seq<Option<Version>>, best: int, version: Version)
    requires Tracks(ranks, best, version)
    ensures if best >= 0 then FirstBest(ranks, best) else NoCandidate(ranks)
  {
  }

  lemma NothingTracked(version: Version)
    ensures Tracks([], -1, version)
  {
  }

  /** selectPythonRelease. */
  method SelectPythonRelease(releases: seq<Release>, w: Want, matrix: Matrix, clauses: seq<Clause>) returns (best: int)
    ensures best >= 0 ==> FirstBest(PythonRanks(releases, w, matrix, clauses), best)
    ensures best < 0 ==> NoCandidate(PythonRanks(releases, w, matrix, clauses))
    ensures PythonChosenFrom(releases, w, matrix, clauses, best)
  {
    hide Earlier, PythonCandidate, FirstBest, NoCandidate, PythonChosenFrom;
    best := -1;
    var version := Version(0, 0, 0, "");
    ghost var ranks: seq<Option<Version>> := [];
    NothingTracked(version);
    for n := 0 to |releases|
      invariant |ranks| == n && forall i :: 0 <= i < n ==> ranks[i] == PythonCandidate(releases[i], w, matrix, clauses)
      invariant Tracks(ranks, best, version)
    {
      var v := PythonCandidateVersion(releases[n], w, matrix, clauses);
      if v.None? {
        TracksNone(ranks, best, version);
      } else if best < 0 || Earlier(version, v.value) {
        TracksBetter(ranks, best, version, v.value);
        best, version := n, v.value;
      } else {
        TracksWorse(ranks, best, version, v.value);
      }
      ranks := ranks + [v];
    }
    assert ranks == PythonRanks(releases, w, matrix, clauses);
    TracksMeans(ranks, best, version);
    PythonRanksChoose(ranks, releases, w, matrix, clauses, best);
  }

  // ------------------------------------------------------------------ resolution

  datatype Resolution = Unresolved | Resolved(strix: Option<Release>, python: Option<Release>)

  /** The Python release suits the Strix release and the tested matrix. */
  ghost predicate Compatible(strix: Option<Release>, python: Release, matrix: Matrix) {
    var v := ParseVersion(python.version);
    && v.Some? && Stable(python, v.value) && InMatrix(v.value, matrix)
    && (strix.Some? && Trim(strix.value.requiresPython) != "" ==>
          var clauses := ParseClauses(Split(Trim(strix.value.requiresPython), ','));
          clauses.Some? && SatisfiesAll(v.value, clauses.value))
  }

  /** What the chosen Strix release demands of Python, if that can be read. */
  ghost function Demanded(strix: Option<Release>): Option<seq<Clause>> {
    if strix.Some? && Trim(strix.value.requiresPython) != ""
        then ParseClauses(Split(Trim(strix.value.requiresPython), ','))
    else Some([])
  }

  ghost predicate Chosen(ranks: seq<Option<Version>>, releases: seq<Release>, r: Release) {
    exists k :: FirstBest(ranks, k) && k < |releases| && releases[k] == r
  }

  ghost predicate ChosenStrix(releases: seq<Release>, w: Want, wanted: bool, strix: Option<Release>) {
    if wanted then strix.Some? && Chosen(Ranks(releases, w), releases, strix.value) else strix.None?
  }

  /** No Python can go with this Strix release. */
  ghost predicate Unmatched(strix: Option<Release>, pythonReleases: seq<Release>, w: Want, matrix: Matrix,
                            wantPython: bool) {
    if !wantPython then strix.Some? && Trim(strix.value.requiresPython) != ""
    else Demanded(strix).None? || NoCandidate(PythonRanks(pythonReleases, w, matrix, Demanded(strix).value))
  }

  /** The Strix and Python part of Resolver.Resolve. */
  method ResolveStrixAndPython(strixReleases: seq<Release>, pythonReleases: seq<Release>, wantStrix: bool,
                               wantPython: bool, platform: string, architecture: string, matrix: Matrix)
    returns (result: Resolution)
    ensures var strixWant, pythonWant := Want("strix", platform, architecture), Want("python", platform, architecture);
            match result
            case Unresolved =>
              || (wantStrix && NoCandidate(Ranks(strixReleases, strixWant)))
              || exists s :: ChosenStrix(strixReleases, strixWant, wantStrix, s)
                  && Unmatched(s, pythonReleases, pythonWant, matrix, wantPython)
            case Resolved(strix, python) =>
              && ChosenStrix(strixReleases, strixWant, wantStrix, strix) && (python.Some? <==> wantPython)
              && (wantPython ==>
                    && Demanded(strix).Some?
                    && Chosen(PythonRanks(pythonReleases, pythonWant, matrix, Demanded(strix).value), pythonReleases,
                        python.value)
                    && Compatible(strix, python.value, matrix))
              && (wantStrix && !wantPython ==> Trim(strix.value.requiresPython) == "")
  {
    hide Earlier, ParseVersion, Trim, ParseClauses, Split, Stable, InMatrix, SatisfiesAll, Candidate, Names, AssetFor;
    var strix, python: Option<Release> := None, None;
    if wantStrix {
      var k := SelectRelease(strixReleases, Want("strix", platform, architecture));
      if k < 0 { return Unresolved; }
      strix := Some(strixReleases[k]);
    }
    assert ChosenStrix(strixReleases, Want("strix", platform, architecture), wantStrix, strix);
    if wantPython {
      var clauses: seq<Clause> := [];
      if strix.Some? && Trim(strix.value.requiresPython) != "" {
        TrimTwice(strix.value.requiresPython);
        var parsed := ParsePythonConstraint(strix.value.requiresPython);
        if parsed.None? { return Unresolved; }
        clauses := parsed.value;
      }
      assert Demanded(strix) == Some(clauses);
      var k := SelectPythonRelease(pythonReleases, Want("python", platform, architecture), matrix, clauses);
      if k < 0 { return Unresolved; }
      python := Some(pythonReleases[k]);
    } else if strix.Some? && Trim(strix.value.requiresPython) != "" {
      return Unresolved;
    }
    return Resolved(strix, python);
  }
}
