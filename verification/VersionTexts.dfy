/** Which texts are read as which version (internal/managedruntime/catalog.go). */
module VersionTexts {
  import opened Text
  import opened Catalog

  // --------------------------------------------------------------------- numbers

  /** Digits without a leading zero are the decimal form of their value. */
  lemma {:induction false} DigitsAreDecimal(s: string)
    requires s != "" && forall i :: 0 <= i < |s| ==> IsDigit(s[i])
    requires |s| > 1 ==> s[0] != '0'
    ensures Decimal(NumberOf(s)) == s
  {
    var n := NumberOf(s);
    var d := s[|s| - 1] as int - '0' as int;
    assert IsDigit(s[|s| - 1]);
    LastDigit(s[|s| - 1]);
    if |s| == 1 {
      assert s[..0] == "" && n == d;
      assert Decimal(d) == ["0123456789"[d]] == s;
    } else {
      var front := s[..|s| - 1];
      DigitsAreDecimal(front);
      assert n == 10 * NumberOf(front) + d;
      NoLeadingZero(front);
      assert n / 10 == NumberOf(front) && n % 10 == d;
      assert s == front + [s[|s| - 1]];
    }
  }

  lemma LastDigit(c: char)
    requires IsDigit(c)
    ensures 0 <= c as int - '0' as int < 10 && "0123456789"[c as int - '0' as int] == c
  {
  }

  lemma {:induction false} NoLeadingZero(s: string)
    requires s != "" && (forall i :: 0 <= i < |s| ==> IsDigit(s[i])) && s[0] != '0'
    ensures NumberOf(s) > 0
  {
    assert IsDigit(s[|s| - 1]) && IsDigit(s[0]);
    if |s| > 1 {
      NoLeadingZero(s[..|s| - 1]);
    } else {
      assert s[..0] == "";
    }
  }

  /** A part is read as a number exactly when it is its decimal form and fits. */
  lemma ParsePartExactly(part: string, n: nat)
    ensures ParsePart(part) == Some(n) <==> part == Decimal(n) && n <= 0x7FFF_FFFF_FFFF_FFFF
  {
    DecimalRoundTrip(n);
    if ParsePart(part) == Some(n) {
      DigitsAreDecimal(part);
    }
    hide Decimal, NumberOf;
  }

  // --------------------------------------------------------------------- versions

  /** The parts of a split, put back together. */
  lemma SplitOnce(s: string, c: char)
    ensures var i := IndexOf(s, c);
            if i == |s| then Split(s, c) == [s]
            else Split(s, c) == [s[..i]] + Split(s[i + 1..], c) && s == s[..i] + [c] + s[i + 1..]
  {
    var i := IndexOf(s, c);
    hide IndexOf;
    if i < |s| { assert s == s[..i] + [s[i]] + s[i + 1..]; }
  }

  lemma ThreeParts(s: string)
    requires |Split(s, '.')| == 3
    ensures var parts := Split(s, '.'); s == parts[0] + "." + parts[1] + "." + parts[2]
  {
    hide IndexOf;
    SplitOnce(s, '.');
    var i := IndexOf(s, '.');
    if i < |s| {
      var rest := s[i + 1..];
      SplitOnce(rest, '.');
      var j := IndexOf(rest, '.');
      if j < |rest| {
        SplitOnce(rest[j + 1..], '.');
      }
    }
  }

  /** The text of a version: its numbers, any build metadata, its pre-release. */
  ghost function WithBuild(v: Version, build: string): string {
    Core(v) + build + if v.pre == "" then "" else "-" + v.pre
  }

  ghost predicate IsBuild(build: string) { build == "" || (build[0] == '+' && '-' !in build) }

  ghost predicate ReadableNumbers(v: Version) {
    v.major <= 0x7FFF_FFFF_FFFF_FFFF && v.minor <= 0x7FFF_FFFF_FFFF_FFFF && v.patch <= 0x7FFF_FFFF_FFFF_FFFF
  }

  lemma CoreExactly(core: string, pre: string, v: Version)
    ensures ParseCore(core, pre) == Some(v)
            <==> v.pre == pre && ReadableNumbers(v)
                 && exists build :: core == Core(v) + build && (build == "" || build[0] == '+')
  {
    hide IndexOf, Split, ParsePart, Decimal;
    var plus := IndexOf(core, '+');
    var front := core[..plus];
    var parts := Split(front, '.');
    if ParseCore(core, pre) == Some(v) {
      ThreeParts(front);
      ParsePartExactly(parts[0], v.major);
      ParsePartExactly(parts[1], v.minor);
      ParsePartExactly(parts[2], v.patch);
      assert core == Core(v) + core[plus..];
    }
    if v.pre == pre && ReadableNumbers(v)
       && exists build :: core == Core(v) + build && (build == "" || build[0] == '+') {
      var build :| core == Core(v) + build && (build == "" || build[0] == '+');
      CoreParses(v, build, pre);
      assert v.(pre := pre) == v;
    }
  }

  /** The text is the version's, with a build that IsBuild and after an optional v. */
  ghost predicate ReadsAs(raw: string, v: Version, build: string) {
    && IsBuild(build) && ReadableNumbers(v) && !HasBlank(WithBuild(v, build))
    && Trim(raw) in {WithBuild(v, build), "v" + WithBuild(v, build)}
  }

  lemma SolidExactly(value: string, v: Version)
    ensures ParseSolid(value) == Some(v)
            <==> ReadableNumbers(v) && exists build :: IsBuild(build) && value == WithBuild(v, build)
  {
    hide ParseSolid, WithBuild, IsBuild, ReadableNumbers;
    if ParseSolid(value) == Some(v) { var build := ReadIsWritten(value, v); }
    if ReadableNumbers(v) && exists build :: IsBuild(build) && value == WithBuild(v, build) {
      var build :| IsBuild(build) && value == WithBuild(v, build);
      WrittenIsRead(v, build);
    }
  }

  lemma ReadIsWritten(value: string, v: Version) returns (build: string)
    requires ParseSolid(value) == Some(v)
    ensures IsBuild(build) && value == WithBuild(v, build) && ReadableNumbers(v)
  {
    hide ParseCore, IndexOf, Core;
    var dash := IndexOf(value, '-');
    var core := value[..dash];
    assert dash == |value| ==> core == value;
    var pre := if dash == |value| then "" else value[dash + 1..];
    CoreExactly(core, pre, v);
    hide ReadableNumbers;
    build :| core == Core(v) + build && (build == "" || build[0] == '+');
    assert build == core[|Core(v)|..];
    assert dash < |value| ==> value == core + ("-" + pre);
  }

  lemma FrontIsPlain(v: Version, build: string)
    requires IsBuild(build)
    ensures forall i :: 0 <= i < |Core(v) + build| ==> (Core(v) + build)[i] != '-'
  {
    CoreIsPlain(v);
    hide Core;
    var front := Core(v) + build;
    forall i | 0 <= i < |front| ensures front[i] != '-' {
      assert front[i] == if i < |Core(v)| then Core(v)[i] else build[i - |Core(v)|];
    }
  }

  lemma WrittenIsRead(v: Version, build: string)
    requires IsBuild(build) && ReadableNumbers(v)
    ensures ParseSolid(WithBuild(v, build)) == Some(v)
  {
    hide ParseCore, Core, IndexOf, ReadableNumbers;
    var value, front := WithBuild(v, build), Core(v) + build;
    FrontIsPlain(v, build);
    CoreExactly(front, v.pre, v);
    if v.pre == "" {
      assert value == front && front + "" == front;
      IndexOfSkips(front, "", '-');
      EmptyIndex('-');
      assert IndexOf(value, '-') == |value|;
      assert ParseCore(value, "") == Some(v);
    } else {
      assert value == front + ("-" + v.pre);
      IndexOfSkips(front, "-" + v.pre, '-');
      HeadIndex("-" + v.pre, '-');
      assert value[..|front|] == front && value[|front| + 1..] == v.pre;
    }
  }

  /** A text is read as a version exactly when, edge blanks and one leading v
      aside, it is the version's numbers in decimal, any build metadata without a
      hyphen, and its pre-release, with no blank inside. */
  lemma ParseVersionExactly(raw: string, v: Version)
    ensures ParseVersion(raw) == Some(v) <==> exists build :: ReadsAs(raw, v, build)
  {
    hide ParseSolid, WithBuild, Trim, HasBlank, IsBuild, ReadableNumbers;
    var trimmed := Trim(raw);
    var value := if HasPrefix(trimmed, "v") then trimmed[1..] else trimmed;
    SolidExactly(value, v);
    if ParseVersion(raw) == Some(v) {
      var build :| IsBuild(build) && value == WithBuild(v, build);
      assert HasPrefix(trimmed, "v") ==> trimmed == "v" + value;
      assert ReadsAs(raw, v, build);
    }
    if exists build :: ReadsAs(raw, v, build) {
      var build :| ReadsAs(raw, v, build);
      TextStart(v, build, trimmed);
      assert value == WithBuild(v, build);
    }
  }

  lemma TextStart(v: Version, build: string, trimmed: string)
    requires trimmed in {WithBuild(v, build), "v" + WithBuild(v, build)}
    ensures WithBuild(v, build) != ""
    ensures (if HasPrefix(trimmed, "v") then trimmed[1..] else trimmed) == WithBuild(v, build)
  {
    CoreIsPlain(v);
    var t := WithBuild(v, build);
    assert t[0] == Core(v)[0] && t[0] != 'v';
    assert ("v" + t)[..1] == "v" && ("v" + t)[1..] == t;
    assert t[..1][0] == t[0];
  }
}
