/** What a requires-python text means (internal/managedruntime/catalog.go): every
    way of writing clauses down, and what parsing it gives back. */
module ClauseTexts {
  import opened Text
  import opened Catalog

  // --------------------------------------------------------------------- printing

  function Sign(o: Operator): string {
    match o
    case AtLeast => ">="
    case AtMostOf => "<="
    case Above => ">"
    case Below => "<"
    case Exactly => "=="
  }

  /** How a clause is written: the blanks around and inside it, whether equality
      goes without its sign and whether a patch of zero is left out. */
  datatype Style = Style(before: string, inside: string, after: string, bare: bool, short: bool)

  predicate Blank(s: string) { forall i :: 0 <= i < |s| ==> IsSpace(s[i]) }

  predicate BlankStyle(style: Style) { Blank(style.before) && Blank(style.inside) && Blank(style.after) }

  function VersionText(v: Version, short: bool): string {
    if short && v.patch == 0 && v.pre == "" then Decimal(v.major) + "." + Decimal(v.minor) else Print(v)
  }

  function SignText(c: Clause, style: Style): string {
    if style.bare && c.operator == Exactly then "" else Sign(c.operator) + style.inside
  }

  function ClauseText(c: Clause, style: Style): string {
    style.before + (SignText(c, style) + VersionText(c.version, style.short)) + style.after
  }

  // -------------------------------------------------------------------- one clause

  lemma {:induction false} BlanksBefore(blank: string, s: string)
    requires Blank(blank) && s != "" && !IsSpace(s[0])
    ensures TrimLeft(blank + s) == s
  {
    if blank == "" {
      assert blank + s == s;
    } else {
      assert (blank + s)[1..] == blank[1..] + s;
      BlanksBefore(blank[1..], s);
    }
  }

  lemma {:induction false} BlanksAfter(s: string, blank: string)
    requires Blank(blank) && s != "" && !IsSpace(s[|s| - 1])
    ensures TrimRight(s + blank) == s
  {
    if blank == "" {
      assert s + blank == s;
    } else {
      assert (s + blank)[..|s + blank| - 1] == s + blank[..|blank| - 1];
      BlanksAfter(s, blank[..|blank| - 1]);
    }
  }

  lemma TrimBlanks(before: string, s: string, after: string)
    requires Blank(before) && Blank(after) && s != "" && NoEdgeSpace(s)
    ensures Trim(before + s + after) == s
  {
    hide TrimLeft, TrimRight, IsSpace;
    BlanksAfter(s, after);
    assert before + s + after == before + (s + after);
    BlanksBefore(before, s + after);
    TrimIs(before + s + after);
  }

  lemma VersionTextIsSolid(v: Version, short: bool)
    requires Printable(v)
    ensures VersionText(v, short) != "" && IsDigit(VersionText(v, short)[0]) && NoEdgeSpace(VersionText(v, short))
  {
    hide Decimal, Core;
    CoreIsPlain(v);
    DecimalRoundTrip(v.major);
    DecimalRoundTrip(v.minor);
    var s, m := VersionText(v, short), Decimal(v.minor);
    if short && v.patch == 0 && v.pre == "" {
      assert s[0] == Decimal(v.major)[0] && s[|s| - 1] == m[|m| - 1];
    } else {
      assert s[0] == Core(v)[0];
      assert v.pre != "" ==> s[|s| - 1] == v.pre[|v.pre| - 1];
    }
  }

  /** The two-number form has one dot, the full form at least two. */
  lemma DotsOfVersion(v: Version, short: bool)
    requires Printable(v)
    ensures Dots(VersionText(v, short)) == 1 <==> short && v.patch == 0 && v.pre == ""
  {
    hide Decimal, Split, Core;
    DecimalIsPlain(v.major);
    DecimalIsPlain(v.minor);
    var a, b, c := Decimal(v.major), Decimal(v.minor), Decimal(v.patch);
    if short && v.patch == 0 && v.pre == "" {
      assert a + "." + b == a + ['.'] + b;
      SplitFirst(a, b, '.');
      SplitFirst(b, "", '.');
    } else {
      var suffix := if v.pre == "" then "" else "-" + v.pre;
      CoreIs(v);
      assert Print(v) == a + ['.'] + (b + ['.'] + (c + suffix));
      SplitFirst(a, b + ['.'] + (c + suffix), '.');
      SplitFirst(b, c + suffix, '.');
    }
  }

  lemma CoreIs(v: Version)
    ensures Core(v) == Decimal(v.major) + "." + Decimal(v.minor) + "." + Decimal(v.patch)
  {
  }

  lemma VersionTextParses(v: Version, short: bool)
    requires Printable(v)
    ensures var s := VersionText(v, short); ParseVersion(if Dots(s) == 1 then s + ".0" else s) == Some(v)
  {
    hide ParseVersion, Dots, Core;
    DotsOfVersion(v, short);
    ParsePrinted(v);
    if short && v.patch == 0 && v.pre == "" {
      CoreIs(v);
      assert Decimal(0) == "0";
      assert VersionText(v, short) + ".0" == Print(v);
    }
  }

  lemma PrefixByCharacters(s: string, p: string)
    requires |p| == 1 || |p| == 2
    ensures HasPrefix(s, p) <==> |s| >= |p| && s[0] == p[0] && (|p| == 2 ==> s[1] == p[1])
  {
    if |s| >= |p| && s[0] == p[0] && (|p| == 2 ==> s[1] == p[1]) {
      assert s[..|p|] == p;
    }
  }

  /** The order in which the signs are tried finds the right one. */
  lemma SignIsFound(o: Operator, rest: string)
    requires rest != "" && rest[0] != '='
    ensures var part := Sign(o) + rest;
            && (HasPrefix(part, ">=") <==> o == AtLeast) && (HasPrefix(part, "<=") <==> o == AtMostOf)
            && (HasPrefix(part, ">") <==> o == AtLeast || o == Above)
            && (HasPrefix(part, "<") <==> o == AtMostOf || o == Below) && (HasPrefix(part, "==") <==> o == Exactly)
            && part[|Sign(o)|..] == rest
  {
    hide HasPrefix;
    var part := Sign(o) + rest;
    PrefixByCharacters(part, ">=");
    PrefixByCharacters(part, "<=");
    PrefixByCharacters(part, ">");
    PrefixByCharacters(part, "<");
    PrefixByCharacters(part, "==");
  }

  lemma RestAfterSign(inside: string, s: string)
    requires Blank(inside) && s != "" && IsDigit(s[0]) && NoEdgeSpace(s)
    ensures Trim(inside + s) == s && inside + s != "" && (inside + s)[0] != '='
  {
    hide Trim;
    TrimBlanks(inside, s, "");
    assert inside + s + "" == inside + s;
  }

  /** What follows the sign. */
  lemma ClauseUnfolds(o: Operator, raw: string, inside: string, s: string)
    requires Trim(raw) == Sign(o) + (inside + s)
    requires Blank(inside) && s != "" && IsDigit(s[0]) && NoEdgeSpace(s)
    ensures ParseClause(raw)
            == var version := ParseVersion(if Dots(s) == 1 then s + ".0" else s);
               if version.None? then None else Some(Clause(o, version.value))
  {
    RestAfterSign(inside, s);
    SignIsFound(o, inside + s);
    hide ParseVersion, Dots, Trim, HasPrefix, NoEdgeSpace, Blank;
  }

  lemma BareUnfolds(raw: string, s: string)
    requires Trim(raw) == s && s != "" && IsDigit(s[0])
    ensures ParseClause(raw)
            == var version := ParseVersion(if Dots(s) == 1 then s + ".0" else s);
               if version.None? then None else Some(Clause(Exactly, version.value))
  {
    hide ParseVersion, Dots, Trim;
  }

  lemma SolidBehind(front: string, s: string)
    requires s != "" && NoEdgeSpace(s) && (front != "" ==> !IsSpace(front[0]))
    ensures NoEdgeSpace(front + s)
  {
    assert (front + s)[|front + s| - 1] == s[|s| - 1];
  }

  /** Every way of writing a clause down is read as that clause. */
  lemma ClauseRoundTrip(c: Clause, style: Style)
    requires Printable(c.version) && BlankStyle(style)
    ensures ParseClause(ClauseText(c, style)) == Some(c)
  {
    hide ParseClause, VersionText, Dots, ParseVersion, Printable, Trim, NoEdgeSpace;
    var s := VersionText(c.version, style.short);
    VersionTextIsSolid(c.version, style.short);
    VersionTextParses(c.version, style.short);
    SolidBehind(SignText(c, style), s);
    TrimBlanks(style.before, SignText(c, style) + s, style.after);
    if style.bare && c.operator == Exactly {
      assert "" + s == s;
      BareUnfolds(ClauseText(c, style), s);
    } else {
      assert Sign(c.operator) + style.inside + s == Sign(c.operator) + (style.inside + s);
      ClauseUnfolds(c.operator, ClauseText(c, style), style.inside, s);
    }
  }

  // -------------------------------------------------------------------- whole lists

  /** Blanks around a part do not change what it means. */
  lemma ClauseIgnoresBlanks(a: string, b: string)
    requires Trim(a) == Trim(b)
    ensures ParseClause(a) == ParseClause(b)
  {
    hide Trim, ParseVersion;
  }

  /** All parts are read, each on its own and in order, or the list is refused
      because one of them is. */
  lemma {:induction false} ClausesArePartwise(parts: seq<string>)
    ensures match ParseClauses(parts)
            case Some(clauses) =>
              |clauses| == |parts| && forall i :: 0 <= i < |parts| ==> ParseClause(parts[i]) == Some(clauses[i])
            case None => exists i :: 0 <= i < |parts| && ParseClause(parts[i]) == None
  {
    hide ParseClause;
    if |parts| > 0 {
      var n := |parts| - 1;
      ClausesArePartwise(parts[..n]);
      if ParseClauses(parts[..n]) == None {
        var i :| 0 <= i < n && ParseClause(parts[..n][i]) == None;
        assert ParseClause(parts[i]) == None;
      }
      assert forall i :: 0 <= i < n ==> parts[..n][i] == parts[i];
    }
  }

  ghost predicate SameParts(a: seq<string>, b: seq<string>) {
    |a| == |b| && forall i :: 0 <= i < |a| ==> Trim(a[i]) == Trim(b[i])
  }

  lemma {:induction false} SamePartsParse(a: seq<string>, b: seq<string>)
    requires SameParts(a, b)
    ensures ParseClauses(a) == ParseClauses(b)
  {
    hide ParseClause, Trim;
    if |a| > 0 {
      SamePartsParse(a[..|a| - 1], b[..|b| - 1]);
      ClauseIgnoresBlanks(a[|a| - 1], b[|b| - 1]);
    }
  }

  lemma TrimWithSpaces(x: string, c: char)
    requires IsSpace(c)
    ensures Trim([c] + x) == Trim(x) == Trim(x + [c])
  {
    assert ([c] + x)[1..] == x && (x + [c])[..|x + [c]| - 1] == x;
    LeftOfInit(x + [c]);
  }

  lemma SplitBehindSpace(s: string, c: char)
    requires IsSpace(c)
    ensures SameParts(Split([c] + s, ','), Split(s, ','))
  {
    CommaIsNoSpace();
    hide IsSpace, Trim, Split;
    var i := IndexOf(s, ',');
    if i == |s| {
      SplitFirst([c] + s, "", ',');
      SplitFirst(s, "", ',');
      TrimWithSpaces(s, c);
    } else {
      var first, rest := s[..i], s[i + 1..];
      assert s == first + [','] + rest && [c] + s == ([c] + first) + [','] + rest;
      SplitFirst(first, rest, ',');
      SplitFirst([c] + first, rest, ',');
      TrimWithSpaces(first, c);
    }
  }

  lemma CommaIsNoSpace()
    ensures !IsSpace(',')
  {
  }

  lemma {:induction false} SplitBeforeSpace(s: string, c: char)
    requires IsSpace(c)
    ensures SameParts(Split(s + [c], ','), Split(s, ','))
    decreases |s|
  {
    hide IsSpace, Trim;
    assert c != ',' by { CommaIsNoSpace(); }
    var i := IndexOf(s, ',');
    if i == |s| {
      IndexOfSkips(s, [c], ',');
      assert IndexOf([c], ',') == 1 by { assert [c][1..] == ""; }
      TrimWithSpaces(s, c);
    } else {
      var rest := s[i + 1..];
      assert s == s[..i] + [','] + rest && s + [c] == s[..i] + [','] + (rest + [c]);
      SplitFirst(s[..i], rest, ',');
      SplitFirst(s[..i], rest + [c], ',');
      SplitBeforeSpace(rest, c);
    }
  }

  lemma {:induction false} LeftBlanksDropped(s: string)
    ensures SameParts(Split(TrimLeft(s), ','), Split(s, ','))
  {
    hide Split, Trim, IsSpace;
    if s != "" && IsSpace(s[0]) {
      LeftBlanksDropped(s[1..]);
      SplitBehindSpace(s[1..], s[0]);
      assert s == [s[0]] + s[1..];
    }
  }

  lemma {:induction false} RightBlanksDropped(s: string)
    ensures SameParts(Split(TrimRight(s), ','), Split(s, ','))
  {
    hide Split, Trim, IsSpace;
    if s != "" && IsSpace(s[|s| - 1]) {
      RightBlanksDropped(s[..|s| - 1]);
      SplitBeforeSpace(s[..|s| - 1], s[|s| - 1]);
      assert s == s[..|s| - 1] + [s[|s| - 1]];
    }
  }

  /** Trimming the whole text first changes nothing. */
  lemma TrimmingFirstIsIdle(s: string)
    ensures ParseClauses(Split(Trim(s), ',')) == ParseClauses(Split(s, ','))
  {
    hide Split, ParseClauses, TrimLeft, TrimRight;
    LeftBlanksDropped(s);
    RightBlanksDropped(TrimLeft(s));
    TrimIs(s);
    SamePartsParse(Split(Trim(s), ','), Split(s, ','));
  }

  lemma {:induction false} SplitJoined(parts: seq<string>)
    requires |parts| > 0 && forall p :: p in parts ==> ',' !in p
    ensures Split(Joined(parts, ","), ',') == parts
  {
    hide Split;
    assert parts[0] in parts;
    if |parts| == 1 {
      SplitFirst(parts[0], "", ',');
    } else {
      SplitJoined(parts[1..]);
      SplitFirst(parts[0], Joined(parts[1..], ","), ',');
      assert parts[0] + "," + Joined(parts[1..], ",") == parts[0] + [','] + Joined(parts[1..], ",");
      assert parts == [parts[0]] + parts[1..];
    }
  }

  datatype Written = Written(clause: Clause, style: Style)

  ghost predicate Writable(w: Written) {
    Printable(w.clause.version) && BlankStyle(w.style) && ',' !in w.clause.version.pre
  }

  function TextOf(w: Written): string { ClauseText(w.clause, w.style) }

  function Texts(ws: seq<Written>): seq<string> { seq(|ws|, i requires 0 <= i < |ws| => TextOf(ws[i])) }

  function Clauses(ws: seq<Written>): seq<Clause> { seq(|ws|, i requires 0 <= i < |ws| => ws[i].clause) }

  lemma NoCommaInVersion(v: Version, short: bool)
    requires ',' !in v.pre
    ensures ',' !in VersionText(v, short)
  {
    CoreIsPlain(v);
    DecimalRoundTrip(v.major);
    DecimalRoundTrip(v.minor);
    hide Decimal, Core;
    assert ',' !in Core(v) && ',' !in Decimal(v.major) && ',' !in Decimal(v.minor);
  }

  lemma NoCommaInBlanks(s: string)
    requires Blank(s)
    ensures ',' !in s
  {
  }

  lemma NoCommaInSum(a: string, b: string)
    requires ',' !in a && ',' !in b
    ensures ',' !in a + b
  {
  }

  lemma NoCommaInSign(c: Clause, style: Style)
    requires ',' !in style.inside
    ensures ',' !in SignText(c, style)
  {
    NoCommaInSum(Sign(c.operator), style.inside);
  }

  lemma NoCommaInside(w: Written)
    requires Writable(w)
    ensures ',' !in TextOf(w)
  {
    var c, style := w.clause, w.style;
    NoCommaInVersion(c.version, style.short);
    NoCommaInBlanks(style.before);
    NoCommaInBlanks(style.inside);
    NoCommaInBlanks(style.after);
    NoCommaInSign(c, style);
    hide VersionText, Writable, SignText, BlankStyle;
    NoCommaInSum(SignText(c, style), VersionText(c.version, style.short));
    NoCommaInSum(style.before, SignText(c, style) + VersionText(c.version, style.short));
    NoCommaInSum(style.before + (SignText(c, style) + VersionText(c.version, style.short)), style.after);
  }

  lemma WritableParses(w: Written)
    requires Writable(w)
    ensures ParseClause(TextOf(w)) == Some(w.clause)
  {
    ClauseRoundTrip(w.clause, w.style);
  }

  lemma {:induction false} TextsParse(ws: seq<Written>)
    requires forall w :: w in ws ==> Writable(w)
    ensures ParseClauses(Texts(ws)) == Some(Clauses(ws))
  {
    hide ParseClause, ClauseText, Writable;
    if |ws| > 0 {
      var n := |ws| - 1;
      TextsParse(ws[..n]);
      assert Texts(ws)[..n] == Texts(ws[..n]);
      WritableParses(ws[n]);
      assert Clauses(ws) == Clauses(ws[..n]) + [ws[n].clause];
    }
  }

  /** Reading requires-python: any list of clauses, however each is written, is
      given back in order. */
  lemma ClausesRoundTrip(ws: seq<Written>)
    requires |ws| > 0 && forall w :: w in ws ==> Writable(w)
    ensures var raw := Joined(Texts(ws), ",");
            Trim(raw) != "" && ParseClauses(Split(Trim(raw), ',')) == Some(Clauses(ws))
  {
    hide ParseClauses, TextOf, Writable, Split, Trim;
    forall p | p in Texts(ws) ensures ',' !in p {
      var i :| 0 <= i < |ws| && p == TextOf(ws[i]);
      NoCommaInside(ws[i]);
    }
    TextsParse(ws);
    SplitJoined(Texts(ws));
    TrimmingFirstIsIdle(Joined(Texts(ws), ","));
    NothingIsNoClause();
  }

  lemma EmptyIsNoClause()
    ensures Trim("") == "" && Dots("") == 0 && ParseVersion("") == None && ParseClause("") == None
  {
    assert Dots("") == 0 && ParseVersion("") == None;
    hide Dots, ParseVersion, Trim;
  }

  lemma NothingIsNoClause()
    ensures ParseClauses(Split("", ',')) == None
  {
    EmptyIsNoClause();
    hide ParseClause;
    assert Split("", ',') == [""];
    assert [""][..0] == [];
  }
}
