/** Strings as the Go standard library treats them: trimming, searching,
    byte-wise ordering and sorting.  Shared by the other modules. */
module Text {

  datatype Option<+T> = None | Some(value: T)

  // ---------------------------------------------------------------- ordering

  /** The order of Go's string comparison. */
  predicate Less(a: string, b: string) {
    if |b| == 0 then false
    else if |a| == 0 then true
    else a[0] < b[0] || (a[0] == b[0] && Less(a[1..], b[1..]))
  }

  lemma LessIsStrictTotal(a: string, b: string)
    ensures !(Less(a, b) && Less(b, a))
    ensures a != b ==> Less(a, b) || Less(b, a)
    ensures !Less(a, a)
  {
  }

  lemma LessTransitive(a: string, b: string, c: string)
    requires Less(a, b) && Less(b, c)
    ensures Less(a, c)
  {
  }

  predicate AtMost(a: string, b: string) { a == b || Less(a, b) }

  lemma AtMostTransitive(a: string, b: string, c: string)
    requires AtMost(a, b) && AtMost(b, c)
    ensures AtMost(a, c)
  {
    if a != b && b != c { LessTransitive(a, b, c); }
  }

  ghost predicate Sorted(s: seq<string>) {
    forall i, j :: 0 <= i < j < |s| ==> AtMost(s[i], s[j])
  }

  function InsertSorted(x: string, s: seq<string>): (r: seq<string>)
    requires Sorted(s)
    ensures Sorted(r) && multiset(r) == multiset(s) + multiset{x}
  {
    if |s| == 0 then [x]
    else if AtMost(x, s[0]) then
      PrependSorts(x, s);
      [x] + s
    else
      LessIsStrictTotal(x, s[0]);
      InsertBehindHead(x, s, InsertSorted(x, s[1..]));
      [s[0]] + InsertSorted(x, s[1..])
  }

  lemma PrependSorts(x: string, s: seq<string>)
    requires Sorted(s) && (|s| > 0 ==> AtMost(x, s[0]))
    ensures Sorted([x] + s) && multiset([x] + s) == multiset(s) + multiset{x}
  {
    hide AtMost;
    forall j | 0 < j < |s| ensures AtMost(x, s[j]) { AtMostTransitive(x, s[0], s[j]); }
  }

  lemma InsertBehindHead(x: string, s: seq<string>, rest: seq<string>)
    requires |s| > 0 && Sorted(s) && AtMost(s[0], x)
    requires Sorted(rest) && multiset(rest) == multiset(s[1..]) + multiset{x}
    ensures Sorted([s[0]] + rest) && multiset([s[0]] + rest) == multiset(s) + multiset{x}
  {
    hide AtMost;
    if |rest| > 0 {
      assert rest[0] in multiset(rest);
      assert rest[0] == x || rest[0] in s[1..];
    }
    PrependSorts(s[0], rest);
    assert s == [s[0]] + s[1..];
  }

  /** sort.Strings. */
  function SortStrings(s: seq<string>): (r: seq<string>)
    ensures Sorted(r) && multiset(r) == multiset(s)
  {
    if |s| == 0 then []
    else
      assert s == [s[0]] + s[1..];
      InsertSorted(s[0], SortStrings(s[1..]))
  }

  lemma SortedHeadIsLeast(s: seq<string>, x: string)
    requires Sorted(s) && x in s
    ensures AtMost(s[0], x)
  {
  }

  lemma SameHead(a: seq<string>, b: seq<string>)
    requires Sorted(a) && Sorted(b) && multiset(a) == multiset(b) && |a| > 0
    ensures |b| > 0 && a[0] == b[0]
  {
    assert a[0] in multiset(b);
    assert b[0] in multiset(a);
    SortedHeadIsLeast(a, b[0]);
    SortedHeadIsLeast(b, a[0]);
    LessIsStrictTotal(a[0], b[0]);
  }

  lemma TailMultiset<T>(s: seq<T>)
    requires |s| > 0
    ensures multiset(s[1..]) == multiset(s) - multiset{s[0]}
  {
    assert s == [s[0]] + s[1..];
  }

  /** A multiset of strings has one sorted arrangement. */
  lemma {:induction false} SortedUnique(a: seq<string>, b: seq<string>)
    requires Sorted(a) && Sorted(b) && multiset(a) == multiset(b)
    ensures a == b
  {
    if |a| == 0 {
      assert |multiset(b)| == 0;
    } else {
      SameHead(a, b);
      TailMultiset(a);
      TailMultiset(b);
      SortedUnique(a[1..], b[1..]);
      assert a == [a[0]] + a[1..];
    }
  }

  /** Sorting forgets the original order. */
  lemma SortForgetsOrder(a: seq<string>, b: seq<string>)
    requires multiset(a) == multiset(b)
    ensures SortStrings(a) == SortStrings(b)
  {
    SortedUnique(SortStrings(a), SortStrings(b));
  }

  lemma LeastKey(keys: set<string>)
    requires keys != {}
    ensures exists k :: k in keys && forall j :: j in keys ==> AtMost(k, j)
  {
    var least := LeastOf(keys);
  }

  lemma {:induction false} LeastOf(keys: set<string>) returns (least: string)
    requires keys != {}
    ensures least in keys && forall j :: j in keys ==> AtMost(least, j)
  {
    hide Less;
    var k :| k in keys;
    var rest := keys - {k};
    least := k;
    if rest != {} {
      least := LeastOf(rest);
      LessIsStrictTotal(k, least);
      if AtMost(k, least) {
        forall j | j in rest ensures AtMost(k, j) { AtMostTransitive(k, least, j); }
        least := k;
      }
    }
    assert forall j :: j in keys ==> j == k || j in rest;
  }

  lemma LeastKeyUnique(keys: set<string>)
    ensures forall a, b :: a in keys && b in keys && AtMost(a, b) && AtMost(b, a) ==> a == b
  {
    forall a, b | AtMost(a, b) && AtMost(b, a) ensures a == b { LessIsStrictTotal(a, b); }
  }

  /** The keys in ascending order. */
  function SortedKeys(keys: set<string>): (r: seq<string>)
    ensures forall k :: k in r <==> k in keys
    ensures |r| == |keys| && Sorted(r)
    ensures forall i, j :: 0 <= i < j < |r| ==> r[i] != r[j]
  {
    if keys == {} then []
    else
      LeastKey(keys);
      LeastKeyUnique(keys);
      var k :| k in keys && forall j :: j in keys ==> AtMost(k, j);
      var rest := SortedKeys(keys - {k});
      PrependLeast(k, keys - {k}, rest);
      [k] + rest
  }

  lemma PrependLeast(k: string, keys: set<string>, rest: seq<string>)
    requires k !in keys && forall j :: j in keys ==> AtMost(k, j)
    requires forall j :: j in rest <==> j in keys
    requires Sorted(rest) && forall i, j :: 0 <= i < j < |rest| ==> rest[i] != rest[j]
    ensures Sorted([k] + rest) && forall i, j :: 0 <= i < j < |[k] + rest| ==> ([k] + rest)[i] != ([k] + rest)[j]
  {
  }

  // --------------------------------------------------------------- searching

  /** strings.Contains at a known place. */
  predicate OccursAt(s: string, sub: string, i: nat) {
    i + |sub| <= |s| && s[i..i + |sub|] == sub
  }

  /** strings.Contains. */
  predicate Contains(s: string, sub: string) {
    exists i :: 0 <= i <= |s| && OccursAt(s, sub, i)
  }

  lemma ContainsInContext(before: string, sub: string, after: string)
    ensures Contains(before + sub + after, sub)
  {
    var s := before + sub + after;
    assert s[|before|..|before| + |sub|] == sub;
    assert OccursAt(s, sub, |before|);
  }

  /** strings.Join. */
  function Joined(parts: seq<string>, separator: string): string {
    if |parts| == 0 then ""
    else if |parts| == 1 then parts[0]
    else parts[0] + separator + Joined(parts[1..], separator)
  }

  // ------------------------------------------------------------------ characters

  /** strings.HasPrefix. */
  predicate HasPrefix(s: string, prefix: string) { |prefix| <= |s| && s[..|prefix|] == prefix }

  /** strings.HasSuffix. */
  predicate HasSuffix(s: string, suffix: string) { |suffix| <= |s| && s[|s| - |suffix|..] == suffix }

  function Lower(c: char): char { if 'A' <= c <= 'Z' then (c as int + 32) as char else c }

  /** strings.ToLower on ASCII text. */
  function ToLower(s: string): (r: string)
    ensures |r| == |s| && forall i :: 0 <= i < |s| ==> r[i] == Lower(s[i])
  {
    if |s| == 0 then "" else [Lower(s[0])] + ToLower(s[1..])
  }

  // -------------------------------------------------------------------- trimming

  /** ASCII white space. */
  predicate IsSpace(c: char) { c == ' ' || '\t' <= c <= '\r' }

  function TrimLeft(s: string): (r: string)
    ensures |r| <= |s| && r == s[|s| - |r|..]
    ensures r != "" ==> !IsSpace(r[0])
  {
    if s != "" && IsSpace(s[0]) then TrimLeft(s[1..]) else s
  }

  function TrimRight(s: string): (r: string)
    ensures |r| <= |s| && r == s[..|r|]
    ensures r != "" ==> !IsSpace(r[|r| - 1])
  {
    if s != "" && IsSpace(s[|s| - 1]) then TrimRight(s[..|s| - 1]) else s
  }

  predicate NoEdgeSpace(s: string) { s == "" || (!IsSpace(s[0]) && !IsSpace(s[|s| - 1])) }

  /** strings.TrimSpace. */
  function Trim(s: string): (r: string)
    ensures NoEdgeSpace(r) && |r| <= |s|
    ensures NoEdgeSpace(s) ==> r == s
  {
    TrimRight(TrimLeft(s))
  }

  ghost predicate Blank(s: string) { forall i :: 0 <= i < |s| ==> IsSpace(s[i]) }

  /** Exactly the blanks trim to nothing. */
  lemma {:induction false} BlankIsTrimmed(s: string)
    ensures Trim(s) == "" <==> Blank(s)
  {
    BlankOnTheLeft(s);
    var left := TrimLeft(s);
    if left != "" { BlankOnTheRight(left); }
  }

  lemma {:induction false} BlankOnTheLeft(s: string)
    ensures TrimLeft(s) == "" <==> Blank(s)
  {
    if s != "" {
      LeftStep(s);
      BlankOnTheLeft(s[1..]);
      hide TrimLeft, IsSpace;
      assert s == [s[0]] + s[1..];
      assert Blank(s) <==> IsSpace(s[0]) && Blank(s[1..]);
    }
  }

  lemma {:induction false} BlankOnTheRight(s: string)
    ensures TrimRight(s) == "" <==> Blank(s)
  {
    if s != "" {
      RightStep(s);
      BlankOnTheRight(s[..|s| - 1]);
      hide TrimRight, IsSpace;
      assert s == s[..|s| - 1] + [s[|s| - 1]];
      assert Blank(s) <==> IsSpace(s[|s| - 1]) && Blank(s[..|s| - 1]);
    }
  }

  lemma TrimTwice(s: string)
    ensures Trim(Trim(s)) == Trim(s)
  {
  }

  lemma {:induction false} TrimRightAfter(a: string, x: string)
    requires a != "" && !IsSpace(a[|a| - 1])
    ensures TrimRight(a + x) == a + TrimRight(x)
    decreases |x|
  {
    if x == "" {
      assert a + x == a;
    } else if IsSpace(x[|x| - 1]) {
      assert (a + x)[..|a + x| - 1] == a + x[..|x| - 1];
      TrimRightAfter(a, x[..|x| - 1]);
    }
  }

  lemma TrimOfRight(x: string)
    ensures Trim(TrimRight(x)) == Trim(x)
  {
    LeftRightCommute(x);
  }

  lemma {:induction false} LeftRightCommute(x: string)
    ensures TrimRight(TrimLeft(TrimRight(x))) == TrimRight(TrimLeft(x))
    decreases |x|
  {
    if x != "" && IsSpace(x[|x| - 1]) {
      var y := x[..|x| - 1];
      LeftRightCommute(y);
      LeftOfInit(x);
    } else if x != "" {
      assert TrimRight(x) == x;
    }
  }

  lemma {:induction false} LeftOfInit(x: string)
    requires x != "" && IsSpace(x[|x| - 1])
    ensures TrimRight(TrimLeft(x)) == TrimRight(TrimLeft(x[..|x| - 1]))
    decreases |x|
  {
    hide TrimLeft, TrimRight, IsSpace;
    var y := x[..|x| - 1];
    if |x| == 1 {
      LeftStep(x);
      assert x[1..] == "" == y;
    } else {
      LeftStep(x);
      LeftStep(y);
      if IsSpace(x[0]) {
        assert x[1..][..|x| - 2] == y[1..];
        LeftOfInit(x[1..]);
      } else {
        RightStep(x);
      }
    }
  }

  lemma LeftStep(s: string)
    requires s != ""
    ensures TrimLeft(s) == if IsSpace(s[0]) then TrimLeft(s[1..]) else s
  {
  }

  lemma RightStep(s: string)
    requires s != ""
    ensures TrimRight(s) == if IsSpace(s[|s| - 1]) then TrimRight(s[..|s| - 1]) else s
  {
  }

  lemma TrimIs(s: string)
    ensures Trim(s) == TrimRight(TrimLeft(s))
  {
  }

  /** strings.Trim with a set of characters. */
  function TrimSet(s: string, chars: set<char>): (r: string)
    ensures |r| <= |s|
    decreases |s|
  {
    if s == "" then ""
    else if s[0] in chars then TrimSet(s[1..], chars)
    else if s[|s| - 1] in chars then TrimSet(s[..|s| - 1], chars)
    else s
  }

  /** strings.ReplaceAll for one character. */
  function ReplaceChar(s: string, from: char, to: char): string {
    if s == "" then "" else [if s[0] == from then to else s[0]] + ReplaceChar(s[1..], from, to)
  }

  function TrimSlashes(s: string): string {
    if s != "" && s[|s| - 1] == '/' then TrimSlashes(s[..|s| - 1]) else s
  }

  function AfterSlash(s: string): string {
    if s == "" || s[|s| - 1] == '/' then "" else AfterSlash(s[..|s| - 1]) + [s[|s| - 1]]
  }

  /** path.Base. */
  function PathBase(s: string): string {
    if s == "" then "."
    else if TrimSlashes(s) == "" then "/"
    else AfterSlash(TrimSlashes(s))
  }

  /** The base of a path is what follows its last slash. */
  lemma BaseOf(dir: string, name: string)
    requires name != "" && '/' !in name && (dir == "" || dir[|dir| - 1] == '/')
    ensures PathBase(dir + name) == name
  {
    var s := dir + name;
    assert s[|s| - 1] == name[|name| - 1];
    AfterLastSlash(dir, name);
  }

  lemma {:induction false} AfterLastSlash(dir: string, name: string)
    requires '/' !in name && (dir == "" || dir[|dir| - 1] == '/')
    ensures AfterSlash(dir + name) == name
    decreases |name|
  {
    if name == "" {
      assert dir + name == dir;
    } else {
      var s, init := dir + name, name[..|name| - 1];
      assert s[..|s| - 1] == dir + init && s[|s| - 1] == name[|name| - 1];
      AfterLastSlash(dir, init);
    }
  }

  // --------------------------------------------------------------------- numbers

  predicate IsDigit(c: char) { '0' <= c <= '9' }

  /** strconv.Itoa for what is not negative. */
  function Decimal(n: nat): string {
    if n < 10 then ["0123456789"[n]] else Decimal(n / 10) + ["0123456789"[n % 10]]
  }

  /** The value of a run of digits. */
  function NumberOf(s: string): nat
    requires forall i :: 0 <= i < |s| ==> IsDigit(s[i])
  {
    if s == "" then 0
    else
      assert IsDigit(s[|s| - 1]);
      10 * NumberOf(s[..|s| - 1]) + (s[|s| - 1] as int - '0' as int)
  }

  lemma DigitOf(d: nat)
    requires d < 10
    ensures IsDigit("0123456789"[d]) && "0123456789"[d] as int - '0' as int == d
  {
  }

  lemma {:induction false} DecimalRoundTrip(n: nat)
    ensures Decimal(n) != "" && forall i :: 0 <= i < |Decimal(n)| ==> IsDigit(Decimal(n)[i])
    ensures NumberOf(Decimal(n)) == n
    ensures |Decimal(n)| > 1 ==> Decimal(n)[0] != '0'
  {
    if n < 10 {
      DigitOf(n);
      assert Decimal(n)[..0] == "";
    } else {
      DecimalRoundTrip(n / 10);
      DigitOf(n % 10);
      var s := Decimal(n);
      assert s[..|s| - 1] == Decimal(n / 10);
      if |Decimal(n / 10)| == 1 {
        assert NumberOf(Decimal(n / 10)) == n / 10 > 0;
        assert Decimal(n / 10)[..0] == "" && NumberOf("") == 0;
      }
    }
  }
}
