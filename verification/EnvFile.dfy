/** Writing and reading .env files (internal/config/config.go). */
module EnvFile {
  import opened Text

  /** The longest line the scanner accepts, and one more. */
  const CAP: nat := 1024 * 1024

  // --------------------------------------------------------------------- quoting

  function HexDigit(n: nat): char
    requires n < 16
  {
    "0123456789abcdef"[n]
  }

  function HexValue(c: char): Option<nat> {
    if '0' <= c <= '9' then Some(c as int - '0' as int)
    else if 'a' <= c <= 'f' then Some(c as int - 'a' as int + 10)
    else if 'A' <= c <= 'F' then Some(c as int - 'A' as int + 10)
    else None
  }

  /** The letter of a one-letter escape. */
  function Letter(c: char): Option<char> {
    match c
    case '\U{7}' => Some('a')
    case '\U{8}' => Some('b')
    case '\U{C}' => Some('f')
    case '\n' => Some('n')
    case '\r' => Some('r')
    case '\t' => Some('t')
    case '\U{B}' => Some('v')
    case '\\' => Some('\\')
    case '"' => Some('"')
    case _ => None
  }

  function Unletter(c: char): Option<char> {
    match c
    case 'a' => Some('\U{7}')
    case 'b' => Some('\U{8}')
    case 'f' => Some('\U{C}')
    case 'n' => Some('\n')
    case 'r' => Some('\r')
    case 't' => Some('\t')
    case 'v' => Some('\U{B}')
    case '\\' => Some('\\')
    case '"' => Some('"')
    case _ => None
  }

  function QuoteChar(c: char): string {
    if Letter(c).Some? then ['\\', Letter(c).value]
    else if c < ' ' || c == '\U{7F}' then ['\\', 'x', HexDigit(c as int / 16), HexDigit(c as int % 16)]
    else [c]
  }

  function QuoteBody(s: string): string { if s == "" then "" else QuoteChar(s[0]) + QuoteBody(s[1..]) }

  /** strconv.Quote; characters beyond ASCII count as printable. */
  function Quote(s: string): string { "\"" + QuoteBody(s) + "\"" }

  /** The inside of a double-quoted literal; None where strconv.Unquote fails. */
  function UnquoteBody(s: string): Option<string>
    decreases |s|
  {
    if s == "" then Some("")
    else if s[0] == '"' || s[0] == '\n' then None
    else if s[0] != '\\' then
      var rest := UnquoteBody(s[1..]);
      if rest.Some? then Some([s[0]] + rest.value) else None
    else if |s| >= 2 && Unletter(s[1]).Some? then
      var rest := UnquoteBody(s[2..]);
      if rest.Some? then Some([Unletter(s[1]).value] + rest.value) else None
    else if |s| >= 4 && s[1] == 'x' && HexValue(s[2]).Some? && HexValue(s[3]).Some? then
      var rest := UnquoteBody(s[4..]);
      if rest.Some? then Some([(16 * HexValue(s[2]).value + HexValue(s[3]).value) as char] + rest.value) else None
    else None
  }

  lemma HexRoundTrip(n: nat)
    requires n < 16
    ensures HexValue(HexDigit(n)) == Some(n)
  {
  }

  lemma LetterRoundTrip(c: char, rest: string)
    requires Letter(c).Some?
    ensures UnquoteBody(['\\', Letter(c).value] + rest)
            == if UnquoteBody(rest).Some? then Some([c] + UnquoteBody(rest).value) else None
    ensures Letter(c).value != '\n'
  {
    var s := ['\\', Letter(c).value] + rest;
    assert s[2..] == rest;
    assert Unletter(Letter(c).value) == Some(c);
  }

  lemma HexEscapeRoundTrip(c: char, rest: string)
    requires c as int < 128
    ensures var q := ['\\', 'x', HexDigit(c as int / 16), HexDigit(c as int % 16)];
            && UnquoteBody(q + rest) == (if UnquoteBody(rest).Some? then Some([c] + UnquoteBody(rest).value) else None)
            && forall i :: 0 <= i < 4 ==> q[i] != '\n'
  {
    var high, low := HexDigit(c as int / 16), HexDigit(c as int % 16);
    HexRoundTrip(c as int / 16);
    HexRoundTrip(c as int % 16);
    hide HexDigit, HexValue, Letter;
    var s := ['\\', 'x', high, low] + rest;
    assert s[4..] == rest && s[2] == high && s[3] == low;
    assert 16 * (c as int / 16) + c as int % 16 == c as int;
  }

  lemma PrintedAsItIs(c: char, rest: string)
    ensures Letter(c).None? && c >= ' ' ==>
              c != '\n' && UnquoteBody([c] + rest)
                           == if UnquoteBody(rest).Some? then Some([c] + UnquoteBody(rest).value) else None
  {
    assert ([c] + rest)[1..] == rest;
  }

  lemma QuoteCharRoundTrip(c: char, rest: string)
    ensures UnquoteBody(QuoteChar(c) + rest)
            == if UnquoteBody(rest).Some? then Some([c] + UnquoteBody(rest).value) else None
    ensures forall i :: 0 <= i < |QuoteChar(c)| ==> QuoteChar(c)[i] != '\n'
  {
    PrintedAsItIs(c, rest);
    hide Letter, UnquoteBody;
    if Letter(c).Some? {
      LetterRoundTrip(c, rest);
    } else if c < ' ' || c == '\U{7F}' {
      HexEscapeRoundTrip(c, rest);
    }
  }

  lemma {:induction false} QuoteBodyRoundTrip(s: string)
    ensures UnquoteBody(QuoteBody(s)) == Some(s)
    ensures '\n' !in QuoteBody(s)
  {
    hide QuoteChar;
    if s != "" {
      QuoteBodyRoundTrip(s[1..]);
      QuoteCharRoundTrip(s[0], QuoteBody(s[1..]));
      assert s == [s[0]] + s[1..];
    }
  }

  // ---------------------------------------------------------------------- values

  /** The printer quotes this value. */
  predicate Quoted(value: string) {
    value == "" || exists i :: 0 <= i < |value| && value[i] in {' ', '\t', '#', '"', '\'', '\\'}
  }

  /** formatEnvValue. */
  function FormatValue(value: string): string { if Quoted(value) then Quote(value) else value }

  predicate Wrapped(s: string, quote: char) { |s| >= 2 && s[0] == quote && s[|s| - 1] == quote }

  /** parseEnvValue. */
  function ParseValue(raw: string): string {
    var value := Trim(raw);
    if Wrapped(value, '"') then
      var decoded := UnquoteBody(value[1..|value| - 1]);
      if decoded.Some? then decoded.value else value[1..|value| - 1]
    else if Wrapped(value, '\'') then value[1..|value| - 1]
    else value
  }

  /** A value survives: it is quoted, or has no line break and no edge blanks. */
  predicate Faithful(value: string) { Quoted(value) || ('\n' !in value && NoEdgeSpace(value)) }

  lemma QuotedParses(value: string)
    ensures ParseValue(Quote(value)) == value && '\n' !in Quote(value) && NoEdgeSpace(Quote(value))
  {
    QuoteBodyRoundTrip(value);
    var q := Quote(value);
    assert q[0] == '"' && q[|q| - 1] == '"';
    assert q[1..|q| - 1] == QuoteBody(value);
    assert Trim(q) == q;
  }

  /** Formatting and parsing one value is the identity exactly when it is quoted
      or has no blanks at its ends. */
  lemma ValueRoundTripExactly(value: string)
    ensures ParseValue(FormatValue(value)) == value <==> Quoted(value) || NoEdgeSpace(value)
  {
    if Quoted(value) {
      QuotedParses(value);
    } else {
      RawParses(value);
    }
  }

  predicate NoQuotes(s: string) { '"' !in s && '\'' !in s }

  lemma RawParses(raw: string)
    requires NoQuotes(raw)
    ensures ParseValue(raw) == Trim(raw)
  {
  }

  lemma TrimIsPart(s: string)
    ensures forall c :: c in Trim(s) ==> c in s
  {
  }

  // ----------------------------------------------------------------------- lines

  predicate KeyStart(c: char) { 'A' <= c <= 'Z' || 'a' <= c <= 'z' || c == '_' }

  /** envKeyPattern. */
  predicate ValidKey(key: string) {
    key != "" && KeyStart(key[0]) && forall i :: 0 <= i < |key| ==> KeyStart(key[i]) || IsDigit(key[i])
  }

  type Env = map<string, string>

  function Record(key: string, value: string): string { key + "=" + FormatValue(value) + "\n" }

  function Render(keys: seq<string>, env: Env): string
    requires forall k :: k in keys ==> k in env
  {
    if |keys| == 0 then ""
    else Render(keys[..|keys| - 1], env) + Record(keys[|keys| - 1], env[keys[|keys| - 1]])
  }

  function Cut(s: string, c: char): (r: nat)
    ensures r <= |s| && (r < |s| ==> s[r] == c) && forall i :: 0 <= i < r ==> s[i] != c
  {
    if s == "" || s[0] == c then 0 else 1 + Cut(s[1..], c)
  }

  /** bufio.ScanLines, whose carriage returns the trimming drops anyway. */
  function Lines(text: string): seq<string> {
    var end := Cut(text, '\n');
    if text == "" then []
    else if end == |text| then [text]
    else [text[..end]] + Lines(text[end + 1..])
  }

  /** One line of ReadEnvFile. */
  function ReadLine(env: Env, line: string): Option<Env> {
    var trimmed := Trim(line);
    var equals := Cut(trimmed, '=');
    if |line| >= CAP then None
    else if trimmed == "" || trimmed[0] == '#' then Some(env)
    else if equals == |trimmed| || !ValidKey(trimmed[..equals]) then None
    else Some(env[trimmed[..equals] := ParseValue(trimmed[equals + 1..])])
  }

  function ReadLines(lines: seq<string>): Option<Env> {
    if |lines| == 0 then Some(map[])
    else
      var before := ReadLines(lines[..|lines| - 1]);
      if before.None? then None else ReadLine(before.value, lines[|lines| - 1])
  }

  /** WriteEnv's text. */
  function Written(env: Env): Option<string> {
    if exists k :: k in env && !ValidKey(k) then None else Some(Render(SortedKeys(env.Keys), env))
  }

  function Read(text: string): Option<Env> { ReadLines(Lines(text)) }

  lemma RecordIs(key: string, value: string, before: string)
    ensures before + key + "=" + FormatValue(value) + "\n" == before + Record(key, value)
  {
    hide FormatValue;
  }

  method WriteEnv(env: Env) returns (text: Option<string>)
    ensures text == Written(env)
  {
    hide FormatValue, ValidKey, Sorted, SortedKeys, Record;
    var keys := SortedKeys(env.Keys);
    var builder := "";
    for n := 0 to |keys|
      invariant builder == Render(keys[..n], env)
      invariant forall i :: 0 <= i < n ==> ValidKey(keys[i])
    {
      if !ValidKey(keys[n]) {
        assert keys[n] in env;
        return None;
      }
      assert keys[..n + 1][..n] == keys[..n];
      builder := builder + keys[n] + "=" + FormatValue(env[keys[n]]) + "\n";
      RecordIs(keys[n], env[keys[n]], Render(keys[..n], env));
    }
    assert keys[..|keys|] == keys;
    assert forall k :: k in env ==> k in keys;
    return Some(builder);
  }

  lemma {:induction false} ReadStops(lines: seq<string>, n: nat)
    requires n <= |lines| && ReadLines(lines[..n]).None?
    ensures ReadLines(lines).None?
    decreases |lines|
  {
    if n < |lines| {
      assert lines[..|lines| - 1][..n] == lines[..n];
      ReadStops(lines[..|lines| - 1], n);
    } else {
      assert lines[..n] == lines;
    }
  }

  method ReadEnvFile(text: string) returns (env: Option<Env>)
    ensures env == Read(text)
  {
    hide ReadLine, Lines;
    var lines := Lines(text);
    var values: Env := map[];
    for n := 0 to |lines|
      invariant ReadLines(lines[..n]) == Some(values)
    {
      assert lines[..n + 1][..n] == lines[..n];
      var next := ReadLine(values, lines[n]);
      if next.None? {
        ReadStops(lines, n + 1);
        return None;
      }
      values := next.value;
    }
    assert lines[..|lines|] == lines;
    return Some(values);
  }

  // ------------------------------------------------------------------ round trip

  lemma {:induction false} CutSkips(a: string, b: string, c: char)
    requires c !in a
    ensures Cut(a + b, c) == |a| + Cut(b, c)
  {
    if a == "" {
      assert a + b == b;
    } else {
      assert (a + b)[1..] == a[1..] + b;
      CutSkips(a[1..], b, c);
    }
  }

  lemma LinesStep(a: string, rest: string)
    requires '\n' !in a
    ensures Lines(a + "\n" + rest) == [a] + Lines(rest)
  {
    var s := a + "\n" + rest;
    assert s == a + ("\n" + rest);
    CutSkips(a, "\n" + rest, '\n');
    assert Cut("\n" + rest, '\n') == 0;
    assert s[..|a|] == a && s[|a| + 1..] == rest;
  }

  /** Lines of a text that goes on after a line break. */
  lemma {:induction false} LinesOfSum(a: string, b: string)
    requires a == "" || a[|a| - 1] == '\n'
    ensures Lines(a + b) == Lines(a) + Lines(b)
    decreases |a|
  {
    hide Lines;
    if a == "" {
      assert a + b == b;
      NoLines();
    } else {
      var end := Cut(a, '\n');
      var line, rest := a[..end], a[end + 1..];
      assert a == line + "\n" + rest;
      assert a + b == line + "\n" + (rest + b);
      LinesStep(line, rest);
      LinesStep(line, rest + b);
      LinesOfSum(rest, b);
      assert [line] + (Lines(rest) + Lines(b)) == ([line] + Lines(rest)) + Lines(b);
    }
  }

  lemma NoLines()
    ensures Lines("") == []
  {
  }

  lemma {:induction false} ReadAppend(a: seq<string>, line: string)
    ensures ReadLines(a + [line]) == if ReadLines(a).None? then None else ReadLine(ReadLines(a).value, line)
  {
  }

  lemma {:induction false} RenderEnds(keys: seq<string>, env: Env)
    requires forall k :: k in keys ==> k in env
    ensures Render(keys, env) == "" || Render(keys, env)[|Render(keys, env)| - 1] == '\n'
  {
  }

  // ------------------------------------------------------------- one record's lines

  lemma KeyFacts(key: string)
    requires ValidKey(key)
    ensures key != "" && '=' !in key && '\n' !in key && NoQuotes(key) && !IsSpace(key[0]) && key[0] != '#'
  {
  }

  /** A key, its sign and the printed value, trimmed. */
  lemma TrimRecord(key: string, printed: string)
    requires key != "" && !IsSpace(key[0])
    ensures Trim(key + "=" + printed) == key + ("=" + TrimRight(printed))
  {
    EqualsIsNoSpace();
    hide TrimLeft, TrimRight, IsSpace, Trim;
    var head := key + "=";
    var line := head + printed;
    assert line[0] == key[0];
    LeftStep(line);
    TrimIs(line);
    TrimRightAfter(head, printed);
    assert head + TrimRight(printed) == key + ("=" + TrimRight(printed));
  }

  lemma EqualsIsNoSpace()
    ensures !IsSpace('=')
  {
  }

  lemma CutRecord(key: string, right: string)
    requires '=' !in key
    ensures Cut(key + ("=" + right), '=') == |key|
    ensures (key + ("=" + right))[..|key|] == key && (key + ("=" + right))[|key| + 1..] == right
  {
    CutSkips(key, "=" + right, '=');
    assert Cut("=" + right, '=') == 0;
  }

  /** Reading the line of a value printed on one line. */
  lemma ReadRecord(env: Env, key: string, printed: string)
    requires ValidKey(key) && |key + "=" + printed| < CAP
    ensures ReadLine(env, key + "=" + printed) == Some(env[key := ParseValue(printed)])
  {
    hide ParseValue, TrimRight, Trim, Cut, ValidKey, IsSpace;
    KeyFacts(key);
    TrimRecord(key, printed);
    var right := TrimRight(printed);
    var trimmed := key + ("=" + right);
    CutRecord(key, right);
    TrimOfRight(printed);
    ParseTrimmed(right, printed);
    assert Trim(key + "=" + printed) == trimmed && trimmed != "" && trimmed[0] == key[0];
  }

  lemma ParseTrimmed(a: string, b: string)
    requires Trim(a) == Trim(b)
    ensures ParseValue(a) == ParseValue(b)
  {
    hide Trim, UnquoteBody;
  }

  /** A line leaves the map alone or sets one key to a part of itself. */
  lemma LineShape(env: Env, line: string) returns (key: string, raw: string)
    requires ReadLine(env, line).Some?
    ensures ReadLine(env, line).value == env || ReadLine(env, line).value == env[key := ParseValue(raw)]
    ensures forall c :: c in raw ==> c in line
  {
    hide ParseValue, ValidKey, Trim;
    var trimmed := Trim(line);
    TrimIsPart(line);
    var equals := Cut(trimmed, '=');
    key, raw := "", "";
    if equals < |trimmed| {
      key, raw := trimmed[..equals], trimmed[equals + 1..];
      assert forall c :: c in raw ==> c in trimmed;
    }
  }

  /** A line without quote characters gives its key a value without blanks at the
      ends and without line breaks. */
  lemma QuoteFreeLine(env: Env, line: string, key: string)
    requires NoQuotes(line) && '\n' !in line && ReadLine(env, line).Some?
    ensures var after := ReadLine(env, line).value;
            || (key in env && key in after && after[key] == env[key])
            || key !in after
            || (NoEdgeSpace(after[key]) && '\n' !in after[key])
  {
    hide ReadLine, ParseValue;
    var k, raw := LineShape(env, line);
    RawParses(raw);
    TrimIsPart(raw);
    hide Trim, NoEdgeSpace;
    assert NoEdgeSpace(Trim(raw));
  }

  /** What no line may do if the value of `key` is to be lost. */
  ghost predicate Loses(env: Env, key: string, value: string) { key !in env || env[key] != value }

  lemma {:induction false} QuoteFreeLines(lines: seq<string>, before: seq<string>, key: string, value: string)
    requires forall l :: l in lines ==> NoQuotes(l) && '\n' !in l
    requires !Faithful(value)
    requires ReadLines(before).Some? ==> Loses(ReadLines(before).value, key, value)
    ensures ReadLines(before + lines).Some? ==> Loses(ReadLines(before + lines).value, key, value)
    decreases |lines|
  {
    hide ReadLine, NoEdgeSpace;
    if |lines| > 0 {
      var n := |lines| - 1;
      assert before + lines == (before + lines[..n]) + [lines[n]];
      QuoteFreeLines(lines[..n], before, key, value);
      ReadAppend(before + lines[..n], lines[n]);
      if ReadLines(before + lines).Some? {
        QuoteFreeLine(ReadLines(before + lines[..n]).value, lines[n], key);
      }
    } else {
      assert before + lines == before;
    }
  }

  lemma {:induction false} LinesArePart(text: string)
    ensures forall l :: l in Lines(text) ==> '\n' !in l && forall c :: c in l ==> c in text
    decreases |text|
  {
    if text != "" {
      var end := Cut(text, '\n');
      if end < |text| {
        LinesArePart(text[end + 1..]);
        assert forall c :: c in text[..end] || c in text[end + 1..] ==> c in text;
      }
    }
  }

  lemma OneLine(a: string)
    requires '\n' !in a
    ensures Lines(a + "\n") == [a]
  {
    LinesStep(a, "");
    NoLines();
    assert a + "\n" + "" == a + "\n";
  }

  predicate Fits(key: string, value: string) { |key + "=" + FormatValue(value)| < CAP }

  lemma FaithfulPrintsOneLine(key: string, value: string)
    requires ValidKey(key) && Faithful(value)
    ensures Lines(Record(key, value)) == [key + "=" + FormatValue(value)]
    ensures ParseValue(FormatValue(value)) == value
  {
    hide ParseValue, Quote, Lines;
    ValueRoundTripExactly(value);
    if Quoted(value) { QuotedParses(value); }
    assert '\n' !in key + "=" + FormatValue(value);
    OneLine(key + "=" + FormatValue(value));
    assert Record(key, value) == (key + "=" + FormatValue(value)) + "\n";
  }

  // ----------------------------------------------------------------- whole files

  ghost predicate ValidKeys(env: Env) { forall k :: k in env ==> ValidKey(k) }

  /** The part of an environment that belongs to some keys. */
  ghost function Part(env: Env, keys: seq<string>): Env { map k | k in env && k in keys :: env[k] }

  lemma PartGrows(env: Env, keys: seq<string>, k: string)
    requires k in env
    ensures Part(env, keys + [k]) == Part(env, keys)[k := env[k]]
  {
  }

  lemma {:induction false} RenderReads(keys: seq<string>, env: Env)
    requires ValidKeys(env) && (forall k :: k in keys ==> k in env)
    requires forall k :: k in keys ==> Faithful(env[k]) && Fits(k, env[k])
    ensures Read(Render(keys, env)) == Some(Part(env, keys))
  {
    hide Lines, ReadLine, FormatValue, ParseValue, Faithful, ValidKey, Part, Record, ReadLines;
    if |keys| == 0 {
      NothingRead(env);
    } else {
      var n := |keys| - 1;
      var k := keys[n];
      RenderReads(keys[..n], env);
      RenderEnds(keys[..n], env);
      LinesOfSum(Render(keys[..n], env), Record(k, env[k]));
      FaithfulPrintsOneLine(k, env[k]);
      ReadAppend(Lines(Render(keys[..n], env)), k + "=" + FormatValue(env[k]));
      ReadRecord(Part(env, keys[..n]), k, FormatValue(env[k]));
      PartGrows(env, keys[..n], k);
      assert keys == keys[..n] + [k];
    }
  }

  lemma NothingRead(env: Env)
    ensures Read("") == Some(map[]) && Part(env, []) == map[]
  {
  }

  // ------------------------------------------------------------- hand-written lines

  const LOWER_HEX: string := "0123456789abcdef"
  const UPPER_HEX: string := "0123456789ABCDEF"

  lemma HexExactly(c: char, n: nat)
    ensures HexValue(c) == Some(n) <==> n < 16 && (c == LOWER_HEX[n] || c == UPPER_HEX[n])
  {
  }

  /** Only what is not printed as it stands is escaped: no control character is
      left in a quoted value. */
  lemma {:induction false} QuotedIsPrintable(s: string)
    ensures forall c :: c in QuoteBody(s) ==> c >= ' ' && c != '\U{7F}'
  {
    if s != "" {
      QuotedIsPrintable(s[1..]);
      PrintableEscape(s[0]);
      hide QuoteChar;
    }
  }

  lemma PrintableEscape(c: char)
    ensures forall d :: d in QuoteChar(c) ==> d >= ' ' && d != '\U{7F}'
  {
  }

  /** A quote or a line break that is not escaped, or an escape that is none, makes
      a literal unreadable. */
  lemma {:induction false} BadLiteral(good: string, bad: string)
    requires bad != ""
    requires bad[0] in {'"', '\n'} || (|bad| >= 2 && bad[0] == '\\' && bad[1] != 'x' && Unletter(bad[1]).None?)
    ensures UnquoteBody(QuoteBody(good) + bad) == None
    decreases |good|
  {
    hide QuoteChar, UnquoteBody, Unletter;
    if good == "" {
      BadStart(bad);
      assert QuoteBody(good) + bad == bad;
    } else {
      BadLiteral(good[1..], bad);
      QuoteCharRoundTrip(good[0], QuoteBody(good[1..]) + bad);
      assert QuoteBody(good) + bad == QuoteChar(good[0]) + (QuoteBody(good[1..]) + bad);
    }
  }

  lemma BadStart(bad: string)
    requires bad != ""
    requires bad[0] in {'"', '\n'} || (|bad| >= 2 && bad[0] == '\\' && bad[1] != 'x' && Unletter(bad[1]).None?)
    ensures UnquoteBody(bad) == None
  {
  }

  /** A value is written as it stands exactly when it is not empty and holds no
      blank, tab, number sign, quote or backslash. */
  lemma PlainExactly(value: string)
    ensures FormatValue(value) == value
            <==> |value| > 0 && forall c :: c in value ==> c !in " \t#\"'\\"
  {
    QuoteIsLonger(value);
    SpecialsListed();
    hide Quote;
    if value != "" && !Quoted(value) {
      forall c | c in value ensures c !in " \t#\"'\\" { assert c !in {' ', '\t', '#', '"', '\'', '\\'}; }
    }
    if Quoted(value) && value != "" {
      var i :| 0 <= i < |value| && value[i] in {' ', '\t', '#', '"', '\'', '\\'};
      assert value[i] in value && value[i] in " \t#\"'\\";
    }
  }

  lemma SpecialsListed()
    ensures forall c :: c in " \t#\"'\\" <==> c in {' ', '\t', '#', '"', '\'', '\\'}
  {
    var special := " \t#\"'\\";
    assert |special| == 6 && special[0] == ' ' && special[1] == '\t' && special[2] == '#' && special[3] == '"'
        && special[4] == '\'' && special[5] == '\\';
  }

  lemma {:induction false} QuoteIsLonger(value: string)
    ensures |QuoteBody(value)| >= |value| && Quote(value) != value
  {
    if value != "" { QuoteIsLonger(value[1..]); }
  }

  lemma WrappedText(quote: char, inner: string)
    requires !IsSpace(quote)
    ensures var s := [quote] + inner + [quote];
            |s| == |inner| + 2 && s[0] == quote && s[|s| - 1] == quote && s[1..|s| - 1] == inner && NoEdgeSpace(s)
  {
  }

  /** Single quotes are taken off and nothing between them is decoded. */
  lemma SingleQuoted(inner: string)
    ensures ParseValue("'" + inner + "'") == inner
  {
    WrappedText('\'', inner);
    hide Trim, UnquoteBody;
  }

  /** Double quotes are taken off; the inside is decoded if it can be. */
  lemma DoubleQuoted(inner: string)
    ensures ParseValue("\"" + inner + "\"")
            == if UnquoteBody(inner).Some? then UnquoteBody(inner).value else inner
  {
    WrappedText('"', inner);
    hide Trim, UnquoteBody;
  }

  /** Anything else is the value, without its edge blanks. */
  lemma Unquoted(raw: string)
    requires Trim(raw) != "" && (Trim(raw)[0] !in {'"', '\''} || |Trim(raw)| == 1
                                 || Trim(raw)[|Trim(raw)| - 1] != Trim(raw)[0])
    ensures ParseValue(raw) == Trim(raw)
  {
  }

  /** The ASCII codes of letters and the underscore. */
  ghost predicate StartCode(n: int) { 65 <= n <= 90 || n == 95 || 97 <= n <= 122 }

  /** Keys are letters, digits and underscores, and do not start with a digit. */
  lemma ValidKeyExactly(key: string)
    ensures ValidKey(key)
            <==> && |key| > 0 && StartCode(key[0] as int)
                 && forall i :: 1 <= i < |key| ==> StartCode(key[i] as int) || 48 <= key[i] as int <= 57
  {
  }

  /** What one line does: too long a line fails; a blank line and a comment are
      passed over; a line without an equals sign, or with another text than a key
      before it, fails; any other sets its key. */
  lemma ReadLineExactly(env: Env, line: string, key: string, raw: string)
    ensures |line| >= 1_048_576 ==> ReadLine(env, line) == None
    ensures |line| < 1_048_576 && (Blank(line) || (Trim(line) != "" && Trim(line)[0] == '#')) ==>
              ReadLine(env, line) == Some(env)
    ensures |line| < 1_048_576 && Trim(line) != "" && Trim(line)[0] != '#' && '=' !in Trim(line) ==>
              ReadLine(env, line) == None
    ensures |line| < 1_048_576 && Trim(line) == key + ("=" + raw) && '=' !in key && (key == "" || key[0] != '#') ==>
              ReadLine(env, line) == if ValidKey(key) then Some(env[key := ParseValue(raw)]) else None
  {
    hide *;
    PassedOver(env, line);
    if |line| < 1_048_576 && Trim(line) != "" && Trim(line)[0] != '#' && '=' !in Trim(line) { NoRecord(env, line); }
    if |line| < 1_048_576 && Trim(line) == key + ("=" + raw) && '=' !in key && (key == "" || key[0] != '#') {
      IsRecord(env, line, key, raw);
    }
  }

  lemma PassedOver(env: Env, line: string)
    ensures |line| >= 1_048_576 ==> ReadLine(env, line) == None
    ensures |line| < 1_048_576 && (Blank(line) || (Trim(line) != "" && Trim(line)[0] == '#')) ==>
              ReadLine(env, line) == Some(env)
  {
    BlankIsTrimmed(line);
    hide Blank, Trim, ParseValue, ValidKey, Cut;
  }

  lemma NoRecord(env: Env, line: string)
    requires Trim(line) != "" && Trim(line)[0] != '#' && '=' !in Trim(line)
    ensures ReadLine(env, line) == None
  {
    CutNothing(Trim(line));
    hide Trim, ParseValue, ValidKey, Cut;
  }

  lemma IsRecord(env: Env, line: string, key: string, raw: string)
    requires |line| < 1_048_576 && Trim(line) == key + ("=" + raw) && '=' !in key && (key == "" || key[0] != '#')
    ensures ReadLine(env, line) == if ValidKey(key) then Some(env[key := ParseValue(raw)]) else None
  {
    hide *;
    StartOf(key, raw);
    CutRecord(key, raw);
    ReadAtCut(env, line, key + ("=" + raw));
  }

  lemma StartOf(key: string, raw: string)
    ensures key + ("=" + raw) != "" && (key + ("=" + raw))[0] == if key == "" then '=' else key[0]
    ensures |key + ("=" + raw)| == |key| + 1 + |raw|
  {
  }

  lemma ReadAtCut(env: Env, line: string, trimmed: string)
    requires |line| < 1_048_576 && Trim(line) == trimmed && trimmed != "" && trimmed[0] != '#'
    requires Cut(trimmed, '=') < |trimmed|
    ensures var k := Cut(trimmed, '=');
            ReadLine(env, line)
            == if ValidKey(trimmed[..k]) then Some(env[trimmed[..k] := ParseValue(trimmed[k + 1..])]) else None
  {
    hide Trim, ParseValue, ValidKey, Cut;
  }

  lemma {:induction false} CutNothing(s: string)
    requires '=' !in s
    ensures Cut(s, '=') == |s|
  {
    if s != "" { CutNothing(s[1..]); }
  }

  // ---------------------------------------------------------------- lost values

  /** The lines of any record keep a value that cannot survive from being read. */
  lemma RecordLoses(before: seq<string>, env: Env, key: string, lost: string)
    requires ValidKeys(env) && key in env && lost in env && !Faithful(env[lost])
    requires ReadLines(before).Some? ==> Loses(ReadLines(before).value, lost, env[lost])
    ensures var after := ReadLines(before + Lines(Record(key, env[key])));
            after.Some? ==> Loses(after.value, lost, env[lost])
  {
    KeyFacts(key);
    hide Lines, ReadLine, ParseValue, ValidKey, IsSpace, ReadLines, Quote;
    var value := env[key];
    var record := Record(key, value);
    if Quoted(value) {
      QuotedParses(value);
      FaithfulPrintsOneLine(key, value);
      var line := key + "=" + FormatValue(value);
      ReadAppend(before, line);
      var read := ReadLines(before);
      if read.Some? && |line| < CAP {
        ReadRecord(read.value, key, FormatValue(value));
      } else if read.Some? {
        LongLine(read.value, line);
      }
    } else {
      assert NoQuotes(record);
      LinesArePart(record);
      QuoteFreeLines(Lines(record), before, lost, env[lost]);
    }
  }

  lemma LongLine(env: Env, line: string)
    requires |line| >= CAP
    ensures ReadLine(env, line).None?
  {
  }

  lemma {:induction false} RenderLoses(keys: seq<string>, env: Env, lost: string)
    requires ValidKeys(env) && (forall k :: k in keys ==> k in env)
    requires lost in env && !Faithful(env[lost])
    ensures Read(Render(keys, env)).Some? ==> Loses(Read(Render(keys, env)).value, lost, env[lost])
  {
    hide Lines, ReadLine, Faithful, Record, ReadLines, ValidKey;
    if |keys| == 0 {
      NothingRead(env);
    } else {
      var n := |keys| - 1;
      RenderLoses(keys[..n], env, lost);
      RenderEnds(keys[..n], env);
      LinesOfSum(Render(keys[..n], env), Record(keys[n], env[keys[n]]));
      RecordLoses(Lines(Render(keys[..n], env)), env, keys[n], lost);
    }
  }

  lemma {:induction false} LongRecordFails(keys: seq<string>, env: Env, n: nat)
    requires ValidKeys(env) && (forall k :: k in keys ==> k in env) && n < |keys|
    requires Faithful(env[keys[n]]) && !Fits(keys[n], env[keys[n]])
    ensures Read(Render(keys, env)).None?
  {
    hide Lines, ReadLine, FormatValue, Faithful, Record, ReadLines, ValidKey;
    var last := |keys| - 1;
    var k := keys[last];
    RenderEnds(keys[..last], env);
    LinesOfSum(Render(keys[..last], env), Record(k, env[k]));
    var before := Lines(Render(keys[..last], env));
    if n == last {
      FaithfulPrintsOneLine(k, env[k]);
      ReadAppend(before, k + "=" + FormatValue(env[k]));
      if ReadLines(before).Some? { LongLine(ReadLines(before).value, k + "=" + FormatValue(env[k])); }
    } else {
      LongRecordFails(keys[..last], env, n);
      assert (before + Lines(Record(k, env[k])))[..|before|] == before;
      ReadStops(before + Lines(Record(k, env[k])), |before|);
    }
  }

  /** A map is written and read back the same exactly when every key is valid,
      every value is quoted by the printer or free of line breaks and edge blanks,
      and every line stays below the scanner's limit. */
  lemma RoundTripExactly(env: Env)
    ensures Written(env).Some? <==> ValidKeys(env)
    ensures Written(env).Some? && Read(Written(env).value) == Some(env)
            <==> forall k :: k in env ==> ValidKey(k) && Faithful(env[k]) && Fits(k, env[k])
  {
    hide Faithful, Fits, Read, Render, ValidKey;
    if !ValidKeys(env) { return; }
    var keys := SortedKeys(env.Keys);
    if forall k :: k in env ==> Faithful(env[k]) && Fits(k, env[k]) {
      RenderReads(keys, env);
      assert Part(env, keys) == env;
    } else if k :| k in env && !Faithful(env[k]) {
      RenderLoses(keys, env, k);
    } else {
      var k :| k in env && !Fits(k, env[k]);
      var n :| 0 <= n < |keys| && keys[n] == k;
      LongRecordFails(keys, env, n);
    }
  }
}
