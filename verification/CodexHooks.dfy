/** Merging Baron's lifecycle hooks into a user's hook file and taking them out
    again (internal/install/install.go). */
module CodexHooks {
  import opened Text
  import opened JsonValues

  const EVENTS: seq<string> := [
    "SessionStart", "UserPromptSubmit", "PreToolUse", "PostToolUse", "PreCompact", "PostCompact", "Stop", "SessionEnd"]

  /** codexHookTimeoutSeconds. */
  const TIMEOUT := Number("3")

  // ----------------------------------------------------------------- recognition

  /** isBaronCodexHookForEvent. */
  predicate IsBaronFor(command: string, event: string) {
    var suffix := " hook codex " + event;
    && HasSuffix(command, suffix)
    && var executable := TrimSet(Trim(command[..|command| - |suffix|]), {'"', '\''});
       ToLower(PathBase(ReplaceChar(executable, '\\', '/'))) in {"baron", "baron.exe"}
  }

  /** isBaronCodexHook. */
  predicate IsBaron(command: string, binary: string) {
    var c, b := Trim(command), Trim(binary);
    || (b != "" && HasPrefix(c, b + " hook codex "))
    || exists i :: 0 <= i < |EVENTS| && IsBaronFor(c, EVENTS[i])
  }

  function CommandFor(binary: string, event: string): string { binary + " hook codex " + event }

  lemma OwnCommandIsRecognised(binary: string, event: string)
    requires binary != "" && NoEdgeSpace(binary) && event in EVENTS
    ensures IsBaron(CommandFor(binary, event), binary)
  {
    var c := CommandFor(binary, event);
    assert NoEdgeSpace(c) by {
      assert event != "" && c[|c| - 1] == event[|event| - 1];
      assert !IsSpace(event[|event| - 1]);
    }
    assert c[..|binary + " hook codex "|] == binary + " hook codex ";
  }

  /** A binary's name, as it stands in a command: any directory, any quotes. */
  ghost predicate NamesBinary(quote: string, dir: string, name: string) {
    && quote in {"", "'", "\""}
    && name != "" && NoEdgeSpace(name) && (forall c :: c in name ==> c !in {'/', '\\', '"', '\''})
    && (dir != "" ==> dir[|dir| - 1] in {'/', '\\'} && !IsSpace(dir[0]) && dir[0] !in {'"', '\''})
  }

  /** A hook command is Baron's exactly when the binary it runs is called baron or
      baron.exe, in any case, whatever its directory and quotes. */
  lemma RecognisedByName(quote: string, dir: string, name: string, event: string)
    requires NamesBinary(quote, dir, name)
    ensures IsBaronFor(CommandFor(quote + (dir + name) + quote, event), event)
            == (ToLower(name) == "baron" || ToLower(name) == "baron.exe")
  {
    hide Trim, TrimSet, ToLower, PathBase, ReplaceChar, IsBaronFor, CommandFor;
    CommandShape(quote + (dir + name) + quote, event);
    Unquoted(quote, dir, name);
    Slashed(dir, name);
  }

  lemma CommandShape(quoted: string, event: string)
    ensures IsBaronFor(CommandFor(quoted, event), event)
            == (ToLower(PathBase(ReplaceChar(TrimSet(Trim(quoted), {'"', '\''}), '\\', '/')))
                in {"baron", "baron.exe"})
  {
    hide Trim, TrimSet, ToLower, PathBase, ReplaceChar;
    var command, suffix := CommandFor(quoted, event), " hook codex " + event;
    assert command == quoted + suffix;
    assert HasSuffix(command, suffix) && command[..|command| - |suffix|] == quoted;
  }

  lemma Unquoted(quote: string, dir: string, name: string)
    requires NamesBinary(quote, dir, name)
    ensures TrimSet(Trim(quote + (dir + name) + quote), {'"', '\''}) == dir + name
  {
    var path, s := dir + name, quote + (dir + name) + quote;
    hide TrimLeft, TrimRight, Trim;
    assert path[|path| - 1] == name[|name| - 1] && name[|name| - 1] in name && name[0] in name;
    assert path[0] == if dir == "" then name[0] else dir[0];
    assert NoEdgeSpace(path);
    if quote == "" {
      assert s == path;
    } else {
      assert s[0] == quote[0] && s[|s| - 1] == quote[0] && NoEdgeSpace(s);
      QuotesOff(quote[0], path);
      assert s == [quote[0]] + path + [quote[0]];
    }
  }

  lemma QuotesOff(quote: char, path: string)
    requires path != "" && path[0] !in {'"', '\''} && path[|path| - 1] !in {'"', '\''} && quote in {'"', '\''}
    ensures TrimSet([quote] + path + [quote], {'"', '\''}) == path
  {
    var s := [quote] + path + [quote];
    assert s[1..] == path + [quote];
    assert (path + [quote])[..|path|] == path && (path + [quote])[0] == path[0];
    assert TrimSet(path, {'"', '\''}) == path;
    assert TrimSet(path + [quote], {'"', '\''}) == path;
  }

  lemma Slashed(dir: string, name: string)
    requires name != "" && '/' !in name && '\\' !in name && (dir != "" ==> dir[|dir| - 1] in {'/', '\\'})
    ensures PathBase(ReplaceChar(dir + name, '\\', '/')) == name
  {
    ReplaceInSum(dir, name);
    ReplaceNothing(name);
    ReplaceLast(dir);
    BaseOf(ReplaceChar(dir, '\\', '/'), name);
  }

  lemma {:induction false} ReplaceInSum(a: string, b: string)
    ensures ReplaceChar(a + b, '\\', '/') == ReplaceChar(a, '\\', '/') + ReplaceChar(b, '\\', '/')
  {
    if a == "" {
      assert a + b == b;
    } else {
      assert (a + b)[1..] == a[1..] + b;
      ReplaceInSum(a[1..], b);
    }
  }

  lemma {:induction false} ReplaceNothing(s: string)
    requires '\\' !in s
    ensures ReplaceChar(s, '\\', '/') == s
  {
    if s != "" { ReplaceNothing(s[1..]); }
  }

  lemma {:induction false} ReplaceLast(s: string)
    ensures |ReplaceChar(s, '\\', '/')| == |s|
    ensures s != "" && s[|s| - 1] in {'/', '\\'} ==> ReplaceChar(s, '\\', '/')[|s| - 1] == '/'
  {
    if s != "" { ReplaceLast(s[1..]); }
  }

  /** The other way to be Baron's: to begin as the configured binary's commands do. */
  lemma IsBaronExactly(command: string, binary: string)
    requires NoEdgeSpace(command) && NoEdgeSpace(binary)
    ensures IsBaron(command, binary)
            == (|| (binary != "" && CommandFor(binary, "") <= command)
                || exists e :: e in EVENTS && IsBaronFor(command, e))
  {
    hide EVENTS, IsBaronFor, Trim;
    if IsBaron(command, binary) && !HasPrefix(command, binary + " hook codex ") {
      var i :| 0 <= i < |EVENTS| && IsBaronFor(command, EVENTS[i]);
      assert EVENTS[i] in EVENTS;
    }
    if e :| e in EVENTS && IsBaronFor(command, e) {
      var i :| 0 <= i < |EVENTS| && EVENTS[i] == e;
    }
  }

  lemma EventsAreLong(i: nat)
    requires i < |EVENTS|
    ensures |EVENTS[i]| >= 4
  {
  }

  lemma TrimDropsLeadingBlank(s: string)
    requires s != "" && IsSpace(s[0])
    ensures Trim(s) == Trim(s[1..])
  {
  }

  /** A binary configured as a blank hides Baron's own command from it. */
  lemma BlankBinaryIsNotRecognised()
    ensures !IsBaron(CommandFor(" ", "Stop"), " ")
  {
    TrimDropsLeadingBlank(" ");
    BlankCommandTrimmed();
    hide EVENTS, Trim, CommandFor, IsBaronFor;
    var c := Trim(CommandFor(" ", "Stop"));
    forall i | 0 <= i < |EVENTS| ensures !IsBaronFor(c, EVENTS[i]) {
      EventsAreLong(i);
      ShortIsNotBaron(c, EVENTS[i]);
    }
  }

  lemma BlankCommandTrimmed()
    ensures |Trim(CommandFor(" ", "Stop"))| == 15
  {
    var c := CommandFor(" ", "Stop");
    assert |c| == 17 && c[0] == ' ' && c[1] == ' ' && c[2] == 'h' && c[16] == 'p';
    hide Trim, CommandFor;
    TwoBlanksDropped(c);
  }

  lemma TwoBlanksDropped(s: string)
    requires |s| > 2 && IsSpace(s[0]) && IsSpace(s[1]) && NoEdgeSpace(s[2..])
    ensures Trim(s) == s[2..]
  {
    TrimDropsLeadingBlank(s);
    TrimDropsLeadingBlank(s[1..]);
    assert s[1..][1..] == s[2..];
    hide TrimLeft, TrimRight;
  }

  lemma ShortIsNotBaron(command: string, event: string)
    requires |command| < |event| + 12
    ensures !IsBaronFor(command, event)
  {
    hide ToLower, PathBase, ReplaceChar, Trim;
  }

  predicate BaronItem(v: Json, binary: string) {
    v.Obj? && "command" in v.fields && v.fields["command"].Str? && IsBaron(v.fields["command"].text, binary)
  }

  /** The nested list of a hook group. */
  function Nested(v: Json): Option<seq<Json>> {
    if v.Obj? && "hooks" in v.fields && v.fields["hooks"].Arr? then Some(v.fields["hooks"].items) else None
  }

  function WithNested(v: Json, items: seq<Json>): Json
    requires v.Obj?
  {
    Obj(v.fields["hooks" := Arr(items)])
  }

  /** delete(entry, "hooks"). */
  function WithoutNested(v: Json): Json
    requires v.Obj?
  {
    Obj(v.fields - {"hooks"})
  }

  /** baronHookGroupHasNoUserFields. */
  predicate NoUserFields(v: Json)
    requires v.Obj?
  {
    forall k :: k in v.fields ==> k == "statusMessage" || k == "timeout"
  }

  function Timed(v: Json): Json
    requires v.Obj?
  {
    Obj(v.fields["timeout" := TIMEOUT])
  }

  function OwnGroup(command: string): Json {
    Obj(map["hooks" := Arr([Obj(map[
      "type" := Str("command"), "command" := Str(command), "timeout" := TIMEOUT,
      "statusMessage" := Str("Baron project continuity")])])])
  }

  // ----------------------------------------------------------------- one event

  datatype Pass = Pass(items: seq<Json>, found: bool, changed: bool)

  /** What becomes of one entry: kept (perhaps edited) or dropped. */
  datatype Turn = Turn(kept: Option<Json>, found: bool, changed: bool)

  function Append(items: seq<Json>, kept: Option<Json>): seq<Json> { if kept.Some? then items + [kept.value]
      else items }

  function NestedTurn(v: Json, binary: string, command: string, found: bool): Turn {
    if !BaronItem(v, binary) then Turn(Some(v), found, false)
    else if v.fields["command"].text == command && !found then Turn(Some(Timed(v)), true, false)
    else Turn(None, found, true)
  }

  function NestedPass(items: seq<Json>, binary: string, command: string, found: bool): Pass {
    if |items| == 0 then Pass([], found, false)
    else
      var before := NestedPass(items[..|items| - 1], binary, command, found);
      var turn := NestedTurn(items[|items| - 1], binary, command, before.found);
      Pass(Append(before.items, turn.kept), turn.found, before.changed || turn.changed)
  }

  function TopTurn(v: Json, binary: string, command: string, found: bool): Turn {
    if !v.Obj? then Turn(Some(v), found, false)
    else if BaronItem(v, binary) then
      if v.fields["command"].text == command && !found then Turn(Some(Timed(v)), true, false)
          else Turn(None, found, true)
    else if Nested(v).None? then Turn(Some(v), found, false)
    else
      var pass := NestedPass(Nested(v).value, binary, command, found);
      if pass.changed && pass.items == [] then
        Turn(if NoUserFields(WithoutNested(v)) then None else Some(WithoutNested(v)), pass.found, true)
      else Turn(Some(WithNested(v, pass.items)), pass.found, pass.changed)
  }

  function TopPass(items: seq<Json>, binary: string, command: string, found: bool): Pass {
    if |items| == 0 then Pass([], found, false)
    else
      var before := TopPass(items[..|items| - 1], binary, command, found);
      var turn := TopTurn(items[|items| - 1], binary, command, before.found);
      Pass(Append(before.items, turn.kept), turn.found, before.changed || turn.changed)
  }

  /** canonicalizeCodexHookItems. */
  function Canonical(items: seq<Json>, binary: string, command: string): Pass {
    var pass := TopPass(items, binary, command, false);
    if pass.found then pass else Pass(pass.items + [OwnGroup(command)], false, true)
  }

  /** removeBaronHookEntry on one nested list. */
  function StripNested(items: seq<Json>, binary: string): (r: seq<Json>)
    ensures |r| <= |items| && (|r| == |items| ==> r == items)
  {
    if |items| == 0 then []
    else
      var last := items[|items| - 1];
      assert items == items[..|items| - 1] + [last];
      var before := StripNested(items[..|items| - 1], binary);
      if BaronItem(last, binary) then before else before + [last]
  }

  /** removeBaronHookEntry: what is left of an entry. */
  function StripEntry(v: Json, binary: string): Option<Json> {
    if !v.Obj? then Some(v)
    else if BaronItem(v, binary) then None
    else if Nested(v).None? then Some(v)
    else
      var left := StripNested(Nested(v).value, binary);
      if left == Nested(v).value then Some(v)
      else if left != [] then Some(WithNested(v, left))
      else if NoUserFields(WithoutNested(v)) then None
      else Some(WithoutNested(v))
  }

  /** Removal drops an entry exactly when it is Baron's own, or a group of Baron's
      commands only that says nothing but a status message and a timeout. */
  lemma DroppedExactly(v: Json, binary: string)
    ensures StripEntry(v, binary).None? == (BaronItem(v, binary) || OnlyBaron(v, binary))
  {
    assert BaronItem(v, binary) ==> v.Obj?;
    hide BaronItem, StripNested;
    if Nested(v).Some? {
      StrippedToNothing(Nested(v).value, binary);
      SaysNothingElse(v);
    }
    hide NoUserFields, WithoutNested;
  }

  ghost predicate OnlyBaron(v: Json, binary: string) {
    && Nested(v).Some? && Nested(v).value != []
    && (forall i :: 0 <= i < |Nested(v).value| ==> BaronItem(Nested(v).value[i], binary))
    && v.fields.Keys <= {"hooks", "statusMessage", "timeout"}
  }

  lemma SaysNothingElse(v: Json)
    requires v.Obj?
    ensures NoUserFields(WithoutNested(v)) <==> v.fields.Keys <= {"hooks", "statusMessage", "timeout"}
  {
    assert forall k :: k in WithoutNested(v).fields <==> k in v.fields && k != "hooks";
  }

  lemma {:induction false} StrippedToNothing(items: seq<Json>, binary: string)
    ensures StripNested(items, binary) == [] <==> forall i :: 0 <= i < |items| ==> BaronItem(items[i], binary)
  {
    hide BaronItem;
    if |items| > 0 {
      var n := |items| - 1;
      StrippedToNothing(items[..n], binary);
      assert forall i :: 0 <= i < n ==> items[..n][i] == items[i];
    }
  }

  /** What Baron adds to an event that does not run it yet: one group, one command. */
  lemma AddsOneCommand(items: seq<Json>, binary: string, command: string)
    requires !TopPass(items, binary, command, false).found
    ensures var after := Canonical(items, binary, command).items;
            && |after| > 0 && Nested(after[|after| - 1]).Some? && |Nested(after[|after| - 1]).value| == 1
            && after[|after| - 1].fields.Keys == {"hooks"}
            && Nested(after[|after| - 1]).value[0]
               == Obj(map["command" := Str(command), "statusMessage" := Str("Baron project continuity"),
                          "timeout" := Number("3"), "type" := Str("command")])
  {
    hide TopPass;
  }

  /** RemoveCodexHooks on the list of one event. */
  function Stripped(items: seq<Json>, binary: string): seq<Json> {
    if |items| == 0 then []
    else Append(Stripped(items[..|items| - 1], binary), StripEntry(items[|items| - 1], binary))
  }

  // ---------------------------------------------------------------- idempotence

  lemma Snoc(items: seq<Json>, x: Json)
    ensures (items + [x])[..|items + [x]| - 1] == items && (items + [x])[|items + [x]| - 1] == x
  {
  }

  lemma TimedIsStable(v: Json, binary: string)
    requires v.Obj?
    ensures Timed(Timed(v)) == Timed(v) && BaronItem(Timed(v), binary) == BaronItem(v, binary)
    ensures BaronItem(v, binary) ==> Timed(v).fields["command"] == v.fields["command"]
  {
  }

  lemma {:induction false} NestedAgain(items: seq<Json>, binary: string, command: string, found: bool)
    ensures var once := NestedPass(items, binary, command, found);
            NestedPass(once.items, binary, command, found) == Pass(once.items, once.found, false)
  {
    if |items| > 0 {
      NestedAgain(items[..|items| - 1], binary, command, found);
      var before := NestedPass(items[..|items| - 1], binary, command, found);
      var last := items[|items| - 1];
      var turn := NestedTurn(last, binary, command, before.found);
      if turn.kept.Some? {
        Snoc(before.items, turn.kept.value);
        if BaronItem(last, binary) { TimedIsStable(last, binary); }
      }
    }
  }

  lemma NestedEdits(v: Json, items: seq<Json>, binary: string)
    requires v.Obj? && Nested(v).Some? && !BaronItem(v, binary)
    ensures Nested(WithNested(v, items)) == Some(items) && !BaronItem(WithNested(v, items), binary)
    ensures forall other :: WithNested(WithNested(v, items), other) == WithNested(v, other)
    ensures Nested(WithoutNested(v)) == None && !BaronItem(WithoutNested(v), binary)
    ensures WithoutNested(WithNested(v, items)) == WithoutNested(v)
    ensures WithNested(v, Nested(v).value) == v
  {
    forall other ensures WithNested(WithNested(v, items), other) == WithNested(v, other) {
      assert v.fields["hooks" := Arr(items)]["hooks" := Arr(other)] == v.fields["hooks" := Arr(other)];
    }
    assert v.fields["hooks" := Arr(items)] - {"hooks"} == v.fields - {"hooks"};
    assert v.fields["hooks" := Arr(Nested(v).value)] == v.fields;
  }

  lemma TopTurnAgain(v: Json, binary: string, command: string, found: bool)
    ensures var turn := TopTurn(v, binary, command, found);
            turn.kept.Some? ==> TopTurn(turn.kept.value, binary, command, found) == Turn(turn.kept, turn.found, false)
    ensures TopTurn(v, binary, command, found).kept.None? ==> TopTurn(v, binary, command, found).found == found
  {
    if v.Obj? {
      if BaronItem(v, binary) {
        TimedIsStable(v, binary);
      } else if Nested(v).Some? {
        NestedAgain(Nested(v).value, binary, command, found);
        var pass := NestedPass(Nested(v).value, binary, command, found);
        NestedEdits(v, pass.items, binary);
        if pass.items == [] { EmptyPassFindsNothing(Nested(v).value, binary, command, found); }
      }
    }
  }

  /** A pass that keeps nothing has not met the command. */
  lemma {:induction false} EmptyPassFindsNothing(items: seq<Json>, binary: string, command: string, found: bool)
    requires NestedPass(items, binary, command, found).items == []
    ensures NestedPass(items, binary, command, found).found == found
  {
    if |items| > 0 { EmptyPassFindsNothing(items[..|items| - 1], binary, command, found); }
  }

  lemma {:induction false} TopAgain(items: seq<Json>, binary: string, command: string, found: bool)
    ensures var once := TopPass(items, binary, command, found);
            TopPass(once.items, binary, command, found) == Pass(once.items, once.found, false)
  {
    hide TopTurn;
    if |items| > 0 {
      TopAgain(items[..|items| - 1], binary, command, found);
      var before := TopPass(items[..|items| - 1], binary, command, found);
      var last := items[|items| - 1];
      TopTurnAgain(last, binary, command, before.found);
      var turn := TopTurn(last, binary, command, before.found);
      if turn.kept.Some? { Snoc(before.items, turn.kept.value); }
    }
  }

  lemma OwnGroupTurn(binary: string, command: string, found: bool)
    ensures TopTurn(OwnGroup(command), binary, command, found)
            == if !IsBaron(command, binary) then Turn(Some(OwnGroup(command)), found, false)
               else if found then Turn(None, true, true)
               else Turn(Some(OwnGroup(command)), true, false)
  {
    hide IsBaron, NestedPass, NestedTurn;
    var own := OwnGroup(command);
    var inner := own.fields["hooks"].items[0];
    assert !BaronItem(own, binary) && Nested(own) == Some([inner]);
    assert WithNested(own, [inner]) == own by { assert own.fields["hooks" := Arr([inner])] == own.fields; }
    assert NoUserFields(WithoutNested(own)) by { assert own.fields - {"hooks"} == map[]; }
    OwnCommandPass(inner, binary, command, found);
  }

  lemma OwnCommandPass(inner: Json, binary: string, command: string, found: bool)
    requires inner.Obj? && "command" in inner.fields && inner.fields["command"] == Str(command)
    requires "timeout" in inner.fields && inner.fields["timeout"] == TIMEOUT
    ensures NestedPass([inner], binary, command, found)
            == if !IsBaron(command, binary) then Pass([inner], found, false)
               else if found then Pass([], true, true)
               else Pass([inner], true, false)
  {
    hide IsBaron;
    assert [inner][..0] == [];
    assert inner.fields["timeout" := TIMEOUT] == inner.fields;
    assert Timed(inner) == inner;
    assert NestedPass([], binary, command, found) == Pass([], found, false);
    var turn := NestedTurn(inner, binary, command, found);
    assert NestedPass([inner], binary, command, found) == Pass(Append([], turn.kept), turn.found, turn.changed);
  }

  /** Canonicalising twice is canonicalising once, and the second pass reports no
      change, exactly when the command is recognised as Baron's own. */
  lemma CanonicalIsIdempotentExactly(items: seq<Json>, binary: string, command: string)
    ensures var once := Canonical(items, binary, command);
            (Canonical(once.items, binary, command).items == once.items
                && !Canonical(once.items, binary, command).changed)
            <==> IsBaron(command, binary)
  {
    hide TopTurn, IsBaron, OwnGroup;
    var pass := TopPass(items, binary, command, false);
    TopAgain(items, binary, command, false);
    if !pass.found {
      Snoc(pass.items, OwnGroup(command));
      OwnGroupTurn(binary, command, false);
    } else {
      FoundIsRecognised(items, binary, command, false);
    }
  }

  lemma {:induction false} FoundIsRecognised(items: seq<Json>, binary: string, command: string, found: bool)
    ensures TopPass(items, binary, command, found).found ==> found || IsBaron(command, binary)
  {
    if |items| > 0 {
      var before := TopPass(items[..|items| - 1], binary, command, found);
      FoundIsRecognised(items[..|items| - 1], binary, command, found);
      var last := items[|items| - 1];
      if last.Obj? && Nested(last).Some? { NestedFoundIsRecognised(Nested(last).value, binary, command, before.found); }
    }
  }

  lemma {:induction false} NestedFoundIsRecognised(items: seq<Json>, binary: string, command: string, found: bool)
    ensures NestedPass(items, binary, command, found).found ==> found || IsBaron(command, binary)
  {
    if |items| > 0 { NestedFoundIsRecognised(items[..|items| - 1], binary, command, found); }
  }

  // ------------------------------------------------------------ exactly one

  /** A Baron command as the host would run it. */
  datatype Run = Run(command: string, timeout: Option<Json>)

  function Own(v: Json, binary: string): seq<Run> {
    if !BaronItem(v, binary) then []
    else [Run(v.fields["command"].text, if "timeout" in v.fields then Some(v.fields["timeout"]) else None)]
  }

  function NestedRuns(items: seq<Json>, binary: string): seq<Run> {
    if |items| == 0 then []
    else NestedRuns(items[..|items| - 1], binary) + Own(items[|items| - 1], binary)
  }

  function RunsOf(v: Json, binary: string): seq<Run> {
    Own(v, binary) + if Nested(v).Some? then NestedRuns(Nested(v).value, binary) else []
  }

  /** Every Baron command in a list of entries, at both levels. */
  function Runs(items: seq<Json>, binary: string): seq<Run> {
    if |items| == 0 then []
    else Runs(items[..|items| - 1], binary) + RunsOf(items[|items| - 1], binary)
  }

  ghost predicate Is(v: Json, binary: string, command: string) { BaronItem(v, binary)
      && v.fields["command"].text == command }

  /** The entry has the command where the merge looks for it. */
  ghost predicate Holds(v: Json, binary: string, command: string) {
    if BaronItem(v, binary) then Is(v, binary, command)
    else Nested(v).Some? && exists n :: n in Nested(v).value && Is(n, binary, command)
  }

  /** The entry is the command itself and has further Baron commands below. */
  ghost predicate Doubles(v: Json, binary: string, command: string) {
    Is(v, binary, command) && Nested(v).Some? && NestedRuns(Nested(v).value, binary) != []
  }

  /** The first entry that holds the command does not double it. */
  ghost predicate Plain(items: seq<Json>, binary: string, command: string) {
    forall k :: 0 <= k < |items| && Doubles(items[k], binary, command) ==> Held(items[..k], binary, command)
  }

  ghost predicate Held(items: seq<Json>, binary: string, command: string) {
    exists j :: 0 <= j < |items| && Holds(items[j], binary, command)
  }

  function Once(command: string, met: bool): seq<Run> { if met then [Run(command, Some(TIMEOUT))] else [] }

  lemma {:induction false} NestedKeepsOne(items: seq<Json>, binary: string, command: string, found: bool)
    ensures var pass := NestedPass(items, binary, command, found);
            && (pass.found <==> found || exists n :: n in items && Is(n, binary, command))
            && NestedRuns(pass.items, binary) == Once(command, !found && pass.found)
  {
    hide IsBaron;
    if |items| > 0 {
      var shorter, last := items[..|items| - 1], items[|items| - 1];
      assert items == shorter + [last];
      assert last in items;
      NestedKeepsOne(shorter, binary, command, found);
      var before := NestedPass(shorter, binary, command, found);
      var turn := NestedTurn(last, binary, command, before.found);
      if turn.kept.Some? {
        Snoc(before.items, turn.kept.value);
        if BaronItem(last, binary) { TimedIsStable(last, binary); }
      }
    }
  }

  /** What one entry adds: the command if it is met here first, and whatever
      Baron commands lie below it when it doubles. */
  lemma TurnKeepsOne(v: Json, binary: string, command: string, found: bool)
    ensures var turn := TopTurn(v, binary, command, found);
            && (turn.found <==> found || Holds(v, binary, command))
            && (if turn.kept.Some? then RunsOf(turn.kept.value, binary) else [])
               == Once(command, !found && turn.found)
                  + (if !found && Doubles(v, binary, command) then NestedRuns(Nested(v).value, binary) else [])
  {
    hide IsBaron, NestedPass, NestedRuns;
    if v.Obj? {
      if BaronItem(v, binary) {
        TimedIsStable(v, binary);
        assert Nested(Timed(v)) == Nested(v);
      } else if Nested(v).Some? {
        NestedKeepsOne(Nested(v).value, binary, command, found);
        var pass := NestedPass(Nested(v).value, binary, command, found);
        NestedEdits(v, pass.items, binary);
        if pass.items == [] { EmptyPassFindsNothing(Nested(v).value, binary, command, found); }
      }
    }
  }

  lemma OneMoreHeld(items: seq<Json>, binary: string, command: string)
    requires |items| > 0
    ensures var n := |items| - 1;
            Held(items, binary, command) <==> Held(items[..n], binary, command) || Holds(items[n], binary, command)
  {
    hide Holds;
    var n := |items| - 1;
    assert forall j :: 0 <= j < n ==> items[..n][j] == items[j];
  }

  lemma OneMorePlain(items: seq<Json>, binary: string, command: string)
    requires |items| > 0
    ensures var n := |items| - 1;
            Plain(items, binary, command)
            <==> Plain(items[..n], binary, command)
                 && (Doubles(items[n], binary, command) ==> Held(items[..n], binary, command))
  {
    hide Held, Doubles;
    var n := |items| - 1;
    assert forall k :: 0 <= k < n ==> items[..n][k] == items[k] && items[..n][..k] == items[..k];
  }

  lemma UnheldIsPlain(items: seq<Json>, binary: string, command: string)
    ensures !Held(items, binary, command) ==> Plain(items, binary, command)
    ensures items == [] ==> !Held(items, binary, command)
  {
    DoublingHolds(items, binary, command);
    hide Holds, Doubles;
    assert forall k :: 0 <= k < |items| ==> items[k] in items;
  }

  lemma {:induction false} TopKeepsOne(items: seq<Json>, binary: string, command: string)
    ensures var pass := TopPass(items, binary, command, false);
            && (pass.found <==> Held(items, binary, command))
            && (if Plain(items, binary, command) then Runs(pass.items, binary) == Once(command, pass.found)
                else |Runs(pass.items, binary)| > 1)
  {
    hide IsBaron, TopTurn, RunsOf, Holds, Doubles, Plain, Held;
    if |items| == 0 {
      UnheldIsPlain(items, binary, command);
      return;
    }
    var n := |items| - 1;
    TopKeepsOne(items[..n], binary, command);
    var before := TopPass(items[..n], binary, command, false);
    TurnKeepsOne(items[n], binary, command, before.found);
    DoublingHolds(items, binary, command);
    OneMoreHeld(items, binary, command);
    OneMorePlain(items, binary, command);
    UnheldIsPlain(items[..n], binary, command);
    var turn := TopTurn(items[n], binary, command, before.found);
    if turn.kept.Some? { Snoc(before.items, turn.kept.value); }
  }

  lemma DoublingHolds(items: seq<Json>, binary: string, command: string)
    ensures forall v :: v in items && Doubles(v, binary, command) ==>
              Holds(v, binary, command) && NestedRuns(Nested(v).value, binary) != []
  {
  }

  /** After the merge the event runs Baron exactly once, with its own command and
      timeout, exactly when the command is recognised as Baron's and the first
      entry that has it has no further Baron commands below. */
  lemma CanonicalRunsBaronOnceExactly(items: seq<Json>, binary: string, command: string)
    ensures Runs(Canonical(items, binary, command).items, binary) == [Run(command, Some(TIMEOUT))]
            <==> IsBaron(command, binary) && Plain(items, binary, command)
  {
    hide IsBaron, Plain, Held;
    TopKeepsOne(items, binary, command);
    var pass := TopPass(items, binary, command, false);
    if pass.found {
      FoundIsRecognised(items, binary, command, false);
    } else {
      UnheldIsPlain(items, binary, command);
      var own := OwnGroup(command);
      Snoc(pass.items, own);
      var inner := own.fields["hooks"].items[0];
      assert Nested(own) == Some([inner]) && [inner][..0] == [];
      assert NestedRuns([inner], binary) == NestedRuns([], binary) + Own(inner, binary);
    }
  }

  // ------------------------------------------------------------- merge, then remove

  /** One turn keeps what is not Baron's as it is and drops nothing else. */
  lemma NestedTurnShape(v: Json, binary: string, command: string, found: bool)
    ensures var turn := NestedTurn(v, binary, command, found);
            && (turn.changed <==> turn.kept.None?) && (turn.changed ==> BaronItem(v, binary))
            && (turn.kept.Some? ==> BaronItem(turn.kept.value, binary) == BaronItem(v, binary))
            && (turn.kept.Some? && !BaronItem(v, binary) ==> turn.kept.value == v)
  {
  }

  lemma StripNestedSnoc(items: seq<Json>, v: Json, binary: string)
    ensures StripNested(items + [v], binary) == if BaronItem(v, binary) then StripNested(items, binary)
              else StripNested(items, binary) + [v]
  {
  }

  lemma {:induction false} StripNestedPass(items: seq<Json>, binary: string, command: string, found: bool)
    ensures var pass := NestedPass(items, binary, command, found);
            && StripNested(pass.items, binary) == StripNested(items, binary)
            && (pass.changed ==> StripNested(items, binary) != items)
            && (StripNested(items, binary) == items ==> pass.items == items)
            && (!pass.changed ==> |pass.items| == |items|)
  {
    hide BaronItem, NestedTurn, StripNested;
    if |items| > 0 {
      var shorter, last := items[..|items| - 1], items[|items| - 1];
      assert items == shorter + [last];
      StripNestedPass(shorter, binary, command, found);
      var before := NestedPass(shorter, binary, command, found);
      var turn := NestedTurn(last, binary, command, before.found);
      NestedTurnShape(last, binary, command, before.found);
      StripNestedSnoc(shorter, last, binary);
      if turn.kept.Some? { StripNestedSnoc(before.items, turn.kept.value, binary); }
    }
  }

  lemma StripTurn(v: Json, binary: string, command: string, found: bool)
    ensures var turn := TopTurn(v, binary, command, found);
            (if turn.kept.Some? then StripEntry(turn.kept.value, binary) else None) == StripEntry(v, binary)
  {
    hide IsBaron, NestedPass, StripNested;
    if v.Obj? {
      if BaronItem(v, binary) {
        TimedIsStable(v, binary);
      } else if Nested(v).Some? {
        var pass := NestedPass(Nested(v).value, binary, command, found);
        StripNestedPass(Nested(v).value, binary, command, found);
        NestedEdits(v, pass.items, binary);
        NestedEdits(v, StripNested(pass.items, binary), binary);
        StripNestedNothing(binary);
      }
    }
  }

  lemma StripNestedNothing(binary: string)
    ensures StripNested([], binary) == []
  {
  }

  lemma {:induction false} StripPass(items: seq<Json>, binary: string, command: string, found: bool)
    ensures Stripped(TopPass(items, binary, command, found).items, binary) == Stripped(items, binary)
  {
    hide TopTurn, StripEntry;
    if |items| > 0 {
      StripPass(items[..|items| - 1], binary, command, found);
      var before := TopPass(items[..|items| - 1], binary, command, found);
      StripTurn(items[|items| - 1], binary, command, before.found);
      var turn := TopTurn(items[|items| - 1], binary, command, before.found);
      if turn.kept.Some? { Snoc(before.items, turn.kept.value); }
    }
  }

  /** The merge keeps everything that is not Baron's, in order: removal gives the
      same list after it as before it. */
  lemma MergeKeepsTheRest(items: seq<Json>, binary: string, command: string)
    requires IsBaron(command, binary)
    ensures Stripped(Canonical(items, binary, command).items, binary) == Stripped(items, binary)
  {
    hide IsBaron, TopPass, Stripped;
    StripPass(items, binary, command, false);
    var pass := TopPass(items, binary, command, false);
    if !pass.found { StripOwn(pass.items, binary, command); }
  }

  lemma StripOwn(items: seq<Json>, binary: string, command: string)
    requires IsBaron(command, binary)
    ensures Stripped(items + [OwnGroup(command)], binary) == Stripped(items, binary)
  {
    hide IsBaron;
    var own := OwnGroup(command);
    Snoc(items, own);
    var inner := own.fields["hooks"].items[0];
    assert BaronItem(inner, binary) && Nested(own) == Some([inner]) && [inner][..0] == [];
    assert StripNested([inner], binary) == StripNested([], binary) == [];
    assert own.fields - {"hooks"} == map[];
    assert StripEntry(own, binary) == None;
  }

  lemma NestedRunsSnoc(items: seq<Json>, v: Json, binary: string)
    ensures NestedRuns(items + [v], binary) == NestedRuns(items, binary) + Own(v, binary)
    ensures Own(v, binary) == [] <==> !BaronItem(v, binary)
  {
  }

  lemma {:induction false} NestedFreeExactly(items: seq<Json>, binary: string)
    ensures StripNested(items, binary) == items <==> NestedRuns(items, binary) == []
  {
    hide BaronItem, Own, StripNested, NestedRuns;
    if |items| == 0 {
      NothingNested(binary);
    } else {
      var shorter, last := items[..|items| - 1], items[|items| - 1];
      assert items == shorter + [last];
      NestedFreeExactly(shorter, binary);
      StripNestedSnoc(shorter, last, binary);
      NestedRunsSnoc(shorter, last, binary);
    }
  }

  lemma NothingNested(binary: string)
    ensures StripNested([], binary) == [] && NestedRuns([], binary) == []
  {
  }

  lemma {:induction false} StrippedIsShorter(items: seq<Json>, binary: string)
    ensures |Stripped(items, binary)| <= |items|
  {
    if |items| > 0 { StrippedIsShorter(items[..|items| - 1], binary); }
  }

  /** Removal leaves a list alone exactly when no Baron command is in it. */
  lemma {:induction false} RemovalIsIdentityExactly(items: seq<Json>, binary: string)
    ensures Stripped(items, binary) == items <==> Runs(items, binary) == []
  {
    hide IsBaron, StripNested, NestedRuns;
    if |items| > 0 {
      var shorter, last := items[..|items| - 1], items[|items| - 1];
      assert items == shorter + [last];
      RemovalIsIdentityExactly(shorter, binary);
      StrippedIsShorter(shorter, binary);
      if Nested(last).Some? {
        NestedFreeExactly(Nested(last).value, binary);
        if last.Obj? && !BaronItem(last, binary) { NestedEdits(last, StripNested(Nested(last).value, binary), binary); }
      }
      assert StripEntry(last, binary) == Some(last) <==> RunsOf(last, binary) == [];
      if StripEntry(last, binary).Some? { Snoc(Stripped(shorter, binary), StripEntry(last, binary).value); }
    }
  }

  // ------------------------------------------------------------------- the loops

  /** The inner loop of canonicalizeCodexHookItems. */
  method CanonicalizeNested(nested: seq<Json>, binary: string, command: string, seen: bool)
    returns (filtered: seq<Json>, found: bool, changed: bool)
    ensures Pass(filtered, found, changed) == NestedPass(nested, binary, command, seen)
  {
    hide IsBaron;
    filtered, found, changed := [], seen, false;
    for n := 0 to |nested|
      invariant Pass(filtered, found, changed) == NestedPass(nested[..n], binary, command, seen)
    {
      assert nested[..n + 1][..n] == nested[..n];
      var v := nested[n];
      if !v.Obj? || !("command" in v.fields && v.fields["command"].Str?) || !IsBaron(v.fields["command"].text, binary) {
        filtered := filtered + [v];
      } else if v.fields["command"].text == command && !found {
        filtered := filtered + [Timed(v)];
        found := true;
      } else {
        changed := true;
      }
    }
    assert nested[..|nested|] == nested;
  }

  method CanonicalizeItems(items: seq<Json>, binary: string, command: string) returns (result: seq<Json>, changed: bool)
    ensures result == Canonical(items, binary, command).items && changed == Canonical(items, binary, command).changed
  {
    hide IsBaron, NestedPass;
    var found := false;
    result, changed := [], false;
    for n := 0 to |items|
      invariant Pass(result, found, changed) == TopPass(items[..n], binary, command, false)
    {
      assert items[..n + 1][..n] == items[..n];
      var v := items[n];
      if !v.Obj? {
        result := result + [v];
        continue;
      }
      if BaronItem(v, binary) {
        if v.fields["command"].text == command && !found {
          result, found := result + [Timed(v)], true;
        } else {
          changed := true;
        }
        continue;
      }
      if Nested(v).None? {
        result := result + [v];
        continue;
      }
      var filtered, nowFound, nestedChanged := CanonicalizeNested(Nested(v).value, binary, command, found);
      found := nowFound;
      changed := changed || nestedChanged;
      if nestedChanged && |filtered| == 0 {
        if NoUserFields(WithoutNested(v)) { continue; }
        result := result + [WithoutNested(v)];
      } else {
        result := result + [WithNested(v, filtered)];
      }
    }
    assert items[..|items|] == items;
    if !found {
      result, changed := result + [OwnGroup(command)], true;
    }
  }

  /** removeBaronHookEntry. */
  method RemoveEntry(v: Json, binary: string) returns (kept: Option<Json>, changed: bool)
    ensures kept == StripEntry(v, binary)
    ensures changed <==> kept != Some(v)
  {
    hide IsBaron;
    if !v.Obj? { return Some(v), false; }
    if BaronItem(v, binary) { return None, true; }
    if Nested(v).None? { return Some(v), false; }
    var nested := Nested(v).value;
    var filtered: seq<Json> := [];
    changed := false;
    for n := 0 to |nested|
      invariant filtered == StripNested(nested[..n], binary)
      invariant changed <==> filtered != nested[..n]
    {
      assert nested[..n + 1][..n] == nested[..n];
      assert nested[..n + 1] == nested[..n] + [nested[n]];
      if BaronItem(nested[n], binary) { changed := true; } else { filtered := filtered + [nested[n]]; }
    }
    assert nested[..|nested|] == nested;
    NestedEdits(v, filtered, binary);
    if !changed { return Some(v), false; }
    if |filtered| > 0 { return Some(WithNested(v, filtered)), true; }
    if NoUserFields(WithoutNested(v)) { return None, true; }
    return Some(WithoutNested(v)), true;
  }

  // ---------------------------------------------------------------- whole files

  type Hooks = map<string, Json>

  /** A hook file: absent, or a JSON object. */
  type File = Option<map<string, Json>>

  function HooksOf(root: map<string, Json>): Option<Hooks> {
    if "hooks" in root && root["hooks"].Obj? then Some(root["hooks"].fields) else None
  }

  function ItemsAt(hooks: Hooks, event: string): seq<Json> {
    if event in hooks && hooks[event].Arr? then hooks[event].items else []
  }

  function MergedItems(hooks: Hooks, event: string, binary: string): seq<Json> {
    Canonical(ItemsAt(hooks, event), binary, CommandFor(binary, event)).items
  }

  /** The hooks once every event has been merged. */
  function MergedHooks(hooks: Hooks, binary: string): Hooks {
    map e | e in hooks.Keys + (set x | x in EVENTS) ::
      if e in EVENTS then Arr(MergedItems(hooks, e, binary)) else hooks[e]
  }

  function Merged(root: map<string, Json>, binary: string): map<string, Json> {
    root["hooks" := Obj(MergedHooks(if HooksOf(root).Some? then HooksOf(root).value else map[], binary))]
  }

  lemma EventsDistinct()
    ensures forall i, j :: 0 <= i < j < |EVENTS| ==> EVENTS[i] != EVENTS[j]
  {
  }

  lemma MergedItemsAre(original: Hooks, hooks: Hooks, event: string, binary: string)
    requires (event in hooks <==> event in original) && (event in hooks ==> hooks[event] == original[event])
    ensures Canonical(ItemsAt(hooks, event), binary, CommandFor(binary, event)).items
              == MergedItems(original, event, binary)
  {
    hide Canonical;
  }

  /** MergeCodexHooksWithChange, file reading and writing aside. */
  method MergeRoot(root: map<string, Json>, binary: string) returns (merged: map<string, Json>)
    ensures merged == Merged(root, binary)
  {
    hide Canonical, EVENTS, MergedItems;
    ghost var original := if HooksOf(root).Some? then HooksOf(root).value else map[];
    var hooks := if HooksOf(root).Some? then HooksOf(root).value else map[];
    EventsDistinct();
    for n := 0 to |EVENTS|
      invariant forall e :: e in hooks <==> e in original || e in EVENTS[..n]
      invariant forall e :: e in EVENTS[..n] ==> hooks[e] == Arr(MergedItems(original, e, binary))
      invariant forall e :: e in original && e !in EVENTS[..n] ==> hooks[e] == original[e]
    {
      var event := EVENTS[n];
      assert EVENTS[..n + 1] == EVENTS[..n] + [event];
      assert event !in EVENTS[..n];
      var items := ItemsAt(hooks, event);
      var normalized, changed := CanonicalizeItems(items, binary, CommandFor(binary, event));
      MergedItemsAre(original, hooks, event, binary);
      hooks := hooks[event := Arr(normalized)];
    }
    assert EVENTS[..|EVENTS|] == EVENTS;
    assert hooks == MergedHooks(original, binary);
    return root["hooks" := Obj(hooks)];
  }

  predicate Emptied(v: Json, binary: string) { v.Arr? && Stripped(v.items, binary) == [] }

  function RemovedHooks(hooks: Hooks, binary: string): Hooks {
    map e | e in hooks && !Emptied(hooks[e], binary) ::
      if hooks[e].Arr? then Arr(Stripped(hooks[e].items, binary)) else hooks[e]
  }

  predicate RemovalChanges(hooks: Hooks, binary: string) {
    exists e :: e in hooks && hooks[e].Arr? && Stripped(hooks[e].items, binary) != hooks[e].items
  }

  /** RemoveCodexHooks: an emptied hook table and an emptied file go away. */
  function Removed(file: File, binary: string): File {
    if file.None? || HooksOf(file.value).None? || !RemovalChanges(HooksOf(file.value).value, binary) then file
    else
      var hooks := RemovedHooks(HooksOf(file.value).value, binary);
      var root := if hooks == map[] then file.value - {"hooks"} else file.value["hooks" := Obj(hooks)];
      if root == map[] then None else Some(root)
  }

  /** The loop of RemoveCodexHooks over one event's entries. */
  method RemoveItems(items: seq<Json>, binary: string) returns (filtered: seq<Json>, changed: bool)
    ensures filtered == Stripped(items, binary)
    ensures changed <==> filtered != items
  {
    hide IsBaron, StripEntry;
    filtered, changed := [], false;
    for n := 0 to |items|
      invariant filtered == Stripped(items[..n], binary)
      invariant |filtered| <= n && (changed <==> filtered != items[..n])
    {
      assert items[..n + 1][..n] == items[..n];
      assert items[..n + 1] == items[..n] + [items[n]];
      var kept, edited := RemoveEntry(items[n], binary);
      changed := changed || edited;
      if kept.Some? { filtered := filtered + [kept.value]; }
    }
    assert items[..|items|] == items;
  }

  lemma EmptiedIs(v: Json, binary: string)
    ensures Emptied(v, binary) <==> v.Arr? && Stripped(v.items, binary) == []
  {
  }

  method RemoveRoot(file: File, binary: string) returns (result: File)
    ensures result == Removed(file, binary)
  {
    hide IsBaron, Stripped, Emptied;
    if file.None? || HooksOf(file.value).None? { return file; }
    var original := HooksOf(file.value).value;
    var hooks, changed := original, false;
    var rest := original.Keys;
    while rest != {}
      invariant rest <= original.Keys
      invariant forall e :: e in rest ==> e in hooks && hooks[e] == original[e]
      invariant forall e :: e in original && e !in rest ==>
                  if Emptied(original[e], binary) then e !in hooks
                  else e in hooks && hooks[e] == if original[e].Arr? then Arr(Stripped(original[e].items, binary))
                      else original[e]
      invariant hooks.Keys <= original.Keys
      invariant changed <==> exists e :: e in original && e !in rest && original[e].Arr?
                                         && Stripped(original[e].items, binary) != original[e].items
      decreases rest
    {
      var event :| event in rest;
      rest := rest - {event};
      EmptiedIs(original[event], binary);
      if hooks[event].Arr? {
        var filtered, edited := RemoveItems(hooks[event].items, binary);
        changed := changed || edited;
        hooks := if |filtered| == 0 then hooks - {event} else hooks[event := Arr(filtered)];
      }
    }
    if !changed { return file; }
    assert hooks == RemovedHooks(original, binary);
    var root := if |hooks| == 0 then file.value - {"hooks"} else file.value["hooks" := Obj(hooks)];
    return if |root| == 0 then None else Some(root);
  }

  function Contents(file: File): map<string, Json> { if file.Some? then file.value else map[] }

  ghost predicate BaronFree(file: File, binary: string) {
    HooksOf(Contents(file)).Some? ==>
      forall e :: e in HooksOf(Contents(file)).value ==> Runs(ItemsAt(HooksOf(Contents(file)).value, e), binary) == []
  }

  /** What removal can tell apart from what the merge put there. */
  ghost predicate Restorable(file: File) {
    match file
    case None => true
    case Some(root) =>
      if "hooks" !in root then root != map[]
      else
        && root["hooks"].Obj? && root["hooks"].fields != map[]
        && forall e :: e in root["hooks"].fields ==>
             if e in EVENTS then root["hooks"].fields[e].Arr? && root["hooks"].fields[e].items != []
             else root["hooks"].fields[e] != Arr([])
  }

  /** The hooks after merging and removing again. */
  lemma HooksRoundTrip(hooks: Hooks, binary: string)
    requires forall e :: e in EVENTS ==> IsBaron(CommandFor(binary, e), binary)
    requires forall e :: e in hooks ==> Runs(ItemsAt(hooks, e), binary) == []
    ensures RemovalChanges(MergedHooks(hooks, binary), binary)
    ensures RemovedHooks(MergedHooks(hooks, binary), binary)
            == map e | e in hooks && (if e in EVENTS then ItemsAt(hooks, e) != [] else hooks[e] != Arr([])) :: hooks[e]
  {
    hide IsBaron, Canonical, Runs, Stripped, EVENTS;
    var merged := MergedHooks(hooks, binary);
    forall e | e in EVENTS
      ensures Stripped(MergedItems(hooks, e, binary), binary) == ItemsAt(hooks, e)
      ensures e in merged && merged[e] == Arr(MergedItems(hooks, e, binary))
    {
      MergeKeepsTheRest(ItemsAt(hooks, e), binary, CommandFor(binary, e));
      if e !in hooks { NothingToFind(binary); }
      RemovalIsIdentityExactly(ItemsAt(hooks, e), binary);
    }
    forall e | e in hooks && hooks[e].Arr? ensures Stripped(hooks[e].items, binary) == hooks[e].items {
      RemovalIsIdentityExactly(hooks[e].items, binary);
    }
    SomeEvent();
    if "Stop" !in hooks { NothingToFind(binary); }
    MergeLeavesACommand(ItemsAt(hooks, "Stop"), binary, CommandFor(binary, "Stop"));
    assert merged["Stop"].Arr?;
  }

  lemma NothingToFind(binary: string)
    ensures Runs([], binary) == []
  {
  }

  lemma SomeEvent()
    ensures "Stop" in EVENTS
  {
  }

  lemma MergeLeavesACommand(items: seq<Json>, binary: string, command: string)
    requires IsBaron(command, binary) && Runs(items, binary) == []
    ensures Stripped(Canonical(items, binary, command).items, binary) != Canonical(items, binary, command).items
  {
    hide IsBaron, Runs;
    RemovalIsIdentityExactly(items, binary);
    FreeIsPlain(items, binary, command);
    CanonicalRunsBaronOnceExactly(items, binary, command);
    RemovalIsIdentityExactly(Canonical(items, binary, command).items, binary);
  }

  lemma {:induction false} FreeIsPlain(items: seq<Json>, binary: string, command: string)
    requires Runs(items, binary) == []
    ensures Plain(items, binary, command)
  {
    if |items| > 0 {
      var n := |items| - 1;
      FreeIsPlain(items[..n], binary, command);
      OneMorePlain(items, binary, command);
      assert RunsOf(items[n], binary) == [];
      hide Plain, Held, Runs, IsBaron;
    }
  }

  /** Removing right after merging gives back a file without Baron commands
      exactly when removal can tell its own leftovers from the user's: no empty
      file, hook table or event list, and no event Baron uses holding something
      that is not a list. */
  lemma RemoveAfterMergeExactly(file: File, binary: string)
    requires forall e :: e in EVENTS ==> IsBaron(CommandFor(binary, e), binary)
    requires BaronFree(file, binary)
    ensures Removed(Some(Merged(Contents(file), binary)), binary) == file <==> Restorable(file)
  {
    hide IsBaron, Runs, MergedHooks, RemovedHooks, RemovalChanges, EVENTS;
    var root := Contents(file);
    var hooks := if HooksOf(root).Some? then HooksOf(root).value else map[];
    HooksRoundTrip(hooks, binary);
    var left := RemovedHooks(MergedHooks(hooks, binary), binary);
    var merged := Merged(root, binary);
    assert HooksOf(merged) == Some(MergedHooks(hooks, binary));
    assert merged - {"hooks"} == root - {"hooks"};
    assert merged["hooks" := Obj(left)] == root["hooks" := Obj(left)];
    if HooksOf(root).Some? {
      assert left == hooks <==>
          forall e :: e in hooks ==> if e in EVENTS then ItemsAt(hooks, e) != [] else hooks[e] != Arr([]) by {
        if left == hooks { assert forall e :: e in hooks ==> e in left; }
      }
      assert root["hooks" := Obj(hooks)] == root;
    } else {
      assert left == map[];
      if "hooks" !in root { assert root - {"hooks"} == root; }
    }
  }
}
