/** What is finally stored of a hook payload: compacted, filled in, marshalled
    (normalizeLifecyclePayload in internal/hooks/hooks.go). */
module StoredPayloads {
  import opened Text
  import opened JsonValues
  import opened Compaction

  const FLAG := "baron_payload_truncated"

  // ---------------------------------------------------------------------- filling

  function Filled(p: map<string, Json>, key: string, source: Option<Json>): map<string, Json> {
    if key in p || source.None? then p else p[key := source.value]
  }

  function Worded(p: map<string, Json>, key: string): Option<Json> {
    if key in p && p[key].Str? && Trim(p[key].text) != "" then Some(p[key]) else None
  }

  function InputCommand(p: map<string, Json>): Option<Json> {
    if "tool_input" in p && p["tool_input"].Obj? then Worded(p["tool_input"].fields, "command") else None
  }

  function Summary(p: map<string, Json>, final: bool): Option<Json> {
    if !final then Worded(p, "tool_output")
    else if Worded(p, "last_assistant_message").Some? then Worded(p, "last_assistant_message")
    else Worded(p, "response")
  }

  function Failure(p: map<string, Json>): Option<Json> {
    if "status" in p && p["status"] == Str("failed") then Worded(p, "tool_output") else None
  }

  /** The canonical names a compacted payload is given after the compaction;
      `final`: the event is the assistant's final answer. */
  function FillIn(p: map<string, Json>, final: bool): map<string, Json> {
    var a := Filled(p, "command", InputCommand(p));
    var b := Filled(a, "tool_output", if "tool_response" in a then Some(a["tool_response"]) else None);
    var c := Filled(b, "response", Worded(b, "last_assistant_message"));
    var d := Filled(c, "summary", Summary(c, final));
    Filled(d, "error", Failure(d))
  }

  const GIVEN: set<string> := {"command", "tool_output", "response", "summary", "error"}

  lemma FillInAdds(p: map<string, Json>, final: bool)
    ensures Extends(p, FillIn(p, final)) && FillIn(p, final).Keys <= p.Keys + GIVEN
  {
    hide Worded, InputCommand, Summary, Failure;
  }

  /** A payload that has all these names gets nothing more. */
  lemma FullyNamed(p: map<string, Json>, final: bool)
    requires GIVEN <= p.Keys
    ensures FillIn(p, final) == p
  {
    hide Worded, InputCommand, Summary, Failure;
  }

  /** What is marshalled: compacted, filled in, and flagged if anything was cut. */
  function Prepared(sent: map<string, Json>, final: bool): map<string, Json> {
    var compacted := CompactMap(Obj(sent), STANDARD, 0);
    var p := FillIn(compacted.value, final);
    if compacted.truncated then p[FLAG := Bool(true)] else p
  }

  /** A text that is not blank. */
  ghost predicate Says(p: map<string, Json>, key: string) { key in p && p[key].Str? && !Blank(p[key].text) }

  /** A key of q that p did not have, and when it has it. */
  ghost predicate Gets(p: map<string, Json>, q: map<string, Json>, key: string, given: bool, value: Json) {
    key !in p ==> (key in q <==> given) && (given ==> q[key] == value)
  }

  ghost predicate KeepsRest(p: map<string, Json>, q: map<string, Json>) {
    && (forall k :: k in p && k != FLAG ==> k in q && q[k] == p[k])
    && (forall k :: k in q && k !in p ==> k in GIVEN + {FLAG})
  }

  ghost function Field(p: map<string, Json>, key: string): Json { if key in p then p[key] else Null }

  ghost function InputOf(p: map<string, Json>): map<string, Json> {
    if "tool_input" in p && p["tool_input"].Obj? then p["tool_input"].fields else map[]
  }

  /** The command of the tool's input, the tool's response, the last message. */
  ghost predicate NamesTool(p: map<string, Json>, q: map<string, Json>) {
    && Gets(p, q, "command", Says(InputOf(p), "command"), Field(InputOf(p), "command"))
    && Gets(p, q, "tool_output", "tool_response" in p, Field(p, "tool_response"))
    && Gets(p, q, "response", Says(p, "last_assistant_message"), Field(p, "last_assistant_message"))
  }

  /** The final text or the tool's output as the summary, a failed tool's output
      as the error. */
  ghost predicate NamesOutcome(p: map<string, Json>, final: bool, q: map<string, Json>) {
    && (if final then Gets(p, q, "summary", Says(p, "last_assistant_message") || Says(p, "response"), FinalText(p))
        else Gets(p, q, "summary", Says(q, "tool_output"), Field(q, "tool_output")))
    && Gets(p, q, "error", "status" in p && p["status"] == Str("failed") && Says(q, "tool_output"),
            Field(q, "tool_output"))
  }

  /** What was sent stays, and the canonical names stand for what they should. */
  ghost predicate Completed(p: map<string, Json>, final: bool, q: map<string, Json>) {
    KeepsRest(p, q) && NamesTool(p, q) && NamesOutcome(p, final, q)
  }

  ghost function FinalText(p: map<string, Json>): Json {
    if Says(p, "last_assistant_message") then p["last_assistant_message"]
    else if "response" in p then p["response"] else Null
  }

  lemma WordedSays(p: map<string, Json>, key: string)
    ensures Worded(p, key) == if Says(p, key) then Some(p[key]) else None
  {
    if key in p && p[key].Str? { BlankIsTrimmed(p[key].text); }
  }

  /** A filling puts one key there, or nothing. */
  lemma FilledAt(p: map<string, Json>, key: string, source: Option<Json>, k: string)
    ensures var r := Filled(p, key, source);
            && (k in r <==> k in p || (k == key && source.Some?))
            && (k in r ==> r[k] == if k in p then p[k] else source.value)
  {
  }

  /** The key k along the five fillings. */
  lemma FillInAt(p: map<string, Json>, final: bool, k: string)
    returns (a: map<string, Json>, b: map<string, Json>, c: map<string, Json>, d: map<string, Json>)
    ensures a == Filled(p, "command", InputCommand(p))
    ensures b == Filled(a, "tool_output", if "tool_response" in a then Some(a["tool_response"]) else None)
    ensures c == Filled(b, "response", Worded(b, "last_assistant_message"))
    ensures d == Filled(c, "summary", Summary(c, final)) && FillIn(p, final) == Filled(d, "error", Failure(d))
    ensures k in p ==> k in a && a[k] == p[k]
    ensures k in a ==> k in b && b[k] == a[k]
    ensures k in b ==> k in c && c[k] == b[k]
    ensures k in c ==> k in d && d[k] == c[k]
    ensures k in d ==> k in FillIn(p, final) && FillIn(p, final)[k] == d[k]
    ensures k in a && k !in p ==> k == "command"
    ensures k in b && k !in a ==> k == "tool_output"
    ensures k in c && k !in b ==> k == "response"
    ensures k in d && k !in c ==> k == "summary"
    ensures k in FillIn(p, final) && k !in d ==> k == "error"
  {
    a := Filled(p, "command", InputCommand(p));
    b := Filled(a, "tool_output", if "tool_response" in a then Some(a["tool_response"]) else None);
    c := Filled(b, "response", Worded(b, "last_assistant_message"));
    d := Filled(c, "summary", Summary(c, final));
    hide Worded, InputCommand, Summary, Failure;
    FilledAt(p, "command", InputCommand(p), k);
    FilledAt(a, "tool_output", if "tool_response" in a then Some(a["tool_response"]) else None, k);
    FilledAt(b, "response", Worded(b, "last_assistant_message"), k);
    FilledAt(c, "summary", Summary(c, final), k);
    FilledAt(d, "error", Failure(d), k);
  }

  lemma CommandOfInput(p: map<string, Json>)
    ensures InputCommand(p) == if Says(InputOf(p), "command") then Some(Field(InputOf(p), "command")) else None
  {
    WordedSays(InputOf(p), "command");
    hide Blank, Worded;
  }

  lemma NamesTheTool(p: map<string, Json>, final: bool)
    ensures NamesTool(p, FillIn(p, final))
  {
    CommandOfInput(p);
    hide InputOf, Worded, Blank, InputCommand, Summary, Failure, FillIn;
    var a, b, c, d := FillInAt(p, final, "command");
    a, b, c, d := FillInAt(p, final, "tool_output");
    a, b, c, d := FillInAt(p, final, "tool_response");
    a, b, c, d := FillInAt(p, final, "response");
    FilledAt(p, "command", InputCommand(p), "command");
    FilledAt(a, "tool_output", if "tool_response" in a then Some(a["tool_response"]) else None, "tool_output");
    FilledAt(b, "response", Worded(b, "last_assistant_message"), "response");
    a, b, c, d := FillInAt(p, final, "last_assistant_message");
    WordedSays(b, "last_assistant_message");
    SaysSame(p, b, "last_assistant_message");
  }

  lemma SaysSame(p: map<string, Json>, q: map<string, Json>, key: string)
    requires (key in p <==> key in q) && (key in p ==> p[key] == q[key])
    ensures Says(p, key) == Says(q, key)
  {
  }

  lemma NamesTheSummary(p: map<string, Json>, final: bool)
    ensures var q := FillIn(p, final);
            if final then Gets(p, q, "summary", Says(p, "last_assistant_message") || Says(p, "response"), FinalText(p))
            else Gets(p, q, "summary", Says(q, "tool_output"), Field(q, "tool_output"))
  {
    hide Worded, Blank, InputCommand, Failure, FillIn;
    var a, b, c, d := FillInAt(p, final, "summary");
    FilledAt(c, "summary", Summary(c, final), "summary");
    if final {
      a, b, c, d := FillInAt(p, final, "response");
      a, b, c, d := FillInAt(p, final, "last_assistant_message");
      FilledAt(b, "response", Worded(b, "last_assistant_message"), "response");
      WordedSays(b, "last_assistant_message");
      WordedSays(c, "last_assistant_message");
      WordedSays(c, "response");
    } else {
      a, b, c, d := FillInAt(p, final, "tool_output");
      WordedSays(c, "tool_output");
    }
  }

  lemma NamesTheError(p: map<string, Json>, final: bool)
    ensures var q := FillIn(p, final);
            Gets(p, q, "error", "status" in p && p["status"] == Str("failed") && Says(q, "tool_output"),
                 Field(q, "tool_output"))
  {
    hide Worded, Blank, InputCommand, Summary, FillIn;
    var a, b, c, d := FillInAt(p, final, "error");
    a, b, c, d := FillInAt(p, final, "status");
    a, b, c, d := FillInAt(p, final, "tool_output");
    FilledAt(d, "error", Failure(d), "error");
    WordedSays(d, "tool_output");
  }

  lemma FillInCompletes(p: map<string, Json>, final: bool)
    ensures Completed(p, final, FillIn(p, final))
  {
    FillInAdds(p, final);
    NamesTheTool(p, final);
    NamesTheSummary(p, final);
    NamesTheError(p, final);
    hide FillIn, NamesTool, Gets, Says, FinalText, Field;
  }

  lemma PreparedIs(sent: map<string, Json>, final: bool)
    ensures var compacted := CompactMap(Obj(sent), STANDARD, 0);
            var q := FillIn(compacted.value, final);
            Prepared(sent, final) == if compacted.truncated then q[FLAG := Bool(true)] else q
  {
    hide CompactMap, FillIn;
  }

  /** What is marshalled is what compaction left, with the canonical names, and
      with the flag set if compaction lost something. */
  lemma PreparedCompletes(sent: map<string, Json>, final: bool)
    ensures var compacted, p := CompactMap(Obj(sent), STANDARD, 0), Prepared(sent, final);
            && Completed(compacted.value, final, p)
            && (FLAG in p <==> compacted.truncated || FLAG in compacted.value)
            && (FLAG in p ==> p[FLAG] == if compacted.truncated then Bool(true) else compacted.value[FLAG])
  {
    hide *;
    var compacted := CompactMap(Obj(sent), STANDARD, 0);
    var q := FillIn(compacted.value, final);
    PreparedIs(sent, final);
    FillInCompletes(compacted.value, final);
    FlagIsNotFilledIn(compacted.value, final);
    FlagChangesNothingElse(compacted.value, final, q);
  }

  lemma FlagIsNotFilledIn(p: map<string, Json>, final: bool)
    ensures FLAG in FillIn(p, final) <==> FLAG in p
    ensures FLAG in p ==> FillIn(p, final)[FLAG] == p[FLAG]
  {
    FillInAdds(p, final);
    hide FillIn;
  }

  lemma FlagChangesNothingElse(p: map<string, Json>, final: bool, q: map<string, Json>)
    requires Completed(p, final, q)
    ensures Completed(p, final, q[FLAG := Bool(true)])
  {
    var r := q[FLAG := Bool(true)];
    assert forall k :: k != FLAG ==> (k in r <==> k in q) && (k in q ==> r[k] == q[k]);
    hide Blank;
    assert KeepsRest(p, r);
    assert NamesTool(p, r);
    assert NamesOutcome(p, final, r);
  }

  /** Every priority key that was sent is there to be marshalled, and the payload
      is flagged exactly when compaction lost something or it came flagged. */
  lemma PreparedKeepsPriority(sent: map<string, Json>, final: bool)
    ensures forall k :: k in PRIORITY && k in sent ==> k in Prepared(sent, final)
    ensures CompactMap(Obj(sent), STANDARD, 0).truncated ==>
              FLAG in Prepared(sent, final) && Prepared(sent, final)[FLAG] == Bool(true)
    ensures |Prepared(sent, final)| <= MAX_MAP_KEYS + 6
  {
    PayloadIsBounded(sent);
    PayloadIsSmall(sent);
    hide CompactMap, FillIn, MapWithin, PRIORITY;
    var compacted := CompactMap(Obj(sent), STANDARD, 0).value;
    FillInAdds(compacted, final);
    assert Prepared(sent, final).Keys <= compacted.Keys + (GIVEN + {FLAG});
    SixMore(compacted.Keys, Prepared(sent, final).Keys);
  }

  lemma SixMore(before: set<string>, after: set<string>)
    requires after <= before + (GIVEN + {FLAG})
    ensures |after| <= |before| + 6
  {
    assert |GIVEN + {FLAG}| <= 6;
    SubsetSize(after, before + (GIVEN + {FLAG}));
  }

  lemma SubsetSize<T>(a: set<T>, b: set<T>)
    requires a <= b
    ensures |a| <= |b|
  {
    assert b == a + (b - a);
  }

  lemma PayloadIsSmall(sent: map<string, Json>)
    ensures |CompactMap(Obj(sent), STANDARD, 0).value| <= MAX_MAP_KEYS
  {
    hide KeptKeys, CompactValue;
    CompactedKeys(Obj(sent), STANDARD, 0);
  }

  // -------------------------------------------------------------- the first fallback

  function Tight(p: map<string, Json>): map<string, Json> { CompactMap(Obj(p), TIGHT, 0).value[FLAG := Bool(true)] }

  /** Where a priority key stands among those present. */
  lemma PlaceOfKey(keys: set<string>, i: nat)
    requires i < |PRIORITY| && PRIORITY[i] in keys
    ensures var place := |Present(PRIORITY[..i], keys)|;
            place < |Present(PRIORITY, keys)| && Present(PRIORITY, keys)[place] == PRIORITY[i]
  {
    hide PRIORITY;
    PresentStep(PRIORITY, keys, i);
    PresentPrefix(PRIORITY, keys, i + 1);
  }

  lemma AmongFirst(r: seq<string>, n: nat, place: nat)
    requires AllDistinct(r) && n <= |r| && place < |r|
    ensures r[place] in r[..n] <==> place < n
  {
    if place < n { assert r[..n][place] == r[place]; }
  }

  lemma KeptAreFirst(keys: set<string>, limit: nat)
    requires 0 < limit < |keys|
    ensures |Ranking(keys)| == |keys| && AllDistinct(Ranking(keys)) && KeptKeys(keys, limit) == Ranking(keys)[..limit]
  {
    hide Ranking;
  }

  /** A priority key survives a limit exactly when fewer than that many priority
      keys that are present come before it. */
  lemma SurvivesExactly(keys: set<string>, limit: nat, i: nat)
    requires 0 < limit < |keys| && i < |PRIORITY| && PRIORITY[i] in keys
    ensures PRIORITY[i] in KeptKeys(keys, limit) <==> |Present(PRIORITY[..i], keys)| < limit
  {
    hide PRIORITY, Present, Ranking, KeptKeys, AllDistinct;
    PlaceOfKey(keys, i);
    RankedFirst(keys);
    KeptAreFirst(keys, limit);
    AmongFirst(Ranking(keys), limit, |Present(PRIORITY[..i], keys)|);
  }

  lemma RankedFirst(keys: set<string>)
    ensures Present(PRIORITY, keys) <= Ranking(keys)
  {
    hide PRIORITY, Present, Without;
  }

  /** There is room for the i-th priority key among the sixteen keys. */
  ghost predicate HasRoom(p: map<string, Json>, i: nat)
    requires i < |PRIORITY|
  {
    PRIORITY[i] == FLAG || |p| <= TIGHT.keys || |Present(PRIORITY[..i], p.Keys)| < TIGHT.keys
  }

  /** Which priority keys the first fallback keeps. */
  lemma TightKeepsExactly(p: map<string, Json>, i: nat)
    requires i < |PRIORITY| && PRIORITY[i] in p
    ensures PRIORITY[i] in Tight(p) <==> HasRoom(p, i)
  {
    hide KeptKeys, CompactValue, PRIORITY, Present;
    CompactedKeys(Obj(p), TIGHT, 0);
    if |p| > TIGHT.keys {
      SurvivesExactly(p.Keys, TIGHT.keys, i);
    } else {
      AllKept(p.Keys, TIGHT.keys);
    }
  }

  lemma AllKept(keys: set<string>, limit: nat)
    requires |keys| <= limit && 0 < limit
    ensures forall k :: k in keys ==> k in KeptKeys(keys, limit)
  {
  }

  // ------------------------------------------------------------- the second fallback

  /** The i-th key is there and fits behind what was kept before it. */
  ghost predicate FitsOnTurn(t: map<string, Json>, priority: seq<string>, i: nat, size: Size)
    requires i < |priority|
  {
    priority[i] in t && size(Obj(Greedy(t, priority[..i], size)[priority[i] := t[priority[i]]])) <= MAX_PAYLOAD_BYTES
  }

  lemma GreedyStep(t: map<string, Json>, priority: seq<string>, size: Size)
    requires |priority| > 0
    ensures var n := |priority| - 1;
            var before := Greedy(t, priority[..n], size);
            Greedy(t, priority, size) == if FitsOnTurn(t, priority, n, size)
                then before[priority[n] := t[priority[n]]] else before
  {
  }

  lemma GreedyKeepsOnly(t: map<string, Json>, priority: seq<string>, size: Size)
    ensures forall k :: k in Greedy(t, priority, size) ==> k in priority
  {
  }

  /** One turn decides about its own key only. */
  lemma GreedyTurn(t: map<string, Json>, priority: seq<string>, size: Size, k: string)
    requires |priority| > 0 && (k == priority[|priority| - 1] ==> k !in priority[..|priority| - 1])
    ensures var n := |priority| - 1;
            k in Greedy(t, priority, size) <==>
              if k == priority[n] then FitsOnTurn(t, priority, n, size) else k in Greedy(t, priority[..n], size)
  {
    GreedyStep(t, priority, size);
    GreedyKeepsOnly(t, priority[..|priority| - 1], size);
    hide Greedy, FitsOnTurn;
  }

  /** A key is kept by the greedy loop exactly when it fits on its turn. */
  lemma {:induction false} GreedyKeepsExactly(t: map<string, Json>, priority: seq<string>, i: nat, size: Size)
    requires i < |priority| && AllDistinct(priority)
    ensures priority[i] in Greedy(t, priority, size) <==> FitsOnTurn(t, priority, i, size)
    decreases |priority|
  {
    hide Greedy, FitsOnTurn;
    var n := |priority| - 1;
    GreedyTurn(t, priority, size, priority[i]);
    if i < n {
      GreedyKeepsExactly(t, priority[..n], i, size);
      TurnInPrefix(t, priority, n, i, size);
    }
  }

  lemma TurnInPrefix(t: map<string, Json>, priority: seq<string>, n: nat, i: nat, size: Size)
    requires i < n <= |priority|
    ensures FitsOnTurn(t, priority[..n], i, size) == FitsOnTurn(t, priority, i, size)
  {
    assert priority[..n][..i] == priority[..i];
  }

  lemma FlagIsLast()
    ensures |PRIORITY| == 38 && PRIORITY[37] == FLAG
  {
    PriorityIsDistinct();
    assert |CONVERSATION_KEYS| == 8 && CONVERSATION_KEYS[7] == FLAG;
    LastOfSum(EVENT_KEYS + PROGRESS_KEYS + EVIDENCE_KEYS, CONVERSATION_KEYS);
  }

  lemma LastOfSum(s: seq<string>, t: seq<string>)
    requires |t| > 0
    ensures (s + t)[|s + t| - 1] == t[|t| - 1]
  {
  }

  // --------------------------------------------------------------------- all together

  /** normalizeLifecyclePayload from its compaction on. */
  method StorePayload(sent: map<string, Json>, final: bool, size: Size) returns (out: map<string, Json>)
    requires size(Obj(map[])) <= MAX_PAYLOAD_BYTES
    ensures out == Stored(sent, final, size) && size(Obj(out)) <= MAX_PAYLOAD_BYTES
  {
    hide CompactMap, PRIORITY;
    out := MarshalPayload(Prepared(sent, final), size);
  }

  function Stored(sent: map<string, Json>, final: bool, size: Size): map<string, Json> {
    var p := Prepared(sent, final);
    if size(Obj(p)) <= MAX_PAYLOAD_BYTES then p
    else if size(Obj(Tight(p))) <= MAX_PAYLOAD_BYTES then Tight(p)
    else Greedy(Tight(p), PRIORITY, size)
  }

  lemma PriorityIsAllDistinct()
    ensures AllDistinct(PRIORITY)
  {
    PriorityIsDistinct();
  }

  /** Which of the priority keys that were sent are stored: all of them if the
      payload fits; if only its tight form does, those with fewer than sixteen
      present priority keys before them; otherwise those of them that also fit on
      their turn. */
  lemma StoredKeysExactly(sent: map<string, Json>, final: bool, size: Size, i: nat)
    requires i < |PRIORITY| && PRIORITY[i] in sent
    ensures var p := Prepared(sent, final);
            PRIORITY[i] in Stored(sent, final, size) <==>
              || size(Obj(p)) <= MAX_PAYLOAD_BYTES
              || (size(Obj(Tight(p))) <= MAX_PAYLOAD_BYTES && HasRoom(p, i))
              || (size(Obj(Tight(p))) > MAX_PAYLOAD_BYTES && FitsOnTurn(Tight(p), PRIORITY, i, size))
    ensures FitsOnTurn(Tight(Prepared(sent, final)), PRIORITY, i, size) ==> HasRoom(Prepared(sent, final), i)
  {
    PriorityIsAllDistinct();
    PreparedKeepsPriority(sent, final);
    hide PRIORITY, Tight, Prepared, Greedy, HasRoom, AllDistinct;
    assert PRIORITY[i] in PRIORITY;
    TightKeepsExactly(Prepared(sent, final), i);
    GreedyKeepsExactly(Tight(Prepared(sent, final)), PRIORITY, i, size);
  }

  /** Whether what was stored says that something was cut: always, unless the
      second fallback was taken and the flag, the last in the order, no longer
      fitted behind the rest. */
  lemma FlagIsStoredExactly(sent: map<string, Json>, final: bool, size: Size)
    ensures var p, out := Prepared(sent, final), Stored(sent, final, size);
            if size(Obj(p)) <= MAX_PAYLOAD_BYTES then
              CompactMap(Obj(sent), STANDARD, 0).truncated ==> FLAG in out && out[FLAG] == Bool(true)
            else
              FLAG in out <==>
                size(Obj(Tight(p))) <= MAX_PAYLOAD_BYTES || FitsOnTurn(Tight(p), PRIORITY, |PRIORITY| - 1, size)
    ensures size(Obj(Prepared(sent, final))) > MAX_PAYLOAD_BYTES && FLAG in Stored(sent, final, size) ==>
              Stored(sent, final, size)[FLAG] == Bool(true)
  {
    FlagIsLast();
    PriorityIsAllDistinct();
    PreparedKeepsPriority(sent, final);
    hide PRIORITY, Prepared, Greedy, CompactMap, AllDistinct;
    GreedyKeepsExactly(Tight(Prepared(sent, final)), PRIORITY, |PRIORITY| - 1, size);
  }
}
