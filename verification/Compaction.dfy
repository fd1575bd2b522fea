/** Bounding hook payloads before they are stored (internal/hooks/hooks.go). */
module Compaction {
  import opened Text
  import opened JsonValues

  const MAX_PAYLOAD_BYTES: nat := 65536
  const MAX_STRING_BYTES: nat := 8192
  const MAX_MAP_KEYS: nat := 64
  const MAX_ARRAY_ITEMS: nat := 100
  const MAX_NESTING_DEPTH: nat := 6

  const EVENT_KEYS: seq<string> := [
    "task_id", "active_task_id", "session_id", "event_id", "idempotency_key",
    "command", "tool_name", "tool_output", "tool_response", "summary", "error"]

  const PROGRESS_KEYS: seq<string> := [
    "status", "exit_code", "task_status", "goal", "current_step", "last_successful_step", "next_action",
    "completion_verified", "completion_policy"]

  const EVIDENCE_KEYS: seq<string> := [
    "verification_ref", "verification_kind", "verification_scope",
    "git_head", "diff_hash", "file", "symbol", "changed_files", "module_paths", "dependencies"]

  const CONVERSATION_KEYS: seq<string> := [
    "prompt", "text", "message", "last_assistant_message", "response", "content", "raw_output",
        "baron_payload_truncated"]

  /** lifecyclePayloadPriority. */
  const PRIORITY: seq<string> := EVENT_KEYS + PROGRESS_KEYS + EVIDENCE_KEYS + CONVERSATION_KEYS

  const OMITTED := "[nested payload omitted]"
  const CUT := "...[truncated]"

  /** stringLimit, mapLimit, arrayLimit. */
  datatype Limits = Limits(text: int, keys: int, items: nat)

  const STANDARD := Limits(MAX_STRING_BYTES, MAX_MAP_KEYS, MAX_ARRAY_ITEMS)
  const TIGHT := Limits(4096, 16, 32)

  datatype Compacted<T> = Compacted(value: T, truncated: bool)

  // ------------------------------------------------------------------------ text

  function StringLimit(key: string, fallback: int): int {
    if key in {"command", "tool_name", "goal"} then 4096
    else if key in {"tool_output", "tool_response", "last_assistant_message", "response", "summary", "error",
        "raw_output"}
    then MAX_STRING_BYTES
    else if key in {"current_step", "last_successful_step", "next_action"} then 2048
    else if key in {"task_id", "active_task_id", "session_id", "event_id", "idempotency_key", "verification_ref",
        "git_head",
                    "diff_hash"}
    then 512
    else fallback
  }

  /** boundedLifecycleText: trimmed, and the middle cut out when too long. */
  function BoundedText(value: string, max: int): (r: Compacted<string>)
    ensures max > 0 ==> |r.value| <= max
    ensures !r.truncated ==> r.value == Trim(value)
    ensures r.truncated <==> 0 < max < |Trim(value)|
  {
    var text := Trim(value);
    if max <= 0 || |text| <= max then Compacted(text, false)
    else if max <= |CUT| then Compacted(text[..max], true)
    else
      var available := max - |CUT|;
      var head := available / 2;
      var tail := available - head;
      Compacted(text[..head] + CUT + text[|text| - tail..], true)
  }

  /** A cut text keeps as much of its two ends as fits around the mark, the tail
      getting the odd character; without room for the mark only the head stays. */
  lemma BoundedTextShape(value: string, max: int) returns (head: string, tail: string)
    requires 0 < max < |Trim(value)|
    ensures head <= Trim(value) && |tail| <= |Trim(value)| && Trim(value)[|Trim(value)| - |tail|..] == tail
    ensures BoundedText(value, max).value == (if max <= |CUT| then head else head + CUT + tail)
    ensures |BoundedText(value, max).value| == max
    ensures max > |CUT| ==> |head| <= |tail| <= |head| + 1
  {
    hide Trim;
    var text := Trim(value);
    if max <= |CUT| {
      head, tail := text[..max], "";
    } else {
      var half := (max - |CUT|) / 2;
      head, tail := text[..half], text[|text| - (max - |CUT| - half)..];
    }
  }

  lemma BoundedTextIsClean(value: string, max: int)
    requires max <= 1 || max > |CUT|
    ensures NoEdgeSpace(BoundedText(value, max).value)
  {
    hide Trim;
    var text := Trim(value);
    var once := BoundedText(value, max).value;
    if 1 < max < |text| {
      var available := max - |CUT|;
      var head := available / 2;
      var tail := available - head;
      assert |once| == max && once[0] == (if head > 0 then text[0] else CUT[0]);
      assert once[max - 1] == text[|text| - tail..][tail - 1] == text[|text| - 1];
    }
  }

  lemma BoundedTextAgain(value: string, max: int)
    requires max <= 1 || max > |CUT|
    ensures BoundedText(BoundedText(value, max).value, max) == Compacted(BoundedText(value, max).value, false)
  {
    BoundedTextIsClean(value, max);
  }

  /** A space where the cut falls. */
  function CutAtSpace(max: nat): string
    requires max >= 2
  {
    seq(max - 1, i => 'a') + " b"
  }

  lemma CutAtSpaceIsClean(max: nat)
    requires max >= 2
    ensures var value := CutAtSpace(max);
            NoEdgeSpace(value) && |value| == max + 1 && value[max - 1] == ' '
  {
    var value := CutAtSpace(max);
    assert value[0] == 'a' && value[max - 1] == " b"[0] && value[max] == " b"[1];
  }

  lemma ShortCut(value: string, max: nat)
    requires 0 < max <= |CUT| && NoEdgeSpace(value) && max < |value|
    ensures BoundedText(value, max).value == value[..max]
  {
    hide Trim;
  }

  /** Bounding twice trims that space away. */
  lemma ShortLimitCutsAtSpace(max: nat)
    requires 2 <= max <= |CUT|
    ensures var value := CutAtSpace(max);
            BoundedText(BoundedText(value, max).value, max).value != BoundedText(value, max).value
  {
    hide Trim, CutAtSpace;
    var value := CutAtSpace(max);
    CutAtSpaceIsClean(max);
    ShortCut(value, max);
    var once := value[..max];
    assert IsSpace(once[|once| - 1]) && !NoEdgeSpace(once);
    assert BoundedText(once, max).value == Trim(once);
  }

  /** Exactly which limits make bounding a projection. */
  lemma BoundedTextIdempotentExactly(max: int)
    ensures (forall value :: BoundedText(BoundedText(value, max).value, max).value == BoundedText(value, max).value)
            <==> max <= 1 || max > |CUT|
  {
    if max <= 1 || max > |CUT| {
      forall value ensures BoundedText(BoundedText(value, max).value, max).value == BoundedText(value, max).value {
        BoundedTextAgain(value, max);
      }
    } else {
      ShortLimitCutsAtSpace(max);
    }
  }

  // ------------------------------------------------------------------------ keys

  lemma {:induction false} DistinctMultiset(r: seq<string>, keys: set<string>)
    requires forall k :: k in r <==> k in keys
    requires forall i, j :: 0 <= i < j < |r| ==> r[i] != r[j]
    ensures multiset(r) == multiset(keys)
  {
    if |r| > 0 {
      var n := |r| - 1;
      assert r == r[..n] + [r[n]];
      forall k ensures k in r[..n] <==> k in keys - {r[n]} {}
      DistinctMultiset(r[..n], keys - {r[n]});
    }
  }

  /** The priority keys that are there, in priority order. */
  function Present(priority: seq<string>, keys: set<string>): (r: seq<string>)
    ensures forall k :: k in r <==> k in priority && k in keys
    ensures |r| <= |priority|
    ensures (forall i, j :: 0 <= i < j < |priority| ==> priority[i] != priority[j]) ==>
              forall i, j :: 0 <= i < j < |r| ==> r[i] != r[j]
  {
    if |priority| == 0 then []
    else
      var last := priority[|priority| - 1];
      var rest := Present(priority[..|priority| - 1], keys);
      if last in keys then rest + [last] else rest
  }

  function Without(s: seq<string>, seen: set<string>): (r: seq<string>)
    ensures forall k :: k in r <==> k in s && k !in seen
    ensures (forall i, j :: 0 <= i < j < |s| ==> s[i] != s[j]) ==> forall i, j :: 0 <= i < j < |r| ==> r[i] != r[j]
  {
    if |s| == 0 then []
    else
      var last := s[|s| - 1];
      var rest := Without(s[..|s| - 1], seen);
      if last in seen then rest else rest + [last]
  }

  function SetOf(s: seq<string>): set<string> { set k | k in s }

  ghost predicate AllDistinct(s: seq<string>) { forall i, j :: 0 <= i < j < |s| ==> s[i] != s[j] }

  ghost predicate Apart(s: seq<string>, t: seq<string>) { forall i, j :: 0 <= i < |s| && 0 <= j < |t| ==> s[i] != t[j] }

  lemma PartsAreDistinct()
    ensures AllDistinct(EVENT_KEYS) && AllDistinct(PROGRESS_KEYS) && AllDistinct(EVIDENCE_KEYS)
              && AllDistinct(CONVERSATION_KEYS)
    ensures |EVENT_KEYS| + |PROGRESS_KEYS| + |EVIDENCE_KEYS| + |CONVERSATION_KEYS| == 38
  {
  }

  lemma EventKeysApart()
    ensures Apart(EVENT_KEYS, PROGRESS_KEYS) && Apart(EVENT_KEYS, EVIDENCE_KEYS) && Apart(EVENT_KEYS, CONVERSATION_KEYS)
  {
  }

  lemma OtherKeysApart()
    ensures Apart(PROGRESS_KEYS, EVIDENCE_KEYS) && Apart(PROGRESS_KEYS, CONVERSATION_KEYS)
              && Apart(EVIDENCE_KEYS, CONVERSATION_KEYS)
  {
  }

  lemma JoinDistinct(s: seq<string>, t: seq<string>)
    requires AllDistinct(s) && AllDistinct(t) && Apart(s, t)
    ensures AllDistinct(s + t)
  {
  }

  lemma ApartByMembers(s: seq<string>, t: seq<string>)
    requires forall k :: k in t ==> k !in s
    ensures Apart(s, t)
  {
    forall i, j | 0 <= i < |s| && 0 <= j < |t| ensures s[i] != t[j] {
      assert s[i] in s && t[j] in t;
    }
  }

  lemma JoinApart(s: seq<string>, t: seq<string>, u: seq<string>)
    requires Apart(s, u) && Apart(t, u)
    ensures Apart(s + t, u)
  {
  }

  lemma PriorityIsDistinct()
    ensures |PRIORITY| == 38 && forall i, j :: 0 <= i < j < |PRIORITY| ==> PRIORITY[i] != PRIORITY[j]
  {
    hide EVENT_KEYS, PROGRESS_KEYS, EVIDENCE_KEYS, CONVERSATION_KEYS;
    PartsAreDistinct();
    EventKeysApart();
    OtherKeysApart();
    JoinDistinct(EVENT_KEYS, PROGRESS_KEYS);
    JoinApart(EVENT_KEYS, PROGRESS_KEYS, EVIDENCE_KEYS);
    JoinApart(EVENT_KEYS, PROGRESS_KEYS, CONVERSATION_KEYS);
    JoinDistinct(EVENT_KEYS + PROGRESS_KEYS, EVIDENCE_KEYS);
    JoinApart(EVENT_KEYS + PROGRESS_KEYS, EVIDENCE_KEYS, CONVERSATION_KEYS);
    JoinDistinct(EVENT_KEYS + PROGRESS_KEYS + EVIDENCE_KEYS, CONVERSATION_KEYS);
    hide PRIORITY;
    assert AllDistinct(PRIORITY);
  }

  lemma DistinctLength(s: seq<string>)
    requires forall i, j :: 0 <= i < j < |s| ==> s[i] != s[j]
    ensures |SetOf(s)| == |s|
  {
    if |s| > 0 {
      DistinctLength(s[..|s| - 1]);
      assert SetOf(s) == SetOf(s[..|s| - 1]) + {s[|s| - 1]};
    }
  }

  /** Everything in keeping order: priority keys first, the rest alphabetically. */
  function RankingBy(priority: seq<string>, keys: set<string>): (r: seq<string>)
    requires forall i, j :: 0 <= i < j < |priority| ==> priority[i] != priority[j]
    ensures forall k :: k in r <==> k in keys
    ensures forall i, j :: 0 <= i < j < |r| ==> r[i] != r[j]
    ensures |r| == |keys|
  {
    var first := Present(priority, keys);
    var others := Without(SortedKeys(keys), SetOf(first));
    ApartByMembers(first, others);
    JoinDistinct(first, others);
    DistinctLength(first + others);
    assert SetOf(first + others) == keys;
    first + others
  }

  function Ranking(keys: set<string>): (r: seq<string>)
    ensures |r| == |keys| && forall k :: k in r <==> k in keys
    ensures forall i, j :: 0 <= i < j < |r| ==> r[i] != r[j]
  {
    PriorityIsDistinct();
    RankingBy(PRIORITY, keys)
  }

  /** The keys lifecycleMapKeys keeps. */
  function KeptKeys(keys: set<string>, limit: int): (r: seq<string>)
    ensures forall k :: k in r ==> k in keys
    ensures |r| == if limit <= 0 then 0 else if |keys| <= limit then |keys| else limit
    ensures 0 < limit && |keys| <= limit ==> forall k :: k in keys ==> k in r
    ensures forall i, j :: 0 <= i < j < |r| ==> r[i] != r[j]
  {
    if limit <= 0 then []
    else if |keys| <= limit then SortedKeys(keys)
    else FirstOf(Ranking(keys), limit)
  }

  function FirstOf(s: seq<string>, n: nat): (r: seq<string>)
    requires n <= |s| && forall i, j :: 0 <= i < j < |s| ==> s[i] != s[j]
    ensures r == s[..n] && |r| == n
    ensures (forall k :: k in r ==> k in s) && forall i, j :: 0 <= i < j < |r| ==> r[i] != r[j]
  {
    s[..n]
  }

  /** The first 64 keys in keeping order always hold every priority key. */
  lemma PriorityKeysAreKept(keys: set<string>, limit: nat)
    requires |PRIORITY| <= limit
    ensures forall k :: k in PRIORITY && k in keys ==> k in KeptKeys(keys, limit)
  {
  }

  /** Among the other keys, what is kept comes before what is dropped. */
  lemma OthersKeptAlphabetically(keys: set<string>, limit: nat, kept: string, dropped: string)
    requires kept in KeptKeys(keys, limit) && kept !in PRIORITY
    requires dropped in keys && dropped !in KeptKeys(keys, limit) && limit > 0
    ensures AtMost(kept, dropped) && (dropped in PRIORITY ==> limit < |PRIORITY|)
  {
    PriorityIsDistinct();
    hide PRIORITY, Less, AtMost, Present, Without, SortedKeys;
    var first := Present(PRIORITY, keys);
    var others := Without(SortedKeys(keys), SetOf(first));
    var r := Ranking(keys);
    assert r == first + others;
    var i :| 0 <= i < limit && i < |r| && r[i] == kept;
    var j :| 0 <= j < |r| && r[j] == dropped;
    assert j >= limit;
    assert forall x :: 0 <= x < |first| ==> first[x] == r[x];
    WithoutSorted(SortedKeys(keys), SetOf(first));
    assert AtMost(others[i - |first|], others[j - |first|]);
    if dropped in PRIORITY { PriorityKeysAreKept(keys, limit); }
  }

  lemma {:induction false} WithoutSorted(s: seq<string>, seen: set<string>)
    requires Sorted(s)
    ensures Sorted(Without(s, seen))
  {
    hide AtMost;
    if |s| > 0 {
      var n := |s| - 1;
      WithoutSorted(s[..n], seen);
      var rest := Without(s[..n], seen);
      forall i | 0 <= i < |rest| ensures AtMost(rest[i], s[n]) {
        assert rest[i] in s[..n];
      }
    }
  }

  lemma {:induction false} PresentPrefix(priority: seq<string>, keys: set<string>, n: nat)
    requires n <= |priority|
    ensures Present(priority[..n], keys) <= Present(priority, keys)
    decreases |priority|
  {
    if n < |priority| {
      var shorter := priority[..|priority| - 1];
      assert shorter[..n] == priority[..n];
      PresentPrefix(shorter, keys, n);
    } else {
      assert priority[..n] == priority;
    }
  }

  lemma {:induction false} WithoutPrefix(s: seq<string>, seen: set<string>, n: nat)
    requires n <= |s|
    ensures Without(s[..n], seen) <= Without(s, seen)
    decreases |s|
  {
    if n < |s| {
      var shorter := s[..|s| - 1];
      assert shorter[..n] == s[..n];
      WithoutPrefix(shorter, seen, n);
    } else {
      assert s[..n] == s;
    }
  }

  /** The keys of a map in ascending order: collected in any order, then sorted. */
  method CollectKeys(payload: map<string, Json>) returns (allKeys: seq<string>)
    ensures allKeys == SortedKeys(payload.Keys)
  {
    var keys: seq<string> := [];
    var rest := payload.Keys;
    while rest != {}
      invariant rest <= payload.Keys
      invariant forall k :: k in keys <==> k in payload.Keys - rest
      invariant forall i, j :: 0 <= i < j < |keys| ==> keys[i] != keys[j]
      decreases rest
    {
      var k :| k in rest;
      assert k !in keys;
      keys, rest := keys + [k], rest - {k};
    }
    DistinctMultiset(keys, payload.Keys);
    DistinctMultiset(SortedKeys(payload.Keys), payload.Keys);
    SortedUnique(SortStrings(keys), SortedKeys(payload.Keys));
    return SortStrings(keys);
  }

  lemma NonePresent(keys: set<string>)
    ensures Present([], keys) == []
  {
  }

  lemma PresentStep(priority: seq<string>, keys: set<string>, n: nat)
    requires n < |priority|
    ensures Present(priority[..n + 1], keys) == Present(priority[..n], keys) + if priority[n] in keys
              then [priority[n]] else []
  {
    assert priority[..n + 1][..n] == priority[..n];
  }

  /** The loop over the priority list. */
  method KeepPriority(priority: seq<string>, payload: map<string, Json>, limit: nat)
    returns (keys: seq<string>, seen: set<string>)
    requires limit > 0
    ensures |keys| < limit ==> keys == Present(priority, payload.Keys) && seen == SetOf(keys)
    ensures |keys| <= limit && keys <= Present(priority, payload.Keys)
  {
    hide Present;
    keys, seen := [], {};
    NonePresent(payload.Keys);
    for n := 0 to |priority|
      invariant keys == Present(priority[..n], payload.Keys)
      invariant seen == SetOf(keys) && |keys| < limit
    {
      PresentStep(priority, payload.Keys, n);
      PresentPrefix(priority, payload.Keys, n + 1);
      if priority[n] in payload {
        keys := keys + [priority[n]];
        seen := seen + {priority[n]};
        if |keys| == limit { return; }
      }
    }
    assert priority[..|priority|] == priority;
  }

  lemma NothingWithout(seen: set<string>)
    ensures Without([], seen) == []
  {
  }

  lemma WithoutStep(s: seq<string>, seen: set<string>, n: nat)
    requires n < |s|
    ensures Without(s[..n + 1], seen) == Without(s[..n], seen) + if s[n] in seen then [] else [s[n]]
  {
    assert s[..n + 1][..n] == s[..n];
  }

  /** The loop over the remaining keys, once the priority keys left room. */
  method KeepOthers(first: seq<string>, seen: set<string>, allKeys: seq<string>, limit: nat) returns (keys: seq<string>)
    requires |first| < limit
    ensures keys <= first + Without(allKeys, seen)
    ensures |keys| == if |first + Without(allKeys, seen)| < limit then |first + Without(allKeys, seen)| else limit
  {
    hide Without;
    keys := first;
    NothingWithout(seen);
    for n := 0 to |allKeys|
      invariant keys == first + Without(allKeys[..n], seen) && |keys| < limit
    {
      WithoutStep(allKeys, seen, n);
      WithoutPrefix(allKeys, seen, n + 1);
      if allKeys[n] !in seen {
        keys := keys + [allKeys[n]];
        if |keys| == limit { return; }
      }
    }
    assert allKeys[..|allKeys|] == allKeys;
  }

  method LifecycleMapKeys(payload: map<string, Json>, limit: int) returns (keys: seq<string>, truncated: bool)
    ensures keys == KeptKeys(payload.Keys, limit)
    ensures truncated <==> |payload| > limit && |payload| > 0
  {
    hide PRIORITY, Present, Without, Sorted, SortedKeys, SetOf;
    if limit <= 0 { return [], |payload| > 0; }
    var allKeys := CollectKeys(payload);
    if |allKeys| <= limit { return allKeys, false; }
    PriorityIsDistinct();
    ghost var ranking := Ranking(payload.Keys);
    var seen: set<string>;
    keys, seen := KeepPriority(PRIORITY, payload, limit);
    if |keys| < limit { keys := KeepOthers(keys, seen, allKeys, limit); }
    assert keys <= ranking;
    return keys, true;
  }

  // ------------------------------------------------------------------ compaction

  /** compactLifecycleMap. */
  function CompactMap(v: Json, l: Limits, depth: nat): (r: Compacted<map<string, Json>>)
    requires v.Obj?
    decreases v, 0
  {
    var kept := KeptKeys(v.fields.Keys, l.keys);
    Compacted(
      map k | k in v.fields && k in kept :: CompactValue(v.fields[k], k, l, depth).value,
      (|v.fields| > l.keys && |v.fields| > 0)
      || exists k :: k in v.fields && k in kept && CompactValue(v.fields[k], k, l, depth).truncated)
  }

  /** compactLifecycleValue. */
  function CompactValue(v: Json, key: string, l: Limits, depth: nat): (r: Compacted<Json>)
    decreases v, 1
  {
    match v
    case Str(text) =>
      var bounded := BoundedText(text, StringLimit(key, l.text));
      Compacted(Str(bounded.value), bounded.truncated)
    case Obj(_) =>
      if depth >= MAX_NESTING_DEPTH then Compacted(Str(OMITTED), true)
      else
        var compacted := CompactMap(v, l, depth + 1);
        Compacted(Obj(compacted.value), compacted.truncated)
    case Arr(items) =>
      if depth >= MAX_NESTING_DEPTH then Compacted(Str(OMITTED), true)
      else
        var kept := Min(|items|, l.items);
        Compacted(
          Arr(seq(kept, i requires 0 <= i < kept => CompactValue(items[i], key, l, depth + 1).value)),
          |items| > l.items || exists i :: 0 <= i < kept && CompactValue(items[i], key, l, depth + 1).truncated)
    case _ => Compacted(v, false)
  }

  function Min(a: nat, b: nat): nat { if a < b then a else b }

  /** How much a text in a payload may say: a summary or an output most, a command
      or a goal half of that, a step half again, an identifier least. */
  function Room(key: string): nat {
    if key in {"active_task_id", "diff_hash", "event_id", "git_head", "idempotency_key", "session_id", "task_id",
        "verification_ref"} then 512
    else if key in {"current_step", "last_successful_step", "next_action"} then 2048
    else if key in {"command", "goal", "tool_name"} then 4096
    else 8192
  }

  /** A text without edge white space is stored whole exactly when it is no longer
      than its key allows. */
  lemma KeptWholeExactly(text: string, key: string, depth: nat)
    requires NoEdgeSpace(text)
    ensures CompactValue(Str(text), key, STANDARD, depth) == Compacted(Str(text), false) <==> |text| <= Room(key)
    ensures |CompactValue(Str(text), key, STANDARD, depth).value.text| <= Room(key)
  {
    hide Trim;
  }

  /** Every bound, at every node below the given depth. */
  ghost predicate Within(v: Json, key: string, l: Limits, depth: nat)
    decreases v, 1
  {
    match v
    case Str(text) => NoEdgeSpace(text) && (StringLimit(key, l.text) > 0 ==> |text| <= StringLimit(key, l.text))
    case Obj(fields) => depth < MAX_NESTING_DEPTH && MapWithin(v, l, depth + 1)
    case Arr(items) =>
      depth < MAX_NESTING_DEPTH && |items| <= l.items && forall i :: 0 <= i < |items| ==>
          Within(items[i], key, l, depth + 1)
    case _ => true
  }

  ghost predicate MapWithin(v: Json, l: Limits, depth: nat)
    requires v.Obj?
    decreases v, 0
  {
    |v.fields| <= (if l.keys < 0 then 0 else l.keys) && forall k :: k in v.fields ==> Within(v.fields[k], k, l, depth)
  }

  /** Limits long enough for the placeholder of an omitted object. */
  predicate Roomy(l: Limits) { l.text >= |OMITTED| }

  lemma CompactedKeys(v: Json, l: Limits, depth: nat)
    requires v.Obj?
    ensures CompactMap(v, l, depth).value.Keys == SetOf(KeptKeys(v.fields.Keys, l.keys))
    ensures |CompactMap(v, l, depth).value| == |KeptKeys(v.fields.Keys, l.keys)|
  {
    DistinctLength(KeptKeys(v.fields.Keys, l.keys));
  }

  lemma {:induction false} MapIsWithin(v: Json, l: Limits, depth: nat)
    requires v.Obj? && Roomy(l)
    ensures MapWithin(Obj(CompactMap(v, l, depth).value), l, depth)
    decreases v, 0
  {
    hide KeptKeys;
    CompactedKeys(v, l, depth);
    var after := CompactMap(v, l, depth).value;
    forall k | k in after ensures Within(after[k], k, l, depth) {
      ValueIsWithin(v.fields[k], k, l, depth);
    }
  }

  lemma RoomyLimit(key: string, l: Limits)
    requires Roomy(l)
    ensures StringLimit(key, l.text) >= |OMITTED|
  {
  }

  lemma {:induction false} ValueIsWithin(v: Json, key: string, l: Limits, depth: nat)
    requires Roomy(l)
    ensures Within(CompactValue(v, key, l, depth).value, key, l, depth)
    decreases v, 1
  {
    hide KeptKeys, CompactMap, BoundedText, StringLimit;
    RoomyLimit(key, l);
    match v
    case Str(text) => BoundedTextIsClean(text, StringLimit(key, l.text));
    case Obj(_) => if depth < MAX_NESTING_DEPTH { MapIsWithin(v, l, depth + 1); }
    case Arr(items) => if depth < MAX_NESTING_DEPTH { ItemsAreWithin(items, v, key, l, depth); }
    case _ =>
  }

  lemma {:induction false} ItemsAreWithin(items: seq<Json>, v: Json, key: string, l: Limits, depth: nat)
    requires Roomy(l) && v == Arr(items) && depth < MAX_NESTING_DEPTH
    ensures Within(CompactValue(v, key, l, depth).value, key, l, depth)
    decreases v, 0
  {
    hide KeptKeys, CompactMap, BoundedText, StringLimit;
    forall i | 0 <= i < |items| ensures Within(CompactValue(items[i], key, l, depth + 1).value, key, l, depth + 1) {
      ValueIsWithin(items[i], key, l, depth + 1);
    }
  }

  lemma {:induction false} MapIsFixed(v: Json, l: Limits, depth: nat)
    requires v.Obj? && MapWithin(v, l, depth)
    ensures CompactMap(v, l, depth) == Compacted(v.fields, false)
    decreases v, 0
  {
    hide Within, KeptKeys, CompactValue;
    assert forall k :: k in v.fields ==> k in KeptKeys(v.fields.Keys, l.keys);
    forall k | k in v.fields ensures CompactValue(v.fields[k], k, l, depth) == Compacted(v.fields[k], false) {
      ValueIsFixed(v.fields[k], k, l, depth);
    }
    assert CompactMap(v, l, depth).value == v.fields;
    assert !CompactMap(v, l, depth).truncated;
  }

  lemma {:induction false} ValueIsFixed(v: Json, key: string, l: Limits, depth: nat)
    requires Within(v, key, l, depth)
    ensures CompactValue(v, key, l, depth) == Compacted(v, false)
    decreases v, 1
  {
    hide KeptKeys, CompactMap, StringLimit;
    match v
    case Obj(_) => MapIsFixed(v, l, depth + 1);
    case Arr(items) =>
      forall i | 0 <= i < |items| ensures CompactValue(items[i], key, l, depth + 1) == Compacted(items[i], false) {
        ValueIsFixed(items[i], key, l, depth + 1);
      }
      assert CompactValue(v, key, l, depth).value.items == items;
    case _ =>
  }

  /** Compaction changes nothing exactly when every bound already holds, so
      compacting twice is compacting once and the second pass reports nothing. */
  lemma CompactionIsProjection(v: Json, l: Limits, depth: nat)
    requires v.Obj? && Roomy(l)
    ensures var once := CompactMap(v, l, depth).value;
            MapWithin(Obj(once), l, depth) && CompactMap(Obj(once), l, depth) == Compacted(once, false)
    ensures CompactMap(v, l, depth) == Compacted(v.fields, false) <==> MapWithin(v, l, depth)
  {
    hide KeptKeys, CompactMap, Within, MapWithin, CompactValue;
    MapIsWithin(v, l, depth);
    MapIsFixed(Obj(CompactMap(v, l, depth).value), l, depth);
    if MapWithin(v, l, depth) { MapIsFixed(v, l, depth); }
  }

  /** compactLifecyclePayload: whatever an agent sends, what comes out is within
      the standard bounds, is left alone by a second pass, and has every priority
      key that was sent. */
  lemma PayloadIsBounded(payload: map<string, Json>)
    ensures var once := CompactMap(Obj(payload), STANDARD, 0).value;
            && MapWithin(Obj(once), STANDARD, 0) && CompactMap(Obj(once), STANDARD, 0) == Compacted(once, false)
            && forall k :: k in PRIORITY && k in payload ==> k in once
  {
    hide KeptKeys, MapWithin, CompactValue, PRIORITY;
    PriorityIsShort();
    CompactionIsProjection(Obj(payload), STANDARD, 0);
    PriorityKeysAreKept(payload.Keys, MAX_MAP_KEYS);
    CompactedKeys(Obj(payload), STANDARD, 0);
  }

  lemma PriorityIsShort()
    ensures |PRIORITY| <= MAX_MAP_KEYS
  {
  }

  /** The payload with only its strings trimmed. */
  function Trimmed(v: Json): Json {
    match v
    case Str(text) => Str(Trim(text))
    case Arr(items) => Arr(seq(|items|, i requires 0 <= i < |items| => Trimmed(items[i])))
    case Obj(fields) => Obj(map k | k in fields :: Trimmed(fields[k]))
    case _ => v
  }

  lemma {:induction false} MapFlagIsExact(v: Json, l: Limits, depth: nat)
    requires v.Obj?
    ensures CompactMap(v, l, depth).truncated <==> Obj(CompactMap(v, l, depth).value) != Trimmed(v)
    decreases v, 0
  {
    hide BoundedText, StringLimit, CompactValue, KeptKeys, Trimmed;
    forall k | k in v.fields
      ensures CompactValue(v.fields[k], k, l, depth).truncated <==>
                CompactValue(v.fields[k], k, l, depth).value != Trimmed(v.fields[k])
    {
      ValueFlagIsExact(v.fields[k], k, l, depth);
    }
    TrimmedFields(v);
    if |v.fields| > l.keys && |v.fields| > 0 {
      CompactedKeys(v, l, depth);
      assert |Trimmed(v).fields.Keys| == |v.fields|;
    } else {
      assert forall k :: k in v.fields ==> k in KeptKeys(v.fields.Keys, l.keys);
      var after, trimmed := CompactMap(v, l, depth).value, Trimmed(v).fields;
      assert forall k :: k in v.fields ==>
          after[k] == CompactValue(v.fields[k], k, l, depth).value && trimmed[k] == Trimmed(v.fields[k]);
      if after == trimmed {
        assert forall k :: k in v.fields ==> after[k] == trimmed[k];
      } else {
        assert after.Keys == trimmed.Keys;
        var k :| k in after && after[k] != trimmed[k];
      }
    }
  }

  lemma TrimmedFields(v: Json)
    requires v.Obj?
    ensures Trimmed(v).Obj? && Trimmed(v).fields.Keys == v.fields.Keys
    ensures forall k :: k in v.fields ==> Trimmed(v).fields[k] == Trimmed(v.fields[k])
  {
  }

  /** The flag is raised exactly when something besides white space at the ends
      of strings was lost. */
  lemma {:induction false} ValueFlagIsExact(v: Json, key: string, l: Limits, depth: nat)
    ensures CompactValue(v, key, l, depth).truncated <==> CompactValue(v, key, l, depth).value != Trimmed(v)
    decreases v, 1
  {
    hide KeptKeys, CompactMap, StringLimit;
    match v
    case Obj(_) => if depth < MAX_NESTING_DEPTH { MapFlagIsExact(v, l, depth + 1); }
    case Arr(items) => if depth < MAX_NESTING_DEPTH { ItemsFlagIsExact(items, v, key, l, depth); }
    case _ =>
  }

  lemma {:induction false} ItemsFlagIsExact(items: seq<Json>, v: Json, key: string, l: Limits, depth: nat)
    requires v == Arr(items) && depth < MAX_NESTING_DEPTH
    ensures CompactValue(v, key, l, depth).truncated <==> CompactValue(v, key, l, depth).value != Trimmed(v)
    decreases v, 0
  {
    hide KeptKeys, CompactMap, BoundedText, StringLimit;
    forall i | 0 <= i < |items|
      ensures CompactValue(items[i], key, l, depth + 1).truncated <==>
                CompactValue(items[i], key, l, depth + 1).value != Trimmed(items[i])
    {
      ValueFlagIsExact(items[i], key, l, depth + 1);
    }
    var after, trimmed := CompactValue(v, key, l, depth).value.items, Trimmed(v).items;
    assert forall i :: 0 <= i < |after| ==> after[i] == CompactValue(items[i], key, l, depth + 1).value;
    assert forall i :: 0 <= i < |trimmed| ==> trimmed[i] == Trimmed(items[i]);
    if after == trimmed {
      assert forall i :: 0 <= i < |items| ==> after[i] == trimmed[i];
    } else if |after| == |trimmed| {
      var i :| 0 <= i < |after| && after[i] != trimmed[i];
    }
  }

  // ----------------------------------------------------------------- marshalling

  /** The length of json.Marshal's answer. */
  type Size = Json -> nat

  /** What the greedy loop has kept of the first n priority keys. */
  function Greedy(payload: map<string, Json>, priority: seq<string>, size: Size): (r: map<string, Json>)
    ensures forall k :: k in r ==> k in payload && r[k] == payload[k] && k in priority
  {
    if |priority| == 0 then map[]
    else
      var last := priority[|priority| - 1];
      var rest := Greedy(payload, priority[..|priority| - 1], size);
      if last in payload && size(Obj(rest[last := payload[last]])) <= MAX_PAYLOAD_BYTES
          then rest[last := payload[last]] else rest
  }

  lemma {:induction false} GreedyFits(payload: map<string, Json>, priority: seq<string>, size: Size)
    requires size(Obj(map[])) <= MAX_PAYLOAD_BYTES
    ensures size(Obj(Greedy(payload, priority, size))) <= MAX_PAYLOAD_BYTES
  {
    if |priority| > 0 { GreedyFits(payload, priority[..|priority| - 1], size); }
  }

  ghost predicate Extends(a: map<string, Json>, b: map<string, Json>) {
    forall k :: k in a ==> k in b && b[k] == a[k]
  }

  /** Larger objects are never shorter when written out. */
  ghost predicate Monotone(size: Size) {
    forall a: map<string, Json>, b: map<string, Json> :: Extends(a, b) ==> size(Obj(a)) <= size(Obj(b))
  }

  /** Nothing the greedy loop dropped would still fit. */
  lemma {:induction false} GreedyIsMaximal(payload: map<string, Json>, priority: seq<string>, size: Size, k: string)
    requires Monotone(size) && k in priority && k in payload && k !in Greedy(payload, priority, size)
    ensures size(Obj(Greedy(payload, priority, size)[k := payload[k]])) > MAX_PAYLOAD_BYTES
  {
    var last := priority[|priority| - 1];
    var shorter := Greedy(payload, priority[..|priority| - 1], size);
    var all := Greedy(payload, priority, size);
    assert Extends(shorter, all);
    assert priority == priority[..|priority| - 1] + [last];
    if k in priority[..|priority| - 1] && k != last {
      GreedyIsMaximal(payload, priority[..|priority| - 1], size, k);
    }
    assert Extends(shorter[k := payload[k]], all[k := payload[k]]);
  }

  method MarshalMinimal(payload: map<string, Json>, size: Size) returns (out: map<string, Json>)
    ensures out == Greedy(payload, PRIORITY, size)
  {
    hide PRIORITY;
    out := map[];
    for n := 0 to |PRIORITY|
      invariant out == Greedy(payload, PRIORITY[..n], size)
    {
      assert PRIORITY[..n + 1][..n] == PRIORITY[..n];
      if PRIORITY[n] in payload {
        var candidate := out[PRIORITY[n] := payload[PRIORITY[n]]];
        if size(Obj(candidate)) <= MAX_PAYLOAD_BYTES { out := candidate; }
      }
    }
    assert PRIORITY[..|PRIORITY|] == PRIORITY;
  }

  /** marshalLifecyclePayload: what is finally written always fits, and each
      fallback is taken only when the richer form does not. */
  method MarshalPayload(payload: map<string, Json>, size: Size) returns (out: map<string, Json>)
    requires size(Obj(map[])) <= MAX_PAYLOAD_BYTES
    ensures size(Obj(out)) <= MAX_PAYLOAD_BYTES
    ensures size(Obj(payload)) <= MAX_PAYLOAD_BYTES ==> out == payload
    ensures var tight := CompactMap(Obj(payload), TIGHT, 0).value["baron_payload_truncated" := Bool(true)];
            size(Obj(payload)) > MAX_PAYLOAD_BYTES ==>
              out == if size(Obj(tight)) <= MAX_PAYLOAD_BYTES then tight else Greedy(tight, PRIORITY, size)
  {
    hide CompactMap, PRIORITY;
    if size(Obj(payload)) <= MAX_PAYLOAD_BYTES { return payload; }
    var tight := CompactMap(Obj(payload), TIGHT, 0).value["baron_payload_truncated" := Bool(true)];
    if size(Obj(tight)) <= MAX_PAYLOAD_BYTES { return tight; }
    GreedyFits(tight, PRIORITY, size);
    out := MarshalMinimal(tight, size);
  }
}
