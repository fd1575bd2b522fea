/** The length of a payload written as compact JSON, and a payload that is cut
    without a flag (marshalLifecyclePayload in internal/hooks/hooks.go). */
module PayloadSizes {
  import opened Text
  import opened JsonValues
  import opened Compaction
  import opened StoredPayloads

  // ------------------------------------------------------------------------ length

  /** The sum of the values of a map, in any order. */
  ghost function Sum(m: map<string, nat>): nat {
    if m == map[] then 0
    else
      var k :| k in m;
      m[k] + Sum(m - {k})
  }

  ghost function SumOf(items: seq<nat>): nat {
    if |items| == 0 then 0 else SumOf(items[..|items| - 1]) + items[|items| - 1]
  }

  /** The bytes json.Marshal needs for a value whose strings and keys hold nothing
      to escape: quotes, colons, commas and brackets counted. */
  ghost function JsonSize(v: Json): nat {
    match v
    case Null => 4
    case Bool(flag) => if flag then 4 else 5
    case Number(digits) => |digits|
    case Str(text) => |text| + 2
    case Arr(items) =>
      if items == [] then 2
      else 1 + SumOf(seq(|items|, i requires 0 <= i < |items| => JsonSize(items[i]) + 1))
    case Obj(fields) =>
      if fields == map[] then 2 else 1 + Sum(map k | k in fields :: EntrySize(k, JsonSize(fields[k])))
  }

  /** A key in quotes, its colon, the value and a comma or the closing brace. */
  function EntrySize(key: string, value: nat): nat { |key| + 3 + value + 1 }

  lemma {:induction false} SumWithout(m: map<string, nat>, k: string)
    requires k in m
    ensures Sum(m) == m[k] + Sum(m - {k})
    decreases |m|
  {
    var first := FirstOfSum(m);
    if first != k {
      SumWithout(m - {first}, k);
      SumWithout(m - {k}, first);
      assert m - {first} - {k} == m - {k} - {first};
    }
  }

  /** The key the sum takes first. */
  lemma FirstOfSum(m: map<string, nat>) returns (k: string)
    requires m != map[]
    ensures k in m && Sum(m) == m[k] + Sum(m - {k}) && |m - {k}| == |m| - 1
  {
    k :| k in m && Sum(m) == m[k] + Sum(m - {k});
    assert (m - {k}).Keys == m.Keys - {k};
    assert |(m - {k}).Keys| == |m - {k}| && |m.Keys| == |m|;
  }

  lemma SumWith(m: map<string, nat>, k: string, v: nat)
    requires k !in m
    ensures Sum(m[k := v]) == Sum(m) + v
  {
    SumWithout(m[k := v], k);
    assert m[k := v] - {k} == m;
  }

  lemma {:induction false} SumGrows(a: map<string, nat>, b: map<string, nat>)
    requires forall k :: k in a ==> k in b && a[k] <= b[k]
    ensures Sum(a) <= Sum(b)
    decreases |a|
  {
    if a != map[] {
      var k := FirstOfSum(a);
      SumWithout(b, k);
      SumGrows(a - {k}, b - {k});
    }
  }

  ghost function Entries(fields: map<string, Json>): map<string, nat> {
    map k | k in fields :: EntrySize(k, JsonSize(fields[k]))
  }

  lemma ObjectSize(fields: map<string, Json>)
    ensures JsonSize(Obj(fields)) == if fields == map[] then 2 else 1 + Sum(Entries(fields))
  {
  }

  /** An entry more costs its key, its value and four bytes. */
  lemma OneEntryMore(fields: map<string, Json>, k: string, v: Json)
    requires k !in fields && fields != map[]
    ensures JsonSize(Obj(fields[k := v])) == JsonSize(Obj(fields)) + EntrySize(k, JsonSize(v))
  {
    hide JsonSize, Sum, EntrySize;
    ObjectSize(fields);
    ObjectSize(fields[k := v]);
    SumWith(Entries(fields), k, EntrySize(k, JsonSize(v)));
    assert Entries(fields[k := v]) == Entries(fields)[k := EntrySize(k, JsonSize(v))];
  }

  /** A larger object is never written in fewer bytes. */
  lemma JsonSizeIsMonotone()
    ensures Monotone(JsonSize) && JsonSize(Obj(map[])) <= MAX_PAYLOAD_BYTES
  {
    forall a: map<string, Json>, b: map<string, Json> | Extends(a, b) ensures JsonSize(Obj(a)) <= JsonSize(Obj(b)) {
      LargerIsLonger(a, b);
    }
  }

  lemma LargerIsLonger(a: map<string, Json>, b: map<string, Json>)
    requires Extends(a, b)
    ensures JsonSize(Obj(a)) <= JsonSize(Obj(b))
  {
    ObjectSize(a);
    ObjectSize(b);
    SumGrows(Entries(a), Entries(b));
    if b != map[] {
      var k :| k in b;
      SumWithout(Entries(b), k);
    }
  }

  // ------------------------------------------------------------ a cut without a flag

  /** The lengths of the strings of the payload, by the place of their keys. */
  function LengthAt(i: nat): nat {
    if i in {5, 6, 14} then 4096
    else if i in {7, 8, 9, 10, 33, 34, 36} then 8192
    else if i == 15 then 2048
    else if i == 16 then 1833
    else 0
  }

  function Filler(n: nat): string { seq(n, i => 'a') }

  /** The strings under the first n priority keys. */
  function Upto(n: nat): map<string, Json>
    requires n <= |PRIORITY|
  {
    if n == 0 then map[]
    else if LengthAt(n - 1) == 0 then Upto(n - 1)
    else Upto(n - 1)[PRIORITY[n - 1] := Str(Filler(LengthAt(n - 1)))]
  }

  lemma NamesOfKeys()
    ensures |PRIORITY| == 38
    ensures PRIORITY[5] == "command" && PRIORITY[6] == "tool_name" && PRIORITY[7] == "tool_output"
    ensures PRIORITY[8] == "tool_response" && PRIORITY[9] == "summary" && PRIORITY[10] == "error"
    ensures PRIORITY[14] == "goal" && PRIORITY[15] == "current_step" && PRIORITY[16] == "last_successful_step"
    ensures PRIORITY[33] == "last_assistant_message" && PRIORITY[34] == "response" && PRIORITY[36] == "raw_output"
    ensures PRIORITY[37] == FLAG
  {
    FlagIsLast();
    assert PRIORITY[14] == PROGRESS_KEYS[3] && PRIORITY[15] == PROGRESS_KEYS[4] && PRIORITY[16] == PROGRESS_KEYS[5];
    assert PRIORITY[33] == CONVERSATION_KEYS[3] && PRIORITY[34] == CONVERSATION_KEYS[4];
    assert PRIORITY[36] == CONVERSATION_KEYS[6];
  }

  /** The keys of the first n places that have a length, and what is under them. */
  lemma {:induction false} UptoHas(n: nat)
    requires n <= |PRIORITY|
    ensures forall i :: 0 <= i < |PRIORITY| ==> (PRIORITY[i] in Upto(n) <==> i < n && LengthAt(i) > 0)
    ensures forall i :: 0 <= i < n && LengthAt(i) > 0 ==> Upto(n)[PRIORITY[i]] == Str(Filler(LengthAt(i)))
    ensures forall k :: k in Upto(n) ==> k in PRIORITY
  {
    PriorityIsDistinct();
    hide PRIORITY, LengthAt, Filler;
    if n > 0 {
      UptoHas(n - 1);
      var key, next := PRIORITY[n - 1], Upto(n);
      assert forall k :: k != key ==> (k in next <==> k in Upto(n - 1)) && (k in next ==> next[k] == Upto(n - 1)[k]);
      assert key in next <==> LengthAt(n - 1) > 0;
      hide Upto;
      assert key in PRIORITY && forall i :: 0 <= i < |PRIORITY| && i != n - 1 ==> PRIORITY[i] != key;
    }
  }

  lemma UptoSkips(m: nat, n: nat)
    requires m <= n <= |PRIORITY| && forall i :: m <= i < n ==> LengthAt(i) == 0
    ensures Upto(n) == Upto(m)
  {
    hide PRIORITY, LengthAt;
    if m < n { UptoSkips(m, n - 1); }
  }

  /** The i-th string adds one entry. */
  lemma UptoAdds(i: nat, count: nat, size: nat)
    requires i < |PRIORITY| && LengthAt(i) > 0 && count > 0
    requires |Upto(i)| == count && JsonSize(Obj(Upto(i))) == size
    ensures |Upto(i + 1)| == count + 1 && JsonSize(Obj(Upto(i + 1))) == size + |PRIORITY[i]| + 6 + LengthAt(i)
  {
    UptoHas(i);
    hide PRIORITY, LengthAt, JsonSize;
    var text := Str(Filler(LengthAt(i)));
    OneEntryMore(Upto(i), PRIORITY[i], text);
    StringSize(Filler(LengthAt(i)));
    assert Upto(i + 1).Keys == Upto(i).Keys + {PRIORITY[i]};
    assert |Upto(i + 1).Keys| == |Upto(i + 1)| && |Upto(i).Keys| == |Upto(i)|;
  }

  lemma StringSize(text: string)
    ensures JsonSize(Str(text)) == |text| + 2
  {
  }

  lemma FirstEntry()
    requires |PRIORITY| == 38 && PRIORITY[5] == "command"
    ensures |Upto(6)| == 1 && JsonSize(Obj(Upto(6))) == 4110
  {
    UptoSkips(0, 5);
    hide PRIORITY, JsonSize;
    assert Upto(6) == map[]["command" := Str(Filler(4096))];
    hide Upto, Filler, LengthAt;
    StringSize(Filler(4096));
    OneEntry("command", Str(Filler(4096)));
  }

  lemma OneEntry(k: string, v: Json)
    ensures |map[][k := v]| == 1 && JsonSize(Obj(map[][k := v])) == 1 + EntrySize(k, JsonSize(v))
  {
    ObjectSize(map[][k := v]);
    NothingSums();
    hide JsonSize, Sum, EntrySize;
    SumWith(map[], k, EntrySize(k, JsonSize(v)));
    assert Entries(map[][k := v]) == map[][k := EntrySize(k, JsonSize(v))];
  }

  lemma NothingSums()
    ensures Sum(map[]) == 0
  {
  }

  lemma SizesOfEvents()
    requires |PRIORITY| == 38
    ensures |Upto(11)| == 6 && JsonSize(Obj(Upto(11))) == 41049
  {
    NamesOfKeys();
    hide PRIORITY, JsonSize, Upto;
    FirstEntry();
    UptoAdds(6, 1, 4110);
    UptoAdds(7, 2, 8221);
    UptoAdds(8, 3, 16430);
    UptoAdds(9, 4, 24641);
    UptoAdds(10, 5, 32846);
  }

  lemma SizesOfProgress()
    requires |PRIORITY| == 38
    ensures |Upto(33)| == 9 && JsonSize(Obj(Upto(33))) == 49080
  {
    NamesOfKeys();
    hide PRIORITY, JsonSize, Upto;
    SizesOfEvents();
    UptoSkips(11, 14);
    UptoAdds(14, 6, 41049);
    UptoAdds(15, 7, 45155);
    UptoAdds(16, 8, 47221);
    UptoSkips(17, 33);
  }

  /** All but the last string leave thirty bytes; the last does not fit. */
  lemma SizesOfUpto()
    requires |PRIORITY| == 38
    ensures |Upto(36)| == 11 && JsonSize(Obj(Upto(36))) == 65506
    ensures |Upto(37)| == 12 && JsonSize(Obj(Upto(37))) == 73714
  {
    NamesOfKeys();
    hide PRIORITY, JsonSize, Upto;
    SizesOfProgress();
    UptoAdds(33, 9, 49080);
    UptoAdds(34, 10, 57300);
    UptoSkips(35, 36);
    UptoAdds(36, 11, 65506);
  }

  /** What an agent sends: twelve strings, each within its own limit. */
  function Crowded(): map<string, Json>
    requires |PRIORITY| == 38
  {
    Upto(37)
  }

  lemma StringStays(text: string, key: string, l: Limits)
    requires NoEdgeSpace(text) && |text| <= StringLimit(key, l.text)
    ensures CompactValue(Str(text), key, l, 0) == Compacted(Str(text), false)
  {
    hide StringLimit, Trim;
    assert Trim(text) == text;
  }

  lemma ValuesStay(c: map<string, Json>, l: Limits)
    requires 0 < |c| <= l.keys && forall k :: k in c ==> CompactValue(c[k], k, l, 0) == Compacted(c[k], false)
    ensures CompactMap(Obj(c), l, 0) == Compacted(c, false)
  {
    AllKept(c.Keys, l.keys);
    hide KeptKeys, CompactValue;
    assert CompactMap(Obj(c), l, 0).value == c;
  }

  lemma LimitsSuffice(i: nat, fallback: int)
    requires |PRIORITY| == 38 && LengthAt(i) > 0
    ensures i < 38 && LengthAt(i) <= StringLimit(PRIORITY[i], fallback)
  {
    NamesOfKeys();
    hide PRIORITY;
  }

  lemma FillerIsClean(n: nat)
    ensures |Filler(n)| == n && NoEdgeSpace(Filler(n))
  {
  }

  lemma CrowdedValueStays(k: string, l: Limits)
    requires |PRIORITY| == 38 && k in Crowded()
    ensures CompactValue(Crowded()[k], k, l, 0) == Compacted(Crowded()[k], false)
  {
    UptoHas(37);
    hide PRIORITY, LengthAt, CompactMap, StringLimit, Upto, CompactValue, Filler;
    var i :| 0 <= i < 38 && PRIORITY[i] == k;
    FillerIsClean(LengthAt(i));
    LimitsSuffice(i, l.text);
    StringStays(Filler(LengthAt(i)), k, l);
  }

  /** No limit of either compaction is met. */
  lemma CrowdedStays(l: Limits)
    requires |PRIORITY| == 38 && l.keys >= 12
    ensures CompactMap(Obj(Crowded()), l, 0) == Compacted(Crowded(), false)
  {
    SizesOfUpto();
    hide *;
    assert |Crowded()| == 12 by { CrowdedCount(); }
    forall k | k in Crowded() ensures CompactValue(Crowded()[k], k, l, 0) == Compacted(Crowded()[k], false) {
      CrowdedValueStays(k, l);
    }
    ValuesStay(Crowded(), l);
  }

  lemma CrowdedCount()
    requires |PRIORITY| == 38
    ensures |Crowded()| == 12 && JsonSize(Obj(Crowded())) == 73714
  {
    SizesOfUpto();
    hide PRIORITY, Upto, JsonSize;
  }

  /** Nothing is filled in either. */
  lemma CrowdedIsPrepared(final: bool)
    requires |PRIORITY| == 38
    ensures Prepared(Crowded(), final) == Crowded()
  {
    CrowdedStays(STANDARD);
    CrowdedIsNamed();
    FullyNamed(Crowded(), final);
    hide CompactMap, FillIn, Crowded, PRIORITY;
  }

  lemma CrowdedIsNamed()
    requires |PRIORITY| == 38
    ensures GIVEN <= Crowded().Keys
  {
    NamesOfKeys();
    hide PRIORITY, Crowded;
    InCrowded(5);
    InCrowded(7);
    InCrowded(9);
    InCrowded(10);
    InCrowded(34);
  }

  lemma UptoExtends(m: nat, n: nat)
    requires m <= n <= |PRIORITY|
    ensures Extends(Upto(m), Upto(n))
  {
    UptoHas(m);
    UptoHas(n);
    hide PRIORITY, Upto, LengthAt;
    forall k | k in Upto(m) ensures k in Upto(n) && Upto(n)[k] == Upto(m)[k] {
      var i :| 0 <= i < |PRIORITY| && PRIORITY[i] == k;
    }
  }

  /** The second fallback takes string after string, as long as they fit. */
  lemma {:induction false} GreedyFollows(n: nat)
    requires |PRIORITY| == 38 && n <= 36
    ensures Greedy(Crowded()[FLAG := Bool(true)], PRIORITY[..n], JsonSize) == Upto(n)
  {
    var t := Crowded()[FLAG := Bool(true)];
    if n > 0 {
      GreedyFollows(n - 1);
      TurnOfString(n - 1);
      GreedyStep(t, PRIORITY[..n], JsonSize);
      hide PRIORITY, Greedy, JsonSize, LengthAt, FitsOnTurn;
      assert PRIORITY[..n][..n - 1] == PRIORITY[..n - 1];
      TurnInPrefix(t, PRIORITY, n, n - 1, JsonSize);
      InCrowded(n - 1);
    }
  }

  lemma InCrowded(i: nat)
    requires |PRIORITY| == 38 && i < 37
    ensures PRIORITY[i] in Crowded() <==> LengthAt(i) > 0
    ensures LengthAt(i) > 0 ==> Crowded()[PRIORITY[i]] == Str(Filler(LengthAt(i)))
    ensures PRIORITY[i] != FLAG && FLAG !in Crowded()
  {
    UptoHas(37);
    FlagIsLast();
    PriorityIsDistinct();
    hide PRIORITY, Upto, LengthAt;
  }

  lemma TurnOfString(i: nat)
    requires |PRIORITY| == 38 && i < 36
    requires Greedy(Crowded()[FLAG := Bool(true)], PRIORITY[..i], JsonSize) == Upto(i)
    ensures FitsOnTurn(Crowded()[FLAG := Bool(true)], PRIORITY, i, JsonSize) <==> LengthAt(i) > 0
  {
    InCrowded(i);
    SizesOfUpto();
    UptoExtends(i + 1, 36);
    LargerIsLonger(Upto(i + 1), Upto(36));
    hide PRIORITY, Greedy, JsonSize, LengthAt;
  }

  /** The last string no longer fits. */
  lemma LastStringIsTooLong()
    requires |PRIORITY| == 38
    requires Greedy(Crowded()[FLAG := Bool(true)], PRIORITY[..36], JsonSize) == Upto(36)
    ensures !FitsOnTurn(Crowded()[FLAG := Bool(true)], PRIORITY, 36, JsonSize)
  {
    InCrowded(36);
    CrowdedCount();
    assert Upto(37) == Upto(36)[PRIORITY[36] := Str(Filler(LengthAt(36)))];
    hide PRIORITY, Greedy, JsonSize, Upto, LengthAt, Filler;
  }

  /** Neither does the flag behind the rest. */
  lemma FlagIsTooLong()
    requires |PRIORITY| == 38 && PRIORITY[37] == FLAG
    requires Greedy(Crowded()[FLAG := Bool(true)], PRIORITY[..37], JsonSize) == Upto(36)
    ensures !FitsOnTurn(Crowded()[FLAG := Bool(true)], PRIORITY, 37, JsonSize)
  {
    FlagTakesThirtyOne();
    hide PRIORITY, Greedy, JsonSize, Upto;
  }

  lemma CrowdedIsCut()
    requires |PRIORITY| == 38
    ensures Greedy(Crowded()[FLAG := Bool(true)], PRIORITY, JsonSize) == Upto(36)
  {
    var t := Crowded()[FLAG := Bool(true)];
    FlagIsLast();
    GreedyFollows(36);
    LastStringIsTooLong();
    hide *;
    assert PRIORITY[..37][..36] == PRIORITY[..36] && PRIORITY[..38] == PRIORITY;
    TurnInPrefix(t, PRIORITY, 37, 36, JsonSize);
    GreedyStep(t, PRIORITY[..37], JsonSize);
    FlagIsTooLong();
    GreedyStep(t, PRIORITY, JsonSize);
  }

  lemma FlagTakesThirtyOne()
    requires |PRIORITY| == 38
    ensures JsonSize(Obj(Upto(36)[FLAG := Bool(true)])) == 65537
  {
    UptoHas(36);
    FlagIsLast();
    SizesOfUpto();
    FlagSize();
    hide PRIORITY, JsonSize, Upto, LengthAt;
    OneEntryMore(Upto(36), FLAG, Bool(true));
  }

  lemma FlagSize()
    ensures EntrySize(FLAG, JsonSize(Bool(true))) == 31
  {
  }

  /** The twelve strings take 73714 bytes. Neither compaction cuts any of them;
      the greedy loop drops the last, and the flag no longer fits behind the rest:
      what is stored lost a string and does not say so. */
  lemma CutWithoutFlag(final: bool)
    ensures |PRIORITY| == 38 && Monotone(JsonSize)
    ensures |Crowded()| == 12 && JsonSize(Obj(Crowded())) == 73714
    ensures CompactMap(Obj(Crowded()), STANDARD, 0) == CompactMap(Obj(Crowded()), TIGHT, 0)
            == Compacted(Crowded(), false)
    ensures "raw_output" in Crowded() && Stored(Crowded(), final, JsonSize) == Crowded() - {"raw_output"}
    ensures FLAG !in Stored(Crowded(), final, JsonSize) && JsonSize(Obj(Stored(Crowded(), final, JsonSize))) == 65506
  {
    NamesOfKeys();
    JsonSizeIsMonotone();
    CrowdedCount();
    SizesOfUpto();
    CrowdedIsStored(final);
    WithoutLast();
    InCrowded(36);
    hide PRIORITY, JsonSize, Monotone, Stored, Crowded, Upto, CompactMap;
    CrowdedStays(STANDARD);
    CrowdedStays(TIGHT);
  }

  lemma CrowdedIsStored(final: bool)
    requires |PRIORITY| == 38
    ensures Stored(Crowded(), final, JsonSize) == Upto(36)
  {
    CrowdedCount();
    CrowdedIsPrepared(final);
    CrowdedStays(TIGHT);
    FlaggedIsLonger();
    CrowdedIsCut();
    hide PRIORITY, JsonSize, Prepared, CompactMap, Greedy, Crowded, Upto, LengthAt;
  }

  lemma FlaggedIsLonger()
    requires |PRIORITY| == 38
    ensures JsonSize(Obj(Crowded()[FLAG := Bool(true)])) > MAX_PAYLOAD_BYTES
  {
    CrowdedCount();
    hide PRIORITY, Upto, JsonSize;
    InCrowded(0);
    LargerIsLonger(Crowded(), Crowded()[FLAG := Bool(true)]);
  }

  lemma AddedThenRemoved(m: map<string, Json>, k: string, v: Json)
    requires k !in m
    ensures m[k := v] - {k} == m
  {
  }

  lemma LastIsMissing()
    requires |PRIORITY| == 38
    ensures PRIORITY[36] !in Upto(36) && Upto(37) == Upto(36)[PRIORITY[36] := Str(Filler(8192))]
  {
    UptoHas(36);
    hide PRIORITY;
  }

  lemma WithoutLast()
    requires |PRIORITY| == 38 && PRIORITY[36] == "raw_output"
    ensures Upto(36) == Crowded() - {"raw_output"}
  {
    LastIsMissing();
    hide PRIORITY, Upto, Filler;
    AddedThenRemoved(Upto(36), "raw_output", Str(Filler(8192)));
  }
}
