/** The text key that identifies an EventSub subscription by type, version and condition. */
module SpecKey {
  import opened Text
  import opened Sorting

  datatype Spec = Spec(eventType: string, version: string, condition: map<string, string>)

  function Pair(key: string, value: string): string {
    key + "=" + value
  }

  function Pairs(keys: seq<string>, condition: map<string, string>): (pairs: seq<string>)
    requires forall key | key in keys :: key in condition
    ensures |pairs| == |keys|
    ensures forall i | 0 <= i < |keys| :: pairs[i] == Pair(keys[i], condition[keys[i]])
  {
    if keys == [] then [] else [Pair(keys[0], condition[keys[0]])] + Pairs(keys[1..], condition)
  }

  function ConditionKeys(spec: Spec): (keys: seq<string>)
    ensures Distinct(keys)
    ensures forall key :: key in keys <==> key in spec.condition
  {
    SortNamesList(spec.condition.Keys);
    SortNames(spec.condition.Keys)
  }

  function Segments(spec: Spec): seq<string> {
    [spec.eventType, spec.version] + Pairs(ConditionKeys(spec), spec.condition)
  }

  function KeyOf(spec: Spec): string {
    Join(Segments(spec), '|')
  }

  method AppendPair(soFar: string, key: string, value: string) returns (longer: string)
    ensures longer == soFar + ['|'] + Pair(key, value)
  {
    longer := soFar + ['|'];
    longer := longer + key;
    longer := longer + "=";
    longer := longer + value;
  }

  method BuildKey(spec: Spec) returns (key: string)
    ensures key == KeyOf(spec)
  {
    hide Join, Written, Pair, Segments;
    var keys := ConditionKeys(spec);
    ghost var pairs := Pairs(keys, spec.condition);
    key := spec.eventType + ['|'] + spec.version;
    HeadJoins(spec, pairs);
    for i := 0 to |keys|
      invariant key == Join(Written(spec, pairs, i), '|')
    {
      KeepsAppending(spec, pairs, i);
      key := AppendPair(key, keys[i], spec.condition[keys[i]]);
    }
    AllWritten(spec);
  }

  function Written(spec: Spec, pairs: seq<string>, i: nat): seq<string>
    requires i <= |pairs|
  {
    [spec.eventType, spec.version] + pairs[..i]
  }

  lemma HeadJoins(spec: Spec, pairs: seq<string>)
    ensures Join(Written(spec, pairs, 0), '|') == spec.eventType + ['|'] + spec.version
  {
  }

  lemma KeepsAppending(spec: Spec, pairs: seq<string>, i: nat)
    requires i < |pairs|
    ensures Join(Written(spec, pairs, i + 1), '|') == Join(Written(spec, pairs, i), '|') + ['|'] + pairs[i]
  {
    assert Written(spec, pairs, i + 1) == Written(spec, pairs, i) + [pairs[i]];
    JoinOneMore(Written(spec, pairs, i), pairs[i], '|');
  }

  lemma AllWritten(spec: Spec)
    ensures var pairs := Pairs(ConditionKeys(spec), spec.condition);
      Written(spec, pairs, |pairs|) == Segments(spec)
  {
    hide Pairs, Pair, ConditionKeys;
    var pairs := Pairs(ConditionKeys(spec), spec.condition);
    assert pairs[..|pairs|] == pairs;
  }

  lemma {:induction false} JoinOneMore(parts: seq<string>, part: string, separator: char)
    requires parts != []
    ensures Join(parts + [part], separator) == Join(parts, separator) + [separator] + part
  {
    assert (parts + [part])[1..] == parts[1..] + [part];
    if |parts| > 1 {
      JoinOneMore(parts[1..], part, separator);
    }
  }

  // ---------------------------------------------------------------- injectivity

  /** No part holds the character that ends it. A condition value may hold '='. */
  predicate SeparatorFree(spec: Spec) {
    && '|' !in spec.eventType && '|' !in spec.version
    && forall key | key in spec.condition :: '|' !in key && '=' !in key && '|' !in spec.condition[key]
  }

  lemma SegmentsHoldNoBar(spec: Spec)
    requires SeparatorFree(spec)
    ensures forall segment | segment in Segments(spec) :: '|' !in segment
  {
    var keys := ConditionKeys(spec);
    hide ConditionKeys, Pairs;
    forall i | 0 <= i < |keys| ensures '|' !in Pairs(keys, spec.condition)[i] {
      PairHoldsNoBar(spec, keys[i]);
    }
  }

  lemma PairHoldsNoBar(spec: Spec, key: string)
    requires SeparatorFree(spec) && key in spec.condition
    ensures '|' !in Pair(key, spec.condition[key])
  {
  }

  /** The type, the version and the written pairs can be read back from the key. */
  lemma KeyGivesSegments(a: Spec, b: Spec)
    requires SeparatorFree(a) && SeparatorFree(b)
    requires KeyOf(a) == KeyOf(b)
    ensures a.eventType == b.eventType && a.version == b.version
    ensures Pairs(ConditionKeys(a), a.condition) == Pairs(ConditionKeys(b), b.condition)
  {
    hide ConditionKeys, SeparatorFree;
    SegmentsHoldNoBar(a);
    SegmentsHoldNoBar(b);
    JoinInjective(Segments(a), Segments(b), '|');
    assert a.eventType == Segments(a)[0] && b.eventType == Segments(b)[0];
    assert a.version == Segments(a)[1] && b.version == Segments(b)[1];
    assert Pairs(ConditionKeys(a), a.condition) == Segments(a)[2..];
    assert Pairs(ConditionKeys(b), b.condition) == Segments(b)[2..];
  }

  lemma SameEntries(keys: seq<string>, a: map<string, string>, b: map<string, string>)
    requires forall key :: key in keys <==> key in a
    requires forall key :: key in keys <==> key in b
    requires forall i | 0 <= i < |keys| :: a[keys[i]] == b[keys[i]]
    ensures a == b
  {
  }

  /** Equal pairs come from equal entries. */
  lemma PairsGiveCondition(ka: seq<string>, a: map<string, string>, kb: seq<string>, b: map<string, string>)
    requires forall key :: key in ka <==> key in a
    requires forall key :: key in kb <==> key in b
    requires forall key | key in a :: '=' !in key
    requires forall key | key in b :: '=' !in key
    requires Pairs(ka, a) == Pairs(kb, b)
    ensures a == b
  {
    var pa, pb := Pairs(ka, a), Pairs(kb, b);
    hide Pairs;
    assert |ka| == |pa| == |kb|;
    forall i | 0 <= i < |ka| ensures ka[i] == kb[i] && a[ka[i]] == b[kb[i]] {
      assert ka[i] in ka && kb[i] in kb;
      assert pa[i] == ka[i] + ['='] + a[ka[i]];
      assert pb[i] == kb[i] + ['='] + b[kb[i]];
      SplitUnique(ka[i], a[ka[i]], kb[i], b[kb[i]], '=');
    }
    assert ka == kb;
    SameEntries(ka, a, b);
  }

  /** Subscriptions with the same key are the same subscription. */
  lemma KeyIsInjective(a: Spec, b: Spec)
    requires SeparatorFree(a) && SeparatorFree(b)
    requires KeyOf(a) == KeyOf(b)
    ensures a == b
  {
    KeyGivesSegments(a, b);
    PairsGiveCondition(ConditionKeys(a), a.condition, ConditionKeys(b), b.condition);
  }

  // ---------------------------------------------------------------- conditions with known keys

  lemma OnlyOne(keys: seq<string>, k: string)
    requires Distinct(keys) && forall key :: key in keys <==> key == k
    ensures keys == [k]
  {
    assert k in keys;
    assert |keys| >= 2 ==> keys[0] != keys[1];
    forall i | 0 <= i < |keys| ensures keys[i] == k {
      assert keys[i] in keys;
    }
  }

  lemma OnlyTwo(keys: seq<string>, k: string, m: string)
    requires Distinct(keys) && k != m && forall key :: key in keys <==> key == k || key == m
    ensures keys == [k, m] || keys == [m, k]
  {
    assert k in keys && m in keys;
    assert |keys| >= 2 ==> keys[0] != keys[1];
    assert |keys| >= 3 ==> keys[0] != keys[2] && keys[1] != keys[2];
    forall i | 0 <= i < |keys| ensures keys[i] == k || keys[i] == m {
      assert keys[i] in keys;
    }
  }

  lemma OneEntryKey(spec: Spec, k: string)
    requires spec.condition.Keys == {k}
    ensures KeyOf(spec) == spec.eventType + ['|'] + (spec.version + ['|'] + Pair(k, spec.condition[k]))
  {
    hide ConditionKeys, Pair;
    OnlyOne(ConditionKeys(spec), k);
    var pair := Pair(k, spec.condition[k]);
    assert Segments(spec) == [spec.eventType, spec.version, pair];
    JoinThree(spec.eventType, spec.version, pair);
  }

  lemma JoinTwo(a: string, b: string)
    ensures Join([a, b], '|') == a + ['|'] + b
  {
    assert [a, b][1..] == [b];
  }

  lemma JoinThree(a: string, b: string, c: string)
    ensures Join([a, b, c], '|') == a + ['|'] + (b + ['|'] + c)
  {
    assert [a, b, c][1..] == [b, c];
    JoinTwo(b, c);
  }

  lemma JoinFour(a: string, b: string, c: string, d: string)
    ensures Join([a, b, c, d], '|') == a + ['|'] + (b + ['|'] + (c + ['|'] + d))
  {
    assert [a, b, c, d][1..] == [b, c, d];
    JoinThree(b, c, d);
  }

  lemma TwoKeys(spec: Spec, k: string, m: string)
    requires spec.condition.Keys == {k, m} && k != m && Leq(k, m)
    ensures ConditionKeys(spec) == [k, m]
  {
    SortNamesAscending(spec.condition.Keys);
    hide SortNames, Leq;
    OnlyTwo(ConditionKeys(spec), k, m);
    if ConditionKeys(spec) == [m, k] {
      assert Leq(ConditionKeys(spec)[0], ConditionKeys(spec)[1]);
      LeqAntisymmetric(k, m);
    }
  }

  lemma TwoEntriesKey(spec: Spec, k: string, m: string)
    requires spec.condition.Keys == {k, m} && k != m && Leq(k, m)
    ensures var first, second := Pair(k, spec.condition[k]), Pair(m, spec.condition[m]);
      KeyOf(spec) == spec.eventType + ['|'] + (spec.version + ['|'] + (first + ['|'] + second))
  {
    TwoKeys(spec, k, m);
    hide ConditionKeys, Pair;
    var first, second := Pair(k, spec.condition[k]), Pair(m, spec.condition[m]);
    assert Segments(spec) == [spec.eventType, spec.version, first, second];
    JoinFour(spec.eventType, spec.version, first, second);
  }

  lemma PairGivesValue(k: string, x: string, y: string)
    requires Pair(k, x) == Pair(k, y)
    ensures x == y
  {
    assert Pair(k, x)[|k| + 1..] == x && Pair(k, y)[|k| + 1..] == y;
  }

  /** What comes after type and version is determined by the key. */
  lemma HeadGives(a: Spec, b: Spec, x: string, y: string)
    requires '|' !in a.eventType && '|' !in a.version && '|' !in b.eventType && '|' !in b.version
    requires a.eventType + ['|'] + (a.version + ['|'] + x) == b.eventType + ['|'] + (b.version + ['|'] + y)
    ensures a.eventType == b.eventType && a.version == b.version && x == y
  {
    SplitUnique(a.eventType, a.version + ['|'] + x, b.eventType, b.version + ['|'] + y, '|');
    SplitUnique(a.version, x, b.version, y, '|');
  }

  /** With a single entry the value may hold anything. */
  lemma OneEntryInjective(a: Spec, b: Spec, k: string)
    requires '|' !in a.eventType && '|' !in a.version && '|' !in b.eventType && '|' !in b.version
    requires a.condition.Keys == {k} && b.condition.Keys == {k} && KeyOf(a) == KeyOf(b)
    ensures a == b
  {
    hide KeyOf;
    OneEntryKey(a, k);
    OneEntryKey(b, k);
    HeadGives(a, b, Pair(k, a.condition[k]), Pair(k, b.condition[k]));
    PairGivesValue(k, a.condition[k], b.condition[k]);
    assert a.condition == b.condition;
  }
}
