/** Making a table smaller by dropping candidates, oldest first, and no more than needed. */
module Trimming {
  import S = Sorting

  /** Candidates are entries of the table, each ranked once. */
  predicate Ranked<V>(table: map<string, V>, candidates: set<S.Key>) {
    && (forall key | key in candidates :: key.name in table)
    && (forall a, b | a in candidates && b in candidates && a.name == b.name :: a == b)
  }

  predicate Named(candidates: set<S.Key>, name: string) {
    exists key | key in candidates :: key.name == name
  }

  ghost predicate TrimmedOldest<V>(before: map<string, V>, after: map<string, V>, candidates: set<S.Key>, limit: nat) {
    && after.Keys <= before.Keys && (forall id | id in after :: after[id] == before[id])
    && (forall id | id in before && id !in after :: Named(candidates, id))
    && (|before| <= limit ==> after == before)
    && (|before| > limit ==> |after| >= limit)
    && (|after| > limit ==> forall key | key in candidates :: key.name !in after)
    && (forall gone, kept | gone in candidates && kept in candidates && gone.name !in after && kept.name in after ::
          gone.rank <= kept.rank)
  }

  /** The candidates in the order they are dropped. */
  ghost predicate InOrder(oldestFirst: seq<S.Key>, candidates: set<S.Key>) {
    && (forall i | 0 <= i < |oldestFirst| :: oldestFirst[i] in candidates)
    && (forall key | key in candidates :: key in oldestFirst)
    && (forall i, j | 0 <= i < j < |oldestFirst| ::
          oldestFirst[i].rank <= oldestFirst[j].rank && oldestFirst[i].name != oldestFirst[j].name)
  }

  /** The first `k` candidates are gone and nothing else. */
  ghost predicate TrimmedTo<V>(before: map<string, V>, after: map<string, V>, oldestFirst: seq<S.Key>, k: nat) {
    && (forall id | id in after :: id in before && after[id] == before[id])
    && (forall id | id in before && id !in after :: exists i | 0 <= i < |oldestFirst| :: oldestFirst[i].name == id)
    && (forall i | 0 <= i < |oldestFirst| :: oldestFirst[i].name in after <==> i >= k)
  }

  lemma TrimmedToEnd<V>(before: map<string, V>, after: map<string, V>, candidates: set<S.Key>,
                        oldestFirst: seq<S.Key>, k: nat, limit: nat)
    requires InOrder(oldestFirst, candidates) && k <= |oldestFirst| && TrimmedTo(before, after, oldestFirst, k)
    requires |before| > limit && |after| >= limit && (|after| <= limit || k == |oldestFirst|)
    ensures TrimmedOldest(before, after, candidates, limit)
  {
  }

  lemma TrimNext<V>(before: map<string, V>, after: map<string, V>, candidates: set<S.Key>, oldestFirst: seq<S.Key>,
                    k: nat)
    requires InOrder(oldestFirst, candidates) && k < |oldestFirst| && TrimmedTo(before, after, oldestFirst, k)
    ensures var id := oldestFirst[k].name;
      id in after && |after - {id}| == |after| - 1 && TrimmedTo(before, after - {id}, oldestFirst, k + 1)
  {
    var id := oldestFirst[k].name;
    assert (after - {id}).Keys == after.Keys - {id};
    forall i | 0 <= i < |oldestFirst| && i != k ensures oldestFirst[i].name != id {
      if k < i {
        assert oldestFirst[k].name != oldestFirst[i].name;
      }
    }
  }

  lemma TrimStart<V>(before: map<string, V>, candidates: set<S.Key>)
    requires Ranked(before, candidates)
    ensures InOrder(S.Sorted(candidates), candidates) && TrimmedTo(before, before, S.Sorted(candidates), 0)
  {
  }

  lemma NothingToTrim<V>(before: map<string, V>, candidates: set<S.Key>, limit: nat)
    requires Ranked(before, candidates) && |before| <= limit
    ensures TrimmedOldest(before, before, candidates, limit)
  {
  }

  method TrimOldest<V>(before: map<string, V>, candidates: set<S.Key>, limit: nat) returns (after: map<string, V>)
    requires Ranked(before, candidates)
    ensures TrimmedOldest(before, after, candidates, limit)
  {
    hide S.Sorted, S.Lists, TrimmedOldest, TrimmedTo, InOrder, Ranked;
    after := before;
    if |before| <= limit {
      NothingToTrim(before, candidates, limit);
      return;
    }
    var oldestFirst := S.Sorted(candidates);
    TrimStart(before, candidates);
    var k := 0;
    while k < |oldestFirst| && |after| > limit
      invariant k <= |oldestFirst| && TrimmedTo(before, after, oldestFirst, k) && |after| >= limit
    {
      TrimNext(before, after, candidates, oldestFirst, k);
      after := after - {oldestFirst[k].name};
      k := k + 1;
    }
    TrimmedToEnd(before, after, candidates, oldestFirst, k, limit);
  }
}
