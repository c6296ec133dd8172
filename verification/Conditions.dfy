/** Merging freshly computed conditions into the conditions of a status. */
module Conditions {
  import opened Sorting
  import opened KeyedLists

  datatype ConditionStatus = True | False | Unknown

  datatype Condition = Condition(
    conditionType: string,
    status: ConditionStatus,
    observedGeneration: int,
    lastTransitionTime: int,
    reason: string,
    message: string)

  function Type(c: Condition): string { c.conditionType }

  predicate TypeLess(a: Condition, b: Condition) { StringLess(a.conditionType, b.conditionType) }

  // The specification, on the conditions as a map from their types.

  type Content = map<string, Condition>

  /** A new condition keeps the transition time of the old one unless the status changed. */
  function Adjust(m: Content, c: Condition): Condition {
    if c.conditionType in m && m[c.conditionType].status == c.status
    then c.(lastTransitionTime := m[c.conditionType].lastTransitionTime)
    else c
  }

  function Prepared(c: Condition, generation: int, now: int): Condition {
    c.(lastTransitionTime := now, observedGeneration := generation)
  }

  /** `clock[i]` is the time read for the i-th condition. */
  function Merge(m: Content, news: seq<Condition>, generation: int, clock: seq<int>): (r: Content)
    requires |clock| == |news|
  {
    if news == [] then m
    else
      var last := |news| - 1;
      var before := Merge(m, news[..last], generation, clock[..last]);
      before[news[last].conditionType := Adjust(before, Prepared(news[last], generation, clock[last]))]
  }

  // The code.

  class Status {
    var conditions: seq<Condition>

    method MergeCondition(c: Condition, ghost m: Content) returns (changed: bool)
      requires Represents(Type, conditions, m)
      modifies this
      ensures Represents(Type, conditions, m[c.conditionType := Adjust(m, c)])
      ensures changed <==> conditions != old(conditions)
    {
      var found := -1;
      for i := 0 to |conditions|
        invariant conditions == old(conditions)
        invariant -1 <= found < i
        invariant found >= 0 ==> Type(conditions[found]) == c.conditionType
        invariant found < 0 ==> forall j :: 0 <= j < i ==> Type(conditions[j]) != c.conditionType
      {
        if conditions[i].conditionType == c.conditionType {
          found := i;
        }
      }
      if found < 0 {
        AppendRepresents(Type, conditions, m, c);
        conditions := conditions + [c];
        return true;
      }
      var previous := conditions[found];
      var replacement := if previous.status == c.status then c.(lastTransitionTime := previous.lastTransitionTime) else c;
      ReplaceRepresents(Type, conditions, m, found, replacement);
      changed := previous != replacement;
      if changed {
        conditions := conditions[found := replacement];
      }
      assert !changed ==> conditions[found := replacement] == conditions;
    }

    method MergeConfigConditions(news: seq<Condition>, generation: int, clock: seq<int>, ghost m: Content) returns (hadError: bool)
      requires |clock| == |news| && Represents(Type, conditions, m)
      modifies this
      ensures Represents(Type, conditions, Merge(m, news, generation, clock)) && Canonical(TypeLess, conditions)
      ensures hadError <==> exists i :: 0 <= i < |news| && news[i].status == False
    {
      hadError := false;
      for i := 0 to |news|
        invariant Represents(Type, conditions, Merge(m, news[..i], generation, clock[..i]))
        invariant hadError <==> exists j :: 0 <= j < i && news[j].status == False
      {
        var cond := Prepared(news[i], generation, clock[i]);
        var _ := MergeCondition(cond, Merge(m, news[..i], generation, clock[..i]));
        assert news[..i + 1][..i] == news[..i] && clock[..i + 1][..i] == clock[..i];
        if cond.status == False {
          hadError := true;
        }
      }
      assert news[..|news|] == news && clock[..|news|] == clock;
      TypeOrder();
      SortRepresents(Type, TypeLess, conditions, Merge(m, news, generation, clock));
      conditions := StableSort(TypeLess, conditions);
    }
  }

  lemma TypeOrder()
    ensures OrdersByKey(Type, TypeLess)
  {
    StringOrder();
  }

  // What merging promises.

  /** No type is lost, no type is made up, and conditions that were not merged are as they were. */
  lemma {:induction false} OthersAreLeftAlone(m: Content, news: seq<Condition>, generation: int, clock: seq<int>, t: string)
    requires |clock| == |news|
    ensures t in Merge(m, news, generation, clock) <==> t in m || exists i :: 0 <= i < |news| && news[i].conditionType == t
    ensures (forall i :: 0 <= i < |news| ==> news[i].conditionType != t) && t in m ==> Merge(m, news, generation, clock)[t] == m[t]
  {
    if news != [] {
      var last := |news| - 1;
      OthersAreLeftAlone(m, news[..last], generation, clock[..last], t);
      assert forall i :: 0 <= i < last ==> news[..last][i] == news[i];
      assert (exists i :: 0 <= i < |news| && news[i].conditionType == t) <==>
             (exists i :: 0 <= i < last && news[..last][i].conditionType == t) || news[last].conditionType == t;
    }
  }

  /** The transition time of a condition that was there moves exactly when its status does; the rest is as computed. */
  lemma {:induction false} TransitionTimeMovesWithStatus(m: Content, news: seq<Condition>, generation: int, clock: seq<int>, i: nat)
    requires |clock| == |news| && DistinctKeys(Type, news) && i < |news|
    ensures var t := news[i].conditionType;
      var r := Merge(m, news, generation, clock);
      && t in r
      && r[t] == news[i].(observedGeneration := generation,
           lastTransitionTime := if t in m && m[t].status == news[i].status then m[t].lastTransitionTime else clock[i])
  {
    var last, t := |news| - 1, news[i].conditionType;
    if i < last {
      assert Type(news[i]) != Type(news[last]);
      TransitionTimeMovesWithStatus(m, news[..last], generation, clock[..last], i);
    } else {
      forall j | 0 <= j < last ensures news[..last][j].conditionType != t {
        assert Type(news[j]) != Type(news[last]);
      }
      OthersAreLeftAlone(m, news[..last], generation, clock[..last], t);
    }
  }

  /** The content says what the condition says, except perhaps about the transition time. */
  predicate UpToDate(r: Content, c: Condition, generation: int) {
    && c.conditionType in r
    && r[c.conditionType] == c.(observedGeneration := generation, lastTransitionTime := r[c.conditionType].lastTransitionTime)
  }

  lemma {:induction false} MergingIntoItself(r: Content, news: seq<Condition>, generation: int, clock: seq<int>)
    requires |clock| == |news|
    requires forall i :: 0 <= i < |news| ==> UpToDate(r, news[i], generation)
    ensures Merge(r, news, generation, clock) == r
  {
    if news != [] {
      var last := |news| - 1;
      assert forall i :: 0 <= i < last ==> news[..last][i] == news[i];
      MergingIntoItself(r, news[..last], generation, clock[..last]);
      assert UpToDate(r, news[last], generation);
    }
  }

  /** Merging the same conditions again, at any later time, changes nothing, so a controller that does so stops writing. */
  lemma MergeIsAFixpoint(m: Content, news: seq<Condition>, generation: int, clock: seq<int>, later: seq<int>)
    requires |clock| == |news| == |later| && DistinctKeys(Type, news)
    ensures var r := Merge(m, news, generation, clock); Merge(r, news, generation, later) == r
  {
    var r := Merge(m, news, generation, clock);
    forall i | 0 <= i < |news|
      ensures UpToDate(r, news[i], generation)
    {
      TransitionTimeMovesWithStatus(m, news, generation, clock, i);
    }
    MergingIntoItself(r, news, generation, later);
  }

  /** What a second merge leaves is the very list that the first one left. */
  lemma StatusStopsChanging(xs: seq<Condition>, ys: seq<Condition>, m: Content, news: seq<Condition>, generation: int, clock: seq<int>, later: seq<int>)
    requires |clock| == |news| == |later| && DistinctKeys(Type, news)
    requires Represents(Type, xs, Merge(m, news, generation, clock)) && Canonical(TypeLess, xs)
    requires Represents(Type, ys, Merge(Merge(m, news, generation, clock), news, generation, later)) && Canonical(TypeLess, ys)
    ensures xs == ys
  {
    MergeIsAFixpoint(m, news, generation, clock, later);
    TypeOrder();
    CanonicalIsUnique(Type, TypeLess, xs, ys, Merge(m, news, generation, clock));
  }
}
