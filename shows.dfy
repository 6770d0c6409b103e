/** Show records and the `minEpisodes` filter of `GET /shows`. */
module Shows {
  import opened Json

  /** The record carries an integer `episodes_seen`, so the filter can compare it. */
  predicate HasEpisodes(show: Record)
  {
    "episodes_seen" in show && show["episodes_seen"].Int?
  }

  function Episodes(show: Record): int
    requires HasEpisodes(show)
  {
    show["episodes_seen"].i
  }

  /** A show as the handlers store it: a `name` and an integer `episodes_seen`. */
  predicate IsShow(show: Record)
  {
    "name" in show && HasEpisodes(show)
  }

  predicate AllHaveEpisodes(shows: seq<Record>)
  {
    forall k :: 0 <= k < |shows| ==> HasEpisodes(shows[k])
  }

  /** The values Python's `int(...)` turns into an integer without parsing text. */
  predicate IntCoercible(v: Value)
  {
    v.Int? || v.Bool?
  }

  /** `int(v)` on an integer or a boolean (`int(True) == 1`). */
  function ToInt(v: Value): int
    requires IntCoercible(v)
  {
    match v
    case Int(i) => i
    case Bool(b) => if b then 1 else 0
  }

  /** Reference definition of the filter: the shows with at least `min`
      episodes seen, in their original order. */
  function KeepAtLeast(shows: seq<Record>, min: int): seq<Record>
    requires AllHaveEpisodes(shows)
  {
    if shows == [] then []
    else
      var last := shows[|shows| - 1];
      var kept := KeepAtLeast(shows[..|shows| - 1], min);
      if Episodes(last) >= min then kept + [last] else kept
  }

  /** `kept` is `shows` restricted to the positions `idx`, taken in
      increasing order, and `idx` holds exactly the positions whose show has
      at least `min` episodes seen. `MockDb.SelectsOthers` states the same
      shape for deleting an id from the store's insertion order. */
  ghost predicate SelectsAtLeast(kept: seq<Record>, shows: seq<Record>, min: int, idx: seq<int>)
    requires AllHaveEpisodes(shows)
  {
    && |idx| == |kept|
    && (forall k :: 0 <= k < |idx| ==> 0 <= idx[k] < |shows| && kept[k] == shows[idx[k]])
    && (forall k, l :: 0 <= k < l < |idx| ==> idx[k] < idx[l])
    && (forall j :: 0 <= j < |shows| ==> (j in idx <==> Episodes(shows[j]) >= min))
  }

  lemma {:induction false} SelectionIndices(shows: seq<Record>, min: int) returns (idx: seq<int>)
    requires AllHaveEpisodes(shows)
    ensures SelectsAtLeast(KeepAtLeast(shows, min), shows, min, idx)
    decreases |shows|
  {
    if shows == [] {
      idx := [];
    } else {
      var n := |shows| - 1;
      var init := shows[..n];
      var prev := SelectionIndices(init, min);
      assert forall j :: 0 <= j < n ==> init[j] == shows[j];
      assert n !in prev;
      if Episodes(shows[n]) >= min {
        idx := prev + [n];
      } else {
        idx := prev;
      }
    }
  }

  /** The filter is an order-preserving selection from the stored shows
      that keeps exactly the positions with `episodes_seen >= min`. */
  lemma KeepAtLeastIsExactSelection(shows: seq<Record>, min: int)
    requires AllHaveEpisodes(shows)
    ensures exists idx :: SelectsAtLeast(KeepAtLeast(shows, min), shows, min, idx)
  {
    var idx := SelectionIndices(shows, min);
  }

  /** A show is in the filtered list if and only if it is stored and has at
      least `min` episodes seen. */
  lemma {:induction false} KeepAtLeastMembers(shows: seq<Record>, min: int)
    requires AllHaveEpisodes(shows)
    ensures AllHaveEpisodes(KeepAtLeast(shows, min))
    ensures forall k :: 0 <= k < |KeepAtLeast(shows, min)| ==>
      KeepAtLeast(shows, min)[k] in shows && Episodes(KeepAtLeast(shows, min)[k]) >= min
    ensures forall j :: 0 <= j < |shows| && Episodes(shows[j]) >= min ==> shows[j] in KeepAtLeast(shows, min)
  {
    var kept := KeepAtLeast(shows, min);
    var idx := SelectionIndices(shows, min);
    forall j | 0 <= j < |shows| && Episodes(shows[j]) >= min
      ensures shows[j] in kept
    {
      assert j in idx;
      var k :| 0 <= k < |idx| && idx[k] == j;
      assert kept[k] == shows[j];
    }
  }

  /** When every show reaches `min`, nothing is dropped. */
  lemma {:induction false} KeepAtLeastKeepsAll(shows: seq<Record>, min: int)
    requires AllHaveEpisodes(shows)
    requires forall k :: 0 <= k < |shows| ==> Episodes(shows[k]) >= min
    ensures KeepAtLeast(shows, min) == shows
    decreases |shows|
  {
    if shows != [] {
      KeepAtLeastKeepsAll(shows[..|shows| - 1], min);
    }
  }

  /** When `min` exceeds every show's count, the result is empty. */
  lemma {:induction false} KeepAtLeastDropsAll(shows: seq<Record>, min: int)
    requires AllHaveEpisodes(shows)
    requires forall k :: 0 <= k < |shows| ==> Episodes(shows[k]) < min
    ensures KeepAtLeast(shows, min) == []
    decreases |shows|
  {
    if shows != [] {
      KeepAtLeastDropsAll(shows[..|shows| - 1], min);
    }
  }
}
