/**
 * What `df.groupby('engine_id')` gives a per-row transform: the rows that share
 * the current row's engine id, in ROW order (not cycle order; an engine's rows
 * need not be contiguous). Every windowed transform below looks only at these.
 */
module EngineGroups {
  import opened Wrappers

  /** The indices j < n with ids[j] == e, in row order. */
  function RowsOf(ids: seq<int>, e: int, n: nat): (r: seq<nat>)
    requires n <= |ids|
    ensures |r| <= n
    ensures forall t :: 0 <= t < |r| ==> r[t] < n && ids[r[t]] == e
    decreases n
  {
    if n == 0 then []
    else RowsOf(ids, e, n - 1) + (if ids[n - 1] == e then [n - 1] else [])
  }

  /** RowsOf lists its rows in strictly increasing order. */
  lemma {:induction false} RowsOfIncreasing(ids: seq<int>, e: int, n: nat)
    requires n <= |ids|
    ensures forall s, t :: 0 <= s < t < |RowsOf(ids, e, n)| ==> RowsOf(ids, e, n)[s] < RowsOf(ids, e, n)[t]
  {
    if n > 0 {
      RowsOfIncreasing(ids, e, n - 1);
    }
  }

  /** No row of engine e below n is missing from RowsOf(ids, e, n). */
  lemma {:induction false} RowsOfComplete(ids: seq<int>, e: int, n: nat, j: nat)
    requires n <= |ids| && j < n && ids[j] == e
    ensures j in RowsOf(ids, e, n)
  {
    if j < n - 1 {
      RowsOfComplete(ids, e, n - 1, j);
    }
  }

  /** All rows of engine e. */
  function EngineRows(ids: seq<int>, e: int): seq<nat> {
    RowsOf(ids, e, |ids|)
  }

  /** The rows of row i's engine up to and including row i. */
  function History(ids: seq<int>, i: nat): (h: seq<nat>)
    requires i < |ids|
    ensures 1 <= |h| && h[|h| - 1] == i
  {
    RowsOf(ids, ids[i], i + 1)
  }

  /** How many earlier rows belong to row i's engine: i's position in its group. */
  function Position(ids: seq<int>, i: nat): nat
    requires i < |ids|
  {
    |History(ids, i)| - 1
  }

  /** RowsOf over a shorter prefix is a prefix of RowsOf over a longer one. */
  lemma {:induction false} RowsOfPrefix(ids: seq<int>, e: int, m: nat, n: nat)
    requires m <= n <= |ids|
    ensures |RowsOf(ids, e, m)| <= |RowsOf(ids, e, n)|
    ensures RowsOf(ids, e, m) == RowsOf(ids, e, n)[..|RowsOf(ids, e, m)|]
    decreases n - m
  {
    if m < n {
      RowsOfPrefix(ids, e, m, n - 1);
      var a := RowsOf(ids, e, n - 1);
      assert RowsOf(ids, e, n)[..|a|] == a;
    }
  }

  /** Elements of a strictly increasing sequence have unique indices. */
  lemma IncreasingIndex(r: seq<nat>, s: nat, t: nat)
    requires forall a, b :: 0 <= a < b < |r| ==> r[a] < r[b]
    requires s < |r| && t < |r| && r[s] == r[t]
    ensures s == t
  {
  }

  /**
   * Row i sits at index Position(ids, i) of its engine's full row list, and
   * its history is the part of that list up to it.
   */
  lemma PositionInEngine(ids: seq<int>, i: nat)
    requires i < |ids|
    ensures Position(ids, i) < |EngineRows(ids, ids[i])|
    ensures EngineRows(ids, ids[i])[Position(ids, i)] == i
    ensures History(ids, i) == EngineRows(ids, ids[i])[..Position(ids, i) + 1]
  {
    RowsOfPrefix(ids, ids[i], i + 1, |ids|);
  }

  /** Conversely, the row at index t of engine e's row list has position t. */
  lemma {:induction false} PositionOfEngineRow(ids: seq<int>, e: int, t: nat)
    requires t < |EngineRows(ids, e)|
    ensures EngineRows(ids, e)[t] < |ids| && ids[EngineRows(ids, e)[t]] == e
    ensures Position(ids, EngineRows(ids, e)[t]) == t
  {
    var rows := EngineRows(ids, e);
    var i := rows[t];
    PositionInEngine(ids, i);
    RowsOfIncreasing(ids, e, |ids|);
    IncreasingIndex(rows, Position(ids, i), t);
  }

  /**
   * The same-engine row immediately before row i (`shift(1)` within the group),
   * or None at the engine's first row.
   */
  function Previous(ids: seq<int>, i: nat): (p: Option<nat>)
    requires i < |ids|
    ensures p.None? <==> Position(ids, i) == 0
    ensures p.Some? ==> p.value < i && ids[p.value] == ids[i]
  {
    var h := History(ids, i);
    if |h| >= 2 then Some(h[|h| - 2]) else None
  }

  /** Previous finds the closest earlier row of the engine, and None means there is none. */
  lemma PreviousIsClosest(ids: seq<int>, i: nat)
    requires i < |ids|
    ensures Previous(ids, i).None? ==> forall j :: 0 <= j < i ==> ids[j] != ids[i]
    ensures Previous(ids, i).Some? ==> forall j :: Previous(ids, i).value < j < i ==> ids[j] != ids[i]
  {
    var h := History(ids, i);
    RowsOfIncreasing(ids, ids[i], i + 1);
    forall j | 0 <= j < i && ids[j] == ids[i]
      ensures Previous(ids, i).Some? && j <= Previous(ids, i).value
    {
      RowsOfComplete(ids, ids[i], i + 1, j);
      var u :| 0 <= u < |h| && h[u] == j;
    }
  }

  /** Previous is the engine's row one position earlier. */
  lemma PreviousInEngine(ids: seq<int>, i: nat)
    requires i < |ids|
    ensures Position(ids, i) < |EngineRows(ids, ids[i])|
    ensures Previous(ids, i) == if Position(ids, i) == 0 then None else Some(EngineRows(ids, ids[i])[Position(ids, i) - 1])
  {
    PositionInEngine(ids, i);
  }

  /** The same-engine row k places before row i (`shift(k)` within the group), if any. */
  function LagSource(ids: seq<int>, i: nat, k: nat): (p: Option<nat>)
    requires i < |ids|
    ensures p.Some? <==> Position(ids, i) >= k
    ensures p.Some? ==> p.value <= i && ids[p.value] == ids[i]
  {
    var h := History(ids, i);
    if |h| - 1 >= k then Some(h[|h| - 1 - k]) else None
  }

  /** LagSource is the engine's row k positions earlier. */
  lemma LagSourceInEngine(ids: seq<int>, i: nat, k: nat)
    requires i < |ids| && Position(ids, i) >= k
    ensures Position(ids, i) < |EngineRows(ids, ids[i])|
    ensures LagSource(ids, i, k) == Some(EngineRows(ids, ids[i])[Position(ids, i) - k])
  {
    PositionInEngine(ids, i);
  }

  function Min(a: nat, b: nat): nat {
    if a <= b then a else b
  }

  /**
   * The rows a trailing `rolling(window=w, min_periods=1)` covers at row i:
   * the last min(w, Position + 1) rows of i's engine, ending at i.
   */
  function Window(ids: seq<int>, i: nat, w: nat): (r: seq<nat>)
    requires i < |ids| && 1 <= w
    ensures |r| == Min(w, Position(ids, i) + 1)
    ensures r[|r| - 1] == i
    ensures forall t :: 0 <= t < |r| ==> r[t] <= i && ids[r[t]] == ids[i]
  {
    var h := History(ids, i);
    h[|h| - Min(w, |h|)..]
  }

  /** The window is a slice of the engine's row list: the rows at positions p + 1 - |window| .. p. */
  lemma WindowInEngine(ids: seq<int>, i: nat, w: nat)
    requires i < |ids| && 1 <= w
    ensures Position(ids, i) < |EngineRows(ids, ids[i])|
    ensures Window(ids, i, w) == EngineRows(ids, ids[i])[Position(ids, i) + 1 - |Window(ids, i, w)|..Position(ids, i) + 1]
  {
    PositionInEngine(ids, i);
  }

  function SeenRows(seen: map<int, seq<nat>>, e: int): seq<nat> {
    if e in seen then seen[e] else []
  }

  /**
   * The per-engine row lists a single pass over the first n rows builds: the
   * state such a pass keeps in place of `groupby`.
   */
  function SeenMap(ids: seq<int>, n: nat): map<int, seq<nat>>
    requires n <= |ids|
  {
    if n == 0 then map[]
    else
      var seen := SeenMap(ids, n - 1);
      seen[ids[n - 1] := SeenRows(seen, ids[n - 1]) + [n - 1]]
  }

  /** After n rows the pass holds, for every engine, exactly its rows so far. */
  lemma {:induction false} SeenMapRows(ids: seq<int>, n: nat, e: int)
    requires n <= |ids|
    ensures SeenRows(SeenMap(ids, n), e) == RowsOf(ids, e, n)
  {
    if n > 0 {
      SeenMapRows(ids, n - 1, e);
    }
  }
}
