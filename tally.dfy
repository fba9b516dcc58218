/**
 * Counting dictionaries built by `d[k] = d.get(k, 0) + 1`, as the constraint
 * summary and the security summary build theirs. A Python dict keeps its keys
 * in insertion order, so a dictionary is modelled as a list of (key, count)
 * pairs in that order.
 */
module Tally {

  type Counts = seq<(string, nat)>

  /** `d.get(k, 0)`. */
  function Get(d: Counts, k: string): nat
  {
    if d == [] then 0 else if d[0].0 == k then d[0].1 else Get(d[1..], k)
  }

  predicate HasKey(d: Counts, k: string)
  {
    exists i :: 0 <= i < |d| && d[i].0 == k
  }

  /** No key appears twice, as in a dictionary. */
  predicate DistinctKeys(d: Counts)
  {
    forall i, j :: 0 <= i < j < |d| ==> d[i].0 != d[j].0
  }

  /** The sum of all counts. */
  function Total(d: Counts): nat
  {
    if d == [] then 0 else d[0].1 + Total(d[1..])
  }

  /** `d[k] = d.get(k, 0) + 1`: an existing key keeps its place, a new one goes last. */
  function Increment(d: Counts, k: string): Counts
  {
    if d == [] then [(k, 1)]
    else if d[0].0 == k then [(k, d[0].1 + 1)] + d[1..]
    else [d[0]] + Increment(d[1..], k)
  }

  /** How many times `k` occurs in `keys`. */
  function Occurrences(keys: seq<string>, k: string): nat
  {
    if keys == [] then 0
    else Occurrences(keys[..|keys| - 1], k) + (if keys[|keys| - 1] == k then 1 else 0)
  }

  /** The dictionary a loop of increments over `keys` leaves behind, starting from `{}`. */
  function TallyOf(keys: seq<string>): Counts
  {
    if keys == [] then [] else Increment(TallyOf(keys[..|keys| - 1]), keys[|keys| - 1])
  }

  lemma {:induction false} IncrementTotal(d: Counts, k: string)
    ensures Total(Increment(d, k)) == Total(d) + 1
  {
    if d != [] && d[0].0 != k {
      IncrementTotal(d[1..], k);
      assert ([d[0]] + Increment(d[1..], k))[1..] == Increment(d[1..], k);
    } else if d != [] {
      assert ([(k, d[0].1 + 1)] + d[1..])[1..] == d[1..];
    }
  }

  lemma {:induction false} IncrementGet(d: Counts, k: string, k': string)
    ensures Get(Increment(d, k), k') == Get(d, k') + (if k == k' then 1 else 0)
  {
    if d != [] && d[0].0 != k {
      IncrementGet(d[1..], k, k');
      assert ([d[0]] + Increment(d[1..], k))[1..] == Increment(d[1..], k);
    } else if d != [] {
      assert ([(k, d[0].1 + 1)] + d[1..])[1..] == d[1..];
    }
  }

  /** The position of `k` in `d`, or -1 when it is absent. */
  function IndexOf(d: Counts, k: string): (r: int)
    ensures -1 <= r < |d|
    ensures r >= 0 ==> d[r].0 == k && forall j :: 0 <= j < r ==> d[j].0 != k
    ensures r == -1 ==> forall j :: 0 <= j < |d| ==> d[j].0 != k
  {
    if d == [] then -1
    else if d[0].0 == k then 0
    else var t := IndexOf(d[1..], k); if t == -1 then -1 else t + 1
  }

  /** An increment bumps the key where it stands, or appends it with count 1. */
  lemma {:induction false} IncrementShape(d: Counts, k: string)
    ensures IndexOf(d, k) >= 0 ==> Increment(d, k) == d[IndexOf(d, k) := (k, d[IndexOf(d, k)].1 + 1)]
    ensures IndexOf(d, k) == -1 ==> Increment(d, k) == d + [(k, 1)]
  {
    if d != [] && d[0].0 != k {
      IncrementShape(d[1..], k);
    }
  }

  lemma IncrementKeys(d: Counts, k: string, k': string)
    ensures HasKey(Increment(d, k), k') <==> HasKey(d, k') || k' == k
    ensures DistinctKeys(d) ==> DistinctKeys(Increment(d, k))
  {
    IncrementShape(d, k);
    var r := Increment(d, k);
    var i := IndexOf(d, k);
    if i >= 0 {
      assert forall j :: 0 <= j < |d| ==> r[j].0 == d[j].0;
      if HasKey(d, k') { var j :| 0 <= j < |d| && d[j].0 == k'; assert r[j].0 == k'; }
      if HasKey(r, k') { var j :| 0 <= j < |r| && r[j].0 == k'; assert d[j].0 == k'; }
      assert HasKey(d, k);
    } else {
      if HasKey(d, k') { var j :| 0 <= j < |d| && d[j].0 == k'; assert r[j].0 == k'; }
      if HasKey(r, k') && k' != k { var j :| 0 <= j < |r| && r[j].0 == k'; assert j < |d| && d[j].0 == k'; }
      assert r[|d|].0 == k;
    }
  }

  lemma {:induction false} OccurrencesPositive(keys: seq<string>, k: string)
    ensures Occurrences(keys, k) > 0 <==> k in keys
  {
    if keys != [] {
      var init := keys[..|keys| - 1];
      OccurrencesPositive(init, k);
      assert keys == init + [keys[|keys| - 1]];
    }
  }

  /**
   * The tally of `keys`: every count is the number of occurrences of its key,
   * the keys are exactly the distinct elements of `keys`, and the counts add
   * up to `|keys|`.
   */
  lemma {:induction false} TallyOfCounts(keys: seq<string>)
    ensures Total(TallyOf(keys)) == |keys|
    ensures DistinctKeys(TallyOf(keys))
    ensures forall k :: Get(TallyOf(keys), k) == Occurrences(keys, k)
    ensures forall k :: HasKey(TallyOf(keys), k) <==> k in keys
  {
    if keys != [] {
      var init := keys[..|keys| - 1];
      var last := keys[|keys| - 1];
      TallyOfCounts(init);
      IncrementTotal(TallyOf(init), last);
      forall k ensures Get(TallyOf(keys), k) == Occurrences(keys, k) {
        IncrementGet(TallyOf(init), last, k);
      }
      forall k ensures HasKey(TallyOf(keys), k) <==> k in keys {
        IncrementKeys(TallyOf(init), last, k);
        assert keys == init + [last];
      }
      IncrementKeys(TallyOf(init), last, last);
    }
  }

  /** A key's count lies between 1 and the total exactly when the key is present. */
  lemma {:induction false} GetBelowTotal(d: Counts, k: string)
    ensures Get(d, k) <= Total(d)
    ensures Get(d, k) > 0 ==> HasKey(d, k)
  {
    if d != [] {
      GetBelowTotal(d[1..], k);
      if Get(d[1..], k) > 0 && d[0].0 != k {
        var i :| 0 <= i < |d| - 1 && d[1..][i].0 == k;
        assert d[i + 1].0 == k;
      }
    }
  }
}
