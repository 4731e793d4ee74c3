/** What eviction comes to: the victims are determined by the state, and removing them brings the cache to its cap. */
module CacheEvict {
  import opened Bytes
  import opened CacheLayout
  import opened CacheState
  import CacheRuns
  import opened Sums

  // ----- one choice only -----

  lemma NoLaterThan(s: State, a: seq<InfoHash>, b: seq<InfoHash>, n: nat)
    requires Evicts(s, a) && Evicts(s, b) && n < |a| && n < |b| && a[..n] == b[..n]
    ensures a[n] in s.torrents && b[n] in s.torrents && s.torrents[a[n]].lastRead <= s.torrents[b[n]].lastRead
  {
    var x, y := a[n], b[n];
    forall j | 0 <= j < n ensures a[j] == b[j] { assert a[..n][j] == b[..n][j]; }
    assert y in b && y in Elements(b) && x in a;
    if y in a {
      var j :| 0 <= j < |a| && a[j] == y;
      assert j >= n;
    }
  }

  lemma {:induction false} SamePrefix(s: State, a: seq<InfoHash>, b: seq<InfoHash>, n: nat)
    requires DistinctTicks(s) && Evicts(s, a) && Evicts(s, b) && n <= |a| && n <= |b|
    ensures a[..n] == b[..n]
  {
    hide Evicts;
    if n > 0 {
      SamePrefix(s, a, b, n - 1);
      NoLaterThan(s, a, b, n - 1);
      NoLaterThan(s, b, a, n - 1);
      assert a[..n] == a[..n - 1] + [a[n - 1]] && b[..n] == b[..n - 1] + [b[n - 1]];
    }
  }

  lemma SumGrows<T(!new)>(a: set<T>, b: set<T>, f: T -> nat)
    requires a <= b
    ensures SumOf(a, f) <= SumOf(b, f)
  {
    SumSplits(a, b - a, f);
    assert a + (b - a) == b;
  }

  /** A second choice cannot go further than a first one that is enough. */
  lemma NotLonger(s: State, a: seq<InfoHash>, b: seq<InfoHash>)
    requires DistinctTicks(s) && Evicts(s, a) && Evicts(s, b)
    ensures |b| <= |a|
  {
    if |a| < |b| {
      SamePrefix(s, a, b, |a|);
      var c := b[..|b| - 1];
      forall i | 0 <= i < |a| ensures a[i] == b[i] { assert a[..|a|][i] == b[..|a|][i]; }
      forall x | x in a ensures x in c {
        var i :| 0 <= i < |a| && a[i] == x;
        assert c[i] == x;
      }
      assert b[|a|] in b && b[|a|] in Elements(b) && b[|a|] !in a && b[|a|] !in Elements(a);
      SumGrows(s.torrents.Keys - Elements(c), s.torrents.Keys - Elements(a), StoredOf(s));
    }
  }

  /** With recency strict, the state alone decides who is evicted and in which order. */
  lemma EvictionIsDetermined(s: State, a: seq<InfoHash>, b: seq<InfoHash>)
    requires DistinctTicks(s) && Evicts(s, a) && Evicts(s, b)
    ensures a == b
  {
    NotLonger(s, a, b);
    NotLonger(s, b, a);
    SamePrefix(s, a, b, |a|);
  }

  /** So in every run. */
  lemma RunsEvictOneWay(cap: nat, steps: seq<CacheRuns.Step>, a: seq<InfoHash>, b: seq<InfoHash>)
    requires CacheRuns.RunAll(CacheRuns.NewWorld(cap), steps).Some?
    requires var s := CacheRuns.RunAll(CacheRuns.NewWorld(cap), steps).value.state; Evicts(s, a) && Evicts(s, b)
    ensures a == b
  {
    var s := CacheRuns.RunAll(CacheRuns.NewWorld(cap), steps).value.state;
    forall t, u | t in s.torrents && u in s.torrents && t != u ensures s.torrents[t].lastRead != s.torrents[u].lastRead {
      CacheRuns.RecencyIsStrict(cap, steps, t, u);
    }
    EvictionIsDetermined(s, a, b);
  }

  // ----- removing the victims -----

  /** Every torrent of the list removed in turn, with what each removal reports. */
  function RemoveAll(s: State, ts: seq<InfoHash>): (State, seq<Result<nat>>)
    decreases |ts|
  {
    if ts == [] then (s, []) else
    var first := RemoveEntry(s, ts[0], false);
    var (end, results) := RemoveAll(first.state, ts[1..]);
    (end, [first.result] + results)
  }

  lemma {:induction false} IdleAreRemoved(s: State, ts: seq<InfoHash>)
    requires Distinct(ts) && Elements(ts) <= Idle(s)
    ensures var (end, results) := RemoveAll(s, ts);
            && end == s.(torrents := s.torrents - Elements(ts)) && |results| == |ts|
            && forall i | 0 <= i < |ts| :: ts[i] in s.torrents && results[i] == Ok(s.torrents[ts[i]].stored)
    decreases |ts|
  {
    forall i | 0 <= i < |ts| ensures ts[i] in Idle(s) { assert ts[i] in Elements(ts); }
    if ts == [] {
      assert s.torrents - {} == s.torrents;
    } else {
      var rest := RemoveEntry(s, ts[0], false).state;
      forall x | x in ts[1..] ensures x in Idle(rest) {
        var i :| 0 <= i < |ts[1..]| && ts[1..][i] == x;
        assert ts[i + 1] == x && ts[0] != ts[i + 1];
      }
      IdleAreRemoved(rest, ts[1..]);
      assert s.torrents - {ts[0]} - Elements(ts[1..]) == s.torrents - Elements(ts) by {
        assert forall x :: x in ts <==> x == ts[0] || x in ts[1..];
      }
    }
  }

  /** Removing the victims reports what each held, and leaves the cache at its cap or with nothing idle in it. */
  lemma VictimsMakeRoom(s: State, victims: seq<InfoHash>)
    requires Evicts(s, victims)
    ensures var (end, results) := RemoveAll(s, victims);
            && (forall i | 0 <= i < |victims| :: victims[i] in s.torrents && i < |results|
                                                  && results[i] == Ok(s.torrents[victims[i]].stored))
            && (StoredIn(end, end.torrents.Keys) <= s.cap || Idle(end) == {})
            && StoredIn(end, end.torrents.Keys) + StoredIn(s, Elements(victims)) == StoredIn(s, s.torrents.Keys)
  {
    IdleAreRemoved(s, victims);
    var end := RemoveAll(s, victims).0;
    var gone := Elements(victims);
    forall i | 0 <= i < |victims| ensures victims[i] in s.torrents { assert victims[i] in gone; }
    assert end.torrents.Keys == s.torrents.Keys - gone;
    SumSame(end.torrents.Keys, StoredOf(end), StoredOf(s));
    SumSplits(end.torrents.Keys, gone, StoredOf(s));
    assert end.torrents.Keys + gone == s.torrents.Keys;
  }
}
