/**
 The bounded log-bundle cache (`LogBundleCache`): entries live for a fixed time and at most 64 are
 kept, the oldest making room for a new session.
 */
module LogCache {
  import opened Wrappers
  import opened Sets

  // Instants are milliseconds.
  const TTL := 30_000
  const MAX_ENTRIES := 64

  type Bytes = seq<bv8>

  datatype Cached = Cached(inserted: int, bytes: Bytes)

  type Store = map<string, Cached>

  function Age(inserted: int, now: int): nat {
    if now < inserted then 0 else now - inserted
  }

  function Retained(m: Store, now: int): Store {
    map k | k in m && Age(m[k].inserted, now) < TTL :: m[k]
  }

  predicate Oldest(m: Store, k: string) {
    k in m && forall j :: j in m ==> m[k].inserted <= m[j].inserted
  }

  /** What a store may become; which of several equally old entries goes is not determined. */
  ghost predicate PutStep(m: Store, id: string, bytes: Bytes, now: int, after: Store) {
    var kept := Retained(m, now);
    if |kept| >= MAX_ENTRIES && id !in kept
    then exists oldest :: Oldest(kept, oldest) && after == (kept - {oldest})[id := Cached(now, bytes)]
    else after == kept[id := Cached(now, bytes)]
  }

  function Lookup(m: Store, id: string, now: int): Option<Bytes> {
    if id in m && Age(m[id].inserted, now) < TTL then Some(m[id].bytes) else None
  }

  class LogBundleCache {
    var entries: Store

    constructor ()
      ensures entries == map[]
    {
      entries := map[];
    }

    method GetAt(id: string, now: int) returns (r: Option<Bytes>)
      ensures r == Lookup(entries, id, now)
    {
      if id !in entries { return None; }
      var cached := entries[id];
      if Age(cached.inserted, now) < TTL { return Some(cached.bytes); }
      return None;
    }

    method PutAt(id: string, bytes: Bytes, now: int)
      modifies this
      ensures PutStep(old(entries), id, bytes, now, entries)
    {
      entries := Retained(entries, now);
      if |entries| >= MAX_ENTRIES && id !in entries {
        var oldest := FindOldest(entries);
        entries := entries - {oldest};
      }
      entries := entries[id := Cached(now, bytes)];
    }
  }

  method FindOldest(m: Store) returns (oldest: string)
    requires |m| > 0
    ensures Oldest(m, oldest)
  {
    var todo := m.Keys;
    oldest :| oldest in todo;
    while todo != {}
      invariant oldest in m && todo <= m.Keys
      invariant forall j :: j in m && j !in todo ==> m[oldest].inserted <= m[j].inserted
      decreases |todo|
    {
      var k :| k in todo;
      if m[k].inserted < m[oldest].inserted {
        oldest := k;
      }
      todo := todo - {k};
    }
  }

  // ---------------------------------------------------------------------- histories

  datatype Put = Put(id: string, bytes: Bytes, at: int)

  predicate InOrder(puts: seq<Put>) {
    forall i, j :: 0 <= i < j < |puts| ==> puts[i].at <= puts[j].at
  }

  /** Some way of making the puts, one after the other, leads to `m`. */
  ghost predicate Reached(puts: seq<Put>, m: Store) {
    if puts == [] then m == map[]
    else
      var last := puts[|puts| - 1];
      exists before: Store :: Reached(puts[..|puts| - 1], before) && PutStep(before, last.id, last.bytes, last.at, m)
  }

  /** The position of the latest put of `id`. */
  function LatestPut(puts: seq<Put>, id: string): (r: Option<nat>)
    ensures r.Some? ==> r.value < |puts| && puts[r.value].id == id
  {
    if puts == [] then None
    else if puts[|puts| - 1].id == id then Some(|puts| - 1)
    else LatestPut(puts[..|puts| - 1], id)
  }

  /** The other sessions put at or after an instant. */
  function Others(puts: seq<Put>, id: string, at: int): set<string> {
    set i | 0 <= i < |puts| && puts[i].id != id && puts[i].at >= at :: puts[i].id
  }

  predicate Explained(puts: seq<Put>, id: string, now: int) {
    var i := LatestPut(puts, id);
    i.Some? ==> Age(puts[i.value].at, now) >= TTL || |Others(puts, id, puts[i.value].at)| >= MAX_ENTRIES
  }

  predicate IsLatest(puts: seq<Put>, id: string, entry: Cached) {
    var i := LatestPut(puts, id);
    i.Some? && entry == Cached(puts[i.value].at, puts[i.value].bytes)
  }

  /** What every history leaves behind. */
  ghost predicate Faithful(puts: seq<Put>, m: Store) {
    && |m| <= MAX_ENTRIES
    && (forall id :: id in m ==> IsLatest(puts, id, m[id]))
    && (puts != [] ==> forall id :: id !in m ==> Explained(puts, id, puts[|puts| - 1].at))
  }

  lemma RetainedSize(m: Store, now: int)
    ensures Retained(m, now).Keys <= m.Keys && |Retained(m, now)| <= |m|
  {
    SubsetSize(Retained(m, now).Keys, m.Keys);
  }

  /** A put of another session leaves the latest put of this one where it is. */
  lemma LatestKept(puts: seq<Put>, id: string)
    requires puts != [] && puts[|puts| - 1].id != id
    ensures LatestPut(puts, id) == LatestPut(puts[..|puts| - 1], id)
  {
  }

  lemma OthersGrow(puts: seq<Put>, id: string, at: int)
    requires puts != []
    ensures Others(puts[..|puts| - 1], id, at) <= Others(puts, id, at)
    ensures |Others(puts[..|puts| - 1], id, at)| <= |Others(puts, id, at)|
  {
    var init := puts[..|puts| - 1];
    forall k | k in Others(init, id, at) ensures k in Others(puts, id, at) {
      var i :| 0 <= i < |init| && init[i].id != id && init[i].at >= at && init[i].id == k;
      assert puts[i] == init[i];
    }
    SubsetSize(Others(init, id, at), Others(puts, id, at));
  }

  /** The entry evicted for lack of room is outlived by 64 other sessions. */
  lemma EvictionExplained(puts: seq<Put>, kept: Store, oldest: string)
    requires puts != [] && InOrder(puts)
    requires |kept| >= MAX_ENTRIES && puts[|puts| - 1].id !in kept && Oldest(kept, oldest)
    requires forall k :: k in kept ==> IsLatest(puts[..|puts| - 1], k, kept[k])
    ensures Explained(puts, oldest, puts[|puts| - 1].at)
  {
    var last := puts[|puts| - 1];
    var init := puts[..|puts| - 1];
    LatestKept(puts, oldest);
    var at := kept[oldest].inserted;
    var outlive := (kept.Keys - {oldest}) + {last.id};
    forall k | k in outlive ensures k in Others(puts, oldest, at) {
      if k == last.id {
        assert puts[|puts| - 1].id == k;
      } else {
        var j := LatestPut(init, k).value;
        assert puts[j] == init[j];
        assert puts[j].id == k;
      }
    }
    assert |kept.Keys - {oldest}| == |kept| - 1;
    assert |outlive| == |kept|;
    SubsetSize(outlive, Others(puts, oldest, at));
  }

  /** An entry missing before stays accounted for. */
  lemma MissingExplained(puts: seq<Put>, id: string)
    requires puts != [] && InOrder(puts) && puts[|puts| - 1].id != id
    requires |puts| > 1 ==> Explained(puts[..|puts| - 1], id, puts[|puts| - 2].at)
    ensures Explained(puts, id, puts[|puts| - 1].at)
  {
    LatestKept(puts, id);
    var i := LatestPut(puts, id);
    if i.Some? {
      assert puts[..|puts| - 1][i.value] == puts[i.value];
      OthersGrow(puts, id, puts[i.value].at);
    }
  }

  /** Whichever entry makes room, the others stay as they were and there is never one too many. */
  lemma PutStepEntries(before: Store, put: Put, after: Store)
    requires PutStep(before, put.id, put.bytes, put.at, after)
    ensures put.id in after && after[put.id] == Cached(put.at, put.bytes)
    ensures forall id :: id in after && id != put.id ==> id in before && after[id] == before[id]
  {
  }

  lemma PutStepSize(before: Store, put: Put, after: Store)
    requires PutStep(before, put.id, put.bytes, put.at, after) && |before| <= MAX_ENTRIES
    ensures |after| <= MAX_ENTRIES
  {
    var kept := Retained(before, put.at);
    RetainedSize(before, put.at);
    if |kept| >= MAX_ENTRIES && put.id !in kept {
      var oldest :| Oldest(kept, oldest) && after == (kept - {oldest})[put.id := Cached(put.at, put.bytes)];
      assert after.Keys == (kept.Keys - {oldest}) + {put.id};
      assert |kept.Keys - {oldest}| == |kept.Keys| - 1;
    } else {
      assert after.Keys == kept.Keys + {put.id};
      if put.id in kept {
        assert after.Keys == kept.Keys;
      }
    }
  }

  lemma PutKeepsEntry(puts: seq<Put>, id: string, entry: Cached)
    requires puts != [] && puts[|puts| - 1].id != id && IsLatest(puts[..|puts| - 1], id, entry)
    ensures IsLatest(puts, id, entry)
  {
    var init := puts[..|puts| - 1];
    LatestKept(puts, id);
    assert init[LatestPut(init, id).value] == puts[LatestPut(init, id).value];
  }

  lemma PutKeepsEntries(puts: seq<Put>, before: Store, after: Store)
    requires puts != [] && Faithful(puts[..|puts| - 1], before)
    requires var last := puts[|puts| - 1]; PutStep(before, last.id, last.bytes, last.at, after)
    ensures |after| <= MAX_ENTRIES
    ensures forall id :: id in after ==> IsLatest(puts, id, after[id])
  {
    var last := puts[|puts| - 1];
    PutStepSize(before, last, after);
    PutStepEntries(before, last, after);
    forall id | id in after ensures IsLatest(puts, id, after[id]) {
      if id != last.id {
        PutKeepsEntry(puts, id, after[id]);
      }
    }
  }

  lemma EvictedIsOldest(before: Store, put: Put, after: Store, id: string)
    requires PutStep(before, put.id, put.bytes, put.at, after)
    requires id in Retained(before, put.at) && id !in after
    ensures |Retained(before, put.at)| >= MAX_ENTRIES && put.id !in Retained(before, put.at)
    ensures Oldest(Retained(before, put.at), id)
  {
    assert put.id in after;
  }

  lemma PutKeepsMissing(puts: seq<Put>, before: Store, after: Store, id: string)
    requires puts != [] && InOrder(puts) && Faithful(puts[..|puts| - 1], before)
    requires var last := puts[|puts| - 1]; PutStep(before, last.id, last.bytes, last.at, after)
    requires id !in after
    ensures Explained(puts, id, puts[|puts| - 1].at)
  {
    var last := puts[|puts| - 1];
    var init := puts[..|puts| - 1];
    var kept := Retained(before, last.at);
    if id !in before {
      if init != [] {
        assert init[|init| - 1] == puts[|puts| - 2];
      }
      MissingExplained(puts, id);
    } else if id !in kept {
      LatestKept(puts, id);
      assert init[LatestPut(init, id).value] == puts[LatestPut(init, id).value];
    } else {
      EvictedIsOldest(before, last, after, id);
      EvictionExplained(puts, kept, id);
    }
  }

  lemma {:induction false} HistoryIsFaithful(puts: seq<Put>, m: Store)
    requires InOrder(puts) && Reached(puts, m)
    ensures Faithful(puts, m)
    decreases |puts|
  {
    if puts != [] {
      var last := puts[|puts| - 1];
      var before: Store :| Reached(puts[..|puts| - 1], before) && PutStep(before, last.id, last.bytes, last.at, m);
      HistoryIsFaithful(puts[..|puts| - 1], before);
      PutKeepsEntries(puts, before, m);
      forall id | id !in m ensures Explained(puts, id, last.at) {
        PutKeepsMissing(puts, before, m, id);
      }
    }
  }

  /** A put is there afterwards, and nothing is that was stale by then. */
  lemma PutStepFresh(before: Store, put: Put, after: Store)
    requires PutStep(before, put.id, put.bytes, put.at, after)
    ensures put.id in after && after[put.id] == Cached(put.at, put.bytes)
    ensures forall id :: id in after ==> put.at - after[id].inserted < 30_000
  {
    PutStepEntries(before, put, after);
  }

  lemma LatestPutStays(puts: seq<Put>, m: Store)
    requires puts != [] && Reached(puts, m)
    ensures var last := puts[|puts| - 1];
      && last.id in m && m[last.id] == Cached(last.at, last.bytes)
      && forall id :: id in m ==> last.at - m[id].inserted < 30_000
  {
    var last := puts[|puts| - 1];
    var before: Store :| Reached(puts[..|puts| - 1], before) && PutStep(before, last.id, last.bytes, last.at, m);
    PutStepFresh(before, last, m);
  }

  /** After every history of puts under a monotone clock: at most 64 entries; a hit is the latest put of
      that session and younger than the time to live; and a put that is still fresh is missed only if at
      least 64 other sessions were put at or after its instant. */
  lemma CacheIsFaithful(puts: seq<Put>, m: Store, id: string, now: int)
    requires InOrder(puts) && Reached(puts, m) && (puts != [] ==> puts[|puts| - 1].at <= now)
    ensures |m| <= MAX_ENTRIES
    ensures Lookup(m, id, now).Some? ==>
      var i := LatestPut(puts, id);
      i.Some? && Lookup(m, id, now) == Some(puts[i.value].bytes) && now - puts[i.value].at < TTL
    ensures Lookup(m, id, now).None? && LatestPut(puts, id).Some? ==>
      var put := puts[LatestPut(puts, id).value];
      now - put.at >= TTL || |Others(puts, id, put.at)| >= MAX_ENTRIES
  {
    HistoryIsFaithful(puts, m);
    if puts != [] && id !in m {
      assert Explained(puts, id, puts[|puts| - 1].at);
    }
  }
}
