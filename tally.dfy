/**
 * Per-status counting as the list and stats endpoints do it: a JavaScript
 * record used as a counter table (keys in insertion order), initialised with
 * fixed buckets and bumped once per scanned document.
 */
module StatusTally {
  import opened Documents

  /** One key of the counter record with its count. */
  datatype Entry = Entry(key: string, count: int)

  /** A counter record: entries in key-insertion order. */
  type Tally = seq<Entry>

  function KeySet(t: Tally): set<string> {
    if t == [] then {} else {t[0].key} + KeySet(t[1..])
  }

  /** No key occurs twice, as in any JavaScript object. */
  predicate DistinctKeys(t: Tally) {
    t == [] || (t[0].key !in KeySet(t[1..]) && DistinctKeys(t[1..]))
  }

  /** `t[k] || 0`. */
  function Lookup(t: Tally, k: string): int {
    if t == [] then 0
    else if t[0].key == k then t[0].count
    else Lookup(t[1..], k)
  }

  function Sum(t: Tally): int {
    if t == [] then 0 else t[0].count + Sum(t[1..])
  }

  /** A record with the given keys, every count 0. */
  function Zeroes(keys: seq<string>): (t: Tally)
    ensures |t| == |keys| && Sum(t) == 0
    ensures forall i :: 0 <= i < |t| ==> t[i] == Entry(keys[i], 0)
  {
    if keys == [] then [] else [Entry(keys[0], 0)] + Zeroes(keys[1..])
  }

  /** `t[k] = (t[k] || 0) + 1`: bump an existing key in place, or append a new key at 1. */
  function Increment(t: Tally, k: string): (r: Tally)
    requires DistinctKeys(t)
    ensures DistinctKeys(r)
    ensures Lookup(r, k) == Lookup(t, k) + 1
    ensures forall x :: x != k ==> Lookup(r, x) == Lookup(t, x)
    ensures KeySet(r) == KeySet(t) + {k}
    ensures Sum(r) == Sum(t) + 1
    ensures |t| <= |r| && forall i :: 0 <= i < |t| ==> r[i].key == t[i].key
  {
    if t == [] then [Entry(k, 1)]
    else if t[0].key == k then
      LookupAbsent(t[1..], k);
      [Entry(k, t[0].count + 1)] + t[1..]
    else
      var r := [t[0]] + Increment(t[1..], k);
      assert r[1..] == Increment(t[1..], k);
      r
  }

  /** `{...t, k: v}`: overwrite key `k` where it stands, or append it. */
  function SetKey(t: Tally, k: string, v: int): (r: Tally)
    requires DistinctKeys(t)
    ensures DistinctKeys(r)
    ensures Lookup(r, k) == v
    ensures forall x :: x != k ==> Lookup(r, x) == Lookup(t, x)
    ensures KeySet(r) == KeySet(t) + {k}
    ensures |t| <= |r| && forall i :: 0 <= i < |t| ==> r[i].key == t[i].key
  {
    if t == [] then [Entry(k, v)]
    else if t[0].key == k then
      [Entry(k, v)] + t[1..]
    else
      var r := [t[0]] + SetKey(t[1..], k, v);
      assert r[1..] == SetKey(t[1..], k, v);
      r
  }

  lemma {:induction false} LookupAbsent(t: Tally, k: string)
    requires k !in KeySet(t)
    ensures Lookup(t, k) == 0
  {
    if t != [] {
      LookupAbsent(t[1..], k);
    }
  }

  /** `data.applicationStatus || fallback`. */
  function EffectiveStatus(d: Doc, fallback: string): (s: string)
    ensures fallback != "" ==> s != ""
    ensures TextOf(d, "applicationStatus") != "" ==> s == TextOf(d, "applicationStatus")
    ensures TextOf(d, "applicationStatus") == "" ==> s == fallback
  {
    var status := TextOf(d, "applicationStatus");
    if status != "" then status else fallback
  }

  /** The number of documents whose effective status is `k`. */
  function CountStatus(docs: seq<Doc>, fallback: string, k: string): (n: nat)
    ensures n <= |docs|
  {
    if docs == [] then 0
    else CountStatus(docs[..|docs| - 1], fallback, k)
         + (if EffectiveStatus(docs[|docs| - 1], fallback) == k then 1 else 0)
  }

  function StatusesOf(docs: seq<Doc>, fallback: string): set<string> {
    set i | 0 <= i < |docs| :: EffectiveStatus(docs[i], fallback)
  }

  /** The `forEach` that bumps one bucket per document. */
  method TallyStatuses(init: Tally, fallback: string, docs: seq<Doc>) returns (summary: Tally)
    requires DistinctKeys(init)
    ensures DistinctKeys(summary)
    ensures forall k :: Lookup(summary, k) == Lookup(init, k) + CountStatus(docs, fallback, k)
    ensures KeySet(summary) == KeySet(init) + StatusesOf(docs, fallback)
    ensures Sum(summary) == Sum(init) + |docs|
    ensures |init| <= |summary| && forall i :: 0 <= i < |init| ==> summary[i].key == init[i].key
  {
    summary := init;
    var i := 0;
    while i < |docs|
      invariant 0 <= i <= |docs|
      invariant DistinctKeys(summary)
      invariant forall k :: Lookup(summary, k) == Lookup(init, k) + CountStatus(docs[..i], fallback, k)
      invariant KeySet(summary) == KeySet(init) + StatusesOf(docs[..i], fallback)
      invariant Sum(summary) == Sum(init) + i
      invariant |init| <= |summary| && forall j :: 0 <= j < |init| ==> summary[j].key == init[j].key
    {
      var status := EffectiveStatus(docs[i], fallback);
      TallyStep(init, summary, fallback, docs, i);
      summary := Increment(summary, status);
      i := i + 1;
    }
    assert docs[..i] == docs;
  }

  /**
   * The counting record of a handler: the given buckets at zero, in order,
   * then one bump per document of its status, `fallback` when it has none.
   */
  method CountByStatus(buckets: seq<string>, fallback: string, docs: seq<Doc>) returns (summary: Tally)
    requires forall i, j :: 0 <= i < j < |buckets| ==> buckets[i] != buckets[j]
    ensures DistinctKeys(summary)
    ensures forall k :: Lookup(summary, k) == CountStatus(docs, fallback, k)
    ensures KeySet(summary) == (set k | k in buckets) + StatusesOf(docs, fallback)
    ensures Sum(summary) == |docs|
    ensures |summary| >= |buckets| && forall i :: 0 <= i < |buckets| ==> summary[i].key == buckets[i]
  {
    var init := Zeroes(buckets);
    ZeroesKeys(buckets);
    summary := TallyStatuses(init, fallback, docs);
  }

  /** A record of distinct keys all at zero has those keys, counts nothing, and is well formed. */
  lemma {:induction false} ZeroesKeys(keys: seq<string>)
    requires forall i, j :: 0 <= i < j < |keys| ==> keys[i] != keys[j]
    ensures DistinctKeys(Zeroes(keys))
    ensures KeySet(Zeroes(keys)) == set k | k in keys
    ensures forall k :: Lookup(Zeroes(keys), k) == 0
  {
    if keys != [] {
      ZeroesKeys(keys[1..]);
      assert Zeroes(keys)[1..] == Zeroes(keys[1..]);
      assert (set k | k in keys) == {keys[0]} + set k | k in keys[1..];
    }
  }

  /** Bumping the next document's bucket keeps the loop's counting invariant. */
  lemma TallyStep(init: Tally, summary: Tally, fallback: string, docs: seq<Doc>, i: nat)
    requires i < |docs| && DistinctKeys(summary)
    requires forall k :: Lookup(summary, k) == Lookup(init, k) + CountStatus(docs[..i], fallback, k)
    requires KeySet(summary) == KeySet(init) + StatusesOf(docs[..i], fallback)
    ensures forall k :: (Lookup(Increment(summary, EffectiveStatus(docs[i], fallback)), k)
      == Lookup(init, k) + CountStatus(docs[..i + 1], fallback, k))
    ensures KeySet(Increment(summary, EffectiveStatus(docs[i], fallback)))
      == KeySet(init) + StatusesOf(docs[..i + 1], fallback)
  {
    PrefixStep(docs, fallback, i);
  }

  /** What one more document adds to the counts and to the set of statuses seen. */
  lemma PrefixStep(docs: seq<Doc>, fallback: string, i: nat)
    requires i < |docs|
    ensures forall k :: (CountStatus(docs[..i + 1], fallback, k)
      == CountStatus(docs[..i], fallback, k) + (if EffectiveStatus(docs[i], fallback) == k then 1 else 0))
    ensures StatusesOf(docs[..i + 1], fallback) == StatusesOf(docs[..i], fallback) + {EffectiveStatus(docs[i], fallback)}
  {
    assert docs[..i + 1][..i] == docs[..i];
    var s1, s0 := StatusesOf(docs[..i + 1], fallback), StatusesOf(docs[..i], fallback);
    forall x | x in s1 ensures x in s0 + {EffectiveStatus(docs[i], fallback)} {
      var j :| 0 <= j < i + 1 && EffectiveStatus(docs[..i + 1][j], fallback) == x;
      if j < i { assert docs[..i + 1][j] == docs[..i][j]; }
    }
    forall x | x in s0 ensures x in s1 {
      var j :| 0 <= j < i && EffectiveStatus(docs[..i][j], fallback) == x;
      assert docs[..i][j] == docs[..i + 1][j];
    }
    assert EffectiveStatus(docs[..i + 1][i], fallback) in s1;
  }

  /** Counting by effective status accounts for every document exactly once. */
  lemma {:induction false} CountsCoverDocs(docs: seq<Doc>, fallback: string, keys: seq<string>)
    requires forall i :: 0 <= i < |docs| ==> EffectiveStatus(docs[i], fallback) in keys
    requires forall i, j :: 0 <= i < j < |keys| ==> keys[i] != keys[j]
    ensures SumCounts(docs, fallback, keys) == |docs|
    decreases |docs|
  {
    if docs == [] {
      SumCountsEmpty(fallback, keys);
    } else {
      var init := docs[..|docs| - 1];
      var last := EffectiveStatus(docs[|docs| - 1], fallback);
      assert init + [docs[|docs| - 1]] == docs;
      CountsCoverDocs(init, fallback, keys);
      SumCountsStep(init, docs[|docs| - 1], fallback, keys);
      assert SumCounts(docs, fallback, keys) == SumCounts(init, fallback, keys) + 1;
    }
  }

  lemma {:induction false} SumCountsEmpty(fallback: string, keys: seq<string>)
    ensures SumCounts([], fallback, keys) == 0
  {
    if keys != [] {
      SumCountsEmpty(fallback, keys[1..]);
    }
  }

  /** The sum, over `keys`, of the number of documents with each status. */
  function SumCounts(docs: seq<Doc>, fallback: string, keys: seq<string>): int {
    if keys == [] then 0 else CountStatus(docs, fallback, keys[0]) + SumCounts(docs, fallback, keys[1..])
  }

  lemma {:induction false} SumCountsStep(docs: seq<Doc>, d: Doc, fallback: string, keys: seq<string>)
    requires forall i, j :: 0 <= i < j < |keys| ==> keys[i] != keys[j]
    ensures EffectiveStatus(d, fallback) in keys ==>
      SumCounts(docs + [d], fallback, keys) == SumCounts(docs, fallback, keys) + 1
    ensures EffectiveStatus(d, fallback) !in keys ==>
      SumCounts(docs + [d], fallback, keys) == SumCounts(docs, fallback, keys)
  {
    var ext := docs + [d];
    assert ext[..|ext| - 1] == docs;
    if keys != [] {
      SumCountsStep(docs, d, fallback, keys[1..]);
    }
  }
}
