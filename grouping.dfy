/** `transactionsGroupedByDate`: the transactions bucketed by the calendar date of their
    `created_at`, each bucket keeping the order of the list. */
module Grouping {
  import opened Transactions
  import opened Seqs

  /** `s.split(sep)[0]`: the part of `s` before the first `sep`, or all of `s` if there is none. */
  function BeforeFirst(s: string, sep: char): (r: string)
    ensures r <= s
    ensures sep !in r
    ensures |r| < |s| ==> s[|r|] == sep
  {
    if s == [] || s[0] == sep then []
    else [s[0]] + BeforeFirst(s[1..], sep)
  }

  /** The bucket key of a row: `new Date(createdAt).toISOString().split('T')[0]`. The
      date parsing and ISO normalisation is the library function `isoOf`. */
  function DateKey(isoOf: string -> string, createdAt: string): string
  {
    BeforeFirst(isoOf(createdAt), 'T')
  }

  /** The test "this row falls on date `d`" as a predicate on rows. */
  function OnDate(isoOf: string -> string, d: string): Transaction -> bool
  {
    (t: Transaction) => DateKey(isoOf, t.createdAt) == d
  }

  /** The rows dated `d`, in list order. */
  function Bucket(txs: seq<Transaction>, isoOf: string -> string, d: string): seq<Transaction>
  {
    Filter(txs, OnDate(isoOf, d))
  }

  /** The dates some row of the list falls on. */
  function Dates(txs: seq<Transaction>, isoOf: string -> string): set<string>
  {
    set i | 0 <= i < |txs| :: DateKey(isoOf, txs[i].createdAt)
  }

  /** The date key of an ISO timestamp `day + "T" + time` is `day`, when `day` has no `T`. */
  lemma DayOfIso(day: string, time: string)
    requires 'T' !in day
    ensures BeforeFirst(day + "T" + time, 'T') == day
  {
    var s := day + "T" + time;
    assert s[|day|] == 'T';
    assert s[..|day|] == day;
  }

  /** Specification of the grouping: one entry per date that occurs, holding that date's bucket. */
  function Grouped(txs: seq<Transaction>, isoOf: string -> string): map<string, seq<Transaction>>
  {
    map d | d in Dates(txs, isoOf) :: Bucket(txs, isoOf, d)
  }

  /** The loop of `transactionsGroupedByDate`: walk the list, create an empty bucket for a date
      not seen yet, and append the row to its date's bucket. */
  method GroupByDate(txs: seq<Transaction>, isoOf: string -> string)
    returns (grouped: map<string, seq<Transaction>>)
    ensures grouped == Grouped(txs, isoOf)
  {
    grouped := map[];
    for i := 0 to |txs|
      invariant grouped == Grouped(txs[..i], isoOf)
    {
      var transaction := txs[i];
      var date := DateKey(isoOf, transaction.createdAt);
      ghost var before := grouped;
      if date !in grouped {
        grouped := grouped[date := []];
      }
      grouped := grouped[date := grouped[date] + [transaction]];
      assert grouped == before[date := (if date in before then before[date] else []) + [transaction]];
      assert txs[..i + 1] == txs[..i] + [transaction];
      GroupedSnoc(txs[..i], transaction, isoOf);
    }
    assert txs[..|txs|] == txs;
  }

  /** Grouping one more row changes only its date's bucket, which gains the row at its end
      (starting from an empty bucket when the date is new). */
  lemma GroupedSnoc(s: seq<Transaction>, t: Transaction, isoOf: string -> string)
    ensures var g := Grouped(s, isoOf);
            var d := DateKey(isoOf, t.createdAt);
            Grouped(s + [t], isoOf) == g[d := (if d in g then g[d] else []) + [t]]
  {
    var g := Grouped(s, isoOf);
    var d := DateKey(isoOf, t.createdAt);
    var g' := Grouped(s + [t], isoOf);
    DatesSnoc(s, t, isoOf);
    forall e | e in g'
      ensures g'[e] == g[d := (if d in g then g[d] else []) + [t]][e]
    {
      BucketSnoc(s, t, isoOf, e);
      if e == d && d !in g {
        FilterNone(s, OnDate(isoOf, d));
      }
    }
  }

  /** One more row adds its date to the set of dates. */
  lemma DatesSnoc(s: seq<Transaction>, t: Transaction, isoOf: string -> string)
    ensures Dates(s + [t], isoOf) == Dates(s, isoOf) + {DateKey(isoOf, t.createdAt)}
  {
    assert forall i :: 0 <= i < |s| ==> (s + [t])[i] == s[i];
    assert (s + [t])[|s|] == t;
  }

  /** One more row goes to the end of its own date's bucket and leaves every other bucket alone. */
  lemma BucketSnoc(s: seq<Transaction>, t: Transaction, isoOf: string -> string, e: string)
    ensures Bucket(s + [t], isoOf, e)
         == Bucket(s, isoOf, e) + (if DateKey(isoOf, t.createdAt) == e then [t] else [])
  {
    FilterAppend(s, [t], OnDate(isoOf, e));
    assert [t][1..] == [];
  }

  /** Every row is in the bucket of its own date, and every bucket holds only rows of the list
      that fall on its date; so each row lies in exactly one bucket. */
  lemma EachRowInExactlyOneBucket(txs: seq<Transaction>, isoOf: string -> string)
    ensures forall i :: 0 <= i < |txs| ==>
      DateKey(isoOf, txs[i].createdAt) in Grouped(txs, isoOf) &&
      txs[i] in Grouped(txs, isoOf)[DateKey(isoOf, txs[i].createdAt)]
    ensures forall d, t :: d in Grouped(txs, isoOf) && t in Grouped(txs, isoOf)[d] ==>
      t in txs && DateKey(isoOf, t.createdAt) == d
  {
  }

  /** A key is present precisely when some row falls on that date, and it never maps to an
      empty bucket. */
  lemma KeysAreDatesOfRows(txs: seq<Transaction>, isoOf: string -> string, d: string)
    ensures d in Grouped(txs, isoOf) <==> exists i :: 0 <= i < |txs| && DateKey(isoOf, txs[i].createdAt) == d
    ensures d in Grouped(txs, isoOf) ==> Grouped(txs, isoOf)[d] != []
  {
    var g := Grouped(txs, isoOf);
    if d in g {
      var i :| 0 <= i < |txs| && DateKey(isoOf, txs[i].createdAt) == d;
      assert OnDate(isoOf, d)(txs[i]);
      assert txs[i] in g[d];
    }
  }

  /** Each bucket is exactly the order-preserving subsequence of the rows on its date: it is a
      subsequence of the list, and no subsequence of rows on that date is longer or differs from
      it at equal length. */
  lemma BucketKeepsListOrder(txs: seq<Transaction>, isoOf: string -> string, d: string, r: seq<Transaction>)
    requires d in Grouped(txs, isoOf)
    requires IsSubseq(r, txs)
    requires forall j :: 0 <= j < |r| ==> DateKey(isoOf, r[j].createdAt) == d
    ensures IsSubseq(Grouped(txs, isoOf)[d], txs)
    ensures |r| <= |Grouped(txs, isoOf)[d]|
    ensures |r| == |Grouped(txs, isoOf)[d]| ==> r == Grouped(txs, isoOf)[d]
  {
    FilterIsLargest(r, txs, OnDate(isoOf, d));
  }

  /** The sum of the sizes of all buckets of a map. The choice of key does not matter
      (SizeSumRemove). */
  ghost function SizeSum<K, V>(m: map<K, seq<V>>): nat
    decreases |m|
  {
    if m == map[] then 0
    else
      var k :| k in m;
      |m[k]| + SizeSum(m - {k})
  }

  /** Any key can be taken out first. */
  lemma {:induction false} SizeSumRemove<K, V>(m: map<K, seq<V>>, k: K)
    requires k in m
    ensures SizeSum(m) == |m[k]| + SizeSum(m - {k})
    decreases |m|
  {
    var c :| c in m && SizeSum(m) == |m[c]| + SizeSum(m - {c});
    if c != k {
      SizeSumRemove(m - {c}, k);
      SizeSumRemove(m - {k}, c);
      assert m - {c} - {k} == m - {k} - {c};
    }
  }

  /** The bucket sizes add up to the length of the list: grouping loses and duplicates nothing. */
  lemma {:induction false} BucketSizesSumToLength(txs: seq<Transaction>, isoOf: string -> string)
    ensures SizeSum(Grouped(txs, isoOf)) == |txs|
    decreases |txs|
  {
    if txs == [] {
      assert Grouped(txs, isoOf) == map[];
    } else {
      var n := |txs| - 1;
      var s, t := txs[..n], txs[n];
      assert txs == s + [t];
      BucketSizesSumToLength(s, isoOf);
      GroupedSnoc(s, t, isoOf);
      var g := Grouped(s, isoOf);
      var d := DateKey(isoOf, t.createdAt);
      SizeSumUpdate(g, d, (if d in g then g[d] else []) + [t]);
    }
  }

  /** Replacing one bucket changes the total by the difference of the two sizes. */
  lemma SizeSumUpdate<K, V>(m: map<K, seq<V>>, k: K, v: seq<V>)
    ensures SizeSum(m[k := v]) == SizeSum(m) - (if k in m then |m[k]| else 0) + |v|
  {
    SizeSumRemove(m[k := v], k);
    assert m[k := v] - {k} == m - {k};
    if k in m {
      SizeSumRemove(m, k);
    } else {
      assert m - {k} == m;
    }
  }
}
