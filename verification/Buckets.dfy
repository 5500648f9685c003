/** Sample history in fixed-width buckets, and summed up over the whole range. */
module Buckets {
  import opened Model
  import opened Arithmetic
  import opened Netmon

  // ---- buckets and summary ----------------------------------------------------------------

  datatype Tally = Tally(total: nat, success: nat, fail: nat, latencies: seq<real>)

  const NOTHING := Tally(0, 0, 0, [])

  function Count(t: Tally, r: Sample): Tally {
    if r.Failed() then t.(total := t.total + 1, fail := t.fail + 1)
    else t.(total := t.total + 1, success := t.success + 1, latencies := t.latencies + [r.latency.value])
  }

  function TallyOf(rows: seq<Sample>): Tally {
    if rows == [] then NOTHING else Count(TallyOf(rows[..|rows| - 1]), rows[|rows| - 1])
  }

  function Sum(xs: seq<real>): real {
    if xs == [] then 0.0 else Sum(xs[..|xs| - 1]) + xs[|xs| - 1]
  }

  function Average(xs: seq<real>): Option<real> {
    if xs == [] then None else Some(Sum(xs) / |xs| as real)
  }

  type Width = w: real | w > 0.0 witness 1.0

  /** How many whole widths into the queried range a sample lies. */
  function Index(from: real, width: Width, ts: real): int {
    ((ts - from) / width).Floor
  }

  function BucketStart(from: real, width: Width, index: int): real {
    from + index as real * width
  }

  /** A sample belongs to a bucket exactly if it lies in the bucket's half-open window. */
  lemma BucketIsWindow(from: real, width: Width, index: int, ts: real)
    ensures var start := BucketStart(from, width, index);
            Index(from, width, ts) == index <==> start <= ts < start + width
  {
    var x := ts - from;
    FloorOfQuotient(x, width);
    var mine := index as real * width;
    if mine <= x < mine + width {
      SameMultiple((x / width).Floor, index, width, x);
    }
  }

  /** Sorting by index is sorting by start, and no two buckets start together. */
  lemma StartsAscend(from: real, width: Width, j: int, k: int)
    requires j < k
    ensures BucketStart(from, width, j) + width <= BucketStart(from, width, k)
  {
    Apart(j, k, width, j as real * width, k as real * width);
  }

  /** A sample and the bucket it falls into. */
  datatype Filed = Filed(index: int, row: Sample)

  function File(rows: seq<Sample>, from: real, width: Width): (filed: seq<Filed>)
    ensures |filed| == |rows|
    ensures forall n :: 0 <= n < |rows| ==> filed[n] == Filed(Index(from, width, rows[n].ts), rows[n])
  {
    seq(|rows|, n requires 0 <= n < |rows| => Filed(Index(from, width, rows[n].ts), rows[n]))
  }

  /** The rows of one bucket, in order. */
  function InBucket(filed: seq<Filed>, k: int): seq<Sample> {
    if filed == [] then []
    else
      var f := filed[|filed| - 1];
      InBucket(filed[..|filed| - 1], k) + (if f.index == k then [f.row] else [])
  }

  datatype Bucket = Bucket(start: real, total: nat, success: nat, fail: nat, avg: Option<real>)

  function BucketOf(start: real, t: Tally): Bucket {
    Bucket(start, t.total, t.success, t.fail, Average(t.latencies))
  }

  // ---- keys in order ------------------------------------------------------------------------

  predicate Has(keys: seq<int>, k: int) {
    keys != [] && (keys[|keys| - 1] == k || Has(keys[..|keys| - 1], k))
  }

  ghost predicate Ascending(keys: seq<int>) {
    |keys| > 1 ==> keys[|keys| - 2] < keys[|keys| - 1] && Ascending(keys[..|keys| - 1])
  }

  function Insert(keys: seq<int>, k: int): seq<int> {
    if keys == [] then [k]
    else
      var last := keys[|keys| - 1];
      if last < k then keys + [k] else if last == k then keys else Insert(keys[..|keys| - 1], k) + [last]
  }

  /** As `sorted` gives the keys of a dictionary. */
  function Sorted(keys: seq<int>): seq<int> {
    if keys == [] then [] else Insert(Sorted(keys[..|keys| - 1]), keys[|keys| - 1])
  }

  lemma HasSnoc(keys: seq<int>, k: int, x: int)
    ensures Has(keys + [k], x) <==> k == x || Has(keys, x)
  {
    assert (keys + [k])[..|keys|] == keys;
  }

  lemma {:induction false} InsertAdds(keys: seq<int>, k: int, x: int)
    ensures Has(Insert(keys, k), x) <==> k == x || Has(keys, x)
  {
    if keys == [] {
      HasSnoc(keys, k, x);
      assert keys + [k] == [k];
    } else {
      var before, last := keys[..|keys| - 1], keys[|keys| - 1];
      InsertAdds(before, k, x);
      HasSnoc(keys, k, x);
      HasSnoc(Insert(before, k), last, x);
    }
  }

  lemma {:induction false} InsertAscends(keys: seq<int>, k: int)
    requires Ascending(keys)
    ensures Ascending(Insert(keys, k)) && Insert(keys, k) != []
    ensures var end := Insert(keys, k)[|Insert(keys, k)| - 1]; end == k || (keys != [] && end == keys[|keys| - 1] > k)
  {
    if keys != [] {
      var before, last := keys[..|keys| - 1], keys[|keys| - 1];
      InsertAscends(before, k);
      var inner := Insert(before, k);
      assert (inner + [last])[..|inner|] == inner;
      assert (keys + [k])[..|keys|] == keys;
    }
  }

  lemma {:induction false} SortedKeeps(keys: seq<int>, x: int)
    ensures Ascending(Sorted(keys)) && (Has(Sorted(keys), x) <==> Has(keys, x))
  {
    if keys != [] {
      SortedKeeps(keys[..|keys| - 1], x);
      InsertAscends(Sorted(keys[..|keys| - 1]), keys[|keys| - 1]);
      InsertAdds(Sorted(keys[..|keys| - 1]), keys[|keys| - 1], x);
    }
  }

  lemma {:induction false} LastIsLargest(keys: seq<int>, x: int)
    requires keys != [] && Ascending(keys) && Has(keys[..|keys| - 1], x)
    ensures x < keys[|keys| - 1]
  {
    var before := keys[..|keys| - 1];
    if before[|before| - 1] != x {
      LastIsLargest(before, x);
    }
  }

  // ---- filling -------------------------------------------------------------------------------

  /** One bucket for each key that has a sample, smallest first, with that bucket's figures. */
  ghost predicate Bucketing(rows: seq<Sample>, from: real, width: Width, keys: seq<int>, result: seq<Bucket>) {
    && Ascending(keys)
    && Complete(keys, File(rows, from, width))
    && Filled(rows, from, width, keys, result)
  }

  ghost predicate Complete(keys: seq<int>, filed: seq<Filed>) {
    forall k :: Has(keys, k) <==> InBucket(filed, k) != []
  }

  ghost predicate Filled(rows: seq<Sample>, from: real, width: Width, keys: seq<int>, result: seq<Bucket>) {
    && |result| == |keys|
    && forall n :: 0 <= n < |keys| ==>
         result[n] == BucketOf(BucketStart(from, width, keys[n]), TallyOf(InBucket(File(rows, from, width), keys[n])))
  }

  lemma InBucketSnoc(filed: seq<Filed>, f: Filed, k: int)
    ensures f.index == k ==> InBucket(filed + [f], k) == InBucket(filed, k) + [f.row]
    ensures f.index != k ==> InBucket(filed + [f], k) == InBucket(filed, k)
  {
    assert (filed + [f])[..|filed|] == filed;
  }

  lemma TallySnoc(rows: seq<Sample>, r: Sample)
    ensures TallyOf(rows + [r]) == Count(TallyOf(rows), r)
  {
    assert (rows + [r])[..|rows|] == rows;
  }

  function Found(buckets: map<int, Tally>, k: int): Tally {
    if k in buckets then buckets[k] else NOTHING
  }

  /** The dictionary and the order of its keys, for one key. */
  ghost predicate Holds(buckets: map<int, Tally>, order: seq<int>, filed: seq<Filed>, k: int) {
    && (k in buckets <==> InBucket(filed, k) != [])
    && (Has(order, k) <==> InBucket(filed, k) != [])
    && Found(buckets, k) == TallyOf(InBucket(filed, k))
  }

  lemma HoldsSnoc(buckets: map<int, Tally>, order: seq<int>, filed: seq<Filed>, f: Filed, k: int)
    requires Holds(buckets, order, filed, k)
    ensures Holds(buckets[f.index := Count(Found(buckets, f.index), f.row)],
                  if f.index in buckets then order else order + [f.index], filed + [f], k)
  {
    InBucketSnoc(filed, f, k);
    HasSnoc(order, f.index, k);
    if k == f.index {
      TallySnoc(InBucket(filed, k), f.row);
    }
  }

  ghost predicate AllHold(buckets: map<int, Tally>, order: seq<int>, filed: seq<Filed>) {
    forall k :: Holds(buckets, order, filed, k)
  }

  lemma AllHoldSnoc(buckets: map<int, Tally>, order: seq<int>, filed: seq<Filed>, f: Filed)
    requires AllHold(buckets, order, filed)
    ensures AllHold(buckets[f.index := Count(Found(buckets, f.index), f.row)],
                    if f.index in buckets then order else order + [f.index], filed + [f])
  {
    var buckets', order' := buckets[f.index := Count(Found(buckets, f.index), f.row)], if f.index in buckets
       then order else order + [f.index];
    forall k: int ensures Holds(buckets', order', filed + [f], k) {
      assert Holds(buckets, order, filed, k);
      HoldsSnoc(buckets, order, filed, f, k);
    }
  }

  method FillBuckets(rows: seq<Sample>, from: real, width: Width) returns (buckets: map<int, Tally>, order: seq<int>)
    ensures AllHold(buckets, order, File(rows, from, width))
  {
    ghost var filed := File(rows, from, width);
    buckets, order := map[], [];
    for n := 0 to |rows|
      invariant AllHold(buckets, order, filed[..n])
    {
      AllHoldSnoc(buckets, order, filed[..n], filed[n]);
      assert filed[..n + 1] == filed[..n] + [filed[n]];
      var r := rows[n];
      var i := Index(from, width, r.ts);
      var b := if i in buckets then buckets[i] else NOTHING;
      b := b.(total := b.total + 1);
      if r.Failed() {
        b := b.(fail := b.fail + 1);
      } else {
        b := b.(success := b.success + 1, latencies := b.latencies + [r.latency.value]);
      }
      order := if i in buckets then order else order + [i];
      buckets := buckets[i := b];
    }
    assert filed[..|rows|] == filed;
  }

  lemma {:induction false} HasAt(keys: seq<int>, n: nat)
    requires n < |keys|
    ensures Has(keys, keys[n])
  {
    if n < |keys| - 1 {
      HasAt(keys[..|keys| - 1], n);
    }
  }

  lemma SortedIsComplete(buckets: map<int, Tally>, order: seq<int>, filed: seq<Filed>)
    requires AllHold(buckets, order, filed)
    ensures Ascending(Sorted(order)) && Complete(Sorted(order), filed)
  {
    SortedKeeps(order, 0);
    forall k ensures Has(Sorted(order), k) <==> InBucket(filed, k) != [] {
      SortedKeeps(order, k);
      assert Holds(buckets, order, filed, k);
    }
  }

  lemma KeyIsFound(buckets: map<int, Tally>, order: seq<int>, filed: seq<Filed>, n: nat)
    requires AllHold(buckets, order, filed) && n < |Sorted(order)|
    ensures var k := Sorted(order)[n]; k in buckets && buckets[k] == TallyOf(InBucket(filed, k))
  {
    var k := Sorted(order)[n];
    HasAt(Sorted(order), n);
    SortedKeeps(order, k);
    assert Holds(buckets, order, filed, k);
  }

  /** List the buckets in order of their keys. */
  method ListBuckets(ghost rows: seq<Sample>, from: real, width: Width, buckets: map<int, Tally>, order: seq<int>)
    returns (result: seq<Bucket>)
    requires AllHold(buckets, order, File(rows, from, width))
    ensures Filled(rows, from, width, Sorted(order), result)
  {
    var sorted := Sorted(order);
    result := [];
    for n := 0 to |sorted|
      invariant Filled(rows, from, width, sorted[..n], result)
    {
      KeyIsFound(buckets, order, File(rows, from, width), n);
      result := result + [BucketOf(BucketStart(from, width, sorted[n]), buckets[sorted[n]])];
    }
    assert sorted[..|sorted|] == sorted;
  }

  method QueryBuckets(rows: seq<Sample>, from: real, width: Width) returns (result: seq<Bucket>)
    ensures exists keys :: Bucketing(rows, from, width, keys, result)
  {
    var buckets, order := FillBuckets(rows, from, width);
    result := ListBuckets(rows, from, width, buckets, order);
    SortedIsComplete(buckets, order, File(rows, from, width));
    assert Bucketing(rows, from, width, Sorted(order), result);
  }

  datatype Summary = Summary(total: nat, success: nat, fail: nat, uptimePct: Option<real>, avg: Option<real>)

  function FailuresIn(rows: seq<Sample>): (n: nat)
    ensures n <= |rows|
  {
    if rows == [] then 0 else FailuresIn(rows[..|rows| - 1]) + (if rows[|rows| - 1].Failed() then 1 else 0)
  }

  /** The latencies that are not null. */
  function Latencies(rows: seq<Sample>): seq<real> {
    if rows == [] then []
    else Latencies(rows[..|rows| - 1]) + (if rows[|rows| - 1].Failed() then [] else [rows[|rows| - 1].latency.value])
  }

  function QuerySummary(rows: seq<Sample>): Summary {
    var total, fail := |rows|, FailuresIn(rows);
    Summary(total, total - fail, fail,
            if total == 0 then None else Some(100.0 * (total - fail) as real / total as real),
            Average(Latencies(rows)))
  }

  // ---- conservation -----------------------------------------------------------------------------

  /** Counts, and latency added up. */
  datatype Sums = Sums(total: nat, success: nat, fail: nat, latency: real)

  function Plus(a: Sums, b: Sums): Sums {
    Sums(a.total + b.total, a.success + b.success, a.fail + b.fail, a.latency + b.latency)
  }

  function Zero(): Sums {
    Sums(0, 0, 0, 0.0)
  }

  function One(r: Sample): Sums {
    if r.Failed() then Sums(1, 0, 1, 0.0) else Sums(1, 1, 0, r.latency.value)
  }

  function AllOf(rows: seq<Sample>): Sums {
    if rows == [] then Zero() else Plus(AllOf(rows[..|rows| - 1]), One(rows[|rows| - 1]))
  }

  /** The buckets with the given keys, added up. */
  function Across(keys: seq<int>, filed: seq<Filed>): Sums {
    if keys == [] then Zero()
    else Plus(Across(keys[..|keys| - 1], filed), AllOf(InBucket(filed, keys[|keys| - 1])))
  }

  lemma BucketAdds(filed: seq<Filed>, f: Filed, k: int)
    ensures AllOf(InBucket(filed + [f], k)) == Plus(AllOf(InBucket(filed, k)), When(f.index == k, One(f.row)))
  {
    InBucketSnoc(filed, f, k);
    AllOfSnoc(InBucket(filed, k), f.row);
  }

  lemma AllOfSnoc(rows: seq<Sample>, r: Sample)
    ensures AllOf(rows + [r]) == Plus(AllOf(rows), One(r))
  {
    assert (rows + [r])[..|rows|] == rows;
  }

  function When(counted: bool, x: Sums): Sums {
    if counted then x else Zero()
  }

  lemma Rearrange(total: Sums, total': Sums, a: Sums, a': Sums, c: Sums, c': Sums, inA: bool, inC: bool, x: Sums)
    requires total == Plus(a, c) && total' == Plus(a', c') && !(inA && inC)
    requires a' == Plus(a, When(inA, x)) && c' == Plus(c, When(inC, x))
    ensures total' == Plus(total, When(inA || inC, x))
  {
  }

  lemma LastIsFresh(keys: seq<int>)
    requires keys != [] && Ascending(keys)
    ensures !Has(keys[..|keys| - 1], keys[|keys| - 1])
  {
    if Has(keys[..|keys| - 1], keys[|keys| - 1]) {
      LastIsLargest(keys, keys[|keys| - 1]);
    }
  }

  lemma {:induction false} AcrossSnoc(keys: seq<int>, filed: seq<Filed>, f: Filed)
    requires Ascending(keys)
    ensures Across(keys, filed + [f]) == Plus(Across(keys, filed), When(Has(keys, f.index), One(f.row)))
  {
    if |keys| > 0 {
      AcrossSnoc(keys[..|keys| - 1], filed, f);
      LastIsFresh(keys);
      AcrossStep(keys, filed, f);
    } else {
      AcrossBase(keys, filed, f);
    }
  }

  lemma AcrossBase(keys: seq<int>, filed: seq<Filed>, f: Filed)
    requires |keys| == 0
    ensures Across(keys, filed + [f]) == Plus(Across(keys, filed), When(Has(keys, f.index), One(f.row)))
  {
  }

  lemma AcrossSplit(keys: seq<int>, filed: seq<Filed>)
    requires |keys| > 0
    ensures Across(keys, filed) == Plus(Across(keys[..|keys| - 1], filed), AllOf(InBucket(filed, keys[|keys| - 1])))
  {
  }

  lemma AcrossStep(keys: seq<int>, filed: seq<Filed>, f: Filed)
    requires |keys| > 0 && !Has(keys[..|keys| - 1], keys[|keys| - 1])
    requires var before := keys[..|keys| - 1];
             Across(before, filed + [f]) == Plus(Across(before, filed), When(Has(before, f.index), One(f.row)))
    ensures Across(keys, filed + [f]) == Plus(Across(keys, filed), When(Has(keys, f.index), One(f.row)))
  {
    var before, k := keys[..|keys| - 1], keys[|keys| - 1];
    AcrossSplit(keys, filed);
    AcrossSplit(keys, filed + [f]);
    BucketAdds(filed, f, k);
    Rearrange(Across(keys, filed), Across(keys, filed + [f]), Across(before, filed), Across(before, filed + [f]),
              AllOf(InBucket(filed, k)), AllOf(InBucket(filed + [f], k)), Has(before, f.index), f.index
                 == k, One(f.row));
  }

  lemma {:induction false} AcrossNothing(keys: seq<int>, none: seq<Filed>)
    requires |none| == 0
    ensures Across(keys, none) == Zero()
  {
    if keys != [] {
      AcrossNothing(keys[..|keys| - 1], none);
    }
  }

  lemma {:induction false} AcrossIsAll(keys: seq<int>, filed: seq<Filed>, rows: seq<Sample>)
    requires Ascending(keys) && |filed| == |rows|
    requires forall n :: 0 <= n < |rows| ==> filed[n].row == rows[n] && Has(keys, filed[n].index)
    ensures Across(keys, filed) == AllOf(rows)
  {
    if rows == [] {
      AcrossNothing(keys, filed);
    } else {
      var n := |rows| - 1;
      assert filed == filed[..n] + [filed[n]];
      AcrossIsAll(keys, filed[..n], rows[..n]);
      AcrossSnoc(keys, filed[..n], filed[n]);
    }
  }

  function LatencyIn(success: nat, avg: Option<real>): real {
    if avg.None? then 0.0 else success as real * avg.value
  }

  /** What the rows of a result add up to, each average weighted by its successes. */
  function AddUp(result: seq<Bucket>): Sums {
    if result == [] then Zero()
    else
      var b := result[|result| - 1];
      Plus(AddUp(result[..|result| - 1]), Sums(b.total, b.success, b.fail, LatencyIn(b.success, b.avg)))
  }

  lemma AverageTimesCount(xs: seq<real>)
    ensures LatencyIn(|xs|, Average(xs)) == Sum(xs)
  {
    if xs != [] {
      Undivide(Sum(xs), |xs| as real);
    }
  }

  lemma Undivide(x: real, n: real)
    requires n != 0.0
    ensures n * (x / n) == x
  {
  }

  lemma {:induction false} TallyMatchesSummary(rows: seq<Sample>)
    ensures var t := TallyOf(rows);
            && t.total == |rows| && t.fail == FailuresIn(rows) && t.success == |rows| - FailuresIn(rows)
            && t.latencies == Latencies(rows) && |t.latencies| == t.success
  {
    if rows != [] {
      TallyMatchesSummary(rows[..|rows| - 1]);
    }
  }

  function SumsOf(t: Tally): Sums {
    Sums(t.total, t.success, t.fail, Sum(t.latencies))
  }

  lemma CountAddsOne(t: Tally, r: Sample)
    ensures SumsOf(Count(t, r)) == Plus(SumsOf(t), One(r))
  {
    if !r.Failed() {
      assert (t.latencies + [r.latency.value])[..|t.latencies|] == t.latencies;
    }
  }

  lemma {:induction false} TallyAddsUp(rows: seq<Sample>)
    ensures AllOf(rows) == SumsOf(TallyOf(rows))
  {
    if |rows| > 0 {
      TallyAddsUp(rows[..|rows| - 1]);
      CountAddsOne(TallyOf(rows[..|rows| - 1]), rows[|rows| - 1]);
    }
  }

  /** A bucket's figures, its average weighted by its successes, are those of its rows. */
  lemma BucketCarries(rows: seq<Sample>, start: real)
    ensures var b := BucketOf(start, TallyOf(rows));
            AllOf(rows) == Sums(b.total, b.success, b.fail, LatencyIn(b.success, b.avg))
  {
    TallyMatchesSummary(rows);
    TallyAddsUp(rows);
    AverageTimesCount(TallyOf(rows).latencies);
  }

  lemma {:induction false} ResultAddsAcross(rows: seq<Sample>, from: real, width: Width, keys: seq<int>,
                                            result: seq<Bucket>)
    requires Filled(rows, from, width, keys, result)
    ensures AddUp(result) == Across(keys, File(rows, from, width))
  {
    if result != [] {
      var n := |result| - 1;
      ResultAddsAcross(rows, from, width, keys[..n], result[..n]);
      BucketCarries(InBucket(File(rows, from, width), keys[n]), BucketStart(from, width, keys[n]));
    }
  }

  /** Nothing is lost or counted twice: the buckets' totals, successes, failures and
      weighted averages add up to the summary's. */
  lemma BucketsSumToSummary(rows: seq<Sample>, from: real, width: Width, keys: seq<int>, result: seq<Bucket>)
    requires Bucketing(rows, from, width, keys, result)
    ensures var s := QuerySummary(rows);
            AddUp(result) == Sums(s.total, s.success, s.fail, LatencyIn(s.success, s.avg))
  {
    var filed := File(rows, from, width);
    ResultAddsAcross(rows, from, width, keys, result);
    forall n | 0 <= n < |rows| ensures Has(keys, filed[n].index) {
      OwnBucket(filed, n);
    }
    AcrossIsAll(keys, filed, rows);
    SummaryCarries(rows);
  }

  lemma {:induction false} OwnBucket(filed: seq<Filed>, n: nat)
    requires n < |filed|
    ensures InBucket(filed, filed[n].index) != []
  {
    if n < |filed| - 1 {
      OwnBucket(filed[..|filed| - 1], n);
    }
  }

  lemma SummaryCarries(rows: seq<Sample>)
    ensures var s := QuerySummary(rows);
            AllOf(rows) == Sums(s.total, s.success, s.fail, LatencyIn(s.success, s.avg))
  {
    TallyMatchesSummary(rows);
    TallyAddsUp(rows);
    AverageTimesCount(Latencies(rows));
  }

  // ---- each bucket, and the summary, counted row by row ----------------------------------------

  /** A row of this bucket; one without an answer if only those are asked for. */
  ghost predicate Chosen(f: Filed, k: int, failedOnly: bool) {
    f.index == k && (failedOnly ==> f.row.latency == None)
  }

  ghost function Positions(filed: seq<Filed>, k: int, failedOnly: bool): set<nat> {
    set n: nat | n < |filed| && Chosen(filed[n], k, failedOnly)
  }

  lemma PositionOfMore(filed: seq<Filed>, f: Filed, k: int, failedOnly: bool, n: nat)
    ensures n in Positions(filed + [f], k, failedOnly)
       <==> n in Positions(filed, k, failedOnly) || (n == |filed| && Chosen(f, k, failedOnly))
  {
  }

  lemma PositionsSnoc(filed: seq<Filed>, f: Filed, k: int, failedOnly: bool)
    ensures |Positions(filed + [f], k, failedOnly)|
         == |Positions(filed, k, failedOnly)| + (if Chosen(f, k, failedOnly) then 1 else 0)
  {
    var before, after := Positions(filed, k, failedOnly), Positions(filed + [f], k, failedOnly);
    var last: set<nat> := if Chosen(f, k, failedOnly) then {|filed|} else {};
    forall n: nat ensures n in after <==> n in before || n in last {
      PositionOfMore(filed, f, k, failedOnly, n);
    }
    assert after == before + last && before !! last;
  }

  lemma {:induction false} BucketIsCounted(filed: seq<Filed>, k: int)
    ensures |InBucket(filed, k)| == |Positions(filed, k, false)|
    ensures FailuresIn(InBucket(filed, k)) == |Positions(filed, k, true)|
  {
    if |filed| > 0 {
      var before, f := filed[..|filed| - 1], filed[|filed| - 1];
      BucketIsCounted(before, k);
      assert filed == before + [f];
      PositionsSnoc(before, f, k, false);
      PositionsSnoc(before, f, k, true);
      FailuresSnoc(InBucket(before, k), f.row);
      InBucketSnoc(before, f, k);
    } else {
      assert Positions(filed, k, false) == {} && Positions(filed, k, true) == {};
    }
  }

  lemma FailuresSnoc(rows: seq<Sample>, r: Sample)
    ensures FailuresIn(rows + [r]) == FailuresIn(rows) + (if r.latency == None then 1 else 0)
  {
    assert (rows + [r])[..|rows|] == rows;
  }

  /** The rows of a half-open window of time. */
  ghost function Window(rows: seq<Sample>, start: real, width: Width, failedOnly: bool): set<nat> {
    set n: nat | n < |rows| && start <= rows[n].ts < start + width && (failedOnly ==> rows[n].latency == None)
  }

  lemma WindowIsBucket(rows: seq<Sample>, from: real, width: Width, k: int, failedOnly: bool)
    ensures Positions(File(rows, from, width), k, failedOnly)
         == Window(rows, BucketStart(from, width, k), width, failedOnly)
  {
    forall n: nat | n < |rows|
      ensures Index(from, width, rows[n].ts) == k
        <==> BucketStart(from, width, k) <= rows[n].ts < BucketStart(from, width, k) + width
    {
      BucketIsWindow(from, width, k, rows[n].ts);
    }
  }

  /** Every bucket counts exactly the rows of its window: all of them, those without an answer
      as failures and the others as successes; it has an average exactly if it has a success. */
  lemma BucketFigures(rows: seq<Sample>, from: real, width: Width, keys: seq<int>, result: seq<Bucket>, n: nat)
    requires Bucketing(rows, from, width, keys, result) && n < |result|
    ensures var b := result[n];
            && b.total == |Window(rows, b.start, width, false)| && b.total > 0
            && b.fail == |Window(rows, b.start, width, true)|
            && b.success + b.fail == b.total
            && (b.avg == None <==> b.success == 0)
  {
    var filed, k := File(rows, from, width), keys[n];
    BucketIsCounted(filed, k);
    WindowIsBucket(rows, from, width, k, false);
    WindowIsBucket(rows, from, width, k, true);
    TallyMatchesSummary(InBucket(filed, k));
    HasAt(keys, n);
    assert InBucket(filed, k) != [];
  }

  /** The summary counts every row, and its uptime is the share of those that were answered. */
  lemma SummaryFigures(rows: seq<Sample>)
    ensures var s := QuerySummary(rows);
            && s.total == |rows| && s.success + s.fail == s.total
            && s.fail == |set n: nat | n < |rows| && rows[n].latency == None|
            && (s.uptimePct == None <==> |rows| == 0)
            && (s.uptimePct != None ==> s.uptimePct.value * s.total as real == 100.0 * s.success as real)
            && (s.avg == None <==> s.success == 0)
  {
    FailuresCounted(rows);
    TallyMatchesSummary(rows);
    if |rows| > 0 {
      UptimeIs(rows);
    }
  }

  lemma UptimeIs(rows: seq<Sample>)
    requires |rows| > 0
    ensures var s := QuerySummary(rows);
            s.uptimePct.Some? && s.uptimePct.value * s.total as real == 100.0 * s.success as real
  {
    Undivide(100.0 * (|rows| - FailuresIn(rows)) as real, |rows| as real);
  }

  lemma FailuresCounted(rows: seq<Sample>)
    ensures FailuresIn(rows) == |set n: nat | n < |rows| && rows[n].latency == None|
  {
    var all := seq(|rows|, n requires 0 <= n < |rows| => Filed(0, rows[n]));
    EverythingInOne(all, rows);
    BucketIsCounted(all, 0);
    assert Positions(all, 0, true) == set n: nat | n < |rows| && rows[n].latency == None;
  }

  lemma {:induction false} EverythingInOne(filed: seq<Filed>, rows: seq<Sample>)
    requires |filed| == |rows| && forall n :: 0 <= n < |rows| ==> filed[n] == Filed(0, rows[n])
    ensures InBucket(filed, 0) == rows
  {
    if |rows| > 0 {
      EverythingInOne(filed[..|rows| - 1], rows[..|rows| - 1]);
      assert rows == rows[..|rows| - 1] + [rows[|rows| - 1]];
    }
  }
}
