/** The batch loop shared by `Upload` and `Download`: the index starts at the
    number of items, each round starts `min(max_threads, index)` workers on
    the items below the index, from the top down, waits for all of them, and
    drains the error log; a non-empty drain raises and ends the loop. */
module Batching {
  import opened Common
  import opened Text
  import opened ErrorLog

  // ---------------------------------------------------------------------------
  // The schedule of index batches

  /** `number_threads` of one round: `max_threads`, lowered to `index` when
      fewer items remain. */
  function Threads(index: nat, maxThreads: int): (n: int)
    ensures n <= index
  {
    if index < maxThreads then index else maxThreads
  }

  /** The `n` indices `index - 1, index - 2, ..., index - n` (none when `n <= 0`). */
  function Descending(index: nat, n: int): (r: seq<nat>)
    requires n <= index
    ensures |r| == if n <= 0 then 0 else n
    ensures forall j :: 0 <= j < |r| ==> r[j] == index - 1 - j
  {
    if n <= 0 then [] else [index - 1] + Descending(index - 1, n - 1)
  }

  /** One round of the outer loop: the indices it visits and the index after it. */
  function Round(index: nat, maxThreads: int): (r: (seq<nat>, nat))
    ensures r.1 + |r.0| == index
  {
    var batch := Descending(index, Threads(index, maxThreads));
    (batch, index - |batch|)
  }

  /** The batches of the whole loop, from `index` down to 0. */
  function Schedule(index: nat, maxThreads: int): (r: seq<seq<nat>>)
    requires maxThreads >= 1
    ensures r == [] <==> index == 0
    decreases index
  {
    if index == 0 then []
    else
      var (batch, next) := Round(index, maxThreads);
      [batch] + Schedule(next, maxThreads)
  }

  /** One round of the schedule, for a batch and next index already known. */
  lemma ScheduleStep(index: nat, maxThreads: int, batch: seq<nat>, next: nat)
    requires maxThreads >= 1 && index > 0
    requires batch == Descending(index, Threads(index, maxThreads))
    requires next == index - |batch|
    ensures Schedule(index, maxThreads) == [batch] + Schedule(next, maxThreads)
  {
  }

  /** All batches one after the other. */
  function Flatten(batches: seq<seq<nat>>): seq<nat>
  {
    if |batches| == 0 then [] else batches[0] + Flatten(batches[1..])
  }

  function Min(a: int, b: int): int
  {
    if a < b then a else b
  }

  /** The loop as written, with `index` counted down by the inner loop. */
  method BatchLoop(count: nat, maxThreads: int) returns (batches: seq<seq<nat>>)
    requires maxThreads >= 1
    ensures batches == Schedule(count, maxThreads)
  {
    batches := [];
    var index: nat := count;
    while index > 0
      invariant index <= count
      invariant batches + Schedule(index, maxThreads) == Schedule(count, maxThreads)
      decreases index
    {
      var start := index;
      var batch;
      batch, index := RoundLoop(index, maxThreads);
      ScheduleStep(start, maxThreads, batch, index);
      assert (batches + [batch]) + Schedule(index, maxThreads) == batches + ([batch] + Schedule(index, maxThreads));
      batches := batches + [batch];
    }
  }

  /** One pass of the outer loop's body: `number_threads` workers on the
      indices below `index`, counted down one at a time. */
  method RoundLoop(index: nat, maxThreads: int) returns (batch: seq<nat>, next: nat)
    requires maxThreads >= 1 && index > 0
    ensures batch == Descending(index, Threads(index, maxThreads))
    ensures next == index - |batch| && next < index
  {
    var numberThreads := maxThreads;
    if index < maxThreads {
      numberThreads := index;
    }
    batch := [];
    next := index;
    var i := 0;
    while i < numberThreads
      invariant 0 <= i <= numberThreads <= index
      invariant next == index - i
      invariant batch == Descending(index, i)
      decreases numberThreads - i
    {
      DescendingSnoc(index, i);
      next := next - 1;
      batch := batch + [next];
      i := i + 1;
    }
  }

  /** The indices of a round grow at the low end, one at a time. */
  lemma DescendingSnoc(index: nat, n: nat)
    requires n < index
    ensures Descending(index, n + 1) == Descending(index, n) + [index - 1 - n]
  {
    var a := Descending(index, n + 1);
    var b := Descending(index, n) + [index - 1 - n];
    assert forall j :: 0 <= j < |a| ==> a[j] == b[j];
  }

  /** With `max_threads <= 0` a round visits nothing and leaves the index
      where it was, so the loop `while index > 0` never ends for a non-empty
      list. */
  lemma NoProgressWithoutThreads(index: nat, maxThreads: int)
    requires maxThreads <= 0 && index > 0
    ensures Round(index, maxThreads) == ([], index)
  {
  }

  /** Every index below `count` is visited exactly once, in descending order. */
  lemma {:induction false} ScheduleVisitsEachIndexOnce(count: nat, maxThreads: int)
    requires maxThreads >= 1
    ensures Flatten(Schedule(count, maxThreads)) == Descending(count, count)
    decreases count
  {
    if count > 0 {
      var (batch, next) := Round(count, maxThreads);
      ScheduleVisitsEachIndexOnce(next, maxThreads);
      var s := Schedule(count, maxThreads);
      assert s[1..] == Schedule(next, maxThreads);
      assert Flatten(s) == batch + Descending(next, next);
      assert batch + Descending(next, next) == Descending(count, count);
    }
  }

  /** Batch `k` starts at index `count - k * max_threads` and takes
      `min(max_threads, remaining)` indices from there down. */
  lemma {:induction false} ScheduleBatchShape(count: nat, maxThreads: int, k: nat)
    requires maxThreads >= 1
    requires k < |Schedule(count, maxThreads)|
    ensures count - k * maxThreads > 0
    ensures Schedule(count, maxThreads)[k] ==
      Descending(count - k * maxThreads, Min(maxThreads, count - k * maxThreads))
    decreases count
  {
    assert count > 0;
    var batch := Descending(count, Threads(count, maxThreads));
    var next := count - |batch|;
    ScheduleStep(count, maxThreads, batch, next);
    var s := Schedule(count, maxThreads);
    if k == 0 {
      assert s[0] == batch;
    } else {
      assert s[k] == Schedule(next, maxThreads)[k - 1];
      assert next > 0;
      assert next == count - maxThreads;
      ScheduleBatchShape(next, maxThreads, k - 1);
      MulStep(k, maxThreads);
    }
  }

  lemma MulStep(k: int, m: int)
    ensures (k - 1) * m + m == k * m
  {
  }

  /** The number of batches is `ceil(count / max_threads)`. */
  lemma {:induction false} ScheduleLength(count: nat, maxThreads: int)
    requires maxThreads >= 1
    ensures |Schedule(count, maxThreads)| == (count + maxThreads - 1) / maxThreads
    decreases count
  {
    if count > 0 {
      var (batch, next) := Round(count, maxThreads);
      ScheduleLength(next, maxThreads);
      if count >= maxThreads {
        assert next == count - maxThreads;
        DivPlusOne(next + maxThreads - 1, maxThreads);
      } else {
        assert next == 0;
        DivUnique(count + maxThreads - 1, maxThreads, 1, count - 1);
      }
    }
  }

  /** Every batch but the last has `max_threads` indices; the last has the
      remainder, or `max_threads` when the count divides evenly. */
  lemma ScheduleBatchSizes(count: nat, maxThreads: int)
    requires maxThreads >= 1
    ensures var s := Schedule(count, maxThreads);
      && (forall k :: 0 <= k < |s| - 1 ==> |s[k]| == maxThreads)
      && (|s| > 0 ==> |s[|s| - 1]| == (if count % maxThreads == 0 then maxThreads else count % maxThreads))
  {
    var s := Schedule(count, maxThreads);
    forall k | 0 <= k < |s| - 1 ensures |s[k]| == maxThreads {
      FullBatch(count, maxThreads, k);
    }
    if |s| > 0 {
      LastBatch(count, maxThreads);
    }
  }

  /** A batch followed by another one is full. */
  lemma FullBatch(count: nat, maxThreads: int, k: nat)
    requires maxThreads >= 1
    requires k + 1 < |Schedule(count, maxThreads)|
    ensures |Schedule(count, maxThreads)[k]| == maxThreads
  {
    ScheduleBatchShape(count, maxThreads, k + 1);
    ScheduleBatchShape(count, maxThreads, k);
    MulStep(k + 1, maxThreads);
  }

  /** The last batch holds the remainder, or `max_threads` when the count
      divides evenly. */
  lemma LastBatch(count: nat, maxThreads: int)
    requires maxThreads >= 1
    requires |Schedule(count, maxThreads)| > 0
    ensures var s := Schedule(count, maxThreads);
      |s[|s| - 1]| == (if count % maxThreads == 0 then maxThreads else count % maxThreads)
  {
    var last := |Schedule(count, maxThreads)| - 1;
    ScheduleLength(count, maxThreads);
    ScheduleBatchShape(count, maxThreads, last);
    LastRemainder(count, maxThreads, last);
  }

  /** Arithmetic of the last batch: with `last = ceil(count / m) - 1`, what
      remains after `last` full batches is the remainder or `m`. */
  lemma LastRemainder(count: nat, m: int, last: nat)
    requires m >= 1 && count > 0
    requires last == (count + m - 1) / m - 1
    ensures Min(m, count - last * m) == (if count % m == 0 then m else count % m)
  {
    var q := count / m;
    var rem := count % m;
    assert count == q * m + rem;
    if rem == 0 {
      DivUnique(count + m - 1, m, q, m - 1);
      assert last * m == q * m - m;
    } else {
      assert count + m - 1 == (q + 1) * m + (rem - 1);
      DivUnique(count + m - 1, m, q + 1, rem - 1);
      assert last * m == q * m;
    }
  }

  /** Division is determined by quotient and remainder. */
  lemma DivUnique(a: int, m: int, q: int, r: int)
    requires m >= 1 && 0 <= r < m && a == q * m + r
    ensures a / m == q
  {
    var q' := a / m;
    var r' := a % m;
    assert a == q' * m + r';
    assert (q' - q) * m == r - r';
    if q' > q {
      MulMonotone(1, q' - q, m);
    } else if q' < q {
      MulMonotone(1, q - q', m);
    }
  }

  lemma DivPlusOne(a: int, m: int)
    requires m >= 1
    ensures (a + m) / m == a / m + 1
  {
    assert a == (a / m) * m + a % m;
    assert a + m == (a / m + 1) * m + a % m;
    DivUnique(a + m, m, a / m + 1, a % m);
  }

  lemma MulMonotone(a: int, b: int, m: int)
    requires a <= b && m >= 0
    ensures a * m <= b * m
  {
    assert b * m - a * m == (b - a) * m;
  }

  /** Indices of a later batch are all smaller than those of an earlier one,
      so a later batch never revisits an index. */
  lemma LaterBatchesBelow(count: nat, maxThreads: int, j: nat, k: nat, x: nat, y: nat)
    requires maxThreads >= 1
    requires j < k < |Schedule(count, maxThreads)|
    requires x in Schedule(count, maxThreads)[j] && y in Schedule(count, maxThreads)[k]
    ensures y < x
  {
    ScheduleBatchShape(count, maxThreads, j);
    ScheduleBatchShape(count, maxThreads, k);
    var bj := Schedule(count, maxThreads)[j];
    var bk := Schedule(count, maxThreads)[k];
    var a := count - j * maxThreads;
    var b := count - k * maxThreads;
    var p :| 0 <= p < |bj| && bj[p] == x;
    var q :| 0 <= q < |bk| && bk[q] == y;
    assert x == a - 1 - p && p < maxThreads;
    assert y == b - 1 - q;
    assert b <= a - maxThreads by {
      MulMonotone(j + 1, k, maxThreads);
      assert (j + 1) * maxThreads == j * maxThreads + maxThreads;
    }
  }

  // ---------------------------------------------------------------------------
  // Running the batches

  /** What the loop leaves behind: the indices whose workers were started, in
      start order; the log; and the message raised, if any. */
  datatype Run = Run(started: seq<nat>, log: seq<string>, raised: Option<string>)

  /** The indices of a batch whose worker is started (`launch` false for an
      index means the loop body skips it, as Download's filter does). */
  function Launched(batch: seq<nat>, launch: seq<bool>): (r: seq<nat>)
    ensures |r| <= |batch|
    ensures forall x :: x in r ==> x in batch && x < |launch| && launch[x]
  {
    if |batch| == 0 then []
    else
      var head := if batch[0] < |launch| && launch[batch[0]] then [batch[0]] else [];
      head + Launched(batch[1..], launch)
  }

  /** The messages workers record when they finish in the given order; the
      worker of index `i` records `entry[i]`, if any. */
  function Records(order: seq<nat>, entry: seq<Option<string>>): (r: seq<string>)
    ensures |r| <= |order|
  {
    if |order| == 0 then []
    else
      var head := if order[0] < |entry| && entry[order[0]].Some? then [entry[order[0]].value] else [];
      head + Records(order[1..], entry)
  }

  /** The messages a batch records, listed in batch order: the reference the
      actual completion order is compared with. */
  function BatchErrors(batch: seq<nat>, launch: seq<bool>, entry: seq<Option<string>>): seq<string>
  {
    Records(Launched(batch, launch), entry)
  }

  /** The worker completion order of every batch is a permutation of the
      workers that batch started. */
  ghost predicate ValidOrders(batches: seq<seq<nat>>, orders: seq<seq<nat>>, launch: seq<bool>)
  {
    |orders| == |batches| &&
    forall k :: 0 <= k < |batches| ==> multiset(orders[k]) == multiset(Launched(batches[k], launch))
  }

  /** The started indices of the batches in turn. */
  function AllLaunched(batches: seq<seq<nat>>, launch: seq<bool>): (r: seq<nat>)
    ensures forall x :: x in r ==> x < |launch| && launch[x]
  {
    if |batches| == 0 then [] else Launched(batches[0], launch) + AllLaunched(batches[1..], launch)
  }

  /** The outer loop over the batches: start the batch's workers, collect
      their records in completion order, drain the log; stop at the first
      drain that raises. */
  function RunBatches(batches: seq<seq<nat>>, orders: seq<seq<nat>>, launch: seq<bool>,
                      entry: seq<Option<string>>, log: seq<string>, prefix: string): (r: Run)
    requires |orders| == |batches|
    ensures |batches| > 0 ==> r.log == []
    ensures forall x :: x in r.started ==> x < |launch| && launch[x]
    decreases |batches|
  {
    if |batches| == 0 then Run([], log, None)
    else
      var started := Launched(batches[0], launch);
      var d := FetchErrors(log + Records(orders[0], entry), prefix);
      if d.raised.Some? then Run(started, d.log, d.raised)
      else
        var rest := RunBatches(batches[1..], orders[1..], launch, entry, d.log, prefix);
        Run(started + rest.started, rest.log, rest.raised)
  }

  // ---------------------------------------------------------------------------
  // Lemmas about running

  lemma {:induction false} RecordsAppend(a: seq<nat>, b: seq<nat>, entry: seq<Option<string>>)
    ensures Records(a + b, entry) == Records(a, entry) + Records(b, entry)
    decreases |a|
  {
    if |a| > 0 {
      assert (a + b)[1..] == a[1..] + b;
      RecordsAppend(a[1..], b, entry);
    } else {
      assert a + b == b;
    }
  }

  /** Workers finishing in another order record the same messages, only
      listed differently: nothing is lost or duplicated. */
  lemma {:induction false} RecordsPermutation(o1: seq<nat>, o2: seq<nat>, entry: seq<Option<string>>)
    requires multiset(o1) == multiset(o2)
    ensures multiset(Records(o1, entry)) == multiset(Records(o2, entry))
    decreases |o1|
  {
    if |o1| > 0 {
      var x := o1[0];
      assert x in multiset(o2);
      var i :| 0 <= i < |o2| && o2[i] == x;
      var rest := o2[..i] + o2[i + 1..];
      assert o2 == o2[..i] + [x] + o2[i + 1..];
      assert o1 == [x] + o1[1..];
      assert multiset(o2) == multiset(o2[..i]) + multiset([x]) + multiset(o2[i + 1..]);
      assert multiset(o1) == multiset([x]) + multiset(o1[1..]);
      assert multiset(rest) == multiset(o2[..i]) + multiset(o2[i + 1..]);
      assert multiset(o1[1..]) == multiset(o1) - multiset{x};
      assert multiset(rest) == multiset(o2) - multiset{x};
      assert multiset(o1[1..]) == multiset(rest);
      RecordsPermutation(o1[1..], rest, entry);
      RecordsAppend(o2[..i], o2[i + 1..], entry);
      RecordsAppend(o2[..i], [x], entry);
      RecordsAppend(o2[..i] + [x], o2[i + 1..], entry);
      RecordsAppend([x], o1[1..], entry);
    } else {
      assert o2 == [];
    }
  }

  /** A batch whose workers all succeed records nothing in any completion
      order, and one with a failure records something in every order. */
  lemma BatchRecordsEmptyIff(order: seq<nat>, batch: seq<nat>, launch: seq<bool>, entry: seq<Option<string>>)
    requires multiset(order) == multiset(Launched(batch, launch))
    ensures multiset(Records(order, entry)) == multiset(BatchErrors(batch, launch, entry))
    ensures Records(order, entry) == [] <==> BatchErrors(batch, launch, entry) == []
  {
    RecordsPermutation(order, Launched(batch, launch), entry);
    if Records(order, entry) == [] {
      assert |multiset(BatchErrors(batch, launch, entry))| == 0;
    }
    if BatchErrors(batch, launch, entry) == [] {
      assert |multiset(Records(order, entry))| == 0;
    }
  }

  /** No batch records any message. */
  ghost predicate AllClean(batches: seq<seq<nat>>, launch: seq<bool>, entry: seq<Option<string>>)
  {
    forall k :: 0 <= k < |batches| ==> BatchErrors(batches[k], launch, entry) == []
  }

  /** With an empty log to start with, the loop finishes without raising
      exactly when no batch records a message, and then every batch's
      workers were started. */
  lemma {:induction false} RunSucceedsIffAllClean(batches: seq<seq<nat>>, orders: seq<seq<nat>>, launch: seq<bool>,
                                                  entry: seq<Option<string>>, prefix: string)
    requires ValidOrders(batches, orders, launch)
    ensures RunBatches(batches, orders, launch, entry, [], prefix).raised.None? <==> AllClean(batches, launch, entry)
    ensures AllClean(batches, launch, entry) ==>
      RunBatches(batches, orders, launch, entry, [], prefix) == Run(AllLaunched(batches, launch), [], None)
    decreases |batches|
  {
    if |batches| > 0 {
      BatchRecordsEmptyIff(orders[0], batches[0], launch, entry);
      assert ValidOrders(batches[1..], orders[1..], launch) by {
        forall k | 0 <= k < |batches| - 1
          ensures multiset(orders[1..][k]) == multiset(Launched(batches[1..][k], launch))
        {
          assert orders[1..][k] == orders[k + 1] && batches[1..][k] == batches[k + 1];
        }
      }
      RunSucceedsIffAllClean(batches[1..], orders[1..], launch, entry, prefix);
      if AllClean(batches[1..], launch, entry) && BatchErrors(batches[0], launch, entry) == [] {
        forall k | 0 <= k < |batches| ensures BatchErrors(batches[k], launch, entry) == [] {
          if k > 0 {
            assert batches[k] == batches[1..][k - 1];
          }
        }
      }
      if AllClean(batches, launch, entry) {
        assert BatchErrors(batches[0], launch, entry) == [];
        forall k | 0 <= k < |batches| - 1 ensures BatchErrors(batches[1..][k], launch, entry) == [] {
          assert batches[1..][k] == batches[k + 1];
        }
      }
    }
  }

  /** A first batch that records nothing is passed and the loop continues. */
  lemma RunPastCleanBatch(batches: seq<seq<nat>>, orders: seq<seq<nat>>, launch: seq<bool>,
                          entry: seq<Option<string>>, prefix: string)
    requires |orders| == |batches| > 0
    requires Records(orders[0], entry) == []
    ensures var rest := RunBatches(batches[1..], orders[1..], launch, entry, [], prefix);
      RunBatches(batches, orders, launch, entry, [], prefix) ==
        Run(Launched(batches[0], launch) + rest.started, rest.log, rest.raised)
  {
    assert [] + Records(orders[0], entry) == [];
  }

  /** A first batch that records something raises at once. */
  lemma RunFailsAtFirst(batches: seq<seq<nat>>, orders: seq<seq<nat>>, launch: seq<bool>,
                        entry: seq<Option<string>>, prefix: string)
    requires |orders| == |batches| > 0
    requires Records(orders[0], entry) != []
    ensures RunBatches(batches, orders, launch, entry, [], prefix) ==
      Run(AllLaunched(batches[..1], launch), [], Some(prefix + Join(Records(orders[0], entry), Separator)))
  {
    assert batches[..1][1..] == [];
    assert AllLaunched(batches[..1], launch) == Launched(batches[0], launch) + [];
    assert [] + Records(orders[0], entry) == Records(orders[0], entry);
  }

  lemma AllLaunchedPrefix(batches: seq<seq<nat>>, launch: seq<bool>, k: nat)
    requires k < |batches|
    ensures AllLaunched(batches[..k + 1], launch) ==
      Launched(batches[0], launch) + AllLaunched(batches[1..][..k], launch)
  {
    assert batches[..k + 1][1..] == batches[1..][..k];
  }

  /** Fail-fast: when batch `k` is the first that records a message, the
      workers of batches `0..k` were all started and no later one was; the
      raised message is the prefix followed by batch `k`'s messages, joined
      with ". ", in completion order — the same messages as the batch's own,
      up to order — and the log is left empty. */
  lemma RunFailsFastAt(batches: seq<seq<nat>>, orders: seq<seq<nat>>, launch: seq<bool>,
                        entry: seq<Option<string>>, prefix: string, k: nat)
    requires ValidOrders(batches, orders, launch)
    requires k < |batches|
    requires BatchErrors(batches[k], launch, entry) != []
    requires forall j :: 0 <= j < k ==> BatchErrors(batches[j], launch, entry) == []
    ensures RunBatches(batches, orders, launch, entry, [], prefix) ==
      Run(AllLaunched(batches[..k + 1], launch), [],
          Some(prefix + Join(Records(orders[k], entry), Separator)))
    ensures multiset(Records(orders[k], entry)) == multiset(BatchErrors(batches[k], launch, entry))
  {
    forall j | 0 <= j < k ensures Records(orders[j], entry) == [] {
      BatchRecordsEmptyIff(orders[j], batches[j], launch, entry);
    }
    BatchRecordsEmptyIff(orders[k], batches[k], launch, entry);
    RunStopsAt(batches, orders, launch, entry, prefix, k);
  }

  /** The loop over batches whose completion orders record nothing before
      batch `k` and something at `k` stops after batch `k`. */
  lemma {:induction false} RunStopsAt(batches: seq<seq<nat>>, orders: seq<seq<nat>>, launch: seq<bool>,
                                      entry: seq<Option<string>>, prefix: string, k: nat)
    requires |orders| == |batches| && k < |batches|
    requires Records(orders[k], entry) != []
    requires forall j :: 0 <= j < k ==> Records(orders[j], entry) == []
    ensures RunBatches(batches, orders, launch, entry, [], prefix) ==
      Run(AllLaunched(batches[..k + 1], launch), [],
          Some(prefix + Join(Records(orders[k], entry), Separator)))
    decreases k
  {
    if k == 0 {
      RunFailsAtFirst(batches, orders, launch, entry, prefix);
    } else {
      CleanOrdersTail(orders, entry, k);
      RunStopsAt(batches[1..], orders[1..], launch, entry, prefix, k - 1);
      RunPastFirstBatch(batches, orders, launch, entry, prefix, k,
                        Some(prefix + Join(Records(orders[k], entry), Separator)));
    }
  }

  /** Orders that record nothing before `k` still do so counted from the second. */
  lemma CleanOrdersTail(orders: seq<seq<nat>>, entry: seq<Option<string>>, k: nat)
    requires 0 < k < |orders|
    requires forall j :: 0 <= j < k ==> Records(orders[j], entry) == []
    ensures Records(orders[0], entry) == [] && orders[1..][k - 1] == orders[k]
    ensures forall j :: 0 <= j < k - 1 ==> Records(orders[1..][j], entry) == []
  {
    forall j | 0 <= j < k - 1 ensures Records(orders[1..][j], entry) == [] {
      assert orders[1..][j] == orders[j + 1];
    }
  }

  /** A clean first batch passes the outcome of the remaining batches through,
      with its own workers in front of theirs. */
  lemma RunPastFirstBatch(batches: seq<seq<nat>>, orders: seq<seq<nat>>, launch: seq<bool>,
                          entry: seq<Option<string>>, prefix: string, k: nat, raised: Option<string>)
    requires |orders| == |batches| && 0 < k < |batches|
    requires Records(orders[0], entry) == []
    requires RunBatches(batches[1..], orders[1..], launch, entry, [], prefix) ==
      Run(AllLaunched(batches[1..][..k], launch), [], raised)
    ensures RunBatches(batches, orders, launch, entry, [], prefix) ==
      Run(AllLaunched(batches[..k + 1], launch), [], raised)
  {
    RunPastCleanBatch(batches, orders, launch, entry, prefix);
    AllLaunchedPrefix(batches, launch, k);
  }

  /** Over the loop's own schedule, an index of a batch after the failing one
      is never started. */
  lemma LaterIndicesNeverStarted(count: nat, maxThreads: int, launch: seq<bool>, k: nat, j: nat, y: nat)
    requires maxThreads >= 1
    requires k < j < |Schedule(count, maxThreads)|
    requires y in Schedule(count, maxThreads)[j]
    ensures y !in AllLaunched(Schedule(count, maxThreads)[..k + 1], launch)
  {
    var s := Schedule(count, maxThreads);
    if y in AllLaunched(s[..k + 1], launch) {
      var b := InSomeBatch(s[..k + 1], launch, y);
      assert s[..k + 1][b] == s[b];
      LaterBatchesBelow(count, maxThreads, b, j, y, y);
      assert false;
    }
  }

  /** A started index belongs to one of the batches. */
  lemma {:induction false} InSomeBatch(batches: seq<seq<nat>>, launch: seq<bool>, x: nat) returns (b: nat)
    requires x in AllLaunched(batches, launch)
    ensures b < |batches| && x in batches[b]
    decreases |batches|
  {
    if x in Launched(batches[0], launch) {
      b := 0;
    } else {
      var c := InSomeBatch(batches[1..], launch, x);
      b := c + 1;
    }
  }

  /** Every index below `n` is launched. */
  function Everything(n: nat): (r: seq<bool>)
    ensures |r| == n && forall i :: 0 <= i < n ==> r[i]
  {
    seq(n, _ => true)
  }

  /** When every index is launched, a batch starts all its workers, in batch
      order. */
  lemma {:induction false} LaunchedEverything(batch: seq<nat>, n: nat)
    requires forall x :: x in batch ==> x < n
    ensures Launched(batch, Everything(n)) == batch
    decreases |batch|
  {
    if |batch| > 0 {
      assert batch[0] in batch;
      forall x | x in batch[1..] ensures x < n {
        assert x in batch;
      }
      LaunchedEverything(batch[1..], n);
      assert batch == [batch[0]] + batch[1..];
    }
  }

  /** When every index is launched, the loop starts the flattened batches. */
  lemma {:induction false} AllLaunchedEverything(batches: seq<seq<nat>>, n: nat)
    requires forall x :: x in Flatten(batches) ==> x < n
    ensures AllLaunched(batches, Everything(n)) == Flatten(batches)
    decreases |batches|
  {
    if |batches| > 0 {
      assert Flatten(batches) == batches[0] + Flatten(batches[1..]);
      forall x | x in batches[0] ensures x < n {
        assert x in Flatten(batches);
      }
      forall x | x in Flatten(batches[1..]) ensures x < n {
        assert x in Flatten(batches);
      }
      LaunchedEverything(batches[0], n);
      AllLaunchedEverything(batches[1..], n);
    }
  }

  /** Over its own schedule with every index launched, a loop that raises
      nothing starts every item exactly once, from the last down to the first. */
  lemma ScheduleStartsEverything(count: nat, maxThreads: int)
    requires maxThreads >= 1
    ensures AllLaunched(Schedule(count, maxThreads), Everything(count)) == Descending(count, count)
  {
    ScheduleVisitsEachIndexOnce(count, maxThreads);
    AllLaunchedEverything(Schedule(count, maxThreads), count);
  }

  /** Workers that record nothing give no records. */
  lemma {:induction false} NoRecordsFromClean(order: seq<nat>, entry: seq<Option<string>>)
    requires forall i :: 0 <= i < |entry| ==> entry[i].None?
    ensures Records(order, entry) == []
    decreases |order|
  {
    if |order| > 0 {
      NoRecordsFromClean(order[1..], entry);
    }
  }

  /** A loop over its own schedule, with every item launched and no worker
      recording a message, raises nothing and starts every item once, from
      the last down to the first. */
  lemma CleanRunStartsEverything(count: nat, maxThreads: int, orders: seq<seq<nat>>,
                                 entry: seq<Option<string>>, prefix: string)
    requires maxThreads >= 1
    requires ValidOrders(Schedule(count, maxThreads), orders, Everything(count))
    requires forall i :: 0 <= i < |entry| ==> entry[i].None?
    ensures RunBatches(Schedule(count, maxThreads), orders, Everything(count), entry, [], prefix) ==
      Run(Descending(count, count), [], None)
  {
    var s := Schedule(count, maxThreads);
    forall k | 0 <= k < |s| ensures BatchErrors(s[k], Everything(count), entry) == [] {
      NoRecordsFromClean(Launched(s[k], Everything(count)), entry);
    }
    RunSucceedsIffAllClean(s, orders, Everything(count), entry, prefix);
    ScheduleStartsEverything(count, maxThreads);
  }
}
