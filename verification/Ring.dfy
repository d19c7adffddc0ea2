// The job ring and its table sets as values: what pushing, popping, completing a job and loading
// a table set do to them.

module Ring {
  import opened Basics
  import opened DecodeTypes
  import opened Serial
  import opened Items

  // One block in flight. start is the reader after the block's tables; done says the worker has
  // sent its token, and only then does out mean anything.
  datatype Job = Job(start: Cursor, lastBlock: bool, tablesIdx: nat, oversize: bool, done: bool, out: Outcome)

  function At(head: nat, k: nat, r: nat): nat {
    if head + k < r then head + k else if head + k < 2 * r then head + k - r else 0
  }

  lemma {:induction false} ModAt(head: nat, k: nat, r: nat)
    requires head < r && k <= r
    ensures (head + k) % r == At(head, k, r)
  {
    if head + k >= r {
      assert (head + k - r) + r == head + k;
      ModWrap(head + k - r, r);
    }
  }

  lemma {:induction false} ModWrap(m: nat, r: nat)
    requires m < r
    ensures (m + r) % r == m
  {
    var q := (m + r) / r;
    assert m + r == q * r + (m + r) % r;
    if q >= 2 {
      MulGrows(q, 2, r);
    }
  }

  lemma {:induction false} MulGrows(a: nat, b: nat, r: nat)
    requires a >= b
    ensures a * r >= b * r
  {
  }

  // The jobs in flight, oldest first.
  function InFlight(slots: seq<Job>, head: nat, count: nat): (jobs: seq<Job>)
    requires head < |slots| && count <= |slots|
    ensures |jobs| == count
    ensures forall k :: 0 <= k < count ==> jobs[k] == slots[At(head, k, |slots|)]
  {
    seq(count, k requires 0 <= k < count => slots[At(head, k, |slots|)])
  }

  lemma {:induction false} Pushed(slots: seq<Job>, head: nat, count: nat, j: Job)
    requires head < |slots| && count < |slots|
    ensures InFlight(slots[At(head, count, |slots|) := j], head, count + 1) == InFlight(slots, head, count) + [j]
  {
  }

  lemma {:induction false} Popped(slots: seq<Job>, head: nat, count: nat)
    requires head < |slots| && 0 < count <= |slots|
    ensures InFlight(slots, At(head, 1, |slots|), count - 1) == InFlight(slots, head, count)[1..]
  {
  }

  lemma {:induction false} Replaced(slots: seq<Job>, head: nat, count: nat, k: nat, j: Job)
    requires head < |slots| && k < count <= |slots|
    ensures InFlight(slots[At(head, k, |slots|) := j], head, count) == InFlight(slots, head, count)[k := j]
  {
  }

  // How many of the jobs reference table set i.
  function Uses(jobs: seq<Job>, i: nat): nat {
    if jobs == [] then 0 else (if jobs[0].tablesIdx == i then 1 else 0) + Uses(jobs[1..], i)
  }

  lemma {:induction false} UsesPush(jobs: seq<Job>, j: Job, i: nat)
    ensures Uses(jobs + [j], i) == Uses(jobs, i) + if j.tablesIdx == i then 1 else 0
  {
    if jobs != [] {
      assert (jobs + [j])[1..] == jobs[1..] + [j];
      UsesPush(jobs[1..], j, i);
    }
  }

  lemma {:induction false} UsesSame(a: seq<Job>, b: seq<Job>, i: nat)
    requires |a| == |b| && forall k :: 0 <= k < |a| ==> a[k].tablesIdx == b[k].tablesIdx
    ensures Uses(a, i) == Uses(b, i)
  {
    if a != [] {
      UsesSame(a[1..], b[1..], i);
    }
  }

  lemma {:induction false} UsedIsCounted(jobs: seq<Job>, k: nat)
    requires k < |jobs|
    ensures Uses(jobs, jobs[k].tablesIdx) > 0
  {
    if k > 0 {
      UsedIsCounted(jobs[1..], k - 1);
    }
  }

  function Referenced(jobs: seq<Job>): (r: set<nat>)
    ensures |r| <= |jobs|
    ensures forall i :: i !in r ==> Uses(jobs, i) == 0
  {
    if jobs == [] then {} else {jobs[0].tablesIdx} + Referenced(jobs[1..])
  }

  // freeTableSet's claim: one more set than slots, so some set is always free.
  lemma {:induction false} FreeSetExists(jobs: seq<Job>, sets: nat) returns (free: nat)
    requires |jobs| < sets
    ensures free < sets && Uses(jobs, free) == 0
  {
    free := FreeBelow(Referenced(jobs), sets);
  }

  // Reading blocks one after another from src, starting with tables ts, gives exactly these jobs
  // and ends at endSrc with endTs in force.
  ghost predicate Chain(e: Engine, src: seq<byte>, ts: Tables, jobs: seq<Job>, sets: seq<Tables>,
                        endSrc: seq<byte>, endTs: Tables)
    decreases |jobs|
  {
    if jobs == [] then src == endSrc && ts == endTs
    else
      var b := ReadBlock(e, src);
      && b.Block?
      && jobs[0].start == b.cur && jobs[0].lastBlock == b.lastBlock
      && jobs[0].tablesIdx < |sets| && sets[jobs[0].tablesIdx] == b.TablesAfter(ts)
      && (b.lastBlock ==> |jobs| == 1)
      && Chain(e, b.rest, b.TablesAfter(ts), jobs[1..], sets, endSrc, endTs)
  }

  // Completing a job, or loading a set none of the jobs references, leaves the chain alone.
  lemma {:induction false} ChainSame(e: Engine, src: seq<byte>, ts: Tables, a: seq<Job>, setsA: seq<Tables>,
                                     b: seq<Job>, setsB: seq<Tables>, endSrc: seq<byte>, endTs: Tables)
    requires Chain(e, src, ts, a, setsA, endSrc, endTs)
    requires |a| == |b| && |setsA| == |setsB|
    requires forall k :: 0 <= k < |a| ==>
      a[k].start == b[k].start && a[k].lastBlock == b[k].lastBlock && a[k].tablesIdx == b[k].tablesIdx
    requires forall k :: 0 <= k < |a| && a[k].tablesIdx < |setsA| ==> setsA[a[k].tablesIdx] == setsB[a[k].tablesIdx]
    ensures Chain(e, src, ts, b, setsB, endSrc, endTs)
    decreases |a|
  {
    if a != [] {
      var blk := ReadBlock(e, src);
      ChainSame(e, blk.rest, blk.TablesAfter(ts), a[1..], setsA, b[1..], setsB, endSrc, endTs);
    }
  }

  lemma {:induction false} ChainPush(e: Engine, src: seq<byte>, ts: Tables, jobs: seq<Job>, sets: seq<Tables>,
                                     endSrc: seq<byte>, endTs: Tables, j: Job)
    requires Chain(e, src, ts, jobs, sets, endSrc, endTs)
    requires forall k :: 0 <= k < |jobs| ==> !jobs[k].lastBlock
    requires ReadBlock(e, endSrc).Block?
    requires var b := ReadBlock(e, endSrc);
      j.start == b.cur && j.lastBlock == b.lastBlock && j.tablesIdx < |sets| && sets[j.tablesIdx] == b.TablesAfter(endTs)
    ensures var b := ReadBlock(e, endSrc);
      Chain(e, src, ts, jobs + [j], sets, b.rest, b.TablesAfter(endTs))
    decreases |jobs|
  {
    if jobs == [] {
      assert (jobs + [j])[1..] == [];
    } else {
      var b := ReadBlock(e, src);
      assert (jobs + [j])[1..] == jobs[1..] + [j];
      assert !jobs[0].lastBlock;
      forall k | 0 <= k < |jobs[1..]| ensures !jobs[1..][k].lastBlock {
        assert jobs[1..][k] == jobs[k + 1];
      }
      ChainPush(e, b.rest, b.TablesAfter(ts), jobs[1..], sets, endSrc, endTs, j);
    }
  }

  lemma {:induction false} ChainLast(e: Engine, src: seq<byte>, ts: Tables, jobs: seq<Job>, sets: seq<Tables>,
                                     endSrc: seq<byte>, endTs: Tables, k: nat)
    requires Chain(e, src, ts, jobs, sets, endSrc, endTs)
    requires k < |jobs| - 1
    ensures !jobs[k].lastBlock
    decreases k
  {
    var b := ReadBlock(e, src);
    if k > 0 {
      ChainLast(e, b.rest, b.TablesAfter(ts), jobs[1..], sets, endSrc, endTs, k - 1);
    }
  }
}
