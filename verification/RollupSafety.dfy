/** On a sound store a rollup batch stops only at integer limits and leaves the store sound. */
module RollupSafety {
  import opened Int64
  import opened Outcomes
  import opened Slices
  import opened BTree
  import opened Contributions
  import opened TrafficTables
  import opened RollupBatch
  import opened RollupConservation
  import opened RollupTheorems
  import opened StoreInvariant

  function OwnerOf(k: Slot): Owner { Owner(k.router, k.iface) }

  // ----- consuming one sample

  /** Buckets of the sample's interface end by `at`. */
  ghost predicate EndedBy(buckets: Tree<Bucket>, o: Owner, at: int) {
    forall e :: e in buckets && OwnerOf(e.slot) == o ==> e.value.end <= at
  }

  /**
   * A bucket of the result is an old one, or a bucket of the sample that ends by `at`, lies
   * within the sample's aligned extent, and starts where it used to or inside the sample.
   */
  ghost predicate Grown(buckets: Tree<Bucket>, s: Sample, size: i64, at: int, e: Entry<Bucket>)
    requires size > 0
  {
    e in buckets ||
    (&& OwnerOf(e.slot) == s.owner && e.value.end <= at
     && AlignDown(s.start, size) <= e.slot.start && e.slot.start + size <= AlignUp(s.end, size)
     && (e.value.start >= s.start
         || exists e' :: e' in buckets && e'.slot == e.slot && e'.value.start == e.value.start))
  }

  lemma SegmentSucceeds(s: Sample, size: i64, plannedEnd: i64, at: i64, buckets: Tree<Bucket>)
    requires size > 0 && RawValid(s) && s.start <= at < plannedEnd <= s.end
    requires BatchSound(buckets, size) && EndedBy(buckets, s.owner, at) && FitsI64(AlignDown(s.start, size))
    ensures ConsumeSegment(s, size, plannedEnd, at, buckets).Ok?
    ensures var (filled, end) := ConsumeSegment(s, size, plannedEnd, at, buckets).value;
      && BatchSound(filled, size) && EndedBy(filled, s.owner, end)
      && forall e :: e in filled ==> Grown(buckets, s, size, end, e)
  {
    AlignDownBounds(at, size);
    AlignDownMonotone(s.start, at, size);
    AlignDownMonotone(at, s.end - 1, size);
    GetFinds(buckets, SlotOf(s.owner, AlignDown(at, size)));
    var slot, b := SegmentShape(s, size, plannedEnd, at, buckets, Time);
    BatchSoundAfterPut(buckets, slot, b, size);
    assert Grown(buckets, s, size, b.end, Entry(slot, b));
  }

  lemma {:induction false} ConsumeSucceeds(s: Sample, size: i64, plannedEnd: i64, at: i64, budget: nat,
      buckets: Tree<Bucket>)
    requires size > 0 && RawValid(s) && s.start <= at <= plannedEnd <= s.end
    requires BatchSound(buckets, size) && EndedBy(buckets, s.owner, at) && FitsI64(AlignDown(s.start, size))
    ensures Consume(s, size, plannedEnd, at, budget, buckets).Ok?
    ensures var (filled, end, left) := Consume(s, size, plannedEnd, at, budget, buckets).value;
      && BatchSound(filled, size) && EndedBy(filled, s.owner, end)
      && forall e :: e in filled ==> Grown(buckets, s, size, end, e)
    decreases plannedEnd - at
  {
    if at < plannedEnd && budget > 0 {
      SegmentSucceeds(s, size, plannedEnd, at, buckets);
      var (first, middle) := ConsumeSegment(s, size, plannedEnd, at, buckets).value;
      ConsumeSucceeds(s, size, plannedEnd, middle, budget - 1, first);
      var (filled, end, left) := Consume(s, size, plannedEnd, middle, budget - 1, first).value;
      forall e | e in filled ensures Grown(buckets, s, size, end, e) {
        assert Grown(first, s, size, end, e);
        GrownTwice(buckets, first, s, size, middle, end, e);
      }
    }
  }

  lemma GrownTwice(buckets: Tree<Bucket>, first: Tree<Bucket>, s: Sample, size: i64, middle: int, end: int,
      e: Entry<Bucket>)
    requires size > 0 && middle <= end
    requires forall x :: x in first ==> Grown(buckets, s, size, middle, x)
    requires Grown(first, s, size, end, e)
    ensures Grown(buckets, s, size, end, e)
  {
    if e !in buckets && e !in first && e.value.start < s.start {
      var x :| x in first && x.slot == e.slot && x.value.start == e.value.start;
      assert Grown(buckets, s, size, middle, x);
    }
  }

  // ----- planning a batch

  ghost predicate Settled(p: Progress, id: nat) {
    id in p.consumed || exists r :: r in p.remainders && r.id == id
  }

  /** Every bucket ends before any sample of its interface that is still to be consumed. */
  ghost predicate BucketsBehindSamples(t: Tables, p: Progress) {
    forall e, x :: e in p.buckets && x in t.samples && OwnerOf(e.slot) == x.owner && !Settled(p, x.id)
      ==> e.value.end <= x.start
  }

  ghost predicate RemainderFits(t: Tables, r: Remainder) {
    && Lookup(t.samples, r.id).Some?
    && var s := Lookup(t.samples, r.id).value;
       s.start <= r.start < r.end == s.end && 0 <= r.down <= s.down && 0 <= r.up <= s.up
  }

  function OwnerOfRemainder(t: Tables, r: Remainder): Owner
    requires Lookup(t.samples, r.id).Some?
  {
    Lookup(t.samples, r.id).value.owner
  }

  /** Every bucket ends before any remainder of its interface. */
  ghost predicate BucketsBehindRemainders(t: Tables, p: Progress) {
    && (forall r :: r in p.remainders ==> RemainderFits(t, r))
    && forall e, r :: e in p.buckets && r in p.remainders && OwnerOf(e.slot) == OwnerOfRemainder(t, r)
         ==> e.value.end <= r.start
  }

  /** Every bucket ends within some sample of its interface. */
  ghost predicate BucketsWithinSamples(t: Tables, buckets: Tree<Bucket>) {
    forall e :: e in buckets ==> exists s :: s in t.samples && s.owner == OwnerOf(e.slot) && e.value.end <= s.end
  }

  predicate BucketClearOf(e: Entry<Bucket>, r: Rollup, size: i64) {
    if RawRow(r) then r.end <= e.value.start
    else IntervalsApart(e.slot.start, e.slot.start + size, r.start, r.end)
  }

  ghost predicate BucketsClear(buckets: Tree<Bucket>, rollups: seq<Rollup>, size: i64) {
    forall e, r :: e in buckets && r in rollups && OwnerOf(e.slot) == r.owner ==> BucketClearOf(e, r, size)
  }

  /** What is left of the batch is ordered, unsettled, and earlier than everything else unsettled. */
  ghost predicate RestIsNext(t: Tables, p: Progress, rest: seq<Sample>, cutoff: i64) {
    && StartOrder(rest) && UniqueSampleIds(rest)
    && (forall s :: s in rest ==>
          s in t.samples && s.start < cutoff && !Settled(p, s.id) && Lookup(t.samples, s.id) == Some(s))
    && forall s, x :: s in rest && x in t.samples && x !in rest && !Settled(p, x.id) ==> s.start <= x.start
  }

  /** While budget remains, only interfaces without further samples have a remainder. */
  ghost predicate RemaindersDone(t: Tables, p: Progress, rest: seq<Sample>) {
    p.budget > 0 ==>
      (forall r, s :: r in p.remainders && s in rest && Lookup(t.samples, r.id).Some?
         ==> OwnerOfRemainder(t, r) != s.owner)
  }

  ghost predicate PlanInv(t: Tables, p: Progress, rest: seq<Sample>, size: i64, cutoff: i64) {
    && size > 0 && BatchSound(p.buckets, size)
    && BucketsBehindSamples(t, p) && BucketsBehindRemainders(t, p) && BucketsClear(p.buckets, t.rollups, size)
    && RestIsNext(t, p, rest, cutoff) && RemaindersDone(t, p, rest) && BucketsWithinSamples(t, p.buckets)
  }

  /** The first of the rest precedes every other unsettled sample of its interface entirely. */
  lemma HeadEndsFirst(t: Tables, p: Progress, rest: seq<Sample>, size: i64, cutoff: i64, x: Sample)
    requires StoreSound(t, size) && RestIsNext(t, p, rest, cutoff) && rest != []
    requires x in t.samples && x.owner == rest[0].owner && x.id != rest[0].id && !Settled(p, x.id)
    ensures rest[0].end <= x.start
  {
    var s := rest[0];
    assert s in rest;
    assert SampleSound(s) && SampleSound(x);
    assert IntervalsApart(s.start, s.end, x.start, x.end);
    if x in rest {
      var i :| 0 <= i < |rest| && rest[i] == x;
      assert s.start <= x.start;
    }
  }

  lemma GrownBucketsClear(t: Tables, s: Sample, size: i64, at: int, buckets: Tree<Bucket>, filled: Tree<Bucket>)
    requires StoreSound(t, size) && s in t.samples && BucketsClear(buckets, t.rollups, size)
    requires forall e :: e in filled ==> Grown(buckets, s, size, at, e)
    ensures BucketsClear(filled, t.rollups, size)
  {
    forall e, r | e in filled && r in t.rollups && OwnerOf(e.slot) == r.owner ensures BucketClearOf(e, r, size) {
      assert Grown(buckets, s, size, at, e);
      if e !in buckets {
        assert SampleClearOf(s, r, size);
        if e.value.start < s.start {
          var e' :| e' in buckets && e'.slot == e.slot && e'.value.start == e.value.start;
          assert BucketClearOf(e', r, size);
        }
      }
    }
  }

  /** The state after planning the first of the rest. */
  lemma PlanStepShape(t: Tables, p: Progress, rest: seq<Sample>, size: i64, cutoff: i64) returns (p': Progress, at: i64)
    requires StoreSound(t, size) && PlanInv(t, p, rest, size, cutoff) && rest != [] && p.budget > 0
    requires FitsI64(AlignDown(rest[0].start, size))
    ensures PlanSample(p, rest[0], size, cutoff) == Ok(p')
    ensures var s := rest[0];
      && s.start <= at <= Min(s.end, cutoff) && (at < Min(s.end, cutoff) ==> p'.budget == 0)
      && p'.consumed == (if at == s.end then p.consumed + [s.id] else p.consumed)
      && p'.remainders == (if at == s.end then p.remainders else p.remainders + [RestOf(s, at)])
      && (at < s.end ==> 0 <= RestOf(s, at).down <= s.down && 0 <= RestOf(s, at).up <= s.up)
      && p'.budget <= p.budget && BatchSound(p'.buckets, size)
      && EndedBy(p'.buckets, s.owner, at)
      && forall e :: e in p'.buckets ==> Grown(p.buckets, s, size, at, e)
  {
    var s := rest[0];
    assert s in rest && SampleSound(s);
    assert EndedBy(p.buckets, s.owner, s.start);
    ConsumeSucceeds(s, size, Min(s.end, cutoff), s.start, p.budget, p.buckets);
    at := Consume(s, size, Min(s.end, cutoff), s.start, p.budget, p.buckets).value.1;
    if at < s.end {
      RestComplementsBefore(Time, s, at, false);
    }
    assert PlanSample(p, s, size, cutoff).Ok?;
    at := PlanSampleShape(p, s, size, cutoff);
    p' := PlanSample(p, s, size, cutoff).value;
  }

  lemma StepKeepsBucketsBehind(t: Tables, p: Progress, rest: seq<Sample>, size: i64, cutoff: i64, p': Progress, at: i64)
    requires StoreSound(t, size) && PlanInv(t, p, rest, size, cutoff) && rest != [] && p.budget > 0
    requires p'.consumed == (if at == rest[0].end then p.consumed + [rest[0].id] else p.consumed)
    requires rest[0].start <= at <= rest[0].end
    requires p'.remainders == if at == rest[0].end then p.remainders else p.remainders + [RestOf(rest[0], at)]
    requires at < rest[0].end ==>
      0 <= RestOf(rest[0], at).down <= rest[0].down && 0 <= RestOf(rest[0], at).up <= rest[0].up
    requires EndedBy(p'.buckets, rest[0].owner, at)
    requires forall e :: e in p'.buckets ==> Grown(p.buckets, rest[0], size, at, e)
    ensures forall id :: Settled(p', id) <==> Settled(p, id) || id == rest[0].id
    ensures BucketsBehindSamples(t, p')
    ensures BucketsBehindRemainders(t, p')
  {
    var s := rest[0];
    assert s in rest;
    if at < s.end {
      assert p'.remainders[|p.remainders|] == RestOf(s, at);
      assert RemainderFits(t, RestOf(s, at));
    }
    forall id ensures Settled(p', id) <==> Settled(p, id) || id == s.id {
      if Settled(p, id) && id !in p.consumed {
        var r :| r in p.remainders && r.id == id;
        assert r in p'.remainders;
      }
      if id == s.id && at < s.end {
        assert RestOf(s, at) in p'.remainders;
      }
    }
    forall e, x | e in p'.buckets && x in t.samples && OwnerOf(e.slot) == x.owner && !Settled(p', x.id)
      ensures e.value.end <= x.start
    {
      assert Grown(p.buckets, s, size, at, e);
      if e !in p.buckets {
        HeadEndsFirst(t, p, rest, size, cutoff, x);
      }
    }
    forall e, r | e in p'.buckets && r in p'.remainders && OwnerOf(e.slot) == OwnerOfRemainder(t, r)
      ensures e.value.end <= r.start
    {
      assert Grown(p.buckets, s, size, at, e);
    }
  }

  lemma StepKeepsRest(t: Tables, p: Progress, rest: seq<Sample>, cutoff: i64, p': Progress)
    requires RestIsNext(t, p, rest, cutoff) && rest != []
    requires forall id :: Settled(p', id) <==> Settled(p, id) || id == rest[0].id
    ensures RestIsNext(t, p', rest[1..], cutoff)
  {
    var head, tail := rest[0], rest[1..];
    forall s | s in tail
      ensures s in t.samples && s.start < cutoff && !Settled(p', s.id) && Lookup(t.samples, s.id) == Some(s)
    {
      assert s in rest && s.id != head.id;
    }
    forall s, x | s in tail && x in t.samples && x !in tail && !Settled(p', x.id)
      ensures s.start <= x.start
    {
      assert s in rest && x.id != head.id;
      assert x !in rest;
    }
  }

  lemma StepKeepsRemaindersDone(t: Tables, p: Progress, rest: seq<Sample>, size: i64, cutoff: i64, p': Progress,
      at: i64)
    requires StoreSound(t, size) && PlanInv(t, p, rest, size, cutoff) && rest != [] && p.budget > 0
    requires rest[0].start <= at <= Min(rest[0].end, cutoff)
    requires at < Min(rest[0].end, cutoff) ==> p'.budget == 0
    requires p'.remainders == if at == rest[0].end then p.remainders else p.remainders + [RestOf(rest[0], at)]
    ensures RemaindersDone(t, p', rest[1..])
  {
    var s, tail := rest[0], rest[1..];
    assert s in rest;
    if p'.budget > 0 {
      forall r, x | r in p'.remainders && x in tail && Lookup(t.samples, r.id).Some?
        ensures OwnerOfRemainder(t, r) != x.owner
      {
        assert x in rest && x.id != s.id;
        if r !in p.remainders && x.owner == s.owner {
          HeadEndsFirst(t, p, rest, size, cutoff, x);
          assert false;
        }
      }
    }
  }

  /** Planning the first of the rest succeeds and keeps the invariant. */
  lemma PlanStep(t: Tables, p: Progress, rest: seq<Sample>, size: i64, cutoff: i64) returns (p': Progress)
    requires StoreSound(t, size) && PlanInv(t, p, rest, size, cutoff) && rest != [] && p.budget > 0
    requires FitsI64(AlignDown(rest[0].start, size))
    ensures PlanSample(p, rest[0], size, cutoff) == Ok(p') && PlanInv(t, p', rest[1..], size, cutoff)
  {
    var at;
    assert rest[0] in rest;
    p', at := PlanStepShape(t, p, rest, size, cutoff);
    StepKeepsBucketsBehind(t, p, rest, size, cutoff, p', at);
    GrownBucketsClear(t, rest[0], size, at, p.buckets, p'.buckets);
    StepKeepsRest(t, p, rest, cutoff, p');
    StepKeepsRemaindersDone(t, p, rest, size, cutoff, p', at);
    GrownWithinSamples(t, rest[0], size, at, p.buckets, p'.buckets);
  }

  lemma GrownWithinSamples(t: Tables, s: Sample, size: i64, at: int, buckets: Tree<Bucket>, filled: Tree<Bucket>)
    requires size > 0 && s in t.samples && at <= s.end && BucketsWithinSamples(t, buckets)
    requires forall e :: e in filled ==> Grown(buckets, s, size, at, e)
    ensures BucketsWithinSamples(t, filled)
  {
    forall e | e in filled ensures exists x :: x in t.samples && x.owner == OwnerOf(e.slot) && e.value.end <= x.end {
      assert Grown(buckets, s, size, at, e);
    }
  }

  /** Only a sample whose bucket would start before the time scale is refused. */
  lemma PlanRefused(p: Progress, s: Sample, size: i64, cutoff: i64)
    requires size > 0 && SampleSound(s) && s.start < cutoff && p.budget > 0
    requires !FitsI64(AlignDown(s.start, size))
    ensures PlanSample(p, s, size, cutoff) == Err(Arithmetic)
  {
  }

  lemma {:induction false} PlanKeepsInvariant(t: Tables, p: Progress, rest: seq<Sample>, size: i64, cutoff: i64)
    returns (left: seq<Sample>)
    requires StoreSound(t, size) && PlanInv(t, p, rest, size, cutoff)
    ensures PlanBatch(p, rest, size, cutoff).Ok? ==>
      PlanInv(t, PlanBatch(p, rest, size, cutoff).value, left, size, cutoff)
    ensures PlanBatch(p, rest, size, cutoff).Err? ==>
      PlanBatch(p, rest, size, cutoff) == Err(Arithmetic) && exists s :: s in rest && !FitsI64(AlignDown(s.start, size))
    decreases |rest|
  {
    left := rest;
    if rest != [] && p.budget > 0 {
      assert rest[0] in rest && SampleSound(rest[0]);
      if FitsI64(AlignDown(rest[0].start, size)) {
        var p' := PlanStep(t, p, rest, size, cutoff);
        left := PlanKeepsInvariant(t, p', rest[1..], size, cutoff);
      } else {
        PlanRefused(p, rest[0], size, cutoff);
      }
    }
  }

  // ----- storing the buckets

  predicate TallyFits(r: Rollup, t: Tally) {
    && r.exactDown + t.exactDown <= I64_MAX && r.exactUp + t.exactUp <= I64_MAX
    && r.estDown + t.estDown <= I64_MAX && r.estUp + t.estUp <= I64_MAX
    && r.count + t.count <= I64_MAX
  }

  /** Where the upsert lands: on the first row of the same bucket, or at the end. */
  lemma {:induction false} UpsertShape(rollups: seq<Rollup>, row: Rollup, batchStart: i64) returns (i: nat)
    ensures i <= |rollups|
    ensures i < |rollups| ==> SameBucketRow(rollups[i], row)
    ensures i == |rollups| ==> forall r :: r in rollups ==> !SameBucketRow(r, row)
    ensures Upsert(rollups, row, batchStart)
         == if i == |rollups| then Ok(rollups + [row])
            else if Mergeable(rollups[i], row, batchStart) then Ok(rollups[i := MergeRows(rollups[i], row, batchStart)])
            else Err(Verification)
  {
    if rollups == [] {
      i := 0;
      assert rollups + [row] == [row];
    } else if SameBucketRow(rollups[0], row) {
      i := 0;
      if Mergeable(rollups[0], row, batchStart) {
        var merged := MergeRows(rollups[0], row, batchStart);
        assert [merged] + rollups[1..] == rollups[0 := merged];
      }
    } else {
      var j := UpsertShape(rollups[1..], row, batchStart);
      i := j + 1;
      assert rollups == [rollups[0]] + rollups[1..];
      if i == |rollups| {
        assert [rollups[0]] + (rollups[1..] + [row]) == rollups + [row];
      } else if Mergeable(rollups[i], row, batchStart) {
        var merged := MergeRows(rollups[i], row, batchStart);
        assert [rollups[0]] + rollups[1..][j := merged] == rollups[i := merged];
      }
    }
  }

  /** A bucket row fits the column limits. */
  predicate BytesFit(e: Entry<Bucket>) {
    var t := e.value.tally;
    t.exactDown <= I64_MAX && t.exactUp <= I64_MAX && t.estDown <= I64_MAX && t.estUp <= I64_MAX
  }

  lemma BucketRowSucceeds(id: nat, e: Entry<Bucket>, size: i64)
    requires size > 0 && BucketSound(e, size)
    ensures BucketRow(id, e, size).Ok? <==> BytesFit(e)
    ensures BytesFit(e) ==>
      var row := BucketRow(id, e, size).value;
      && row.owner == OwnerOf(e.slot) && row.start == e.slot.start && row.end == e.value.end && row.size == size
      && RawRow(row) && RollupSound(row, size) && row.exactMs + row.estMs <= row.end - e.value.start
  {
  }

  /** Merging into the row of the same bucket is refused only by integer limits. */
  lemma MergeSucceeds(r: Rollup, row: Rollup, e: Entry<Bucket>, id: nat, size: i64)
    requires size > 0 && BucketSound(e, size) && BytesFit(e) && BucketRow(id, e, size) == Ok(row)
    requires RollupSound(r, size) && SameBucketRow(r, row) && r.end <= e.value.start
    ensures Mergeable(r, row, e.value.start) <==> TallyFits(r, e.value.tally)
    ensures TallyFits(r, e.value.tally) ==>
      var merged := MergeRows(r, row, e.value.start);
      RollupSound(merged, size) && merged.start == row.start && merged.end == row.end && merged.owner == row.owner
        && RawRow(merged)
  {
    BucketRowSucceeds(id, e, size);
  }

  predicate StoresBucket(r: Rollup, e: Entry<Bucket>, size: i64) {
    RawRow(r) && r.owner == OwnerOf(e.slot) && r.start == e.slot.start && r.size == size
  }

  /** A byte total or sample count of the bucket, alone or merged, leaves the 64-bit range. */
  ghost predicate LimitHit(rollups: seq<Rollup>, e: Entry<Bucket>, size: i64) {
    !BytesFit(e) || exists r :: r in rollups && StoresBucket(r, e, size) && !TallyFits(r, e.value.tally)
  }

  /** The new row of a bucket stays apart from every other row of its interface. */
  lemma NewRowApart(r: Rollup, row: Rollup, e: Entry<Bucket>, size: i64)
    requires size > 0 && BucketSound(e, size) && RollupSound(r, size) && RawRow(row)
    requires row.owner == OwnerOf(e.slot) && row.start == e.slot.start && row.end == e.value.end && row.size == size
    requires r.owner == row.owner && BucketClearOf(e, r, size) && !SameBucketRow(r, row)
    ensures IntervalsApart(r.start, r.end, row.start, row.end)
  {
    if RawRow(r) {
      if r.start < row.start {
        AlignedBucketsApart(r.start, row.start, size);
      } else if row.start < r.start {
        AlignedBucketsApart(row.start, r.start, size);
      }
    }
  }

  /** The tables differ at most in row `i`, which may be new. */
  ghost predicate ChangedAt(rollups: seq<Rollup>, stored: seq<Rollup>, i: nat) {
    && |rollups| <= |stored|
    && forall j :: 0 <= j < |stored| && j != i ==> j < |rollups| && stored[j] == rollups[j]
  }

  /** Storing one bucket on sound rollups: refused only by integer limits, and sound again. */
  lemma StoreStep(rollups: seq<Rollup>, id: nat, e: Entry<Bucket>, size: i64) returns (i: nat)
    requires size > 0 && RollupsSound(rollups, size) && BucketSound(e, size) && BucketsClear([e], rollups, size)
    ensures BucketRow(id, e, size).Ok? && Upsert(rollups, BucketRow(id, e, size).value, e.value.start).Ok?
       <==> !LimitHit(rollups, e, size)
    ensures !LimitHit(rollups, e, size) ==>
      var stored := Upsert(rollups, BucketRow(id, e, size).value, e.value.start).value;
      && i < |stored|
      && StoresBucket(stored[i], e, size) && stored[i].end == e.value.end
      && (i < |rollups| ==> StoresBucket(rollups[i], e, size))
      && RollupSound(stored[i], size)
      && ChangedAt(rollups, stored, i)
      && (forall j :: 0 <= j < |rollups| && j != i && rollups[j].owner == OwnerOf(e.slot)
            ==> IntervalsApart(rollups[j].start, rollups[j].end, e.slot.start, e.value.end))
  {
    BucketRowSucceeds(id, e, size);
    i := 0;
    if BytesFit(e) {
      var row := BucketRow(id, e, size).value;
      i := UpsertShape(rollups, row, e.value.start);
      if i < |rollups| {
        assert rollups[i] in rollups && e in [e];
        assert BucketClearOf(e, rollups[i], size);
        MergeSucceeds(rollups[i], row, e, id, size);
        OnlyOneBucketRow(rollups, row, size, i);
      }
      forall j | 0 <= j < |rollups| && j != i && rollups[j].owner == row.owner
        ensures IntervalsApart(rollups[j].start, rollups[j].end, row.start, row.end)
      {
        assert rollups[j] in rollups && e in [e];
        NewRowApart(rollups[j], row, e, size);
      }
    }
  }

  lemma OnlyOneBucketRow(rollups: seq<Rollup>, row: Rollup, size: i64, i: nat)
    requires size > 0 && RollupsSound(rollups, size) && i < |rollups| && SameBucketRow(rollups[i], row)
    ensures forall j :: 0 <= j < |rollups| && SameBucketRow(rollups[j], row) ==> j == i
  {
    forall j | 0 <= j < |rollups| && SameBucketRow(rollups[j], row) ensures j == i {
      assert RollupSound(rollups[j], size) && RollupSound(rollups[i], size);
    }
  }

  /** A stored row is an old one or the row of a bucket of the batch. */
  ghost predicate StoredFrom(rollups: seq<Rollup>, buckets: Tree<Bucket>, size: i64, r: Rollup) {
    r in rollups || exists e :: e in buckets && StoresBucket(r, e, size) && r.end == e.value.end
  }

  /** The row of an earlier bucket ends before any later bucket of its interface starts. */
  lemma LaterBucketsClear(rollups: seq<Rollup>, buckets: Tree<Bucket>, size: i64, stored: seq<Rollup>, i: nat)
    requires size > 0 && buckets != [] && BatchSound(buckets, size) && BucketsClear(buckets, rollups, size)
    requires i < |stored| && StoresBucket(stored[i], buckets[0], size) && stored[i].end == buckets[0].value.end
    requires ChangedAt(rollups, stored, i)
    ensures BucketsClear(buckets[1..], stored, size)
    ensures forall e :: e in buckets[1..] ==> e in buckets && !StoresBucket(stored[i], e, size)
  {
    var first := buckets[0];
    assert BucketSound(first, size);
    forall e | e in buckets[1..]
      ensures e in buckets && !StoresBucket(stored[i], e, size)
      ensures OwnerOf(e.slot) == stored[i].owner ==> stored[i].end <= e.value.start
    {
      assert BucketSound(e, size) && Less(first.slot, e.slot);
      if OwnerOf(e.slot) == stored[i].owner {
        AlignedBucketsApart(first.slot.start, e.slot.start, size);
      }
    }
    forall e, r | e in buckets[1..] && r in stored && OwnerOf(e.slot) == r.owner ensures BucketClearOf(e, r, size) {
      var j :| 0 <= j < |stored| && stored[j] == r;
      if j != i {
        assert r in rollups && e in buckets;
      }
    }
  }

  /** Limits of later buckets do not depend on earlier buckets having been stored. */
  lemma LimitsUnaffected(rollups: seq<Rollup>, buckets: Tree<Bucket>, size: i64, stored: seq<Rollup>, i: nat)
    requires buckets != [] && i < |stored|
    requires ChangedAt(rollups, stored, i)
    requires i < |rollups| ==> StoresBucket(rollups[i], buckets[0], size)
    requires StoresBucket(stored[i], buckets[0], size)
    requires forall e :: e in buckets[1..] ==> !StoresBucket(stored[i], e, size)
    ensures forall e :: e in buckets[1..] ==> (LimitHit(stored, e, size) <==> LimitHit(rollups, e, size))
  {
    forall e | e in buckets[1..] ensures LimitHit(stored, e, size) <==> LimitHit(rollups, e, size) {
      forall r | StoresBucket(r, e, size) ensures r in stored <==> r in rollups {
        if r in stored {
          var j :| 0 <= j < |stored| && stored[j] == r;
          assert r in rollups;
        }
        if r in rollups {
          var j :| 0 <= j < |rollups| && rollups[j] == r;
          assert j != i;
          assert stored[j] == r;
        }
      }
    }
  }

  /** Storing the first bucket leaves the same task for the others. */
  lemma StoreHead(rollups: seq<Rollup>, id: nat, buckets: Tree<Bucket>, size: i64) returns (stored: seq<Rollup>)
    requires size > 0 && RollupsSound(rollups, size) && BatchSound(buckets, size)
      && BucketsClear(buckets, rollups, size)
    requires buckets != [] && !LimitHit(rollups, buckets[0], size)
    ensures BucketRow(id, buckets[0], size).Ok?
    ensures Upsert(rollups, BucketRow(id, buckets[0], size).value, buckets[0].value.start) == Ok(stored)
    ensures RollupsSound(stored, size) && BatchSound(buckets[1..], size) && BucketsClear(buckets[1..], stored, size)
    ensures forall e :: e in buckets[1..] ==> (LimitHit(stored, e, size) <==> LimitHit(rollups, e, size))
    ensures forall r :: r in stored ==> StoredFrom(rollups, [buckets[0]], size, r)
  {
    var e := buckets[0];
    assert e in buckets && BucketSound(e, size);
    var i := StoreStep(rollups, id, e, size);
    stored := Upsert(rollups, BucketRow(id, e, size).value, e.value.start).value;
    StoreStepKeepsSound(rollups, stored, i, size);
    LaterBucketsClear(rollups, buckets, size, stored, i);
    LimitsUnaffected(rollups, buckets, size, stored, i);
    forall r | r in stored ensures StoredFrom(rollups, [e], size, r) {
      var j :| 0 <= j < |stored| && stored[j] == r;
      if j == i {
        assert e in [e];
      } else {
        assert r in rollups;
      }
    }
  }

  /**
   * Storing the buckets of a batch fails exactly when one of them hits an integer limit, and
   * otherwise leaves sound rollups, each old or the row of a bucket.
   */
  lemma {:induction false} StoreSucceeds(rollups: seq<Rollup>, nextId: nat, buckets: Tree<Bucket>, size: i64)
    requires size > 0 && RollupsSound(rollups, size) && BatchSound(buckets, size)
      && BucketsClear(buckets, rollups, size)
    ensures StoreBuckets(rollups, nextId, buckets, size).Ok? <==> forall e :: e in buckets ==>
      !LimitHit(rollups, e, size)
    ensures StoreBuckets(rollups, nextId, buckets, size).Ok? ==>
      var stored := StoreBuckets(rollups, nextId, buckets, size).value;
      RollupsSound(stored, size) && forall r :: r in stored ==> StoredFrom(rollups, buckets, size, r)
    decreases |buckets|
  {
    if buckets != [] {
      var e := buckets[0];
      assert e in buckets && BucketSound(e, size);
      var i := StoreStep(rollups, nextId, e, size);
      if !LimitHit(rollups, e, size) {
        var stored := StoreHead(rollups, nextId, buckets, size);
        StoreSucceeds(stored, nextId + 1, buckets[1..], size);
        assert forall x :: x in buckets <==> x == e || x in buckets[1..];
        if StoreBuckets(stored, nextId + 1, buckets[1..], size).Ok? {
          forall r | r in StoreBuckets(stored, nextId + 1, buckets[1..], size).value
            ensures StoredFrom(rollups, buckets, size, r)
          {
            assert StoredFrom(stored, buckets[1..], size, r);
          }
        }
      }
    }
  }

  lemma StoreStepKeepsSound(rollups: seq<Rollup>, stored: seq<Rollup>, i: nat, size: i64)
    requires size > 0 && RollupsSound(rollups, size) && i < |stored|
    requires RollupSound(stored[i], size)
    requires ChangedAt(rollups, stored, i)
    requires forall j :: 0 <= j < |rollups| && j != i && rollups[j].owner == stored[i].owner ==>
      IntervalsApart(rollups[j].start, rollups[j].end, stored[i].start, stored[i].end)
    ensures RollupsSound(stored, size)
  {
    forall r | r in stored ensures RollupSound(r, size) {
      var j :| 0 <= j < |stored| && stored[j] == r;
      if j != i {
        assert r in rollups;
      }
    }
  }

  // ----- settling the samples

  predicate RemainderStorable(samples: seq<Sample>, r: Remainder) {
    Lookup(samples, r.id).Some? && 0 <= r.down <= I64_MAX && 0 <= r.up <= I64_MAX && r.start < r.end
  }

  /** The sample a remainder leaves behind. */
  function Shrunk(samples: seq<Sample>, r: Remainder): Sample
    requires RemainderStorable(samples, r)
  {
    Shrink(Lookup(samples, r.id).value, r, r.down, r.up)
  }

  lemma {:induction false} LookupNone(samples: seq<Sample>, id: nat)
    ensures Lookup(samples, id).None? <==> forall x :: x in samples ==> x.id != id
    ensures Lookup(samples, id).Some? ==> Lookup(samples, id).value in samples && Lookup(samples, id).value.id == id
  {
    if samples != [] {
      LookupNone(samples[1..], id);
      assert samples == [samples[0]] + samples[1..];
    }
  }

  lemma {:induction false} UpdateShape(samples: seq<Sample>, r: Remainder)
    requires UniqueSampleIds(samples) && RemainderStorable(samples, r)
    ensures UpdateRow(samples, r).Ok?
    ensures var updated := UpdateRow(samples, r).value;
      && |updated| == |samples| && (forall i :: 0 <= i < |samples| ==> updated[i].id == samples[i].id)
      && (forall x :: x in updated ==> (x in samples && x.id != r.id) || x == Shrunk(samples, r))
      && forall id :: id != r.id ==> Lookup(updated, id) == Lookup(samples, id)
  {
    if samples[0].id == r.id {
      assert forall x :: x in samples[1..] ==> x in samples && x.id != r.id;
    } else {
      UpdateShape(samples[1..], r);
      assert samples == [samples[0]] + samples[1..];
      assert samples[0] in samples && samples[0].id != r.id;
    }
  }

  lemma {:induction false} DeleteShape(samples: seq<Sample>, id: nat)
    requires UniqueSampleIds(samples) && Lookup(samples, id).Some?
    ensures DeleteRow(samples, id).Ok?
    ensures var left := DeleteRow(samples, id).value;
      && UniqueSampleIds(left)
      && (forall x :: x in left ==> x in samples && x.id != id)
      && forall other :: other != id ==> Lookup(left, other) == Lookup(samples, other)
  {
    if samples[0].id == id {
      assert forall x :: x in samples[1..] ==> x in samples && x.id != id;
    } else {
      DeleteShape(samples[1..], id);
      var rest := DeleteRow(samples[1..], id).value;
      assert samples == [samples[0]] + samples[1..];
      assert forall x :: x in rest ==> x in samples[1..];
      assert forall x :: x in samples[1..] ==> x.id != samples[0].id;
    }
  }

  predicate NamedByFirst(p: Progress, n: nat, id: nat)
    requires n <= |p.remainders|
  {
    exists i :: 0 <= i < n && p.remainders[i].id == id
  }

  ghost predicate ShrunkByFirst(samples: seq<Sample>, p: Progress, n: nat, x: Sample)
    requires n <= |p.remainders|
  {
    exists i :: 0 <= i < n && RemainderStorable(samples, p.remainders[i]) && x == Shrunk(samples, p.remainders[i])
  }

  /** After the first `n` remainders, `x` is an old sample none of them names, or what one of them left. */
  ghost predicate AfterRemainders(samples: seq<Sample>, p: Progress, n: nat, x: Sample)
    requires n <= |p.remainders|
  {
    (x in samples && !NamedByFirst(p, n, x.id)) || ShrunkByFirst(samples, p, n, x)
  }

  lemma OneMoreRemainder(samples: seq<Sample>, p: Progress, n: nat, x: Sample)
    requires n < |p.remainders| && RemainderStorable(samples, p.remainders[n])
    requires x == Shrunk(samples, p.remainders[n])
      || (AfterRemainders(samples, p, n, x) && x.id != p.remainders[n].id)
    ensures AfterRemainders(samples, p, n + 1, x)
  {
    if x != Shrunk(samples, p.remainders[n]) && ShrunkByFirst(samples, p, n, x) {
      var i :| 0 <= i < n && RemainderStorable(samples, p.remainders[i]) && x == Shrunk(samples, p.remainders[i]);
    }
  }

  lemma {:induction false} RemaindersShape(samples: seq<Sample>, p: Progress, n: nat)
    requires UniqueSampleIds(samples) && SettlesOnce(samples, p) && n <= |p.remainders|
    requires forall r :: r in p.remainders ==> RemainderStorable(samples, r)
    ensures ApplyRemainders(samples, p.remainders[..n]).Ok?
    ensures var shrunk := ApplyRemainders(samples, p.remainders[..n]).value;
      && UniqueSampleIds(shrunk)
      && (forall x :: x in shrunk ==> AfterRemainders(samples, p, n, x))
      && forall id: nat :: !NamedByFirst(p, n, id) ==> Lookup(shrunk, id) == Lookup(samples, id)
  {
    if n > 0 {
      assert p.remainders[..n][..n - 1] == p.remainders[..n - 1];
      RemaindersShape(samples, p, n - 1);
      var earlier := ApplyRemainders(samples, p.remainders[..n - 1]).value;
      var r := p.remainders[n - 1];
      assert r in p.remainders && !NamedByFirst(p, n - 1, r.id);
      UpdateShape(earlier, r);
      assert forall id :: NamedByFirst(p, n, id) <==> NamedByFirst(p, n - 1, id) || id == r.id;
      var shrunk := UpdateRow(earlier, r).value;
      forall x | x in shrunk ensures AfterRemainders(samples, p, n, x) {
        OneMoreRemainder(samples, p, n - 1, x);
      }
    }
  }

  lemma {:induction false} DeletesShape(samples: seq<Sample>, shrunk: seq<Sample>, p: Progress, n: nat)
    requires UniqueSampleIds(shrunk) && SettlesOnce(samples, p) && n <= |p.consumed|
    requires forall id :: id in p.consumed ==> Lookup(shrunk, id).Some?
    ensures DeleteConsumed(shrunk, p.consumed[..n]).Ok?
    ensures var left := DeleteConsumed(shrunk, p.consumed[..n]).value;
      && UniqueSampleIds(left)
      && (forall x :: x in left ==> x in shrunk && x.id !in p.consumed[..n])
      && forall j :: n <= j < |p.consumed| ==> Lookup(left, p.consumed[j]).Some?
  {
    if n > 0 {
      assert p.consumed[..n][..n - 1] == p.consumed[..n - 1];
      DeletesShape(samples, shrunk, p, n - 1);
      DeleteShape(DeleteConsumed(shrunk, p.consumed[..n - 1]).value, p.consumed[n - 1]);
      assert forall id :: id in p.consumed[..n] ==> id in p.consumed[..n - 1] || id == p.consumed[n - 1];
    }
  }

  /** A sample after the batch is an unsettled old one or what a remainder leaves. */
  ghost predicate LeftFrom(samples: seq<Sample>, p: Progress, x: Sample) {
    || (x in samples && !Settled(p, x.id))
    || exists r :: r in p.remainders && RemainderStorable(samples, r) && x == Shrunk(samples, r)
  }

  lemma SettlingSucceeds(samples: seq<Sample>, p: Progress)
    requires UniqueSampleIds(samples) && SettlesOnce(samples, p)
    requires forall r :: r in p.remainders ==> RemainderStorable(samples, r)
    ensures ApplyRemainders(samples, p.remainders).Ok?
    ensures DeleteConsumed(ApplyRemainders(samples, p.remainders).value, p.consumed).Ok?
    ensures var left := DeleteConsumed(ApplyRemainders(samples, p.remainders).value, p.consumed).value;
      UniqueSampleIds(left) && forall x :: x in left ==> LeftFrom(samples, p, x)
  {
    assert p.remainders[..|p.remainders|] == p.remainders && p.consumed[..|p.consumed|] == p.consumed;
    RemaindersShape(samples, p, |p.remainders|);
    var shrunk := ApplyRemainders(samples, p.remainders).value;
    forall id | id in p.consumed ensures Lookup(shrunk, id).Some? {
      assert !NamedByFirst(p, |p.remainders|, id);
    }
    DeletesShape(samples, shrunk, p, |p.consumed|);
  }
}
