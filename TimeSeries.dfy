/**
 The gap-filling merge at the heart of the bot's `json_response`: the store's
 sparse, per-bucket sums are walked together with a cursor that starts at the
 requested `from` and moves one granularity step at a time, producing the two
 parallel lists `labels` and `dataset`.

 Timestamps are abstract and totally ordered (integers at the finest
 resolution the timestamps carry, so `c <= upto` is `c < upto + 1`), and the
 calendar step (one hour, one day or one month) is an arbitrary function that
 always moves forward.
 */
module TimeSeries {

  type Timestamp = int

  /** One row of the store's aggregation result: a bucket start and the sum of its values. */
  datatype Record = Record(bucket: Timestamp, sum: int)

  /** One emitted point: `labels[i]` and `dataset[i]` taken together. */
  datatype Entry = Entry(stamp: Timestamp, value: int)

  /** The calendar step strictly increases every timestamp. */
  ghost predicate Advancing(step: Timestamp -> Timestamp) {
    forall t :: step(t) > t
  }

  /** The cursor after `k` steps from `t`. */
  function Iterate(step: Timestamp -> Timestamp, t: Timestamp, k: nat): Timestamp
    decreases k
  {
    if k == 0 then t else Iterate(step, step(t), k - 1)
  }

  /** The zero entries of `while cursor < bound: emit (cursor, 0); step`, started at `c`. */
  function Zeros(c: Timestamp, bound: Timestamp, step: Timestamp -> Timestamp): seq<Entry>
    requires Advancing(step)
    decreases bound - c
  {
    if c < bound then [Entry(c, 0)] + Zeros(step(c), bound, step) else []
  }

  /** The cursor once that same loop has stopped: never behind `c`, never below `bound`. */
  function Skip(c: Timestamp, bound: Timestamp, step: Timestamp -> Timestamp): (r: Timestamp)
    requires Advancing(step)
    ensures r >= c && r >= bound
    decreases bound - c
  {
    if c < bound then Skip(step(c), bound, step) else c
  }

  /**
   Everything the fill emits from cursor `c` on: for each record, the zeros
   below its bucket, then the record under its own bucket start, then one
   step; after the last record, zeros up to and including `upto`.
   */
  function Emit(c: Timestamp, upto: Timestamp, step: Timestamp -> Timestamp, records: seq<Record>): seq<Entry>
    requires Advancing(step)
    decreases |records|
  {
    if records == [] then Zeros(c, upto + 1, step)
    else
      var d := records[0].bucket;
      Zeros(c, d, step) + [Entry(d, records[0].sum)] + Emit(step(Skip(c, d, step)), upto, step, records[1..])
  }

  /** The cursor when the fill is over. */
  function Final(c: Timestamp, upto: Timestamp, step: Timestamp -> Timestamp, records: seq<Record>): Timestamp
    requires Advancing(step)
    decreases |records|
  {
    if records == [] then Skip(c, upto + 1, step)
    else Final(step(Skip(c, records[0].bucket, step)), upto, step, records[1..])
  }

  function Labels(out: seq<Entry>): seq<Timestamp> {
    seq(|out|, i requires 0 <= i < |out| => out[i].stamp)
  }

  function Dataset(out: seq<Entry>): seq<int> {
    seq(|out|, i requires 0 <= i < |out| => out[i].value)
  }

  /** The latest timestamp the series has to cover: `upto`, or the last record's bucket if that is later. */
  function Top(upto: Timestamp, records: seq<Record>): Timestamp {
    if records == [] || records[|records| - 1].bucket <= upto then upto else records[|records| - 1].bucket
  }

  /**
   One zero-filling loop, `while cursor < bound: append (cursor, 0); step`,
   run on the lists built so far.
   */
  method FillBelow(labels: seq<Timestamp>, dataset: seq<int>, c: Timestamp, bound: Timestamp,
                   step: Timestamp -> Timestamp)
    returns (labels': seq<Timestamp>, dataset': seq<int>, c': Timestamp)
    requires Advancing(step)
    ensures labels' == labels + Labels(Zeros(c, bound, step))
    ensures dataset' == dataset + Dataset(Zeros(c, bound, step))
    ensures c' == Skip(c, bound, step)
  {
    labels', dataset', c' := labels, dataset, c;
    while c' < bound
      invariant labels' + Labels(Zeros(c', bound, step)) == labels + Labels(Zeros(c, bound, step))
      invariant dataset' + Dataset(Zeros(c', bound, step)) == dataset + Dataset(Zeros(c, bound, step))
      invariant Skip(c', bound, step) == Skip(c, bound, step)
      decreases bound - c'
    {
      ZerosStep(c', bound, step);
      labels', dataset' := labels' + [c'], dataset' + [0];
      c' := step(c');
    }
  }

  /** One pass of a zero-filling loop, on the lists. */
  lemma ZerosStep(c: Timestamp, bound: Timestamp, step: Timestamp -> Timestamp)
    requires Advancing(step)
    requires c < bound
    ensures Labels(Zeros(c, bound, step)) == [c] + Labels(Zeros(step(c), bound, step))
    ensures Dataset(Zeros(c, bound, step)) == [0] + Dataset(Zeros(step(c), bound, step))
    ensures Skip(step(c), bound, step) == Skip(c, bound, step)
  {
    LabelsConcat([Entry(c, 0)], Zeros(step(c), bound, step));
  }

  /**
   The fill loop: `labels` and `dataset` grow in step, and together they are
   exactly `Emit` from `from`; the ghost `cursor` is where the cursor stops.
   */
  method Fill(from: Timestamp, upto: Timestamp, step: Timestamp -> Timestamp, records: seq<Record>)
    returns (labels: seq<Timestamp>, dataset: seq<int>, ghost cursor: Timestamp)
    requires Advancing(step)
    ensures |labels| == |dataset|
    ensures labels == Labels(Emit(from, upto, step, records))
    ensures dataset == Dataset(Emit(from, upto, step, records))
    ensures cursor == Final(from, upto, step, records)
  {
    labels, dataset := [], [];
    var c := from;
    for i := 0 to |records|
      invariant labels + Labels(Emit(c, upto, step, records[i..])) == Labels(Emit(from, upto, step, records))
      invariant dataset + Dataset(Emit(c, upto, step, records[i..])) == Dataset(Emit(from, upto, step, records))
      invariant Final(c, upto, step, records[i..]) == Final(from, upto, step, records)
    {
      labels, dataset, c := FillRecord(labels, dataset, c, upto, step, records, i);
    }
    assert records[|records|..] == [];
    labels, dataset, c := FillBelow(labels, dataset, c, upto + 1, step);
    cursor := c;
  }

  /**
   The body of the `for` loop for record `i`: zeros while the cursor is below
   its bucket `d`, then `(d, sum)`, then one step. What is left to emit
   shrinks by exactly what was appended.
   */
  method FillRecord(labels: seq<Timestamp>, dataset: seq<int>, c: Timestamp, upto: Timestamp,
                    step: Timestamp -> Timestamp, records: seq<Record>, i: nat)
    returns (labels': seq<Timestamp>, dataset': seq<int>, c': Timestamp)
    requires Advancing(step)
    requires i < |records|
    ensures labels' + Labels(Emit(c', upto, step, records[i + 1..]))
      == labels + Labels(Emit(c, upto, step, records[i..]))
    ensures dataset' + Dataset(Emit(c', upto, step, records[i + 1..]))
      == dataset + Dataset(Emit(c, upto, step, records[i..]))
    ensures Final(c', upto, step, records[i + 1..]) == Final(c, upto, step, records[i..])
  {
    var d := records[i].bucket;
    EmitStep(c, upto, step, records, i);
    labels', dataset', c' := FillBelow(labels, dataset, c, d, step);
    labels', dataset' := labels' + [d], dataset' + [records[i].sum];
    c' := step(c');
  }

  /** One pass of the `for` loop, on the lists: record `i`, from cursor `c`. */
  lemma EmitStep(c: Timestamp, upto: Timestamp, step: Timestamp -> Timestamp, records: seq<Record>, i: nat)
    requires Advancing(step)
    requires i < |records|
    ensures Labels(Emit(c, upto, step, records[i..]))
      == Labels(Zeros(c, records[i].bucket, step)) + [records[i].bucket]
         + Labels(Emit(step(Skip(c, records[i].bucket, step)), upto, step, records[i + 1..]))
    ensures Dataset(Emit(c, upto, step, records[i..]))
      == Dataset(Zeros(c, records[i].bucket, step)) + [records[i].sum]
         + Dataset(Emit(step(Skip(c, records[i].bucket, step)), upto, step, records[i + 1..]))
    ensures Final(c, upto, step, records[i..])
      == Final(step(Skip(c, records[i].bucket, step)), upto, step, records[i + 1..])
  {
    var d := records[i].bucket;
    EmitUnfold(c, upto, step, records[i..]);
    assert records[i..][1..] == records[i + 1..];
    var z := Zeros(c, d, step);
    var rest := Emit(step(Skip(c, d, step)), upto, step, records[i + 1..]);
    LabelsConcat(z, [Entry(d, records[i].sum)]);
    LabelsConcat(z + [Entry(d, records[i].sum)], rest);
  }

  /** One record's worth of `Emit` and `Final`. */
  lemma EmitUnfold(c: Timestamp, upto: Timestamp, step: Timestamp -> Timestamp, records: seq<Record>)
    requires Advancing(step)
    requires records != []
    ensures Emit(c, upto, step, records)
      == Zeros(c, records[0].bucket, step) + [Entry(records[0].bucket, records[0].sum)]
         + Emit(step(Skip(c, records[0].bucket, step)), upto, step, records[1..])
    ensures Final(c, upto, step, records) == Final(step(Skip(c, records[0].bucket, step)), upto, step, records[1..])
  {
  }

  lemma LabelsConcat(a: seq<Entry>, b: seq<Entry>)
    ensures Labels(a + b) == Labels(a) + Labels(b)
    ensures Dataset(a + b) == Dataset(a) + Dataset(b)
  {
  }

  // ---------------------------------------------------------------------------
  // Stepping the cursor

  lemma {:induction false} IterateSucc(step: Timestamp -> Timestamp, t: Timestamp, k: nat)
    ensures Iterate(step, t, k + 1) == step(Iterate(step, t, k))
    decreases k
  {
    if k > 0 {
      IterateSucc(step, step(t), k - 1);
    }
  }

  lemma {:induction false} IterateAdd(step: Timestamp -> Timestamp, t: Timestamp, m: nat, n: nat)
    ensures Iterate(step, Iterate(step, t, m), n) == Iterate(step, t, m + n)
    decreases m
  {
    if m > 0 {
      IterateAdd(step, step(t), m - 1, n);
    }
  }

  /** With an advancing step, more steps always lead strictly further. */
  lemma {:induction false} IterateIncreasing(step: Timestamp -> Timestamp, t: Timestamp, m: nat, n: nat)
    requires Advancing(step)
    requires m < n
    ensures Iterate(step, t, m) < Iterate(step, t, n)
    decreases n - m
  {
    IterateSucc(step, t, n - 1);
    if m < n - 1 {
      IterateIncreasing(step, t, m, n - 1);
    }
  }

  // ---------------------------------------------------------------------------
  // One zero-filling loop

  /**
   The zeros emitted by one `while cursor < bound` loop are exactly the cursor
   positions `c, step(c), ...` that lie below `bound`, in order and with value
   0, and the loop leaves the cursor at the first position that does not.
   */
  lemma {:induction false} ZerosShape(c: Timestamp, bound: Timestamp, step: Timestamp -> Timestamp)
    requires Advancing(step)
    ensures forall k :: 0 <= k < |Zeros(c, bound, step)| ==> Zeros(c, bound, step)[k] == Entry(Iterate(step, c, k), 0)
    ensures forall k: nat :: k < |Zeros(c, bound, step)| <==> Iterate(step, c, k) < bound
    ensures Skip(c, bound, step) == Iterate(step, c, |Zeros(c, bound, step)|)
    decreases bound - c
  {
    var z := Zeros(c, bound, step);
    if c < bound {
      ZerosShape(step(c), bound, step);
      var z' := Zeros(step(c), bound, step);
      assert z == [Entry(c, 0)] + z';
      forall k: nat
        ensures (k < |z| <==> Iterate(step, c, k) < bound)
        ensures k < |z| ==> z[k] == Entry(Iterate(step, c, k), 0)
      {
        if k > 0 {
          assert Iterate(step, c, k) == Iterate(step, step(c), k - 1);
        }
      }
    } else {
      forall k: nat ensures Iterate(step, c, k) >= bound {
        if k > 0 {
          IterateIncreasing(step, c, 0, k);
        }
      }
    }
  }

  /** A zero run is strictly ascending and lies in `[c, bound)`. */
  lemma {:induction false} ZerosAscending(c: Timestamp, bound: Timestamp, step: Timestamp -> Timestamp)
    requires Advancing(step)
    ensures forall k :: 0 <= k < |Zeros(c, bound, step)| ==>
      c <= Zeros(c, bound, step)[k].stamp < bound && Zeros(c, bound, step)[k].value == 0
    ensures forall k, k' :: 0 <= k < k' < |Zeros(c, bound, step)| ==> Zeros(c, bound, step)[k].stamp < Zeros(c, bound, step)[k'].stamp
    decreases bound - c
  {
    if c < bound {
      ZerosAscending(step(c), bound, step);
      assert Zeros(c, bound, step) == [Entry(c, 0)] + Zeros(step(c), bound, step);
    }
  }

  // ---------------------------------------------------------------------------
  // The whole fill

  /**
   With no records the series is `from, step(from), ...` up to the last
   position that is at most `upto`, all zeros, and the cursor ends past `upto`.
   */
  lemma EmptyRecords(from: Timestamp, upto: Timestamp, step: Timestamp -> Timestamp)
    requires Advancing(step)
    ensures forall k :: 0 <= k < |Emit(from, upto, step, [])| ==> Emit(from, upto, step, [])[k] == Entry(Iterate(step, from, k), 0)
    ensures forall k: nat :: k < |Emit(from, upto, step, [])| <==> Iterate(step, from, k) <= upto
    ensures Final(from, upto, step, []) == Iterate(step, from, |Emit(from, upto, step, [])|) > upto
  {
    ZerosShape(from, upto + 1, step);
  }

  /** A reversed range gives nothing and a one-point range gives the single zero `(from, 0)`. */
  lemma Degenerate(from: Timestamp, upto: Timestamp, step: Timestamp -> Timestamp)
    requires Advancing(step)
    ensures upto < from ==> Emit(from, upto, step, []) == []
    ensures upto == from ==> Emit(from, upto, step, []) == [Entry(from, 0)]
  {
    if upto == from {
      assert Zeros(step(from), upto + 1, step) == [];
    }
  }

  /** Where each record lands in `Emit(c, upto, step, records)`. */
  function Slots(c: Timestamp, upto: Timestamp, step: Timestamp -> Timestamp, records: seq<Record>): seq<nat>
    requires Advancing(step)
    decreases |records|
  {
    if records == [] then []
    else
      var d := records[0].bucket;
      var z := |Zeros(c, d, step)|;
      [z] + Shifted(Slots(step(Skip(c, d, step)), upto, step, records[1..]), z + 1)
  }

  function Shifted(s: seq<nat>, n: nat): seq<nat> {
    seq(|s|, i requires 0 <= i < |s| => s[i] + n)
  }

  /**
   Every record is emitted exactly once, in input order, under its own bucket
   start and with its own sum, wherever the cursor was; every other entry is
   a zero.
   */
  lemma RecordsEmittedOnce(c: Timestamp, upto: Timestamp, step: Timestamp -> Timestamp, records: seq<Record>)
    requires Advancing(step)
    ensures |Slots(c, upto, step, records)| == |records|
    ensures forall j, j' :: 0 <= j < j' < |Slots(c, upto, step, records)| ==> Slots(c, upto, step, records)[j] < Slots(c, upto, step, records)[j']
    ensures forall j :: 0 <= j < |Slots(c, upto, step, records)| ==>
      && Slots(c, upto, step, records)[j] < |Emit(c, upto, step, records)|
      && Emit(c, upto, step, records)[Slots(c, upto, step, records)[j]] == Entry(records[j].bucket, records[j].sum)
    ensures forall k :: 0 <= k < |Emit(c, upto, step, records)| && k !in Slots(c, upto, step, records) ==>
      Emit(c, upto, step, records)[k].value == 0
  {
    SlotsAscending(c, upto, step, records);
    RecordsInSlots(c, upto, step, records);
    OthersAreZeros(c, upto, step, records);
  }

  lemma {:induction false} SlotsAscending(c: Timestamp, upto: Timestamp, step: Timestamp -> Timestamp, records: seq<Record>)
    requires Advancing(step)
    ensures |Slots(c, upto, step, records)| == |records|
    ensures forall j, j' :: 0 <= j < j' < |Slots(c, upto, step, records)| ==> Slots(c, upto, step, records)[j] < Slots(c, upto, step, records)[j']
    decreases |records|
  {
    if records != [] {
      var d := records[0].bucket;
      var c' := step(Skip(c, d, step));
      SlotsAscending(c', upto, step, records[1..]);
    }
  }

  lemma {:induction false} RecordsInSlots(c: Timestamp, upto: Timestamp, step: Timestamp -> Timestamp, records: seq<Record>)
    requires Advancing(step)
    ensures |Slots(c, upto, step, records)| == |records|
    ensures forall j :: 0 <= j < |Slots(c, upto, step, records)| ==>
      && Slots(c, upto, step, records)[j] < |Emit(c, upto, step, records)|
      && Emit(c, upto, step, records)[Slots(c, upto, step, records)[j]] == Entry(records[j].bucket, records[j].sum)
    decreases |records|
  {
    if records != [] {
      var d := records[0].bucket;
      var z := Zeros(c, d, step);
      var c' := step(Skip(c, d, step));
      var rest := records[1..];
      RecordsInSlots(c', upto, step, rest);
      EmitUnfold(c, upto, step, records);
      var out := z + [Entry(d, records[0].sum)] + Emit(c', upto, step, rest);
      var rpos := Slots(c', upto, step, rest);
      var pos := [|z|] + Shifted(rpos, |z| + 1);
      assert Slots(c, upto, step, records) == pos;
      forall j | 0 <= j < |pos|
        ensures pos[j] < |out| && out[pos[j]] == Entry(records[j].bucket, records[j].sum)
      {
        if j > 0 {
          assert pos[j] == rpos[j - 1] + |z| + 1;
          assert out[pos[j]] == Emit(c', upto, step, rest)[rpos[j - 1]];
          assert rest[j - 1] == records[j];
        }
      }
    }
  }

  lemma {:induction false} OthersAreZeros(c: Timestamp, upto: Timestamp, step: Timestamp -> Timestamp, records: seq<Record>)
    requires Advancing(step)
    ensures forall k :: 0 <= k < |Emit(c, upto, step, records)| && k !in Slots(c, upto, step, records) ==>
      Emit(c, upto, step, records)[k].value == 0
    decreases |records|
  {
    var out := Emit(c, upto, step, records);
    var pos := Slots(c, upto, step, records);
    if records == [] {
      ZerosAscending(c, upto + 1, step);
      assert out == Zeros(c, upto + 1, step);
    } else {
      var d := records[0].bucket;
      var z := Zeros(c, d, step);
      var c' := step(Skip(c, d, step));
      var rest := records[1..];
      OthersAreZeros(c', upto, step, rest);
      ZerosAscending(c, d, step);
      var rout := Emit(c', upto, step, rest);
      var rpos := Slots(c', upto, step, rest);
      assert out == z + [Entry(d, records[0].sum)] + rout;
      assert pos == [|z|] + Shifted(rpos, |z| + 1);
      forall k | 0 <= k < |out| && k !in pos
        ensures out[k].value == 0
      {
        if k < |z| {
          assert out[k] == z[k];
        } else {
          assert k != pos[0];
          var k' := k - |z| - 1;
          forall j | 0 <= j < |rpos| ensures rpos[j] != k' {
            assert pos[j + 1] == rpos[j] + |z| + 1;
          }
          assert out[k] == rout[k'];
        }
      }
    }
  }

  /**
   The cursor advances exactly one step per emitted entry, so once per record
   as well as once per zero, and ends past `upto` and past every record.
   */
  lemma {:induction false} FinalCursor(c: Timestamp, upto: Timestamp, step: Timestamp -> Timestamp, records: seq<Record>)
    requires Advancing(step)
    ensures Final(c, upto, step, records) == Iterate(step, c, |Emit(c, upto, step, records)|)
    ensures Final(c, upto, step, records) >= c
    ensures Final(c, upto, step, records) > upto
    ensures forall j :: 0 <= j < |records| ==> Final(c, upto, step, records) > records[j].bucket
    ensures |Emit(c, upto, step, records)| >= |records|
    decreases |records|
  {
    if records == [] {
      ZerosShape(c, upto + 1, step);
    } else {
      var d := records[0].bucket;
      var z := Zeros(c, d, step);
      var s := Skip(c, d, step);
      var rest := records[1..];
      ZerosShape(c, d, step);
      FinalCursor(step(s), upto, step, rest);
      IterateSucc(step, c, |z|);
      var rout := Emit(step(s), upto, step, rest);
      IterateAdd(step, c, |z| + 1, |rout|);
      assert Emit(c, upto, step, records) == z + [Entry(d, records[0].sum)] + rout;
      forall j | 0 < j < |records| ensures Final(c, upto, step, records) > records[j].bucket {
        assert rest[j - 1] == records[j];
      }
    }
  }

  /** The last label never exceeds `upto` or the last record's bucket, whichever is later. */
  lemma {:induction false} LastLabel(c: Timestamp, upto: Timestamp, step: Timestamp -> Timestamp, records: seq<Record>)
    requires Advancing(step)
    ensures |Emit(c, upto, step, records)| > 0 ==> Emit(c, upto, step, records)[|Emit(c, upto, step, records)| - 1].stamp <= Top(upto, records)
    decreases |records|
  {
    if records == [] {
      ZerosAscending(c, upto + 1, step);
      assert Emit(c, upto, step, records) == Zeros(c, upto + 1, step);
    } else {
      var d := records[0].bucket;
      var c' := step(Skip(c, d, step));
      var rest := records[1..];
      LastLabel(c', upto, step, rest);
      FinalCursor(c', upto, step, rest);
      var rout := Emit(c', upto, step, rest);
      assert Emit(c, upto, step, records) == Zeros(c, d, step) + [Entry(d, records[0].sum)] + rout;
      if rest != [] {
        assert rest[|rest| - 1] == records[|records| - 1];
      }
    }
  }

  /**
   With strictly ascending buckets the labels are strictly ascending too, and
   none lies below both the cursor and the first bucket.
   */
  lemma {:induction false} LabelsAscending(c: Timestamp, upto: Timestamp, step: Timestamp -> Timestamp, records: seq<Record>)
    requires Advancing(step)
    requires forall j :: 0 < j < |records| ==> records[j - 1].bucket < records[j].bucket
    ensures forall i :: 0 <= i < |Emit(c, upto, step, records)| ==>
      Emit(c, upto, step, records)[i].stamp >= if records != [] && records[0].bucket < c then records[0].bucket else c
    ensures forall i, i' :: 0 <= i < i' < |Emit(c, upto, step, records)| ==> Emit(c, upto, step, records)[i].stamp < Emit(c, upto, step, records)[i'].stamp
    decreases |records|
  {
    if records == [] {
      ZerosAscending(c, upto + 1, step);
      assert Emit(c, upto, step, records) == Zeros(c, upto + 1, step);
    } else {
      var d := records[0].bucket;
      var lo := if d < c then d else c;
      var z := Zeros(c, d, step);
      var s := Skip(c, d, step);
      var c' := step(s);
      var rest := records[1..];
      ZerosAscending(c, d, step);
      LabelsAscending(c', upto, step, rest);
      assert c' > s >= d;
      if rest != [] {
        assert rest[0] == records[1];
      }
      var rout := Emit(c', upto, step, rest);
      var out := z + [Entry(d, records[0].sum)] + rout;
      assert Emit(c, upto, step, records) == out;
      forall i | 0 <= i < |out|
        ensures out[i].stamp >= lo
        ensures i < |z| ==> out[i] == z[i] && out[i].stamp < d
        ensures i == |z| ==> out[i].stamp == d
        ensures i > |z| ==> out[i] == rout[i - |z| - 1] && out[i].stamp > d
      {
      }
      forall i, i' | 0 <= i < i' < |out| ensures out[i].stamp < out[i'].stamp {
        if i > |z| {
          assert out[i'] == rout[i' - |z| - 1];
        } else if i' < |z| {
          assert out[i'] == z[i'];
        }
      }
    }
  }

  /**
   The labels are `start`, `step(start)`, ... when the cursor starts on the
   grid at position `m` and every record lies on the grid, at positions no
   earlier than `m` and strictly ascending.
   */
  lemma {:induction false} AlignedFrom(from: Timestamp, m: nat, c: Timestamp, upto: Timestamp,
                                       step: Timestamp -> Timestamp, records: seq<Record>, ks: seq<nat>)
    requires Advancing(step)
    requires c == Iterate(step, from, m)
    requires |ks| == |records|
    requires forall j :: 0 <= j < |ks| ==> records[j].bucket == Iterate(step, from, ks[j])
    requires forall j :: 0 < j < |ks| ==> ks[j - 1] < ks[j]
    requires |ks| > 0 ==> m <= ks[0]
    ensures forall i :: 0 <= i < |Emit(c, upto, step, records)| ==> Emit(c, upto, step, records)[i].stamp == Iterate(step, from, m + i)
    decreases |records|
  {
    if records == [] {
      ZerosShape(c, upto + 1, step);
      var out := Zeros(c, upto + 1, step);
      forall i | 0 <= i < |out| ensures out[i].stamp == Iterate(step, from, m + i) {
        IterateAdd(step, from, m, i);
      }
    } else {
      var d := records[0].bucket;
      var z := Zeros(c, d, step);
      AlignedHead(from, m, c, d, ks[0], step);
      IterateSucc(step, from, ks[0]);
      var rest := records[1..];
      var c' := step(Skip(c, d, step));
      assert c' == Iterate(step, from, ks[0] + 1);
      AlignedFrom(from, ks[0] + 1, c', upto, step, rest, ks[1..]);
      var rout := Emit(c', upto, step, rest);
      var out := z + [Entry(d, records[0].sum)] + rout;
      assert Emit(c, upto, step, records) == out;
      forall i | 0 <= i < |out| ensures out[i].stamp == Iterate(step, from, m + i) {
        if i < |z| {
          assert out[i] == z[i];
        } else if i > |z| {
          assert out[i] == rout[i - |z| - 1];
        }
      }
    }
  }

  /**
   From grid position `m`, the zeros before a bucket at grid position `k >= m`
   are the `k - m` grid points in between, and the cursor stops on the bucket.
   */
  lemma AlignedHead(from: Timestamp, m: nat, c: Timestamp, d: Timestamp, k: nat, step: Timestamp -> Timestamp)
    requires Advancing(step)
    requires c == Iterate(step, from, m)
    requires d == Iterate(step, from, k)
    requires m <= k
    ensures |Zeros(c, d, step)| == k - m
    ensures Skip(c, d, step) == d
    ensures forall i :: 0 <= i < |Zeros(c, d, step)| ==> Zeros(c, d, step)[i].stamp == Iterate(step, from, m + i)
  {
    var z := Zeros(c, d, step);
    ZerosShape(c, d, step);
    IterateAdd(step, from, m, k - m);
    if |z| < k - m {
      IterateIncreasing(step, c, |z|, k - m);
    }
    forall i | 0 <= i < |z| ensures z[i].stamp == Iterate(step, from, m + i) {
      IterateAdd(step, from, m, i);
    }
  }

  /**
   When every record's bucket is `from` advanced by `ks[j]` steps, for strictly
   ascending `ks`, the labels are exactly the consecutive steps from `from`, with
   no gap and no repeat, up to the last one that is at most the later of `upto`
   and the last bucket.
   */
  lemma Aligned(from: Timestamp, upto: Timestamp, step: Timestamp -> Timestamp, records: seq<Record>, ks: seq<nat>)
    requires Advancing(step)
    requires |ks| == |records|
    requires forall j :: 0 <= j < |ks| ==> records[j].bucket == Iterate(step, from, ks[j])
    requires forall j :: 0 < j < |ks| ==> ks[j - 1] < ks[j]
    ensures forall i :: 0 <= i < |Emit(from, upto, step, records)| ==> Emit(from, upto, step, records)[i].stamp == Iterate(step, from, i)
    ensures |Emit(from, upto, step, records)| > 0 ==> Emit(from, upto, step, records)[|Emit(from, upto, step, records)| - 1].stamp <= Top(upto, records)
    ensures Iterate(step, from, |Emit(from, upto, step, records)|) > Top(upto, records)
  {
    AlignedFrom(from, 0, from, upto, step, records, ks);
    var out := Emit(from, upto, step, records);
    forall i | 0 <= i < |out| ensures out[i].stamp == Iterate(step, from, i) {
      assert out[i].stamp == Iterate(step, from, 0 + i);
    }
    LastLabel(from, upto, step, records);
    FinalCursor(from, upto, step, records);
    if records != [] {
      assert Final(from, upto, step, records) > records[|records| - 1].bucket;
    }
  }

  /**
   The converse of `Aligned`: when the labels are exactly the consecutive
   steps from `from`, every bucket is on that grid, at the strictly
   ascending positions `Slots`.
   */
  lemma OnlyAligned(from: Timestamp, upto: Timestamp, step: Timestamp -> Timestamp, records: seq<Record>)
    requires Advancing(step)
    requires forall i :: 0 <= i < |Emit(from, upto, step, records)| ==>
      Emit(from, upto, step, records)[i].stamp == Iterate(step, from, i)
    ensures |Slots(from, upto, step, records)| == |records|
    ensures forall j :: 0 <= j < |records| ==>
      records[j].bucket == Iterate(step, from, Slots(from, upto, step, records)[j])
    ensures forall j, j' :: 0 <= j < j' < |records| ==>
      Slots(from, upto, step, records)[j] < Slots(from, upto, step, records)[j']
  {
    RecordsEmittedOnce(from, upto, step, records);
  }

  // ---------------------------------------------------------------------------
  // Two concrete runs

  function PlusOne(t: Timestamp): Timestamp { t + 1 }

  function PlusSixty(t: Timestamp): Timestamp { t + 60 }

  /** Months numbered 0, 1, 2 with one record in month 1: `[0, 5, 0]` under labels 0, 1, 2. */
  lemma MonthExample()
    ensures Advancing(PlusOne)
    ensures Emit(0, 2, PlusOne, [Record(1, 5)]) == [Entry(0, 0), Entry(1, 5), Entry(2, 0)]
  {
    assert Zeros(0, 1, PlusOne) == [Entry(0, 0)] by {
      assert Zeros(1, 1, PlusOne) == [];
    }
    assert Skip(0, 1, PlusOne) == 1;
    assert Zeros(2, 3, PlusOne) == [Entry(2, 0)] by {
      assert Zeros(3, 3, PlusOne) == [];
    }
  }

  /**
   A record whose bucket lies behind a cursor that is not on the bucket grid
   (cursor at 30, hourly step of 60, bucket 0) keeps its own label 0, before
   `from`, and the next label is 90: the labels are not evenly stepped from `from`.
   */
  lemma UnalignedExample()
    ensures Advancing(PlusSixty)
    ensures Emit(30, 100, PlusSixty, [Record(0, 7)]) == [Entry(0, 7), Entry(90, 0)]
  {
    assert Zeros(30, 0, PlusSixty) == [];
    assert Skip(30, 0, PlusSixty) == 30;
    assert Zeros(90, 101, PlusSixty) == [Entry(90, 0)] by {
      assert Zeros(150, 101, PlusSixty) == [];
    }
  }
}
