/**
One batch cut into strided tasks over shared buffers: task `t` of `T` owns the
indices `t, t+T, t+2T, ...`. Any task may move at any time.
*/
module Stripes {
  import opened Bytes

  type Sample = seq<byte>

  /** The native sample operation under one key: a status and the bytes it leaves behind. */
  type Op = Sample -> (int, Sample)

  predicate Good(op: Op, chunk: Sample) {
    chunk != [] && op(chunk).0 >= 0
  }

  /** Where a task is in its loop. */
  datatype Pc =
    | At(i: nat)       // before the loop test and the look at the error flag
    | Working(i: nat)  // the flag was down
    | Failing(i: nat)  // sample `i` is bad; about to take the error mutex
    | Done(i: nat)     // left the loop at index `i`

  /** `error` is the index whose message was recorded. */
  datatype Batch = Batch(chunks: seq<Sample>, plain: seq<Sample>, pcs: seq<Pc>, flag: bool, error: nat)

  function Start(chunks: seq<Sample>, tasks: nat): (b: Batch)
    requires tasks > 0
  {
    Batch(chunks, seq(|chunks|, i => []), seq(tasks, (t: nat) => At(t)), false, 0)
  }

  /** Task `t` takes one step. */
  function Step(op: Op, b: Batch, t: nat): Batch
    requires t < |b.pcs| && |b.plain| == |b.chunks|
  {
    match b.pcs[t]
    case At(i) =>
      if i >= |b.chunks| || b.flag then b.(pcs := b.pcs[t := Done(i)]) else b.(pcs := b.pcs[t := Working(i)])
    case Working(i) =>
      if i >= |b.chunks| then b
      else if b.chunks[i] == [] then b.(pcs := b.pcs[t := Failing(i)])
      else
        var (status, out) := op(b.chunks[i]);
        b.(plain := b.plain[i := out], pcs := b.pcs[t := if status < 0 then Failing(i) else At(i + |b.pcs|)])
    case Failing(i) =>
      b.(flag := true, error := if b.flag then b.error else i, pcs := b.pcs[t := Done(i)])
    case Done(_) => b
  }

  /** After an error the flag stays up, the error recorded first stays recorded, and no task takes up another sample. */
  lemma FirstErrorStays(op: Op, b: Batch, t: nat)
    requires t < |b.pcs| && |b.plain| == |b.chunks| && b.flag
    ensures var c := Step(op, b, t);
      c.flag && c.error == b.error && (b.pcs[t].At? ==> c.pcs[t].Done? && c.plain == b.plain)
  {
  }

  predicate AllDone(b: Batch) {
    forall t | 0 <= t < |b.pcs| :: b.pcs[t].Done?
  }

  // ----- the invariant of every interleaving

  /** Sample `j` has been processed, and well. */
  predicate Processed(op: Op, b: Batch, j: nat)
    requires j < |b.chunks| == |b.plain|
  {
    Good(op, b.chunks[j]) && b.plain[j] == op(b.chunks[j]).1
  }

  /** Everything task `t` passed on its way to index `i` is processed. */
  ghost predicate Passed(op: Op, b: Batch, t: nat, i: nat)
    requires |b.pcs| > 0 && |b.plain| == |b.chunks|
  {
    forall j | 0 <= j < i && j < |b.chunks| && j % |b.pcs| == t :: Processed(op, b, j)
  }

  ghost predicate TaskInv(op: Op, b: Batch, t: nat)
    requires t < |b.pcs| && |b.plain| == |b.chunks|
  {
    var pc := b.pcs[t];
    && pc.i % |b.pcs| == t
    && Passed(op, b, t, pc.i)
    && (pc.Working? || pc.Failing? ==> pc.i < |b.chunks|)
    && (pc.Failing? ==> !Good(op, b.chunks[pc.i]))
    && (pc.Done? ==> pc.i >= |b.chunks| || b.flag)
  }

  ghost predicate Inv(op: Op, b: Batch) {
    && |b.pcs| > 0 && |b.plain| == |b.chunks|
    && (b.flag ==> b.error < |b.chunks| && !Good(op, b.chunks[b.error]))
    && forall t | 0 <= t < |b.pcs| :: TaskInv(op, b, t)
  }

  lemma StartInv(op: Op, chunks: seq<Sample>, tasks: nat)
    requires tasks > 0
    ensures Inv(op, Start(chunks, tasks))
  {
    var b := Start(chunks, tasks);
    forall t | 0 <= t < tasks ensures TaskInv(op, b, t) {
      forall j: nat | j < t ensures j % tasks == j {
        SmallMod(j, tasks);
      }
      SmallMod(t, tasks);
    }
  }

  lemma SmallMod(x: nat, m: nat)
    requires x < m
    ensures x % m == x
  {
  }

  lemma FarFromZero(k: int, m: int)
    requires m > 0 && k != 0
    ensures k * m >= m || k * m <= -m
  {
  }

  lemma Divided(x: nat, m: nat) returns (q: nat)
    requires m > 0
    ensures q * m + x % m == x
  {
    q := x / m;
  }

  lemma NextInStripe(i: nat, j: nat, m: nat)
    requires m > 0
    ensures (i + m) % m == i % m
    ensures i <= j < i + m && j % m == i % m ==> j == i
  {
    var q := Divided(i, m);
    var p := Divided(i + m, m);
    assert (p - q - 1) * m == p * m - q * m - m;
    if p - q - 1 != 0 {
      FarFromZero(p - q - 1, m);
    }
    if i <= j < i + m && j % m == i % m {
      var s := Divided(j, m);
      assert (s - q) * m == s * m - q * m;
      if s - q != 0 {
        FarFromZero(s - q, m);
      }
    }
  }

  /** Tasks do not touch each other's samples, so what one passed stays passed. */
  lemma StepKeepsOthers(op: Op, b: Batch, t: nat, u: nat)
    requires Inv(op, b) && t < |b.pcs| && u < |b.pcs| && t != u
    ensures TaskInv(op, Step(op, b, t), u)
    ensures forall j | 0 <= j < |b.plain| && j % |b.pcs| == u :: Step(op, b, t).plain[j] == b.plain[j]
  {
    var c := Step(op, b, t);
    assert TaskInv(op, b, u) && TaskInv(op, b, t);
    forall j | 0 <= j < c.pcs[u].i && j < |c.chunks| && j % |c.pcs| == u ensures Processed(op, c, j) {
      assert Processed(op, b, j);
    }
  }

  lemma StepAdvances(op: Op, b: Batch, t: nat)
    requires Inv(op, b) && t < |b.pcs|
    ensures TaskInv(op, Step(op, b, t), t)
  {
    var c, m := Step(op, b, t), |b.pcs|;
    assert TaskInv(op, b, t);
    var i := b.pcs[t].i;
    NextInStripe(i, i, m);
    forall j | 0 <= j < c.pcs[t].i && j < |c.chunks| && j % m == t ensures Processed(op, c, j) {
      NextInStripe(i, j, m);
      if j < i {
        assert Processed(op, b, j);
      }
    }
  }

  lemma StepInv(op: Op, b: Batch, t: nat)
    requires Inv(op, b) && t < |b.pcs|
    ensures Inv(op, Step(op, b, t))
  {
    var c := Step(op, b, t);
    assert TaskInv(op, b, t);
    forall u | 0 <= u < |c.pcs| ensures TaskInv(op, c, u) {
      if u == t { StepAdvances(op, b, t); } else { StepKeepsOthers(op, b, t, u); }
    }
  }

  // ----- the outcome does not depend on the schedule

  /** What the batch comes to once every task is done: the samples, or nothing. */
  function Outcome(b: Batch): Option<seq<Sample>> {
    if b.flag then None else Some(b.plain)
  }

  predicate AllGood(op: Op, chunks: seq<Sample>) {
    forall j | 0 <= j < |chunks| :: Good(op, chunks[j])
  }

  /** The sequential reference: the operation on each sample in turn. */
  function Sequential(op: Op, chunks: seq<Sample>): seq<Sample> {
    seq(|chunks|, j requires 0 <= j < |chunks| => op(chunks[j]).1)
  }

  /** Every interleaving that runs its tasks to the end has the one sequential outcome. */
  lemma ScheduleIndependent(op: Op, b: Batch)
    requires Inv(op, b) && AllDone(b)
    ensures Outcome(b) == if AllGood(op, b.chunks) then Some(Sequential(op, b.chunks)) else None
    ensures b.flag ==> b.error < |b.chunks| && !Good(op, b.chunks[b.error])
  {
    if !b.flag {
      forall j | 0 <= j < |b.chunks| ensures Processed(op, b, j) {
        var t := j % |b.pcs|;
        assert TaskInv(op, b, t) && b.pcs[t].Done?;
      }
      forall j | 0 <= j < |b.chunks|
        ensures Good(op, b.chunks[j]) && b.plain[j] == Sequential(op, b.chunks)[j]
      {
        assert Processed(op, b, j);
      }
      assert b.plain == Sequential(op, b.chunks);
    }
  }

  /** Steps left to task `t`, at most. */
  function Remaining(b: Batch, t: nat): nat
    requires t < |b.pcs|
  {
    match b.pcs[t]
    case At(i) => if i >= |b.chunks| then 1 else 3 * (|b.chunks| - i) + 1
    case Working(i) => if i >= |b.chunks| then 0 else 3 * (|b.chunks| - i)
    case Failing(_) => 1
    case Done(_) => 0
  }

  /** A step of a task that is not done uses up some of its steps, and none of another's. */
  lemma StepUses(op: Op, b: Batch, t: nat)
    requires Inv(op, b) && t < |b.pcs| && !b.pcs[t].Done?
    ensures Remaining(Step(op, b, t), t) < Remaining(b, t)
    ensures forall u | 0 <= u < |b.pcs| && u != t :: Remaining(Step(op, b, t), u) == Remaining(b, u)
  {
    assert TaskInv(op, b, t);
  }
}
