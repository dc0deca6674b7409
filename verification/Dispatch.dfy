/** Least-loaded dispatch of trade batches over the operator's transaction queues
    (operator/operator.go:225-272). */
module Dispatch {
  import opened Options
  import Amounts

  /** Queue i is the first of the shortest. */
  ghost predicate IsFirstShortest(qs: seq<nat>, i: nat) {
    && i < |qs|
    && (forall j :: 0 <= j < |qs| ==> qs[i] <= qs[j])
    && (forall j :: 0 <= j < i ==> qs[i] < qs[j])
  }

  /** QueueTrade: refused exactly when every queue holds more than ten batches, and then nothing
      changes; otherwise the first shortest queue grows by one. */
  ghost predicate Queued(qs: seq<nat>, qs': seq<nat>, ok: bool) {
    && (ok <==> exists i :: 0 <= i < |qs| && qs[i] <= 10)
    && (ok ==> exists i: nat :: IsFirstShortest(qs, i) && qs' == qs[i := qs[i] + 1])
    && (!ok ==> qs' == qs)
  }

  class Operator {
    var queues: seq<nat>

    constructor (n: nat)
      ensures queues == seq(n, _ => 0)
    {
      queues := seq(n, _ => 0);
    }

    /** The search starts from a dummy queue with length 1000, which is what it returns when no
        queue is shorter than that. */
    method GetShortestQueue() returns (shortest: Option<nat>, min: nat)
      ensures match shortest
              case Some(i) => IsFirstShortest(queues, i) && min == queues[i] < 1000
              case None => min == 1000 && forall j :: 0 <= j < |queues| ==> queues[j] >= 1000
    {
      shortest, min := None, 1000;
      var i := 0;
      while i < |queues|
        invariant 0 <= i <= |queues|
        invariant match shortest
                  case Some(s) => s < i && IsFirstShortest(queues[..i], s) && min == queues[s] < 1000
                  case None => min == 1000 && forall j :: 0 <= j < i ==> queues[j] >= 1000
      {
        if queues[i] < min {
          shortest, min := Some(i), queues[i];
        }
        i := i + 1;
      }
      assert queues[..i] == queues;
    }

    method QueueTrade() returns (ok: bool)
      modifies this
      ensures Queued(old(queues), queues, ok)
    {
      var shortest, length := GetShortestQueue();
      if length > 10 {
        return false;
      }
      var i := shortest.value;
      queues := queues[i := queues[i] + 1];
      ok := true;
    }
  }

  // ---- runs ----

  datatype Event = Enqueue(ok: bool) | Consume(i: nat)

  ghost predicate Step(qs: seq<nat>, e: Event, qs': seq<nat>) {
    match e
    case Enqueue(ok) => Queued(qs, qs', ok)
    case Consume(i) => i < |qs| && qs[i] > 0 && qs' == qs[i := qs[i] - 1]
  }

  ghost predicate StepAt(states: seq<seq<nat>>, events: seq<Event>, i: nat)
    requires i < |events| && |states| == |events| + 1
  {
    Step(states[i], events[i], states[i + 1])
  }

  ghost predicate IsRun(n: nat, states: seq<seq<nat>>, events: seq<Event>) {
    && |states| == |events| + 1
    && states[0] == seq(n, _ => 0)
    && forall i :: 0 <= i < |events| ==> StepAt(states, events, i)
  }

  ghost predicate Bounded(qs: seq<nat>, n: nat) {
    |qs| == n && forall i :: 0 <= i < n ==> qs[i] <= 11
  }

  lemma BoundedStep(n: nat, qs: seq<nat>, e: Event, qs': seq<nat>)
    requires Bounded(qs, n) && Step(qs, e, qs')
    ensures Bounded(qs', n)
  {
    if e == Enqueue(true) {
      var i: nat :| IsFirstShortest(qs, i) && qs' == qs[i := qs[i] + 1];
      var j :| 0 <= j < |qs| && qs[j] <= 10;
      assert qs[i] <= qs[j];
    }
  }

  /** Whatever is enqueued and consumed, no queue ever holds more than eleven batches. */
  lemma {:induction false} RunBounded(n: nat, states: seq<seq<nat>>, events: seq<Event>, k: nat)
    requires IsRun(n, states, events) && k < |states|
    ensures Bounded(states[k], n)
  {
    if k > 0 {
      RunBounded(n, states, events, k - 1);
      assert StepAt(states, events, k - 1);
      BoundedStep(n, states[k - 1], events[k - 1], states[k]);
    }
  }

  // ---- filling up ----

  /** k batches spread round-robin over n queues. */
  function Spread(n: nat, k: nat): (qs: seq<nat>)
    requires n > 0
    ensures |qs| == n
    ensures forall i :: 0 <= i < n ==> qs[i] == k / n + if i < k % n then 1 else 0
  {
    seq(n, i => k / n + if i < k % n then 1 else 0)
  }

  lemma NextDivMod(k: nat, n: nat)
    requires n > 0
    ensures if k % n + 1 < n then (k + 1) / n == k / n && (k + 1) % n == k % n + 1
            else (k + 1) / n == k / n + 1 && (k + 1) % n == 0
  {
    var q, r := k / n, k % n;
    if r + 1 < n {
      UniqueDivMod(k + 1, n, q, r + 1);
    } else {
      assert n * q + n == n * (q + 1);
      UniqueDivMod(k + 1, n, q + 1, 0);
    }
  }

  lemma UniqueDivMod(x: nat, n: nat, q: nat, r: nat)
    requires n > 0 && x == n * q + r && r < n
    ensures x / n == q && x % n == r
  {
    var d := x / n;
    assert x == n * d + x % n;
    assert n * (d + 1) == n * d + n && n * (q + 1) == n * q + n;
    Amounts.CancelMul(n, d, q + 1);
    Amounts.CancelMul(n, q, d + 1);
  }

  lemma QuotientBound(k: nat, n: nat)
    requires n > 0 && k < 11 * n
    ensures k / n <= 10
  {
    var q := k / n;
    assert n * q <= k && n * 11 == 11 * n;
    Amounts.CancelMul(n, q, 11);
  }

  /** Queue k % n is the first shortest, and growing it gives the next state. */
  lemma SpreadStep(n: nat, k: nat)
    requires n > 0
    ensures k % n < n && IsFirstShortest(Spread(n, k), k % n)
    ensures Spread(n, k)[k % n := Spread(n, k)[k % n] + 1] == Spread(n, k + 1)
  {
    NextDivMod(k, n);
  }

  /** The first shortest queue, when it is not full, is the one that grows. */
  lemma QueuedAt(qs: seq<nat>, r: nat, qs': seq<nat>, ok: bool)
    requires IsFirstShortest(qs, r) && qs[r] <= 10 && Queued(qs, qs', ok)
    ensures ok && qs' == qs[r := qs[r] + 1]
  {
    var i: nat :| IsFirstShortest(qs, i) && qs' == qs[i := qs[i] + 1];
    assert qs[i] == qs[r];
  }

  lemma SpreadNext(n: nat, k: nat, qs': seq<nat>, ok: bool)
    requires n > 0 && k < 11 * n && Queued(Spread(n, k), qs', ok)
    ensures ok && qs' == Spread(n, k + 1)
  {
    QuotientBound(k, n);
    SpreadStep(n, k);
    QueuedAt(Spread(n, k), k % n, qs', ok);
  }

  /** With enqueues only, n > 0 queues take 11n batches without a refusal, and after k of them
      queue i holds k / n, plus one if i < k % n. */
  lemma {:induction false} RunSpreads(n: nat, states: seq<seq<nat>>, events: seq<Event>, k: nat)
    requires n > 0 && IsRun(n, states, events) && k < |states| && k <= 11 * n
    requires forall i :: 0 <= i < |events| ==> events[i].Enqueue?
    ensures states[k] == Spread(n, k)
    ensures forall i :: 0 <= i < k ==> events[i].ok
  {
    if k == 0 {
      assert 0 / n == 0 && 0 % n == 0;
    } else {
      RunSpreads(n, states, events, k - 1);
      assert StepAt(states, events, k - 1);
      SpreadNext(n, k - 1, states[k], events[k - 1].ok);
    }
  }
}
