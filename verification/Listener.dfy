/** The Ethereum deposit listener: a loop that hands confirmed blocks to a transaction handler
    and checkpoints its progress, under failures of the node, the handler and the storage and
    under restarts (swap/ethereum/listener.go:55-199, daos/config.go:121-152). */
module Listener {
  import opened Options

  datatype Transaction = Transaction(hash: nat, value: nat, to: Option<nat>)

  datatype Block = Block(number: nat, transactions: seq<Transaction>)

  /** The answer of the node to one request. */
  datatype Fetch = Failed | NotFound | Got(block: Block)

  /** What the environment does during one turn of the loop: how the node answers the first and
      the second request, whether a handler is installed, the transactions it rejects, and
      whether saving works. A request for block 0 asks for the latest block. */
  datatype Turn = Turn(first: int -> Fetch, second: int -> Fetch, ready: bool, rejects: set<nat>, saves: bool)

  datatype Event = Loop(turn: Turn) | Restart

  /** The handler accepted transaction `index` of the block. */
  datatype Receipt = Receipt(block: Block, index: nat)

  /** `next` lives in memory, `checkpoint` in storage. The other fields record what happened:
      block numbers obtained from the node, block numbers passed to the handler, block numbers
      handled completely, transactions the handler has accepted, and blocks handled completely. */
  datatype State = State(next: nat, checkpoint: nat, fetched: set<nat>, reached: set<nat>, handled: set<nat>,
                         accepted: set<Receipt>, done: set<Block>)

  const TWO_63: nat := 0x8000_0000_0000_0000
  const TWO_64: nat := 0x1_0000_0000_0000_0000

  /** uint64 addition. */
  function Plus(a: nat, b: nat): nat {
    (a + b) % TWO_64
  }

  /** The number the node is asked for: getBlock converts to int64. */
  function Asked(n: nat): int {
    if n < TWO_63 then n else n - TWO_64
  }

  // ---- one block ----

  datatype Delivery = Delivery(accepted: set<Receipt>, complete: bool)

  /** processBlock: transactions in order, contract creations skipped, stop at the first rejection. */
  function Deliver(b: Block, rejects: set<nat>, i: nat): Delivery
    requires i <= |b.transactions|
    decreases |b.transactions| - i
  {
    if i == |b.transactions| then Delivery({}, true)
    else if b.transactions[i].to == None then Deliver(b, rejects, i + 1)
    else if i in rejects then Delivery({}, false)
    else
      var d := Deliver(b, rejects, i + 1);
      d.(accepted := d.accepted + {Receipt(b, i)})
  }

  /** Transaction k of the block has a recipient, so the handler must see it. */
  predicate Payable(b: Block, k: nat) {
    k < |b.transactions| && b.transactions[k].to != None
  }

  /** A block counts as processed only if every transaction with a recipient was accepted. */
  lemma {:induction false} DeliverComplete(b: Block, rejects: set<nat>, i: nat)
    requires i <= |b.transactions|
    ensures var d := Deliver(b, rejects, i);
            && (d.complete <==> forall k :: i <= k && Payable(b, k) ==> k !in rejects)
            && (d.complete ==> forall k :: i <= k && Payable(b, k) ==> Receipt(b, k) in d.accepted)
            && (forall r :: r in d.accepted ==> r.block == b && i <= r.index && Payable(b, r.index) && r.index !in rejects)
    decreases |b.transactions| - i
  {
    if i < |b.transactions| {
      DeliverComplete(b, rejects, i + 1);
      assert forall k :: i <= k && Payable(b, k) ==> k == i || i + 1 <= k;
    }
  }

  /** Whether or not it is complete, the handler has accepted every transaction with a recipient
      that stands before the first rejected one. */
  lemma {:induction false} DeliverPrefix(b: Block, rejects: set<nat>, i: nat, k: nat)
    requires i <= k && Payable(b, k)
    requires forall j :: i <= j <= k && Payable(b, j) ==> j !in rejects
    ensures Receipt(b, k) in Deliver(b, rejects, i).accepted
    decreases k - i
  {
    if i < k {
      DeliverPrefix(b, rejects, i + 1, k);
      assert Payable(b, i) ==> i !in rejects;
    }
  }

  // ---- one turn of the loop ----

  /** A turn ends with the listener running or crashed: when the current block cannot be fetched
      the error path dereferences the missing block. */
  datatype Outcome = Running(state: State) | Crashed(state: State)

  function TakeTurn(confirmed: nat, s: State, t: Turn): Outcome {
    var ahead := t.first(Asked(Plus(s.next, confirmed)));
    if !ahead.Got? then Running(s)
    else
      var s1 := s.(fetched := s.fetched + {ahead.block.number});
      if ahead.block.number == 0 || !t.ready then Running(s1)
      else
        var current := t.second(Asked(s.next));
        if !current.Got? then Crashed(s1)
        else
          var b := current.block;
          var d := Deliver(b, t.rejects, 0);
          var s2 := s1.(fetched := s1.fetched + {b.number}, reached := s1.reached + {b.number}, accepted := s1.accepted + d.accepted);
          if !d.complete then Running(s2)
          else
            Running(s2.(handled := s2.handled + {b.number},
                        done := s2.done + {b},
                        checkpoint := if t.saves then s2.next else s2.checkpoint,
                        next := Plus(b.number, 1)))
  }

  /** A restart reads the block to process from storage; a crash is followed by one. */
  function React(confirmed: nat, s: State, e: Event): State {
    if e.Restart? then s.(next := s.checkpoint)
    else
      match TakeTurn(confirmed, s, e.turn)
      case Running(s') => s'
      case Crashed(s') => s'.(next := s'.checkpoint)
  }

  /** The node answers a request for block n > 0 with block n, and chain heights leave room
      below 2^63. */
  ghost predicate Honest(node: int -> Fetch, confirmed: nat) {
    forall n :: node(n).Got? ==> (n > 0 ==> node(n).block.number == n) && node(n).block.number + confirmed + 1 < TWO_63
  }

  ghost predicate Step(confirmed: nat, s: State, e: Event, s': State) {
    && (e.Loop? ==> Honest(e.turn.first, confirmed) && Honest(e.turn.second, confirmed))
    && s' == React(confirmed, s, e)
  }

  function Started(start: nat): State {
    State(start, start, {}, {}, {}, {}, {})
  }

  ghost predicate StepAt(confirmed: nat, states: seq<State>, events: seq<Event>, i: nat)
    requires i < |events| && |states| == |events| + 1
  {
    Step(confirmed, states[i], events[i], states[i + 1])
  }

  ghost predicate IsRun(confirmed: nat, start: nat, states: seq<State>, events: seq<Event>) {
    && |states| == |events| + 1
    && states[0] == Started(start)
    && forall i :: 0 <= i < |events| ==> StepAt(confirmed, states, events, i)
  }

  ghost predicate Interval(ns: set<nat>, lo: nat, hi: nat) {
    lo <= hi && forall n :: n in ns <==> lo <= n < hi
  }

  /** The checkpoint has not passed a block that was not handled, counting from `lo`. */
  ghost predicate CheckpointSafe(s: State, start: nat, lo: nat) {
    s.checkpoint == start || (lo <= s.checkpoint && forall n :: lo <= n <= s.checkpoint ==> n in s.handled)
  }

  /** The handled blocks are an unbroken range that begins at the start block, or anywhere when
      the start is 0, which stands for the latest block. */
  ghost predicate Contiguous(s: State, start: nat) {
    exists lo, hi :: Interval(s.handled, lo, hi) && (start > 0 ==> lo == start) && CheckpointSafe(s, start, lo)
  }

  /** Whatever reached the handler is buried under the required confirmations. */
  ghost predicate Confirmed(s: State, confirmed: nat) {
    forall n :: n in s.reached ==> n + confirmed in s.fetched
  }

  /** Every transaction with a recipient in a handled block was accepted by the handler. */
  ghost predicate Delivered(s: State) {
    && (forall n :: n in s.handled ==> exists b :: b in s.done && b.number == n)
    && (forall b, k :: b in s.done && Payable(b, k) ==> Receipt(b, k) in s.accepted)
  }

  ghost predicate Safe(s: State, start: nat, confirmed: nat) {
    Contiguous(s, start) && Confirmed(s, confirmed) && Delivered(s)
  }

  ghost predicate Inductive(s: State, start: nat, confirmed: nat, hi: nat) {
    && 0 < start <= s.checkpoint <= s.next <= hi
    && (s.checkpoint != start ==> s.checkpoint < hi)
    && s.next + confirmed < TWO_63
    && Interval(s.handled, start, hi)
    && Confirmed(s, confirmed)
    && Delivered(s)
  }

  lemma DeliveredTurn(s: State, b: Block, rejects: set<nat>, s': State)
    requires Delivered(s)
    requires Deliver(b, rejects, 0).complete
    requires s'.handled == s.handled + {b.number} && s'.done == s.done + {b}
    requires s'.accepted == s.accepted + Deliver(b, rejects, 0).accepted
    ensures Delivered(s')
  {
    DeliverComplete(b, rejects, 0);
    forall n | n in s'.handled ensures exists b' :: b' in s'.done && b'.number == n {
      if n == b.number {
        assert b in s'.done;
      } else {
        var b' :| b' in s.done && b'.number == n;
        assert b' in s'.done;
      }
    }
  }

  /** A turn in which the current block is handled completely. */
  lemma HandledTurn(confirmed: nat, start: nat, s: State, t: Turn, hi: nat)
    requires Inductive(s, start, confirmed, hi) && Honest(t.first, confirmed) && Honest(t.second, confirmed)
    requires t.first(s.next + confirmed).Got? && t.ready && t.second(s.next).Got?
    requires Deliver(t.second(s.next).block, t.rejects, 0).complete
    ensures var r := TakeTurn(confirmed, s, t);
            r.Running? && s.checkpoint <= r.state.checkpoint && Inductive(r.state, start, confirmed, if s.next == hi then hi + 1 else hi)
  {
    var b := t.second(s.next).block;
    assert Plus(s.next, confirmed) == s.next + confirmed;
    assert b.number == s.next && t.first(s.next + confirmed).block.number == s.next + confirmed;
    assert Plus(s.next, 1) == s.next + 1;
    DeliveredTurn(s, b, t.rejects, TakeTurn(confirmed, s, t).state);
  }

  lemma TurnInductive(confirmed: nat, start: nat, s: State, t: Turn, hi: nat) returns (hi': nat)
    requires Inductive(s, start, confirmed, hi) && Honest(t.first, confirmed) && Honest(t.second, confirmed)
    ensures var s' := TakeTurn(confirmed, s, t).state;
            Inductive(s', start, confirmed, hi') && s.checkpoint <= s'.checkpoint
  {
    hi' := hi;
    assert Plus(s.next, confirmed) == s.next + confirmed;
    if t.first(s.next + confirmed).Got? && t.ready && t.second(s.next).Got? {
      var b := t.second(s.next).block;
      assert b.number == s.next;
      if Deliver(b, t.rejects, 0).complete {
        HandledTurn(confirmed, start, s, t, hi);
        hi' := if s.next == hi then hi + 1 else hi;
      }
    }
  }

  lemma InductiveStep(confirmed: nat, start: nat, s: State, e: Event, s': State, hi: nat) returns (hi': nat)
    requires Inductive(s, start, confirmed, hi) && Step(confirmed, s, e, s')
    ensures Inductive(s', start, confirmed, hi') && s.checkpoint <= s'.checkpoint
  {
    hi' := hi;
    if e.Loop? {
      hi' := TurnInductive(confirmed, start, s, e.turn, hi);
    }
  }

  lemma {:induction false} RunInductive(confirmed: nat, start: nat, states: seq<State>, events: seq<Event>, n: nat) returns (hi: nat)
    requires start > 0 && start + confirmed < TWO_63
    requires IsRun(confirmed, start, states, events) && n < |states|
    ensures Inductive(states[n], start, confirmed, hi)
  {
    if n == 0 {
      hi := start;
    } else {
      var before := RunInductive(confirmed, start, states, events, n - 1);
      assert StepAt(confirmed, states, events, n - 1);
      hi := InductiveStep(confirmed, start, states[n - 1], events[n - 1], states[n], before);
    }
  }

  /** From a start block above zero, whatever fails and whenever the listener restarts: handled
      blocks are contiguous, the checkpoint is safe, nothing unconfirmed reaches the handler and
      no transaction of a handled block was missed. */
  lemma RunSafe(confirmed: nat, start: nat, states: seq<State>, events: seq<Event>, n: nat)
    requires start > 0 && start + confirmed < TWO_63
    requires IsRun(confirmed, start, states, events) && n < |states|
    ensures Safe(states[n], start, confirmed)
  {
    var hi := RunInductive(confirmed, start, states, events, n);
    assert CheckpointSafe(states[n], start, start);
  }

  /** The checkpoint never moves back. */
  lemma {:induction false} RunCheckpointMonotone(confirmed: nat, start: nat, states: seq<State>, events: seq<Event>, i: nat, j: nat)
    requires start > 0 && start + confirmed < TWO_63
    requires IsRun(confirmed, start, states, events) && i <= j < |states|
    ensures states[i].checkpoint <= states[j].checkpoint
    decreases j
  {
    if i < j {
      RunCheckpointMonotone(confirmed, start, states, events, i, j - 1);
      var hi := RunInductive(confirmed, start, states, events, j - 1);
      assert StepAt(confirmed, states, events, j - 1);
      var hi' := InductiveStep(confirmed, start, states[j - 1], events[j - 1], states[j], hi);
    }
  }

  // ---- starting from the latest block ----

  /** A node whose newest block is `latest`. */
  function NodeAt(latest: nat): int -> Fetch {
    (n: int) => if n == 0 then Got(Block(latest, [])) else if 0 < n <= latest then Got(Block(n, [])) else NotFound
  }

  function TurnAt(latest: nat): Turn {
    Turn(NodeAt(latest), NodeAt(latest), true, {}, true)
  }

  /** From block zero, the newest block is handled and zero is saved. */
  lemma LatestHandled(confirmed: nat, s: State, latest: nat) returns (s': State)
    requires s.next == 0 && confirmed < latest && latest + confirmed + 1 < TWO_63
    ensures Step(confirmed, s, Loop(TurnAt(latest)), s')
    ensures s'.checkpoint == 0 && s'.handled == s.handled + {latest} && s'.reached == s.reached + {latest}
    ensures s'.fetched == s.fetched + {if confirmed == 0 then latest else confirmed, latest}
  {
    s' := React(confirmed, s, Loop(TurnAt(latest)));
    assert Deliver(Block(latest, []), {}, 0) == Delivery({}, true);
  }

  /** Two blocks handled from zero with a restart between them. */
  lemma TwoLatest(confirmed: nat, a: nat, b: nat) returns (s1: State, s2: State, s3: State)
    requires confirmed < a && a + confirmed + 1 < TWO_63 && confirmed < b && b + confirmed + 1 < TWO_63
    ensures Step(confirmed, Started(0), Loop(TurnAt(a)), s1)
    ensures Step(confirmed, s1, Restart, s2)
    ensures Step(confirmed, s2, Loop(TurnAt(b)), s3)
    ensures s3.handled == {a, b}
  {
    s1 := LatestHandled(confirmed, Started(0), a);
    s2 := s1.(next := s1.checkpoint);
    s3 := LatestHandled(confirmed, s2, b);
  }

  lemma RunOfThree(confirmed: nat, s0: State, s1: State, s2: State, s3: State, e0: Event, e1: Event, e2: Event)
    requires s0 == Started(0)
    requires Step(confirmed, s0, e0, s1) && Step(confirmed, s1, e1, s2) && Step(confirmed, s2, e2, s3)
    ensures IsRun(confirmed, 0, [s0, s1, s2, s3], [e0, e1, e2])
  {
  }

  /** No range is exactly these numbers. */
  ghost predicate Gapped(ns: set<nat>) {
    forall lo, hi :: !Interval(ns, lo, hi)
  }

  lemma NoInterval(ns: set<nat>, a: nat, b: nat)
    requires a in ns && a + 1 !in ns && b in ns && a + 1 < b
    ensures Gapped(ns)
  {
    forall lo: nat, hi: nat ensures !Interval(ns, lo, hi) {
      assert Interval(ns, lo, hi) ==> (lo <= a && b < hi && !(lo <= a + 1 < hi));
    }
  }

  /** A stored checkpoint of zero means "start from the latest block". The loop then saves zero
      again, so a restart jumps to whatever is latest by then: the handled blocks have a gap. */
  lemma FromZeroSkips(confirmed: nat) returns (states: seq<State>, events: seq<Event>)
    requires 2 * confirmed + 10 < TWO_63
    ensures IsRun(confirmed, 0, states, events)
    ensures Gapped(states[|states| - 1].handled)
  {
    var a, b := confirmed + 5, confirmed + 8;
    var s1, s2, s3 := TwoLatest(confirmed, a, b);
    states, events := [Started(0), s1, s2, s3], [Loop(TurnAt(a)), Restart, Loop(TurnAt(b))];
    RunOfThree(confirmed, Started(0), s1, s2, s3, Loop(TurnAt(a)), Restart, Loop(TurnAt(b)));
    NoInterval(s3.handled, a, b);
  }

  /** All runs are safe exactly when the start block is not zero. */
  lemma SafeIff(confirmed: nat, start: nat)
    requires start + 2 * confirmed + 10 < TWO_63
    ensures start > 0 <==>
            forall states: seq<State>, events: seq<Event>, n: nat ::
              IsRun(confirmed, start, states, events) && n < |states| ==> Safe(states[n], start, confirmed)
  {
    if start > 0 {
      forall states: seq<State>, events: seq<Event>, n: nat | IsRun(confirmed, start, states, events) && n < |states|
        ensures Safe(states[n], start, confirmed)
      {
        RunSafe(confirmed, start, states, events, n);
      }
    } else {
      var states, events := FromZeroSkips(confirmed);
      assert !Safe(states[|states| - 1], start, confirmed);
    }
  }

  /** From zero the look-ahead asks for block number `confirmed`, not for a block above the one
      handled: the newest block of the chain reaches the handler unburied. */
  lemma FromZeroUnconfirmed(confirmed: nat) returns (states: seq<State>, events: seq<Event>)
    requires 0 < confirmed && 2 * confirmed + 10 < TWO_63
    ensures IsRun(confirmed, 0, states, events)
    ensures !Confirmed(states[|states| - 1], confirmed)
  {
    var s1 := LatestHandled(confirmed, Started(0), confirmed + 5);
    states, events := [Started(0), s1], [Loop(TurnAt(confirmed + 5))];
    assert confirmed + 5 in s1.reached && confirmed + 5 + confirmed !in s1.fetched;
  }

  /** When no confirmations are asked for, what reaches the handler has at least been fetched. */
  lemma {:induction false} RunReachedFetched(start: nat, states: seq<State>, events: seq<Event>, n: nat)
    requires IsRun(0, start, states, events) && n < |states|
    ensures states[n].reached <= states[n].fetched
  {
    if n > 0 {
      RunReachedFetched(start, states, events, n - 1);
      assert StepAt(0, states, events, n - 1);
    }
  }

  /** Nothing reaches the handler without its confirmations in any run, exactly when the start
      block is not zero or no confirmations are asked for. */
  lemma ConfirmedIff(confirmed: nat, start: nat)
    requires start + 2 * confirmed + 10 < TWO_63
    ensures (start > 0 || confirmed == 0) <==>
            forall states: seq<State>, events: seq<Event>, n: nat ::
              IsRun(confirmed, start, states, events) && n < |states| ==> Confirmed(states[n], confirmed)
  {
    if start > 0 || confirmed == 0 {
      forall states: seq<State>, events: seq<Event>, n: nat | IsRun(confirmed, start, states, events) && n < |states|
        ensures Confirmed(states[n], confirmed)
      {
        if start > 0 {
          RunSafe(confirmed, start, states, events, n);
        } else {
          RunReachedFetched(start, states, events, n);
        }
      }
    } else {
      var states, events := FromZeroUnconfirmed(confirmed);
      assert !Confirmed(states[|states| - 1], confirmed);
    }
  }

  // ---- the loop as the code runs it ----

  /** Several turns in a row, up to the first that crashes. */
  function Looped(confirmed: nat, s: State, turns: seq<Turn>): Outcome {
    if turns == [] then Running(s)
    else
      match Looped(confirmed, s, turns[..|turns| - 1])
      case Crashed(s') => Crashed(s')
      case Running(s') => TakeTurn(confirmed, s', turns[|turns| - 1])
  }

  /** What a loop leaves behind, crashed or not, is again a state of the invariant: the log of
      any number of loops and restarts is safe. */
  lemma {:induction false} LoopedSafe(confirmed: nat, start: nat, s: State, turns: seq<Turn>, hi: nat) returns (hi': nat)
    requires Inductive(s, start, confirmed, hi)
    requires forall t :: t in turns ==> Honest(t.first, confirmed) && Honest(t.second, confirmed)
    ensures var s' := Looped(confirmed, s, turns).state;
            Inductive(s', start, confirmed, hi') && Safe(s', start, confirmed) && s.checkpoint <= s'.checkpoint
  {
    if turns == [] {
      hi' := hi;
    } else {
      var before, t := turns[..|turns| - 1], turns[|turns| - 1];
      hi' := LoopedSafe(confirmed, start, s, before, hi);
      var r := Looped(confirmed, s, before);
      if r.Running? {
        hi' := TurnInductive(confirmed, start, r.state, t, hi');
      }
    }
    assert CheckpointSafe(Looped(confirmed, s, turns).state, start, start);
  }

  // ---- progress ----

  /** Everything goes well for block `number`: the node has it and the block that confirms it, a
      handler is installed and rejects none of its transactions that have a recipient. */
  ghost predicate Smooth(confirmed: nat, number: nat, t: Turn) {
    && Honest(t.first, confirmed) && Honest(t.second, confirmed)
    && t.first(number + confirmed).Got? && t.second(number).Got? && t.ready
    && forall k :: Payable(t.second(number).block, k) ==> k !in t.rejects
  }

  /** Exactly the turns in which everything goes well handle the next block and move on to the
      one after it; the others handle nothing and stay. */
  lemma TurnAdvances(confirmed: nat, s: State, t: Turn)
    requires 0 < s.next && s.next + confirmed < TWO_63 && Honest(t.first, confirmed) && Honest(t.second, confirmed)
    ensures var r := TakeTurn(confirmed, s, t);
            if Smooth(confirmed, s.next, t) then
              && r.Running? && r.state.next == s.next + 1 && r.state.next + confirmed < TWO_63
              && r.state.handled == s.handled + {s.next}
              && r.state.checkpoint == if t.saves then s.next else s.checkpoint
            else
              r.state.next == s.next && r.state.handled == s.handled && r.state.checkpoint == s.checkpoint
  {
    assert Plus(s.next, confirmed) == s.next + confirmed;
    assert Plus(s.next, 1) == s.next + 1;
    if t.second(s.next).Got? {
      DeliverComplete(t.second(s.next).block, t.rejects, 0);
    }
  }

  /** A node that has only the genesis block is not synced: whatever it says about the current
      block, nothing reaches the handler and the listener stays where it is. */
  lemma UnsyncedWaits(confirmed: nat, s: State, t: Turn)
    requires t.first(Asked(Plus(s.next, confirmed))).Got? && t.first(Asked(Plus(s.next, confirmed))).block.number == 0
    ensures TakeTurn(confirmed, s, t) == Running(s.(fetched := s.fetched + {0}))
  {
  }

  /** The numbers from lo up to hi were added. */
  ghost predicate Adds(before: set<nat>, after: set<nat>, lo: nat, hi: nat) {
    forall n :: n in after <==> n in before || lo <= n < hi
  }

  ghost predicate AllSmooth(confirmed: nat, from: nat, turns: seq<Turn>) {
    forall i :: 0 <= i < |turns| ==> Smooth(confirmed, from + i, turns[i])
  }

  /** s' is s after n more blocks. */
  ghost predicate Ahead(confirmed: nat, s: State, n: nat, s': State) {
    s'.next == s.next + n && s'.next + confirmed < TWO_63 && Adds(s.handled, s'.handled, s.next, s.next + n)
  }

  lemma AheadOne(confirmed: nat, s: State, n: nat, s1: State, t: Turn)
    requires 0 < s.next && Ahead(confirmed, s, n, s1) && Smooth(confirmed, s1.next, t)
    ensures var r := TakeTurn(confirmed, s1, t);
            r.Running? && Ahead(confirmed, s, n + 1, r.state) && (t.saves ==> r.state.checkpoint == s.next + n)
  {
    TurnAdvances(confirmed, s1, t);
  }

  /** n good turns in a row handle the next n blocks, and the last of them is saved. */
  lemma {:induction false} LoopAdvances(confirmed: nat, s: State, turns: seq<Turn>)
    requires 0 < s.next && s.next + confirmed < TWO_63 && AllSmooth(confirmed, s.next, turns)
    ensures var r := Looped(confirmed, s, turns);
            && r.Running? && Ahead(confirmed, s, |turns|, r.state)
            && (turns != [] && turns[|turns| - 1].saves ==> r.state.checkpoint == s.next + |turns| - 1)
    decreases |turns|
  {
    if turns != [] {
      var n := |turns| - 1;
      assert AllSmooth(confirmed, s.next, turns[..n]);
      LoopAdvances(confirmed, s, turns[..n]);
      assert Smooth(confirmed, s.next + n, turns[n]);
      AheadOne(confirmed, s, n, Looped(confirmed, s, turns[..n]).state, turns[n]);
    }
  }

  /** From a start block above zero, n good turns handle exactly the n blocks from it on. */
  lemma StartAdvances(confirmed: nat, start: nat, turns: seq<Turn>)
    requires 0 < start && start + confirmed < TWO_63
    requires AllSmooth(confirmed, start, turns)
    ensures var r := Looped(confirmed, Started(start), turns);
            r.Running? && Interval(r.state.handled, start, start + |turns|) && r.state.next == start + |turns|
  {
    LoopAdvances(confirmed, Started(start), turns);
  }

  /** Whatever happened before, after a restart the listener takes up at its checkpoint, and n good
      turns later every block from the start to n after the checkpoint is handled: it gets past
      where it was before, and loses nothing. */
  lemma RestartAdvances(confirmed: nat, start: nat, states: seq<State>, events: seq<Event>, k: nat, turns: seq<Turn>)
    returns (hi: nat)
    requires start > 0 && start + confirmed < TWO_63 && IsRun(confirmed, start, states, events) && k < |states|
    requires AllSmooth(confirmed, states[k].checkpoint, turns)
    ensures Interval(states[k].handled, start, hi)
    ensures var r := Looped(confirmed, React(confirmed, states[k], Restart), turns);
            var reached := states[k].checkpoint + |turns|;
            r.Running? && r.state.next == reached && Interval(r.state.handled, start, if reached < hi then hi else reached)
  {
    hi := RunInductive(confirmed, start, states, events, k);
    var s := React(confirmed, states[k], Restart);
    LoopAdvances(confirmed, s, turns);
  }

  /** The ghost fields are a log, each written where its event happens: at the request to the
      node, at the call of the handler, at the end of a block. */
  class EthereumListener {
    const confirmed: nat
    /** The storage: last processed block. */
    var checkpoint: nat
    var blockNumber: nat
    ghost var fetched: set<nat>
    ghost var reached: set<nat>
    ghost var handled: set<nat>
    ghost var accepted: set<Receipt>
    ghost var done: set<Block>

    ghost function Log(): State
      reads this
    {
      State(blockNumber, checkpoint, fetched, reached, handled, accepted, done)
    }

    constructor (confirmed: nat, start: nat)
      ensures this.confirmed == confirmed && Log() == Started(start)
    {
      this.confirmed := confirmed;
      checkpoint, blockNumber := start, start;
      fetched, reached, handled, accepted, done := {}, {}, {}, {}, {};
    }

    method GetBlock(node: int -> Fetch, number: nat) returns (r: Fetch)
      modifies this`fetched
      ensures r == node(Asked(number))
      ensures fetched == old(fetched) + if r.Got? then {r.block.number} else {}
    {
      r := if number > 0 then node(Asked(number)) else node(0);
      if r.Got? {
        fetched := fetched + {r.block.number};
      }
    }

    method ProcessBlock(b: Block, rejects: set<nat>) returns (ok: bool)
      modifies this`reached, this`accepted
      ensures reached == old(reached) + {b.number}
      ensures var d := Deliver(b, rejects, 0);
              ok == d.complete && accepted == old(accepted) + d.accepted
    {
      reached := reached + {b.number};
      var i := 0;
      while i < |b.transactions|
        invariant 0 <= i <= |b.transactions|
        invariant reached == old(reached) + {b.number}
        invariant Deliver(b, rejects, 0).complete == Deliver(b, rejects, i).complete
        invariant old(accepted) + Deliver(b, rejects, 0).accepted == accepted + Deliver(b, rejects, i).accepted
      {
        if b.transactions[i].to != None {
          if i in rejects {
            return false;
          }
          accepted := accepted + {Receipt(b, i)};
        }
        i := i + 1;
      }
      ok := true;
    }

    /** The loop, over the turns the environment grants before the listener is stopped or
        crashes; `taken` is how many turns it began. */
    method ProcessBlocks(turns: seq<Turn>) returns (taken: nat, crashed: bool)
      modifies this
      ensures taken <= |turns| && (!crashed ==> taken == |turns|)
      ensures Looped(confirmed, old(Log()), turns[..taken]) == if crashed then Crashed(Log()) else Running(Log())
    {
      taken, crashed := 0, false;
      while taken < |turns|
        invariant 0 <= taken <= |turns|
        invariant Looped(confirmed, old(Log()), turns[..taken]) == Running(Log())
      {
        var t := turns[taken];
        taken := taken + 1;
        assert turns[..taken][..taken - 1] == turns[..taken - 1];
        var ahead := GetBlock(t.first, Plus(blockNumber, confirmed));
        if !ahead.Got? {
          continue;
        }
        if ahead.block.number == 0 {
          continue;
        }
        if !t.ready {
          continue;
        }
        var current := GetBlock(t.second, blockNumber);
        if !current.Got? {
          crashed := true;
          return;
        }
        var b := current.block;
        var ok := ProcessBlock(b, t.rejects);
        if !ok {
          continue;
        }
        handled, done := handled + {b.number}, done + {b};
        if t.saves {
          checkpoint := blockNumber;
        }
        blockNumber := Plus(b.number, 1);
      }
      assert turns[..taken] == turns;
    }

    /** Start reads the block to process from storage. */
    method Restart()
      modifies this`blockNumber
      ensures Log() == React(confirmed, old(Log()), Event.Restart)
    {
      blockNumber := checkpoint;
    }
  }
}
