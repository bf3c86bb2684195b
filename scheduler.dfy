/** The block-indexed payout queue, the installment schedule the planner
    appends to it, and the block tick that pays or re-queues what is due. */
module Scheduler {
  import opened Types
  import opened Ledgers

  /** `PayoutInstances`: block number to the instances due then, in insertion order. */
  type Queue = map<BlockNumber, seq<PeriodicPayoutInstance>>

  /** How many blocks a failed installment is moved forward. */
  const RETRY_DELAY: nat := 10

  /** A missing key reads as the empty sequence. */
  function Pending(q: Queue, k: BlockNumber): seq<PeriodicPayoutInstance>
  {
    if k in q then q[k] else []
  }

  /** `PayoutInstances::append`: one instance at the end of the entry for `k`. */
  function Append(q: Queue, k: BlockNumber, x: PeriodicPayoutInstance): (r: Queue)
    ensures Pending(r, k) == Pending(q, k) + [x]
    ensures forall j :: j != k ==> Pending(r, j) == Pending(q, j)
  {
    q[k := Pending(q, k) + [x]]
  }

  /** Several appends at one key; appending nothing leaves the queue as it is. */
  function AppendSeq(q: Queue, k: BlockNumber, xs: seq<PeriodicPayoutInstance>): (r: Queue)
    ensures Pending(r, k) == Pending(q, k) + xs
    ensures forall j :: j != k ==> Pending(r, j) == Pending(q, j)
  {
    if xs == [] then q else q[k := Pending(q, k) + xs]
  }

  lemma AppendSeqSnoc(q: Queue, k: BlockNumber, xs: seq<PeriodicPayoutInstance>, x: PeriodicPayoutInstance)
    ensures Append(AppendSeq(q, k, xs), k, x) == AppendSeq(q, k, xs + [x])
  {
    if xs == [] {
      assert xs + [x] == [x];
    } else {
      assert Pending(q, k) + xs + [x] == Pending(q, k) + (xs + [x]);
    }
  }

  // ---------------------------------------------------------------------------
  // The installment schedule of an approved periodic proposal.

  /** Appends every (block, instance) entry, in order. */
  function AppendAll(q: Queue, es: seq<(BlockNumber, PeriodicPayoutInstance)>): Queue
    decreases |es|
  {
    if es == [] then q
    else
      var last := es[|es| - 1];
      Append(AppendAll(q, es[..|es| - 1]), last.0, last.1)
  }

  /** The instances of `es` aimed at block `k`, in their order in `es`. */
  function Matching(es: seq<(BlockNumber, PeriodicPayoutInstance)>, k: BlockNumber): seq<PeriodicPayoutInstance>
    decreases |es|
  {
    if es == [] then []
    else
      var last := es[|es| - 1];
      Matching(es[..|es| - 1], k) + (if last.0 == k then [last.1] else [])
  }

  /** Appending entries keeps what a key held, in front, and adds exactly the
      entries aimed at it, in order. */
  lemma {:induction false} AppendAllAt(q: Queue, es: seq<(BlockNumber, PeriodicPayoutInstance)>, k: BlockNumber)
    ensures Pending(AppendAll(q, es), k) == Pending(q, k) + Matching(es, k)
    decreases |es|
  {
    if es != [] {
      var last := es[|es| - 1];
      AppendAllAt(q, es[..|es| - 1], k);
      assert Pending(q, k) + Matching(es[..|es| - 1], k) + (if last.0 == k then [last.1] else [])
        == Pending(q, k) + (Matching(es[..|es| - 1], k) + (if last.0 == k then [last.1] else []));
    }
  }

  /** The block the i-th installment is due at. */
  function Slot(start: BlockNumber, period: nat, i: nat): BlockNumber
  {
    start + i * period
  }

  /** The loop `for i in 1..=m` of the planner: the i-th entry is due at `Slot(start, period, i)`. */
  function Schedule(start: BlockNumber, period: nat, x: PeriodicPayoutInstance, m: nat): (r: seq<(BlockNumber, PeriodicPayoutInstance)>)
    ensures |r| == m
    ensures forall i :: 0 <= i < m ==> r[i] == (Slot(start, period, i + 1), x)
    decreases m
  {
    if m == 0 then [] else Schedule(start, period, x, m - 1) + [(Slot(start, period, m), x)]
  }

  /** Scheduling one more installment appends it at its slot. */
  lemma ScheduleStep(q: Queue, start: BlockNumber, period: nat, x: PeriodicPayoutInstance, i: nat)
    requires i >= 1
    ensures AppendAll(q, Schedule(start, period, x, i))
      == Append(AppendAll(q, Schedule(start, period, x, i - 1)), start + i * period, x)
  {
    var s := Schedule(start, period, x, i);
    assert s[..i - 1] == Schedule(start, period, x, i - 1);
  }

  /** The planner's `for i in 1..=n` loop: appends `x` at `start + i * period`
      for i = 1..n, in that order. */
  method AppendInstallments(q: Queue, start: BlockNumber, period: nat, x: PeriodicPayoutInstance, n: nat)
    returns (q': Queue)
    ensures q' == AppendAll(q, Schedule(start, period, x, n))
  {
    q' := q;
    var i := 1;
    while i <= n
      invariant 1 <= i <= n + 1
      invariant q' == AppendAll(q, Schedule(start, period, x, i - 1))
    {
      var blockNumber := start + i * period;
      ScheduleStep(q, start, period, x, i);
      q' := Append(q', blockNumber, x);
      i := i + 1;
    }
  }

  /** With a positive period, every installment is due after the start block. */
  lemma ScheduleAfterStart(start: BlockNumber, period: nat, x: PeriodicPayoutInstance, m: nat)
    ensures period > 0 ==> forall i :: 0 <= i < m ==> start < Schedule(start, period, x, m)[i].0
  {
    forall i | 0 <= i < m && period > 0
      ensures start < Schedule(start, period, x, m)[i].0
    {
      assert (i + 1) * period == i * period + period;
    }
  }

  lemma SlotsIncrease(start: BlockNumber, period: nat, i: nat, j: nat)
    requires period > 0 && i < j
    ensures Slot(start, period, i) < Slot(start, period, j)
  {
    assert j * period == i * period + (j - i) * period;
  }

  lemma {:induction false} ScheduleMisses(start: BlockNumber, period: nat, x: PeriodicPayoutInstance, m: nat, k: BlockNumber)
    requires forall i :: 1 <= i <= m ==> k != Slot(start, period, i)
    ensures Matching(Schedule(start, period, x, m), k) == []
    decreases m
  {
    if m > 0 {
      var s := Schedule(start, period, x, m);
      assert s[..m - 1] == Schedule(start, period, x, m - 1);
      ScheduleMisses(start, period, x, m - 1, k);
    }
  }

  /** With a positive period, every slot 1..m receives exactly one entry. */
  lemma {:induction false} ScheduleHitsSlot(start: BlockNumber, period: nat, x: PeriodicPayoutInstance, m: nat, i: nat)
    requires period > 0 && 1 <= i <= m
    ensures Matching(Schedule(start, period, x, m), Slot(start, period, i)) == [x]
    decreases m
  {
    var s := Schedule(start, period, x, m);
    assert s[..m - 1] == Schedule(start, period, x, m - 1);
    if i == m {
      forall j | 1 <= j <= m - 1 ensures Slot(start, period, i) != Slot(start, period, j) {
        SlotsIncrease(start, period, j, i);
      }
      ScheduleMisses(start, period, x, m - 1, Slot(start, period, i));
    } else {
      SlotsIncrease(start, period, i, m);
      ScheduleHitsSlot(start, period, x, m - 1, i);
    }
  }

  /** After scheduling, each slot holds what it held followed by one new instance. */
  lemma ScheduledAtSlot(q: Queue, start: BlockNumber, period: nat, x: PeriodicPayoutInstance, m: nat, i: nat)
    requires period > 0 && 1 <= i <= m
    ensures Pending(AppendAll(q, Schedule(start, period, x, m)), Slot(start, period, i))
      == Pending(q, Slot(start, period, i)) + [x]
  {
    AppendAllAt(q, Schedule(start, period, x, m), Slot(start, period, i));
    ScheduleHitsSlot(start, period, x, m, i);
  }

  /** After scheduling, a block that is no slot holds what it held. */
  lemma ScheduledOffSlot(q: Queue, start: BlockNumber, period: nat, x: PeriodicPayoutInstance, m: nat, k: BlockNumber)
    requires forall i :: 1 <= i <= m ==> k != Slot(start, period, i)
    ensures Pending(AppendAll(q, Schedule(start, period, x, m)), k) == Pending(q, k)
  {
    AppendAllAt(q, Schedule(start, period, x, m), k);
    ScheduleMisses(start, period, x, m, k);
  }

  // ---------------------------------------------------------------------------
  // Executing due instances.

  /** `exec_payout_instance`: pays one instance from the treasury account. */
  function ExecPayoutInstance(nativeId: AssetId, treasury: AccountId, l: Ledger, x: PeriodicPayoutInstance): (r: Option<Ledger>)
    ensures r.None? <==> BalanceOf(nativeId, l, x.assetId, treasury) < x.amount
    ensures r.Some? && treasury != x.beneficiary ==>
      && BalanceOf(nativeId, r.value, x.assetId, treasury) == BalanceOf(nativeId, l, x.assetId, treasury) - x.amount
      && BalanceOf(nativeId, r.value, x.assetId, x.beneficiary) == BalanceOf(nativeId, l, x.assetId, x.beneficiary) + x.amount
  {
    Transfer(nativeId, l, x.assetId, treasury, x.beneficiary, x.amount)
  }

  /** The ledger after a run of attempts, and which attempt succeeded. */
  datatype Attempts = Attempts(ledger: Ledger, ok: seq<bool>)

  /** Attempts every instance once, in order, each on the ledger the previous ones left. */
  function AttemptAll(nativeId: AssetId, treasury: AccountId, l: Ledger, xs: seq<PeriodicPayoutInstance>): (r: Attempts)
    ensures |r.ok| == |xs|
    decreases |xs|
  {
    if xs == [] then Attempts(l, [])
    else
      var prev := AttemptAll(nativeId, treasury, l, xs[..|xs| - 1]);
      match ExecPayoutInstance(nativeId, treasury, prev.ledger, xs[|xs| - 1])
      case Some(l') => Attempts(l', prev.ok + [true])
      case None => Attempts(prev.ledger, prev.ok + [false])
  }

  /** The i-th attempt succeeds exactly when paying that instance succeeds on
      the ledger left by the i attempts before it. */
  lemma {:induction false} AttemptAllStepwise(nativeId: AssetId, treasury: AccountId, l: Ledger, xs: seq<PeriodicPayoutInstance>, i: nat)
    requires i < |xs|
    ensures AttemptAll(nativeId, treasury, l, xs).ok[i]
      <==> ExecPayoutInstance(nativeId, treasury, AttemptAll(nativeId, treasury, l, xs[..i]).ledger, xs[i]).Some?
    decreases |xs|
  {
    var init := xs[..|xs| - 1];
    if i < |xs| - 1 {
      AttemptAllStepwise(nativeId, treasury, l, init, i);
      assert init[..i] == xs[..i];
    } else {
      assert init == xs[..i];
    }
  }

  /** The elements of `xs` whose mask entry is `keep`, in order. */
  function Select<T>(xs: seq<T>, mask: seq<bool>, keep: bool): seq<T>
    requires |mask| == |xs|
    decreases |xs|
  {
    if xs == [] then []
    else Select(xs[..|xs| - 1], mask[..|xs| - 1], keep) + (if mask[|xs| - 1] == keep then [xs[|xs| - 1]] else [])
  }

  /** The kept and the dropped elements together are the whole sequence, none lost or duplicated. */
  lemma {:induction false} SelectPartition<T>(xs: seq<T>, mask: seq<bool>)
    requires |mask| == |xs|
    ensures multiset(Select(xs, mask, true)) + multiset(Select(xs, mask, false)) == multiset(xs)
    decreases |xs|
  {
    if xs != [] {
      var init := xs[..|xs| - 1];
      SelectPartition(init, mask[..|xs| - 1]);
      assert xs == init + [xs[|xs| - 1]];
    }
  }

  lemma {:induction false} SelectAll<T>(xs: seq<T>, mask: seq<bool>)
    requires |mask| == |xs|
    requires forall i :: 0 <= i < |mask| ==> mask[i]
    ensures Select(xs, mask, true) == xs
    ensures Select(xs, mask, false) == []
    decreases |xs|
  {
    if xs != [] {
      SelectAll(xs[..|xs| - 1], mask[..|xs| - 1]);
    }
  }

  function Paid(xs: seq<PeriodicPayoutInstance>, a: Attempts): seq<PeriodicPayoutInstance>
    requires |a.ok| == |xs|
  {
    Select(xs, a.ok, true)
  }

  function Failed(xs: seq<PeriodicPayoutInstance>, a: Attempts): seq<PeriodicPayoutInstance>
    requires |a.ok| == |xs|
  {
    Select(xs, a.ok, false)
  }

  /** One `PayoutMovedForward` event per failed instance, carrying its fields unchanged. */
  function MovedForward(curr: BlockNumber, movedTo: BlockNumber, fs: seq<PeriodicPayoutInstance>): (r: seq<Event>)
    ensures |r| == |fs|
    ensures forall i :: 0 <= i < |fs| ==>
      r[i] == PayoutMovedForward(curr, movedTo, fs[i].proposer, fs[i].beneficiary, fs[i].assetId, fs[i].amount)
    decreases |fs|
  {
    if fs == [] then []
    else
      var x := fs[|fs| - 1];
      MovedForward(curr, movedTo, fs[..|fs| - 1])
        + [PayoutMovedForward(curr, movedTo, x.proposer, x.beneficiary, x.assetId, x.amount)]
  }

  /** One more attempt: a success replaces the ledger, a failure appends the
      instance to the failures. */
  lemma AttemptStep(nativeId: AssetId, treasury: AccountId, l: Ledger, xs: seq<PeriodicPayoutInstance>, i: nat)
    requires i < |xs|
    ensures var a := AttemptAll(nativeId, treasury, l, xs[..i]);
      var a' := AttemptAll(nativeId, treasury, l, xs[..i + 1]);
      var r := ExecPayoutInstance(nativeId, treasury, a.ledger, xs[i]);
      && (r.Some? ==> a'.ledger == r.value && Failed(xs[..i + 1], a') == Failed(xs[..i], a))
      && (r.None? ==> a'.ledger == a.ledger && Failed(xs[..i + 1], a') == Failed(xs[..i], a) + [xs[i]])
  {
    assert xs[..i + 1][..i] == xs[..i];
    var a := AttemptAll(nativeId, treasury, l, xs[..i]);
    var a' := AttemptAll(nativeId, treasury, l, xs[..i + 1]);
    assert a'.ok[..i] == a.ok;
  }

  lemma MovedForwardSnoc(curr: BlockNumber, movedTo: BlockNumber, fs: seq<PeriodicPayoutInstance>, x: PeriodicPayoutInstance)
    ensures MovedForward(curr, movedTo, fs + [x])
      == MovedForward(curr, movedTo, fs) + [PayoutMovedForward(curr, movedTo, x.proposer, x.beneficiary, x.assetId, x.amount)]
  {
    assert (fs + [x])[..|fs|] == fs;
  }

  datatype TickResult = TickResult(queue: Queue, ledger: Ledger, events: seq<Event>)

  /** `on_initialize(n)` as a function of the state. It reads the entry for `n`
      without removing it, attempts every instance there in order, and
      re-queues each failure at `now + RETRY_DELAY`, where `now` is the block
      number the system reports. */
  function Tick(nativeId: AssetId, treasury: AccountId, q: Queue, l: Ledger, ev: seq<Event>, now: BlockNumber, n: BlockNumber): (r: TickResult)
    ensures |r.events| >= |ev| && r.events[..|ev|] == ev
    ensures forall k :: k != now + RETRY_DELAY ==> Pending(r.queue, k) == Pending(q, k)
    ensures |Pending(r.queue, now + RETRY_DELAY)| >= |Pending(q, now + RETRY_DELAY)|
      && Pending(r.queue, now + RETRY_DELAY)[..|Pending(q, now + RETRY_DELAY)|] == Pending(q, now + RETRY_DELAY)
    ensures |Pending(r.queue, now + RETRY_DELAY)| - |Pending(q, now + RETRY_DELAY)| == |r.events| - |ev|
  {
    var xs := Pending(q, n);
    var a := AttemptAll(nativeId, treasury, l, xs);
    TickResult(
      AppendSeq(q, now + RETRY_DELAY, Failed(xs, a)),
      a.ledger,
      ev + MovedForward(now, now + RETRY_DELAY, Failed(xs, a)))
  }

  /** The state after the first `i` instances of `xs` have been attempted,
      failures being re-queued at `now + RETRY_DELAY`. */
  function TickPrefix(nativeId: AssetId, treasury: AccountId, q: Queue, l: Ledger, ev: seq<Event>,
                      now: BlockNumber, xs: seq<PeriodicPayoutInstance>, i: nat): TickResult
    requires i <= |xs|
  {
    var a := AttemptAll(nativeId, treasury, l, xs[..i]);
    TickResult(
      AppendSeq(q, now + RETRY_DELAY, Failed(xs[..i], a)),
      a.ledger,
      ev + MovedForward(now, now + RETRY_DELAY, Failed(xs[..i], a)))
  }

  /** One iteration of the tick's loop: pay `xs[i]` from the treasury, or
      re-queue it and log `PayoutMovedForward`. */
  lemma TickPrefixStep(nativeId: AssetId, treasury: AccountId, q: Queue, l: Ledger, ev: seq<Event>,
                       now: BlockNumber, xs: seq<PeriodicPayoutInstance>, i: nat)
    requires i < |xs|
    ensures var t := TickPrefix(nativeId, treasury, q, l, ev, now, xs, i);
      var x := xs[i];
      TickPrefix(nativeId, treasury, q, l, ev, now, xs, i + 1) ==
        match ExecPayoutInstance(nativeId, treasury, t.ledger, x)
        case Some(l') => TickResult(t.queue, l', t.events)
        case None => TickResult(
          Append(t.queue, now + RETRY_DELAY, x),
          t.ledger,
          t.events + [PayoutMovedForward(now, now + RETRY_DELAY, x.proposer, x.beneficiary, x.assetId, x.amount)])
  {
    var a := AttemptAll(nativeId, treasury, l, xs[..i]);
    var fs := Failed(xs[..i], a);
    AttemptStep(nativeId, treasury, l, xs, i);
    AppendSeqSnoc(q, now + RETRY_DELAY, fs, xs[i]);
    MovedForwardSnoc(now, now + RETRY_DELAY, fs, xs[i]);
    var e := PayoutMovedForward(now, now + RETRY_DELAY, xs[i].proposer, xs[i].beneficiary, xs[i].assetId, xs[i].amount);
    assert ev + MovedForward(now, now + RETRY_DELAY, fs) + [e] == ev + (MovedForward(now, now + RETRY_DELAY, fs) + [e]);
  }

  /** `on_initialize(n)` step by step: attempts every instance due at `n` in
      order; the queue, ledger and log it returns are those of `Tick`. */
  method RunTick(nativeId: AssetId, treasury: AccountId, q: Queue, l: Ledger, ev: seq<Event>, now: BlockNumber, n: BlockNumber)
    returns (q': Queue, l': Ledger, ev': seq<Event>)
    ensures TickResult(q', l', ev') == Tick(nativeId, treasury, q, l, ev, now, n)
  {
    var payoutInstances := Pending(q, n);
    q', l', ev' := q, l, ev;
    var i := 0;
    assert payoutInstances[..0] == [];
    while i < |payoutInstances|
      invariant 0 <= i <= |payoutInstances|
      invariant TickResult(q', l', ev') == TickPrefix(nativeId, treasury, q, l, ev, now, payoutInstances, i)
    {
      var payout := payoutInstances[i];
      TickPrefixStep(nativeId, treasury, q, l, ev, now, payoutInstances, i);
      var res := ExecPayoutInstance(nativeId, treasury, l', payout);
      if res.None? {
        q' := Append(q', now + RETRY_DELAY, payout);
        ev' := ev' + [PayoutMovedForward(now, now + RETRY_DELAY, payout.proposer, payout.beneficiary, payout.assetId, payout.amount)];
      } else {
        l' := res.value;
      }
      i := i + 1;
    }
    assert payoutInstances[..i] == payoutInstances;
  }

  /** The tick re-queues the failures behind what the retry block already
      held, logs one event per failure, and leaves every other block alone,
      the entry for `n` included. */
  lemma TickRequeuesFailures(nativeId: AssetId, treasury: AccountId, q: Queue, l: Ledger, ev: seq<Event>, now: BlockNumber, n: BlockNumber)
    ensures var xs := Pending(q, n);
      var a := AttemptAll(nativeId, treasury, l, xs);
      var t := Tick(nativeId, treasury, q, l, ev, now, n);
      && Pending(t.queue, now + RETRY_DELAY) == Pending(q, now + RETRY_DELAY) + Failed(xs, a)
      && (forall k :: k != now + RETRY_DELAY ==> Pending(t.queue, k) == Pending(q, k))
      && t.events == ev + MovedForward(now, now + RETRY_DELAY, Failed(xs, a))
      && multiset(Paid(xs, a)) + multiset(Failed(xs, a)) == multiset(xs)
  {
    var xs := Pending(q, n);
    SelectPartition(xs, AttemptAll(nativeId, treasury, l, xs).ok);
  }

  // ---------------------------------------------------------------------------
  // Obligations: no instance is lost or duplicated by the tick.

  /** The instances due in blocks lo..hi-1. */
  ghost function Bag(q: Queue, lo: nat, hi: nat): multiset<PeriodicPayoutInstance>
    decreases hi - lo
  {
    if lo >= hi then multiset{} else multiset(Pending(q, lo)) + Bag(q, lo + 1, hi)
  }

  lemma {:induction false} BagAppendSeq(q: Queue, k: BlockNumber, xs: seq<PeriodicPayoutInstance>, lo: nat, hi: nat)
    ensures Bag(AppendSeq(q, k, xs), lo, hi) == Bag(q, lo, hi) + (if lo <= k < hi then multiset(xs) else multiset{})
    decreases hi - lo
  {
    if lo < hi {
      BagAppendSeq(q, k, xs, lo + 1, hi);
    }
  }

  /** In a tick at the current block `n`, the obligations due from `n` on lose
      exactly the paid instances: the failures reappear at `n + RETRY_DELAY`. */
  lemma TickConservesObligations(nativeId: AssetId, treasury: AccountId, q: Queue, l: Ledger, ev: seq<Event>, n: BlockNumber, hi: nat)
    requires n + RETRY_DELAY < hi
    ensures var a := AttemptAll(nativeId, treasury, l, Pending(q, n));
      Bag(Tick(nativeId, treasury, q, l, ev, n, n).queue, n + 1, hi) + multiset(Paid(Pending(q, n), a))
        == Bag(q, n, hi)
  {
    var xs := Pending(q, n);
    var a := AttemptAll(nativeId, treasury, l, xs);
    SelectPartition(xs, a.ok);
    BagAppendSeq(q, n + RETRY_DELAY, Failed(xs, a), n + 1, hi);
  }

  // ---------------------------------------------------------------------------
  // The treasury pays exactly the paid instances.

  /** The total amount of `asset` that `xs` asks for. */
  function SumIn(xs: seq<PeriodicPayoutInstance>, asset: AssetId): nat
    decreases |xs|
  {
    if xs == [] then 0
    else SumIn(xs[..|xs| - 1], asset) + AmountIn(xs[|xs| - 1], asset)
  }

  function AmountIn(x: PeriodicPayoutInstance, asset: AssetId): nat
  {
    if x.assetId == asset then x.amount else 0
  }

  lemma SumInSnoc(xs: seq<PeriodicPayoutInstance>, x: PeriodicPayoutInstance, asset: AssetId)
    ensures SumIn(xs + [x], asset) == SumIn(xs, asset) + AmountIn(x, asset)
  {
    assert (xs + [x])[..|xs|] == xs;
  }

  predicate PaysOthers(treasury: AccountId, xs: seq<PeriodicPayoutInstance>)
  {
    forall i :: 0 <= i < |xs| ==> xs[i].beneficiary != treasury
  }

  predicate AllOk(a: Attempts)
  {
    forall i :: 0 <= i < |a.ok| ==> a.ok[i]
  }

  /** The last attempt of a run, on the ledger the earlier ones left. */
  lemma AttemptAllSnoc(nativeId: AssetId, treasury: AccountId, l: Ledger, xs: seq<PeriodicPayoutInstance>)
    requires xs != []
    ensures var prev := AttemptAll(nativeId, treasury, l, xs[..|xs| - 1]);
      var a := AttemptAll(nativeId, treasury, l, xs);
      var r := ExecPayoutInstance(nativeId, treasury, prev.ledger, xs[|xs| - 1]);
      && a.ok == prev.ok + [r.Some?]
      && a.ledger == (if r.Some? then r.value else prev.ledger)
      && Paid(xs, a) == Paid(xs[..|xs| - 1], prev) + (if r.Some? then [xs[|xs| - 1]] else [])
  {
    var prev := AttemptAll(nativeId, treasury, l, xs[..|xs| - 1]);
    var a := AttemptAll(nativeId, treasury, l, xs);
    assert a.ok[..|xs| - 1] == prev.ok;
  }

  /** A successful payment to someone else lowers the treasury's balance of
      the instance's asset by its amount and leaves its other balances alone. */
  lemma ExecDebitsTreasury(nativeId: AssetId, treasury: AccountId, l: Ledger, x: PeriodicPayoutInstance, asset: AssetId)
    requires x.beneficiary != treasury
    requires ExecPayoutInstance(nativeId, treasury, l, x).Some?
    ensures BalanceOf(nativeId, ExecPayoutInstance(nativeId, treasury, l, x).value, asset, treasury) + AmountIn(x, asset)
      == BalanceOf(nativeId, l, asset, treasury)
  {
  }

  /** When no instance pays the treasury itself, the treasury's balance in every
      asset drops by exactly what the paid instances ask for. */
  lemma {:induction false} AttemptAllDebitsTreasury(nativeId: AssetId, treasury: AccountId, l: Ledger, xs: seq<PeriodicPayoutInstance>, asset: AssetId)
    requires PaysOthers(treasury, xs)
    ensures var a := AttemptAll(nativeId, treasury, l, xs);
      BalanceOf(nativeId, a.ledger, asset, treasury) + SumIn(Paid(xs, a), asset) == BalanceOf(nativeId, l, asset, treasury)
    decreases |xs|
  {
    if xs != [] {
      var init := xs[..|xs| - 1];
      var x := xs[|xs| - 1];
      var prev := AttemptAll(nativeId, treasury, l, init);
      assert PaysOthers(treasury, init);
      AttemptAllDebitsTreasury(nativeId, treasury, l, init, asset);
      AttemptAllSnoc(nativeId, treasury, l, xs);
      var r := ExecPayoutInstance(nativeId, treasury, prev.ledger, x);
      var a := AttemptAll(nativeId, treasury, l, xs);
      if r.Some? {
        assert Paid(xs, a) == Paid(init, prev) + [x];
        SumInSnoc(Paid(init, prev), x, asset);
        ExecDebitsTreasury(nativeId, treasury, prev.ledger, x, asset);
        assert a.ledger == r.value;
      } else {
        assert Paid(xs, a) == Paid(init, prev);
        assert a.ledger == prev.ledger;
      }
    }
  }

  /** When the treasury holds, in every asset, what all the instances ask for,
      every attempt succeeds. */
  lemma {:induction false} AttemptAllFunded(nativeId: AssetId, treasury: AccountId, l: Ledger, xs: seq<PeriodicPayoutInstance>)
    requires PaysOthers(treasury, xs)
    requires forall asset :: SumIn(xs, asset) <= BalanceOf(nativeId, l, asset, treasury)
    ensures AllOk(AttemptAll(nativeId, treasury, l, xs))
    decreases |xs|
  {
    if xs != [] {
      var init := xs[..|xs| - 1];
      var x := xs[|xs| - 1];
      assert xs == init + [x];
      var prev := AttemptAll(nativeId, treasury, l, init);
      assert PaysOthers(treasury, init);
      forall asset ensures SumIn(init, asset) <= BalanceOf(nativeId, l, asset, treasury) {
        SumInSnoc(init, x, asset);
      }
      AttemptAllFunded(nativeId, treasury, l, init);
      SelectAll(init, prev.ok);
      AttemptAllDebitsTreasury(nativeId, treasury, l, init, x.assetId);
      SumInSnoc(init, x, x.assetId);
      assert BalanceOf(nativeId, prev.ledger, x.assetId, treasury) >= x.amount;
      AttemptAllSnoc(nativeId, treasury, l, xs);
    }
  }

  /** Once the treasury is funded for everything due at `n`, the tick pays it
      all: nothing is re-queued, no event is logged, and the treasury's
      balance in every asset drops by exactly what was due in it. */
  lemma TickPaysWhenFunded(nativeId: AssetId, treasury: AccountId, q: Queue, l: Ledger, ev: seq<Event>, now: BlockNumber, n: BlockNumber)
    requires PaysOthers(treasury, Pending(q, n))
    requires forall asset :: SumIn(Pending(q, n), asset) <= BalanceOf(nativeId, l, asset, treasury)
    ensures Tick(nativeId, treasury, q, l, ev, now, n).queue == q
    ensures Tick(nativeId, treasury, q, l, ev, now, n).events == ev
    ensures forall asset ::
      BalanceOf(nativeId, Tick(nativeId, treasury, q, l, ev, now, n).ledger, asset, treasury) + SumIn(Pending(q, n), asset)
        == BalanceOf(nativeId, l, asset, treasury)
  {
    var xs := Pending(q, n);
    var a := AttemptAll(nativeId, treasury, l, xs);
    AttemptAllFunded(nativeId, treasury, l, xs);
    SelectAll(xs, a.ok);
    forall asset ensures BalanceOf(nativeId, a.ledger, asset, treasury) + SumIn(xs, asset) == BalanceOf(nativeId, l, asset, treasury) {
      AttemptAllDebitsTreasury(nativeId, treasury, l, xs, asset);
    }
  }
}
