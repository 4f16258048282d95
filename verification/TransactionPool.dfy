/**
 * The transaction pool as a state machine: every transaction ever submitted in order, of which a prefix is settled and
 * the rest pending. The chain client's answers are parameters.
 */
module TransactionPool {
  import opened Wrappers
  import opened Pricing

  datatype Tx = Tx(hash: nat, nonce: nat, feeCap: nat, tip: nat)

  datatype Receipt = Receipt(txHash: nat, succeeded: bool)

  /** The client's answer for one hash; Missing is not found, or neither a receipt nor an error. */
  datatype Answer = Got(receipt: Receipt) | Missing | Failed

  /** What asking for each of a transaction's hashes in turn comes to. */
  datatype Found = NoReceipt | Settled(hash: nat, receipt: Receipt) | Broken

  function Ask(hashes: seq<nat>, answer: nat -> Answer): Found {
    if hashes == [] then NoReceipt
    else match answer(hashes[0])
      case Got(receipt) => Settled(hashes[0], receipt)
      case Failed => Broken
      case Missing => Ask(hashes[1..], answer)
  }

  /** Position `k` holds the first hash with an answer. */
  predicate Answered(hashes: seq<nat>, answer: nat -> Answer, k: nat) {
    k < |hashes| && answer(hashes[k]) != Missing && forall j :: 0 <= j < k ==> answer(hashes[j]) == Missing
  }

  /** The first recorded hash with a receipt or an error decides. */
  lemma {:induction false} AskIsFirst(hashes: seq<nat>, answer: nat -> Answer, k: nat)
    requires Answered(hashes, answer, k)
    ensures Ask(hashes, answer) ==
      match answer(hashes[k]) case Got(receipt) => Settled(hashes[k], receipt) case _ => Broken
  {
    if k > 0 {
      AskIsFirst(hashes[1..], answer, k - 1);
    }
  }

  /** A turn of the receipt loop comes to nothing exactly when no recorded hash has a receipt or an error. */
  lemma {:induction false} AskFindsNothing(hashes: seq<nat>, answer: nat -> Answer)
    ensures Ask(hashes, answer).NoReceipt? <==> forall h :: h in hashes ==> answer(h) == Missing
    ensures Ask(hashes, answer).Settled? ==>
      Ask(hashes, answer).hash in hashes && answer(Ask(hashes, answer).hash) == Got(Ask(hashes, answer).receipt)
  {
    if hashes != [] {
      AskFindsNothing(hashes[1..], answer);
      assert hashes == [hashes[0]] + hashes[1..];
    }
  }

  /** A transaction as its creator would fill in what the options leave open. */
  datatype Draft = Draft(hash: nat, feeCap: nat, tip: nat)

  function Create(draft: Draft, nonce: nat, quote: Quote): Tx {
    Tx(draft.hash, nonce,
       if quote.feeCap.Some? then quote.feeCap.value else draft.feeCap,
       if quote.tip.Some? then quote.tip.value else draft.tip)
  }

  /** One visit of the replacement loop: the time, what creating returns, whether sending succeeds, the time after. */
  datatype Attempt = Attempt(now: int, draft: Option<Draft>, sendOk: bool, sentAt: int)

  /** A submitted transaction: the current offer, all its hashes, and what its listener has been sent. */
  datatype Entry = Entry(
    tx: Tx, hashes: seq<nat>, lastSubmit: int, listener: seq<Receipt>, executedHash: Option<nat>)

  datatype Pool = Pool(
    entries: seq<Entry>, settled: nat, pendingCount: int, processedCount: int, replacementsSent: int)

  datatype Rules = Rules(policy: Policy, timeout: nat)

  // ---------- steps ----------

  /** The client is asked for a nonce only when nothing is pending. */
  function NextNonce(s: Pool, pendingNonce: Option<nat>): Option<nat> {
    if s.settled < |s.entries| then Some(s.entries[|s.entries| - 1].tx.nonce + 1) else pendingNonce
  }

  /** None when the submission fails: no nonce, no transaction, too expensive, or not sent. */
  function NewEntry(
    rules: Rules, s: Pool, pendingNonce: Option<nat>, draft: Option<Draft>, sendOk: bool, now: int): Option<Entry>
  {
    var nonce := NextNonce(s, pendingNonce);
    if nonce.None? || draft.None? || !WithinCap(rules.policy, draft.value.feeCap) || !sendOk then None
    else
      var tx := Create(draft.value, nonce.value, Quote(None, None, None));
      Some(Entry(tx, [tx.hash], now, [], None))
  }

  function Submitted(s: Pool, e: Entry): Pool {
    s.(entries := s.entries + [e], pendingCount := s.pendingCount + 1)
  }

  function DeliveredTo(e: Entry, hash: nat, receipt: Receipt): Entry {
    e.(listener := e.listener + [receipt], executedHash := Some(hash))
  }

  function Deliver(s: Pool, hash: nat, receipt: Receipt): Pool
    requires s.settled < |s.entries|
  {
    s.(entries := s.entries[s.settled := DeliveredTo(s.entries[s.settled], hash, receipt)], settled := s.settled + 1,
       pendingCount := s.pendingCount - 1, processedCount := s.processedCount + 1)
  }

  /** The first pending transaction has been mined. */
  predicate FrontMined(s: Pool, nonce: nat) {
    s.settled < |s.entries| && s.entries[s.settled].tx.nonce < nonce
  }

  /** How the receipt loop ends; Spinning means it asks again until the client answers differently. */
  datatype Outcome = Finished | Aborted | Spinning

  function DeliverAll(s: Pool, nonce: nat, answer: nat -> Answer): (Pool, Outcome)
    decreases |s.entries| - s.settled
  {
    if !FrontMined(s, nonce) then (s, Finished)
    else match Ask(s.entries[s.settled].hashes, answer)
      case NoReceipt => (s, Spinning)
      case Broken => (s, Aborted)
      case Settled(hash, receipt) => DeliverAll(Deliver(s, hash, receipt), nonce, answer)
  }

  /** One visit of the replacement loop: same nonce, a new price, and the new hash recorded beside the former ones. */
  function Replaced(rules: Rules, e: Entry, a: Attempt): Entry {
    if Eligible(rules.timeout, e.lastSubmit, a.now) && a.draft.Some? && a.sendOk then
      var tx := Create(a.draft.value, e.tx.nonce, Reprice(rules.policy, Dynamic(e.tx.feeCap, e.tx.tip)));
      e.(tx := tx, hashes := e.hashes + [tx.hash], lastSubmit := a.sentAt)
    else e
  }

  function Visit(rules: Rules, s: Pool, i: nat, a: Attempt): Pool
    requires i < |s.entries|
  {
    var e := Replaced(rules, s.entries[i], a);
    s.(entries := s.entries[i := e],
       replacementsSent := s.replacementsSent + |e.hashes| - |s.entries[i].hashes|)
  }

  /** Visit every pending transaction from position `i` on; attempts are looked up by nonce. */
  function ReplaceFrom(rules: Rules, s: Pool, i: nat, attempt: nat -> Attempt): Pool
    decreases |s.entries| - i
  {
    if i >= |s.entries| then s
    else ReplaceFrom(rules, Visit(rules, s, i, attempt(s.entries[i].tx.nonce)), i + 1, attempt)
  }

  /** What the chain client does during one block callback. */
  datatype ChainAnswers = ChainAnswers(
    nonce: Option<nat>, answer: nat -> Answer, headOk: bool, attempt: nat -> Attempt)

  function OnBlock(rules: Rules, s: Pool, c: ChainAnswers): (Pool, Outcome) {
    if s.settled >= |s.entries| then (s, Finished)
    else if c.nonce.None? then (s, Aborted)
    else
      var (t, outcome) := DeliverAll(s, c.nonce.value, c.answer);
      if outcome.Finished? && c.headOk then (ReplaceFrom(rules, t, t.settled, c.attempt), outcome) else (t, outcome)
  }

  datatype Step =
    | Submit(pendingNonce: Option<nat>, draft: Option<Draft>, sendOk: bool, now: int)
    | Block(answers: ChainAnswers)

  function Next(rules: Rules, s: Pool, step: Step): Pool {
    match step
    case Submit(pendingNonce, draft, sendOk, now) =>
      (match NewEntry(rules, s, pendingNonce, draft, sendOk, now)
       case None => s
       case Some(e) => Submitted(s, e))
    case Block(c) => OnBlock(rules, s, c).0
  }

  function Run(rules: Rules, steps: seq<Step>): Pool {
    if steps == [] then Pool([], 0, 0, 0, 0)
    else Next(rules, Run(rules, steps[..|steps| - 1]), steps[|steps| - 1])
  }

  // ---------- the invariant ----------

  /** Nothing was sent to the listener yet, the offer is within the cap, and it is the last recorded hash. */
  predicate Waiting(policy: Policy, e: Entry) {
    && e.listener == [] && e.executedHash == None && WithinCap(policy, e.tx.feeCap)
    && e.hashes != [] && e.hashes[|e.hashes| - 1] == e.tx.hash
  }

  /** Exactly one receipt was sent, for one of the transaction's own hashes. */
  predicate Done(e: Entry) {
    |e.listener| == 1 && e.executedHash.Some? && e.executedHash.value in e.hashes
  }

  ghost predicate Good(policy: Policy, s: Pool) {
    && s.settled <= |s.entries|
    && s.pendingCount == |s.entries| - s.settled && s.processedCount == s.settled
    && (forall i :: 0 <= i < s.settled ==> Done(s.entries[i]))
    && (forall i :: s.settled <= i < |s.entries| ==> Waiting(policy, s.entries[i]))
    && forall i :: s.settled <= i < |s.entries| ==>
         s.entries[i].tx.nonce == s.entries[s.settled].tx.nonce + i - s.settled
  }

  /** Over the pool's life: settled entries stay as they are, pending ones only move forward and gain hashes. */
  ghost predicate Continues(s: Pool, t: Pool) {
    && |s.entries| <= |t.entries| && s.settled <= t.settled
    && (forall i :: 0 <= i < s.settled && i < |s.entries| ==> t.entries[i] == s.entries[i])
    && forall i :: 0 <= i < |s.entries| ==>
         t.entries[i].tx.nonce == s.entries[i].tx.nonce && s.entries[i].hashes <= t.entries[i].hashes
  }

  lemma DeliverKeeps(policy: Policy, s: Pool, hash: nat, receipt: Receipt)
    requires Good(policy, s) && s.settled < |s.entries| && hash in s.entries[s.settled].hashes
    ensures Good(policy, Deliver(s, hash, receipt)) && Continues(s, Deliver(s, hash, receipt))
  {
    var t := Deliver(s, hash, receipt);
    assert s.settled + 1 < |s.entries| ==>
      t.entries[t.settled].tx.nonce == s.entries[s.settled].tx.nonce + 1;
  }

  lemma ContinuesTransitive(s: Pool, t: Pool, u: Pool)
    requires Continues(s, t) && Continues(t, u) && s.settled <= |s.entries|
    ensures Continues(s, u)
  {
  }

  /** Delivered in this call: mined, and the receipt is the client's first answer for one of the hashes. */
  predicate SettledBy(e: Entry, nonce: nat, answer: nat -> Answer) {
    && e.tx.nonce < nonce && |e.listener| == 1 && e.executedHash.Some?
    && Ask(e.hashes, answer) == Settled(e.executedHash.value, e.listener[0])
  }

  lemma DeliverFacts(policy: Policy, s: Pool, hash: nat, receipt: Receipt, nonce: nat, answer: nat -> Answer)
    requires Good(policy, s) && FrontMined(s, nonce)
    requires Ask(s.entries[s.settled].hashes, answer) == Settled(hash, receipt)
    ensures SettledBy(Deliver(s, hash, receipt).entries[s.settled], nonce, answer)
  {
  }

  lemma GoodBound(policy: Policy, s: Pool)
    requires Good(policy, s)
    ensures s.settled <= |s.entries|
  {
  }

  lemma ContinuesSettled(s: Pool, t: Pool, i: nat)
    requires Continues(s, t) && i < s.settled && i < |s.entries|
    ensures |t.entries| >= |s.entries| && t.entries[i] == s.entries[i] && t.settled >= s.settled
  {
  }

  lemma ContinuesReflexive(s: Pool)
    ensures Continues(s, s)
  {
  }

  /**
   * Receipts go out from the front, one per listener, in nonce order. The loop ends at the first transaction that is
   * not mined, at the first error, or spins on the first mined one with no receipt.
   */
  lemma {:induction false} DeliverAllKeeps(policy: Policy, s: Pool, nonce: nat, answer: nat -> Answer)
    requires Good(policy, s)
    ensures var (t, outcome) := DeliverAll(s, nonce, answer);
      && Good(policy, t) && Continues(s, t) && |t.entries| == |s.entries|
      && (forall i :: s.settled <= i < t.settled ==> SettledBy(t.entries[i], nonce, answer))
      && (forall i :: t.settled <= i < |t.entries| ==> t.entries[i] == s.entries[i])
      && (forall i :: s.settled <= i < t.settled ==> t.entries[i].hashes == s.entries[i].hashes)
      && (outcome.Finished? <==> !FrontMined(t, nonce))
      && (outcome.Aborted? <==> FrontMined(t, nonce) && Ask(t.entries[t.settled].hashes, answer).Broken?)
      && (outcome.Spinning? <==> FrontMined(t, nonce) && Ask(t.entries[t.settled].hashes, answer).NoReceipt?)
    decreases |s.entries| - s.settled
  {
    hide Good, Continues;
    if FrontMined(s, nonce) {
      var hashes := s.entries[s.settled].hashes;
      AskFindsNothing(hashes, answer);
      var found := Ask(hashes, answer);
      if found.Settled? {
        var u := Deliver(s, found.hash, found.receipt);
        DeliverKeeps(policy, s, found.hash, found.receipt);
        DeliverAllKeeps(policy, u, nonce, answer);
        DeliverFacts(policy, s, found.hash, found.receipt, nonce, answer);
        ContinuesTransitive(s, u, DeliverAll(u, nonce, answer).0) by { GoodBound(policy, s); }
        ContinuesSettled(u, DeliverAll(u, nonce, answer).0, s.settled);
        GoodBound(policy, DeliverAll(u, nonce, answer).0);
        assert u.entries[s.settled].hashes == hashes;
        assert forall i :: s.settled < i < |s.entries| ==> u.entries[i] == s.entries[i];
      } else {
        ContinuesReflexive(s);
      }
    } else {
      ContinuesReflexive(s);
    }
  }

  /** A mined transaction with neither a receipt nor an error, behind mined ones that all have receipts. */
  ghost predicate Stuck(s: Pool, i: nat, nonce: nat, answer: nat -> Answer) {
    && s.settled <= i < |s.entries| && s.entries[i].tx.nonce < nonce
    && (forall h :: h in s.entries[i].hashes ==> answer(h) == Missing)
    && forall k :: s.settled <= k < i ==> Ask(s.entries[k].hashes, answer).Settled?
  }

  /** The receipt loop spins exactly when there is one. */
  lemma ReceiptLoopSpins(policy: Policy, s: Pool, nonce: nat, answer: nat -> Answer)
    requires Good(policy, s)
    ensures DeliverAll(s, nonce, answer).1.Spinning? <==> exists i :: Stuck(s, i, nonce, answer)
  {
    DeliverAllKeeps(policy, s, nonce, answer);
    var (t, outcome) := DeliverAll(s, nonce, answer);
    if t.settled < |t.entries| {
      AskFindsNothing(t.entries[t.settled].hashes, answer);
      assert outcome.Spinning? ==> Stuck(s, t.settled, nonce, answer);
    }
    forall i: nat | Stuck(s, i, nonce, answer) ensures outcome.Spinning? {
      AskFindsNothing(s.entries[i].hashes, answer);
      assert s.settled <= i < t.settled ==> SettledBy(t.entries[i], nonce, answer);
    }
  }

  /** So it terminates when every mined transaction has a receipt under some recorded hash. */
  lemma ReceiptLoopTerminates(policy: Policy, s: Pool, nonce: nat, answer: nat -> Answer)
    requires Good(policy, s)
    requires forall i :: s.settled <= i < |s.entries| && s.entries[i].tx.nonce < nonce ==>
      exists h :: h in s.entries[i].hashes && answer(h).Got?
    ensures !DeliverAll(s, nonce, answer).1.Spinning?
  {
    hide DeliverAll;
    ReceiptLoopSpins(policy, s, nonce, answer);
  }

  // ---------- replacement ----------

  lemma ReplacedKeeps(rules: Rules, e: Entry, a: Attempt)
    requires Waiting(rules.policy, e)
    ensures var r := Replaced(rules, e, a);
      && Waiting(rules.policy, r) && r.tx.nonce == e.tx.nonce && e.hashes <= r.hashes
      && (r != e && rules.policy.tipPercentage == 10 ==> Outbids(r.tx.tip, e.tx.tip))
  {
    IncreaseOutbids(e.tx.tip, rules.policy.tipPercentage);
  }

  lemma VisitKeeps(rules: Rules, s: Pool, i: nat, a: Attempt)
    requires Good(rules.policy, s) && s.settled <= i < |s.entries|
    ensures Good(rules.policy, Visit(rules, s, i, a)) && Continues(s, Visit(rules, s, i, a))
  {
    hide Replaced;
    ReplacedKeeps(rules, s.entries[i], a);
  }

  /** Every pending transaction from `i` on is visited once; nothing else changes. */
  lemma {:induction false} ReplaceFromKeeps(rules: Rules, s: Pool, i: nat, attempt: nat -> Attempt)
    requires Good(rules.policy, s) && s.settled <= i <= |s.entries|
    ensures var t := ReplaceFrom(rules, s, i, attempt);
      && Good(rules.policy, t) && Continues(s, t) && |t.entries| == |s.entries| && t.settled == s.settled
      && forall k :: 0 <= k < |t.entries| ==>
           t.entries[k] == if k < i then s.entries[k]
                           else Replaced(rules, s.entries[k], attempt(s.entries[k].tx.nonce))
    decreases |s.entries| - i
  {
    hide Good, Continues, Replaced;
    if i < |s.entries| {
      var u := Visit(rules, s, i, attempt(s.entries[i].tx.nonce));
      VisitKeeps(rules, s, i, attempt(s.entries[i].tx.nonce));
      ReplaceFromKeeps(rules, u, i + 1, attempt);
      ContinuesTransitive(s, u, ReplaceFrom(rules, u, i + 1, attempt)) by { GoodBound(rules.policy, s); }
    } else {
      ContinuesReflexive(s);
    }
  }

  // ---------- every run ----------

  lemma SubmitKeeps(rules: Rules, s: Pool, step: Step)
    requires Good(rules.policy, s) && step.Submit?
    ensures Good(rules.policy, Next(rules, s, step)) && Continues(s, Next(rules, s, step))
  {
  }

  lemma OnBlockKeeps(rules: Rules, s: Pool, c: ChainAnswers)
    requires Good(rules.policy, s)
    ensures var (t, _) := OnBlock(rules, s, c);
      Good(rules.policy, t) && Continues(s, t) && |t.entries| == |s.entries|
  {
    hide Good, Continues, DeliverAll, ReplaceFrom;
    ContinuesReflexive(s);
    GoodBound(rules.policy, s);
    if c.nonce.Some? {
      DeliverAllKeeps(rules.policy, s, c.nonce.value, c.answer);
      var t := DeliverAll(s, c.nonce.value, c.answer).0;
      GoodBound(rules.policy, t);
      ReplaceFromKeeps(rules, t, t.settled, c.attempt);
      ContinuesTransitive(s, t, ReplaceFrom(rules, t, t.settled, c.attempt));
    }
  }

  /**
   * Over every run of submissions and blocks, whatever the client answers: processed and pending add up to submitted,
   * pending nonces are consecutive, pending listeners have nothing, settled ones exactly one receipt for one of their
   * own hashes, and no offer exceeds the operator's cap.
   */
  lemma {:induction false} RunIsGood(rules: Rules, steps: seq<Step>)
    ensures Good(rules.policy, Run(rules, steps))
    ensures Run(rules, steps).processedCount + Run(rules, steps).pendingCount == |Run(rules, steps).entries|
  {
    hide OnBlock;
    if steps != [] {
      var init, step := steps[..|steps| - 1], steps[|steps| - 1];
      RunIsGood(rules, init);
      match step {
        case Submit(_, _, _, _) => SubmitKeeps(rules, Run(rules, init), step);
        case Block(c) => OnBlockKeeps(rules, Run(rules, init), c);
      }
    }
  }

  lemma StepContinues(rules: Rules, s: Pool, step: Step)
    requires Good(rules.policy, s)
    ensures Continues(s, Next(rules, s, step))
  {
    hide Good, Continues, OnBlock;
    match step {
      case Submit(_, _, _, _) => SubmitKeeps(rules, s, step);
      case Block(c) => OnBlockKeeps(rules, s, c);
    }
  }

  /** A transaction settled at some point of a run keeps its one receipt for ever, and every replacement its nonce. */
  lemma {:induction false} RunContinues(rules: Rules, steps: seq<Step>, k: nat)
    requires k <= |steps|
    ensures Continues(Run(rules, steps[..k]), Run(rules, steps))
  {
    hide Good, Continues, Next;
    if k == |steps| {
      assert steps[..k] == steps;
      ContinuesReflexive(Run(rules, steps));
    } else {
      var init, step := steps[..|steps| - 1], steps[|steps| - 1];
      assert init[..k] == steps[..k];
      RunContinues(rules, init, k);
      RunIsGood(rules, init);
      RunIsGood(rules, steps[..k]);
      GoodBound(rules.policy, Run(rules, steps[..k]));
      StepContinues(rules, Run(rules, init), step);
      ContinuesTransitive(Run(rules, steps[..k]), Run(rules, init), Run(rules, steps));
    }
  }

  // ---------- nonces over the whole life ----------

  ghost predicate Increasing(s: Pool) {
    forall i, j :: 0 <= i < j < |s.entries| ==> s.entries[i].tx.nonce < s.entries[j].tx.nonce
  }

  /** An idle pool is told a nonce above those it has used. */
  predicate Honest(s: Pool, step: Step) {
    step.Submit? && step.pendingNonce.Some? && s.settled == |s.entries| > 0 ==>
      step.pendingNonce.value > s.entries[|s.entries| - 1].tx.nonce
  }

  lemma StepIncreases(rules: Rules, s: Pool, step: Step)
    requires Good(rules.policy, s) && Increasing(s) && Honest(s, step)
    ensures Increasing(Next(rules, s, step))
  {
    hide OnBlock, Good;
    GoodBound(rules.policy, s);
    StepContinues(rules, s, step);
    match step {
      case Block(c) => OnBlockKeeps(rules, s, c);
      case Submit(_, _, _, _) => hide Continues;
    }
  }

  lemma NothingIncreases(rules: Rules)
    ensures Increasing(Run(rules, []))
  {
  }

  /** Then no nonce is used twice, and receipts come in nonce order over the pool's whole life. */
  lemma {:induction false} NoncesIncrease(rules: Rules, steps: seq<Step>)
    requires forall k :: 0 <= k < |steps| ==> Honest(Run(rules, steps[..k]), steps[k])
    ensures Increasing(Run(rules, steps))
  {
    hide Next, Good, Increasing, Honest;
    if steps != [] {
      var init, step := steps[..|steps| - 1], steps[|steps| - 1];
      assert forall k :: 0 <= k < |init| ==> init[..k] == steps[..k] && init[k] == steps[k];
      NoncesIncrease(rules, init);
      RunIsGood(rules, init);
      StepIncreases(rules, Run(rules, init), step);
    } else {
      NothingIncreases(rules);
    }
  }

  // ---------- tips over a run ----------

  lemma {:induction false} TipAfterMore(tip: nat, percentage: nat, a: nat, b: nat)
    ensures TipAfter(TipAfter(tip, percentage, a), percentage, b) == TipAfter(tip, percentage, a + b)
  {
    hide Increase;
    if b > 0 {
      TipAfterMore(tip, percentage, a, b - 1);
    }
  }

  /** Every hash recorded since is one raise of the tip. */
  ghost predicate Raises(percentage: nat, s: Pool, t: Pool) {
    && |s.entries| <= |t.entries|
    && forall i :: 0 <= i < |s.entries| ==>
         && |s.entries[i].hashes| <= |t.entries[i].hashes|
         && t.entries[i].tx.tip ==
            TipAfter(s.entries[i].tx.tip, percentage, |t.entries[i].hashes| - |s.entries[i].hashes|)
  }

  lemma RaisesTransitive(percentage: nat, s: Pool, t: Pool, u: Pool)
    requires Raises(percentage, s, t) && Raises(percentage, t, u)
    ensures Raises(percentage, s, u)
  {
    hide TipAfter;
    forall i | 0 <= i < |s.entries|
      ensures |s.entries[i].hashes| <= |u.entries[i].hashes|
      ensures u.entries[i].tx.tip ==
        TipAfter(s.entries[i].tx.tip, percentage, |u.entries[i].hashes| - |s.entries[i].hashes|)
    {
      var a, b, c := |s.entries[i].hashes|, |t.entries[i].hashes|, |u.entries[i].hashes|;
      TipAfterMore(s.entries[i].tx.tip, percentage, b - a, c - b);
    }
  }

  lemma ReplacedRaises(rules: Rules, e: Entry, a: Attempt)
    ensures var r := Replaced(rules, e, a);
      && |e.hashes| <= |r.hashes|
      && r.tx.tip == TipAfter(e.tx.tip, rules.policy.tipPercentage, |r.hashes| - |e.hashes|)
  {
    hide Increase;
    assert TipAfter(e.tx.tip, rules.policy.tipPercentage, 0) == e.tx.tip;
  }

  /** Delivering changes no transaction and no recorded hash. */
  lemma {:induction false} DeliverKeepsTx(policy: Policy, s: Pool, nonce: nat, answer: nat -> Answer)
    requires s.settled <= |s.entries|
    ensures var t := DeliverAll(s, nonce, answer).0;
      && |t.entries| == |s.entries|
      && forall i :: 0 <= i < |s.entries| ==>
           t.entries[i].tx == s.entries[i].tx && t.entries[i].hashes == s.entries[i].hashes
    decreases |s.entries| - s.settled
  {
    if FrontMined(s, nonce) {
      var found := Ask(s.entries[s.settled].hashes, answer);
      if found.Settled? {
        DeliverKeepsTx(policy, Deliver(s, found.hash, found.receipt), nonce, answer);
      }
    }
  }

  lemma StepRaises(rules: Rules, s: Pool, step: Step)
    requires Good(rules.policy, s)
    ensures Raises(rules.policy.tipPercentage, s, Next(rules, s, step))
  {
    hide Good, Continues, DeliverAll, ReplaceFrom, Replaced, Increase, Eligible, Reprice;
    var percentage := rules.policy.tipPercentage;
    assert forall tip: nat :: TipAfter(tip, percentage, 0) == tip;
    if step.Block? && s.settled < |s.entries| && step.answers.nonce.Some? {
      var c := step.answers;
      DeliverAllKeeps(rules.policy, s, c.nonce.value, c.answer);
      DeliverKeepsTx(rules.policy, s, c.nonce.value, c.answer);
      var t := DeliverAll(s, c.nonce.value, c.answer).0;
      assert Raises(percentage, s, t);
      GoodBound(rules.policy, t);
      ReplaceFromKeeps(rules, t, t.settled, c.attempt);
      var u := ReplaceFrom(rules, t, t.settled, c.attempt);
      forall i | 0 <= i < |t.entries|
        ensures |t.entries[i].hashes| <= |u.entries[i].hashes|
        ensures u.entries[i].tx.tip ==
          TipAfter(t.entries[i].tx.tip, percentage, |u.entries[i].hashes| - |t.entries[i].hashes|)
      {
        ReplacedRaises(rules, t.entries[i], c.attempt(t.entries[i].tx.nonce));
      }
      assert Raises(percentage, t, u);
      RaisesTransitive(percentage, s, t, u);
    }
  }

  lemma RaisesReflexive(percentage: nat, s: Pool)
    ensures Raises(percentage, s, s)
  {
    hide Increase;
  }

  /**
   * Over every run: a transaction that has gained `j` hashes since some earlier state has had its tip raised exactly
   * `j` times. From its submission on that makes `j` replacements; at ten percent tip * 10^j >= 11^j * first tip.
   */
  lemma {:induction false} RunRaises(rules: Rules, steps: seq<Step>, k: nat)
    requires k <= |steps|
    ensures Raises(rules.policy.tipPercentage, Run(rules, steps[..k]), Run(rules, steps))
  {
    hide Good, Raises, Next;
    var percentage := rules.policy.tipPercentage;
    if k == |steps| {
      assert steps[..k] == steps;
      RaisesReflexive(percentage, Run(rules, steps));
    } else {
      var init, step := steps[..|steps| - 1], steps[|steps| - 1];
      assert init[..k] == steps[..k];
      RunRaises(rules, init, k);
      RunIsGood(rules, init);
      StepRaises(rules, Run(rules, init), step);
      RaisesTransitive(percentage, Run(rules, steps[..k]), Run(rules, init), Run(rules, steps));
    }
  }

  lemma RunTipsCompound(rules: Rules, steps: seq<Step>, k: nat, i: nat)
    requires k <= |steps| && rules.policy.tipPercentage == 10 && i < |Run(rules, steps[..k]).entries|
    ensures
      var s, t := Run(rules, steps[..k]), Run(rules, steps);
      && |s.entries| <= |t.entries| && |s.entries[i].hashes| <= |t.entries[i].hashes|
      && var j := |t.entries[i].hashes| - |s.entries[i].hashes|;
         t.entries[i].tx.tip * Power(10, j) >= Power(11, j) * s.entries[i].tx.tip
  {
    hide TipAfter, Power, Run;
    RunRaises(rules, steps, k);
    var s, t := Run(rules, steps[..k]), Run(rules, steps);
    TipCompounds(s.entries[i].tx.tip, |t.entries[i].hashes| - |s.entries[i].hashes|);
  }

  // ---------- what one submission and one block do ----------

  /**
   * A submission fails exactly without a nonce, a transaction within the operator's cap, or a successful send.
   * Otherwise it appends one pending transaction: with the client's nonce if nothing was pending, else the next one.
   */
  lemma SubmittedExactly(
    rules: Rules, s: Pool, pendingNonce: Option<nat>, draft: Option<Draft>, sendOk: bool, now: int)
    requires Good(rules.policy, s)
    ensures
      var t := Next(rules, s, Submit(pendingNonce, draft, sendOk, now));
      var idle, cap := s.pendingCount == 0, rules.policy.gasFeeCap;
      var fails :=
        (idle && pendingNonce.None?) || draft.None? || (cap.Some? && draft.value.feeCap > cap.value) || !sendOk;
      && (fails ==> t == s)
      && (!fails ==>
          && t.entries[..|t.entries| - 1] == s.entries && t.settled == s.settled
          && t.pendingCount == s.pendingCount + 1 && t.processedCount == s.processedCount
          && var e := t.entries[|t.entries| - 1];
             && e.tx.nonce == (if idle then pendingNonce.value else s.entries[|s.entries| - 1].tx.nonce + 1)
             && e.tx.feeCap == draft.value.feeCap && e.tx.tip == draft.value.tip && e.hashes == [draft.value.hash]
             && e.lastSubmit == now)
  {
  }

  /** A pending transaction is due for replacement. */
  predicate Due(rules: Rules, e: Entry, now: int) {
    if rules.timeout == 0 then now >= e.lastSubmit + 5_000_000_000 else now >= e.lastSubmit + rules.timeout
  }

  lemma ReplacedExactly(rules: Rules, e: Entry, a: Attempt)
    ensures
      var r, q := Replaced(rules, e, a), Reprice(rules.policy, Dynamic(e.tx.feeCap, e.tx.tip));
      if Due(rules, e, a.now) && a.draft.Some? && a.sendOk
      then
        && r.hashes == e.hashes + [a.draft.value.hash] && r.lastSubmit == a.sentAt && r.tx.nonce == e.tx.nonce
        && (if q.feeCap.Some? then Some(r.tx.feeCap) == q.feeCap else r.tx.feeCap == a.draft.value.feeCap)
        && (if q.tip.Some? then Some(r.tx.tip) == q.tip else r.tx.tip == a.draft.value.tip)
      else r == e
  {
  }

  /**
   * One block callback: which transactions it replaces. It is exactly those still pending after the receipts, if the
   * receipt loop finished and the head was read, that are due and for which creating and sending succeed.
   */
  lemma BlockReplacesExactly(rules: Rules, s: Pool, c: ChainAnswers, k: nat)
    requires Good(rules.policy, s) && k < |s.entries|
    ensures
      var (t, outcome) := OnBlock(rules, s, c);
      && |t.entries| == |s.entries|
      && var e, r, a := s.entries[k], t.entries[k], c.attempt(s.entries[k].tx.nonce);
         if outcome.Finished? && c.headOk && t.settled <= k && Due(rules, e, a.now) && a.draft.Some? && a.sendOk
         then r.hashes == e.hashes + [a.draft.value.hash] && r.lastSubmit == a.sentAt
         else r.hashes == e.hashes && r.tx == e.tx
  {
    hide Good, Continues, DeliverAll, ReplaceFrom, Replaced, Due;
    GoodBound(rules.policy, s);
    if s.settled < |s.entries| && c.nonce.Some? {
      DeliverAllKeeps(rules.policy, s, c.nonce.value, c.answer);
      DeliverKeepsTx(rules.policy, s, c.nonce.value, c.answer);
      var t := DeliverAll(s, c.nonce.value, c.answer).0;
      GoodBound(rules.policy, t);
      ReplaceFromKeeps(rules, t, t.settled, c.attempt);
      ReplacedExactly(rules, t.entries[k], c.attempt(t.entries[k].tx.nonce));
    }
  }

  // ---------- counting replacements ----------

  /** Hashes beyond the first of each transaction. */
  function Extra(entries: seq<Entry>): int {
    if entries == [] then 0 else Extra(entries[..|entries| - 1]) + |entries[|entries| - 1].hashes| - 1
  }

  lemma {:induction false} ExtraUpdate(entries: seq<Entry>, i: nat, e: Entry)
    requires i < |entries|
    ensures Extra(entries[i := e]) == Extra(entries) + |e.hashes| - |entries[i].hashes|
  {
    var n := |entries| - 1;
    if i == n {
      assert entries[i := e][..n] == entries[..n];
    } else {
      assert entries[i := e][..n] == entries[..n][i := e];
      ExtraUpdate(entries[..n], i, e);
    }
  }

  predicate Counted(s: Pool) {
    s.replacementsSent == Extra(s.entries)
  }

  lemma {:induction false} DeliverCounts(s: Pool, nonce: nat, answer: nat -> Answer)
    requires Counted(s)
    ensures Counted(DeliverAll(s, nonce, answer).0)
    decreases |s.entries| - s.settled
  {
    if FrontMined(s, nonce) {
      var found := Ask(s.entries[s.settled].hashes, answer);
      if found.Settled? {
        ExtraUpdate(s.entries, s.settled, DeliveredTo(s.entries[s.settled], found.hash, found.receipt));
        DeliverCounts(Deliver(s, found.hash, found.receipt), nonce, answer);
      }
    }
  }

  lemma {:induction false} ReplaceCounts(rules: Rules, s: Pool, i: nat, attempt: nat -> Attempt)
    requires Counted(s)
    ensures Counted(ReplaceFrom(rules, s, i, attempt))
    decreases |s.entries| - i
  {
    hide Replaced, Extra;
    if i < |s.entries| {
      var a := attempt(s.entries[i].tx.nonce);
      ExtraUpdate(s.entries, i, Replaced(rules, s.entries[i], a));
      ReplaceCounts(rules, Visit(rules, s, i, a), i + 1, attempt);
    }
  }

  lemma SubmitCounts(s: Pool, e: Entry)
    requires Counted(s) && |e.hashes| == 1
    ensures Counted(Submitted(s, e))
  {
    assert (s.entries + [e])[..|s.entries|] == s.entries;
  }

  /** Over every run the counter of replacements is the number of hashes beyond the first of each transaction. */
  lemma {:induction false} RunCounts(rules: Rules, steps: seq<Step>)
    ensures Run(rules, steps).replacementsSent == Extra(Run(rules, steps).entries)
  {
    hide DeliverAll, ReplaceFrom, Submitted;
    if steps != [] {
      var s, step := Run(rules, steps[..|steps| - 1]), steps[|steps| - 1];
      RunCounts(rules, steps[..|steps| - 1]);
      match step {
        case Submit(pendingNonce, draft, sendOk, now) =>
          var e := NewEntry(rules, s, pendingNonce, draft, sendOk, now);
          if e.Some? {
            SubmitCounts(s, e.value);
          }
        case Block(c) =>
          if c.nonce.Some? {
            DeliverCounts(s, c.nonce.value, c.answer);
            var t := DeliverAll(s, c.nonce.value, c.answer).0;
            ReplaceCounts(rules, t, t.settled, c.attempt);
          }
      }
    }
  }
}
