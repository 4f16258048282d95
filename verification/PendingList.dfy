/**
 * The pool's linked list on the heap: `first` and `last` pointers and `next` fields, updated in place. Each operation
 * is proved to take the step of `TransactionPool`.
 */
module PendingList {
  import opened Wrappers
  import opened Pricing
  import opened TransactionPool

  lemma {:induction false} AskAfter(hashes: seq<nat>, answer: nat -> Answer, i: nat)
    requires i <= |hashes| && forall k :: 0 <= k < i ==> answer(hashes[k]) == Missing
    ensures Ask(hashes, answer) == Ask(hashes[i..], answer)
  {
    if i > 0 {
      AskAfter(hashes[1..], answer, i - 1);
      assert hashes[1..][i - 1..] == hashes[i..];
    }
  }

  method FindReceipt(hashes: seq<nat>, answer: nat -> Answer) returns (r: Found)
    ensures r == Ask(hashes, answer)
  {
    var i := 0;
    while i < |hashes|
      invariant 0 <= i <= |hashes| && forall k :: 0 <= k < i ==> answer(hashes[k]) == Missing
    {
      AskAfter(hashes, answer, i);
      match answer(hashes[i]) {
        case Got(receipt) => return Settled(hashes[i], receipt);
        case Failed => return Broken;
        case Missing => i := i + 1;
      }
    }
    AskAfter(hashes, answer, i);
    r := NoReceipt;
  }

  class PendingTx {
    /** The position in the order of submission. */
    ghost const serial: nat
    var tx: Tx
    var hashes: seq<nat>
    var lastSubmit: int
    var listener: seq<Receipt>
    var executedHash: Option<nat>
    var next: PendingTx?

    ghost function Value(): Entry
      reads this
    {
      Entry(tx, hashes, lastSubmit, listener, executedHash)
    }

    constructor (t: Tx, now: int, ghost position: nat)
      ensures serial == position && Value() == Entry(t, [t.hash], now, [], None) && next == null
    {
      serial, tx, hashes, lastSubmit, listener, executedHash, next := position, t, [t.hash], now, [], None, null;
    }

    /** Send a replacement if it is time; the options keep the nonce. */
    method Replace(rules: Rules, a: Attempt) returns (replaced: bool)
      modifies this
      ensures Value() == Replaced(rules, old(Value()), a) && next == old(next)
      ensures |hashes| == |old(hashes)| + if replaced then 1 else 0
    {
      if !Eligible(rules.timeout, lastSubmit, a.now) {
        return false;
      }
      var quote := Reprice(rules.policy, Dynamic(tx.feeCap, tx.tip));
      if a.draft.None? || !a.sendOk {
        return false;
      }
      tx := Create(a.draft.value, tx.nonce, quote);
      hashes := hashes + [tx.hash];
      lastSubmit := a.sentAt;
      replaced := true;
    }
  }

  class TxPool {
    const rules: Rules
    var first: PendingTx?
    var last: PendingTx?
    var pendingCount: int
    var processedCount: int
    var replacementsSent: int
    /** The abstract pool, and the object of each of its entries. */
    ghost var state: Pool
    ghost var all: seq<PendingTx>

    /** Every object holds its entry's value. */
    ghost predicate Represents()
      reads this`state, this`all, all
    {
      && |all| == |state.entries|
      && forall i :: 0 <= i < |all| ==> all[i].serial == i && all[i].Value() == state.entries[i]
    }

    /** Each pending object points to the next one; the last and the settled ones point nowhere. */
    ghost predicate Linked()
      reads this`state, this`all, all
    {
      && (forall i, j :: state.settled <= i < |all| && 0 <= j < |all| && j == i + 1 ==> all[i].next == all[j])
      && (forall i :: 0 <= i < |all| && (i < state.settled || i == |all| - 1) ==> all[i].next == null)
    }

    /** `first` and `last` are null together and are the ends of the list. */
    ghost predicate Ends()
      reads this
    {
      && state.settled <= |all|
      && first == (if state.settled < |all| then all[state.settled] else null)
      && last == (if state.settled < |all| then all[|all| - 1] else null)
      && state.pendingCount == pendingCount && state.processedCount == processedCount
      && state.replacementsSent == replacementsSent
    }

    ghost predicate Valid()
      reads this, all
    {
      Represents() && Linked() && Ends() && Good(rules.policy, state)
    }

    constructor (r: Rules)
      ensures rules == r && Valid() && state == Run(r, [])
    {
      rules := r;
      first, last, pendingCount, processedCount, replacementsSent := null, null, 0, 0, 0;
      state, all := Pool([], 0, 0, 0, 0), [];
    }

    lemma LastValue()
      requires Valid()
      ensures last != null ==> state.settled < |all| == |state.entries| && last.Value() == state.entries[|all| - 1]
      ensures last == null ==> state.settled == |state.entries|
    {
    }

    /** The transaction to send, if there is a nonce, it can be created, and it is not too expensive. */
    method Prepare(pendingNonce: Option<nat>, draft: Option<Draft>, sendOk: bool, ghost now: int)
      returns (r: Option<Tx>)
      requires Valid()
      ensures NewEntry(rules, state, pendingNonce, draft, sendOk, now) ==
        if r.Some? then Some(Entry(r.value, [r.value.hash], now, [], None)) else None
    {
      LastValue();
      hide Good, Represents, Linked, Ends;
      var nonce := pendingNonce;
      if last != null {
        nonce := Some(last.tx.nonce + 1);
      }
      if nonce.None? || draft.None? {
        return None;
      }
      var tx := Create(draft.value, nonce.value, Quote(None, None, None));
      if !WithinCap(rules.policy, tx.feeCap) || !sendOk {
        return None;
      }
      r := Some(tx);
    }

    /** Start the list with a transaction. */
    method LinkFirst(p: PendingTx)
      requires Represents() && Linked() && Ends() && p.serial == |all| && p.next == null && last == null
      modifies this`first, this`last, this`pendingCount, this`all, this`state
      ensures Represents() && Linked() && Ends() && all == old(all) + [p] && state == Submitted(old(state), p.Value())
    {
      first, last := p, p;
      pendingCount := pendingCount + 1;
      state, all := Submitted(state, p.Value()), all + [p];
    }

    /** Put a transaction after the last one. */
    method LinkLast(p: PendingTx)
      requires Represents() && Linked() && Ends() && p.serial == |all| && p.next == null && last != null
      modifies this`last, this`pendingCount, this`all, this`state, last
      ensures Represents() && Linked() && Ends() && all == old(all) + [p]
      ensures state == Submitted(old(state), old(p.Value()))
    {
      assert last.serial == |all| - 1;
      last.next := p;
      last := p;
      pendingCount := pendingCount + 1;
      state, all := Submitted(state, p.Value()), all + [p];
    }

    method Link(p: PendingTx)
      requires Represents() && Linked() && Ends() && p.serial == |all| && p.next == null
      modifies this`first, this`last, this`pendingCount, this`all, this`state, all
      ensures Represents() && Linked() && Ends() && all == old(all) + [p]
      ensures state == Submitted(old(state), old(p.Value()))
    {
      assert last != null ==> last in all;
      hide Represents, Linked, Ends;
      if last == null {
        LinkFirst(p);
      } else {
        LinkLast(p);
      }
    }

    method Append(tx: Tx, now: int) returns (p: PendingTx)
      requires Represents() && Linked() && Ends()
      modifies this`first, this`last, this`pendingCount, this`all, this`state, all
      ensures Represents() && Linked() && Ends() && fresh(p) && all == old(all) + [p]
      ensures state == Submitted(old(state), Entry(tx, [tx.hash], now, [], None))
    {
      p := new PendingTx(tx, now, |all|);
      Link(p);
    }

    method Submit(pendingNonce: Option<nat>, draft: Option<Draft>, sendOk: bool, now: int)
      returns (r: Option<PendingTx>)
      requires Valid()
      modifies this, all
      ensures Valid() && state == Next(rules, old(state), TransactionPool.Submit(pendingNonce, draft, sendOk, now))
      ensures r.Some? <==> NewEntry(rules, old(state), pendingNonce, draft, sendOk, now).Some?
      ensures r.Some? ==> fresh(r.value) && all == old(all) + [r.value]
      ensures r.None? ==> all == old(all)
    {
      SubmitKeeps(rules, state, TransactionPool.Submit(pendingNonce, draft, sendOk, now));
      hide Good, Represents, Linked, Ends, NewEntry;
      var tx := Prepare(pendingNonce, draft, sendOk, now);
      if tx.None? {
        return None;
      }
      var p := Append(tx.value, now);
      r := Some(p);
    }

    /** Links that are not written stay. */
    twostate lemma SameLinks()
      requires all == old(all) && state.settled == old(state).settled && old(Linked())
      requires forall i :: 0 <= i < |all| ==> all[i].next == old(all[i].next)
      ensures Linked()
    {
    }

    method Send(p: PendingTx, hash: nat, receipt: Receipt, ghost i: nat)
      requires Represents() && Linked() && Ends() && i < |all| && p == all[i]
      modifies this`state, p
      ensures Represents() && Linked() && Ends()
      ensures state ==
        old(state).(entries := old(state).entries[i := DeliveredTo(old(state).entries[i], hash, receipt)])
    {
      hide Linked;
      assert p.serial == i;
      p.executedHash := Some(hash);
      p.listener := p.listener + [receipt];
      state := state.(entries := state.entries[i := p.Value()]);
      SameLinks();
    }

    /** Take the first transaction off the list; the last one is recognised by its nonce. */
    method Unlink()
      requires Represents() && Linked() && Ends() && state.settled < |all|
      requires first.tx.nonce == last.tx.nonce <==> state.settled == |all| - 1
      modifies this`first, this`last, this`pendingCount, this`processedCount, this`state, all[state.settled]
      ensures Represents() && Linked() && Ends()
      ensures state == old(state).(
        settled := old(state).settled + 1, pendingCount := old(state).pendingCount - 1,
        processedCount := old(state).processedCount + 1)
    {
      var p := first;
      assert p.serial == state.settled;
      pendingCount, processedCount := pendingCount - 1, processedCount + 1;
      if last.tx.nonce == p.tx.nonce {
        last := null;
      }
      first := p.next;
      p.next := null;
      state := state.(settled := state.settled + 1, pendingCount := pendingCount, processedCount := processedCount);
    }

    /** The last transaction is recognised by its nonce. */
    lemma LastByNonce()
      requires Valid() && state.settled < |all|
      ensures first == all[state.settled] && last == all[|all| - 1]
      ensures first.tx.nonce == last.tx.nonce <==> state.settled == |all| - 1
    {
      assert first.Value() == state.entries[state.settled] && last.Value() == state.entries[|all| - 1];
    }

    /** Send the receipt to the first listener, whose channel is still empty, and take the transaction off the list. */
    method DeliverFirst(hash: nat, receipt: Receipt)
      requires Valid() && state.settled < |all| && hash in state.entries[state.settled].hashes
      modifies this`first, this`last, this`pendingCount, this`processedCount, this`state, all[state.settled]
      ensures Valid() && state == Deliver(old(state), hash, receipt)
    {
      DeliverKeeps(rules.policy, state, hash, receipt);
      LastByNonce();
      hide Good;
      Send(first, hash, receipt, state.settled);
      Unlink();
    }

    method ReplaceAt(p: PendingTx, a: Attempt, ghost i: nat)
      requires Represents() && Linked() && Ends() && i < |all| && p == all[i]
      modifies this`replacementsSent, this`state, p
      ensures Represents() && Linked() && Ends() && state == Visit(rules, old(state), i, a)
      ensures p.next == old(p.next)
    {
      hide Replaced, Linked;
      assert p.serial == i;
      var replaced := p.Replace(rules, a);
      if replaced {
        replacementsSent := replacementsSent + 1;
      }
      state := Visit(rules, state, i, a);
      SameLinks();
    }

    lemma NextAt(i: nat)
      requires Linked() && state.settled <= i < |all|
      ensures all[i].next == if i + 1 < |all| then all[i + 1] else null
    {
    }

    /** Visit one pending transaction; it keeps its place. */
    method VisitOne(p: PendingTx, a: Attempt, ghost i: nat) returns (next: PendingTx?)
      requires Valid() && state.settled <= i < |all| && p == all[i]
      modifies this`replacementsSent, this`state, p
      ensures Valid() && state == Visit(rules, old(state), i, a)
      ensures next == if i + 1 < |all| then all[i + 1] else null
    {
      VisitKeeps(rules, state, i, a);
      NextAt(i);
      hide Good, Represents, Linked, Ends, Visit;
      ReplaceAt(p, a, i);
      next := p.next;
    }

    lemma Front()
      requires Valid()
      ensures state.settled <= |all| == |state.entries|
      ensures first == if state.settled < |all| then all[state.settled] else null
      ensures first != null ==> first.Value() == state.entries[state.settled]
    {
    }

    lemma ValueAt(i: nat)
      requires Valid() && i < |all|
      ensures |all| == |state.entries| && all[i].Value() == state.entries[i]
    {
    }

    /** The receipt loop; a turn without a receipt or an error would leave everything as it is. */
    method DeliverReceipts(nonce: nat, answer: nat -> Answer) returns (outcome: Outcome)
      requires Valid()
      modifies this`first, this`last, this`pendingCount, this`processedCount, this`state, all
      ensures Valid() && (state, outcome) == DeliverAll(old(state), nonce, answer)
    {
      hide Valid;
      Front();
      while first != null && first.tx.nonce < nonce
        invariant all == old(all) && Valid() && state.settled <= |all| == |state.entries|
        invariant first == if state.settled < |all| then all[state.settled] else null
        invariant first != null ==> first.Value() == state.entries[state.settled]
        invariant DeliverAll(state, nonce, answer) == DeliverAll(old(state), nonce, answer)
        decreases |all| - state.settled
      {
        var found := FindReceipt(first.hashes, answer);
        match found {
          case NoReceipt => return Spinning;
          case Broken => return Aborted;
          case Settled(hash, receipt) =>
            AskFindsNothing(first.hashes, answer);
            DeliverFirst(hash, receipt);
            Front();
        }
      }
      outcome := Finished;
    }

    /** Visit every pending transaction once, from the front; all keep their places. */
    method ReplaceEligible(attempt: nat -> Attempt)
      requires Valid()
      modifies this`replacementsSent, this`state, all
      ensures Valid() && state == ReplaceFrom(rules, old(state), old(state).settled, attempt)
    {
      hide Valid, Replaced;
      Front();
      var p := first;
      ghost var i := state.settled;
      while p != null
        invariant all == old(all) && Valid() && state.settled <= i <= |all| == |state.entries|
        invariant p == if i < |all| then all[i] else null
        invariant ReplaceFrom(rules, state, i, attempt) == ReplaceFrom(rules, old(state), old(state).settled, attempt)
        decreases |all| - i
      {
        ValueAt(i);
        p := VisitOne(p, attempt(p.tx.nonce), i);
        i := i + 1;
      }
    }

    /** A new block: deliver what was mined, then replace what is stuck. */
    method OnBlock(c: ChainAnswers) returns (outcome: Outcome)
      requires Valid()
      modifies this, all
      ensures Valid() && all == old(all) && (state, outcome) == TransactionPool.OnBlock(rules, old(state), c)
    {
      hide Valid, DeliverAll, ReplaceFrom;
      Front();
      if first == null {
        return Finished;
      }
      if c.nonce.None? {
        return Aborted;
      }
      outcome := DeliverReceipts(c.nonce.value, c.answer);
      if outcome.Finished? && c.headOk {
        ReplaceEligible(c.attempt);
      }
    }
  }
}
