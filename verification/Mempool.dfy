/** The mempool: pending transactions, eviction, and the assembly of a block's transaction list. */
module Mempools {
  import opened Words
  import opened Types
  import opened Ledger
  import opened Invariant
  import opened Executors
  import opened WorldStates
  import opened Speculation
  import opened Reaping
  import opened Hashes

  /** Copies of accounts, filled lazily, over an untouched base state. */
  class SpeculativeState {
    const base: WorldState
    var accounts: map<Address, Account>

    constructor (base: WorldState)
      ensures this.base == base && accounts == map[]
    {
      this.base := base;
      accounts := map[];
    }

    /** The accounts as the speculative state shows them. */
    function Seen(): map<Address, Account>
      reads this, base
    {
      base.accounts + accounts
    }

    /** Copies keep the names of their originals. */
    ghost predicate Valid()
      reads this, base
    {
      && NamesAgree(base.View())
      && forall a :: a in accounts && accounts[a].name != [] ==>
          a in base.accounts && base.accounts[a].name == accounts[a].name
    }

    /** The names that resolve: those of copied accounts first, then those of the base state. */
    function Names(): set<Bytes>
      reads this, base
    {
      (set a | a in accounts && accounts[a].name != [] :: accounts[a].name)
      + (set n | n in base.nameIndex && base.nameIndex[n] in base.accounts)
    }

    function Look(): Reader
      reads this, base
    {
      Reader(Seen(), base.posts, base.postStakes, Names())
    }

    /** Validation sees the current accounts over the base state: copying adds no name that was not there. */
    lemma LookIsSpecReader()
      requires Valid()
      ensures Look() == SpecReader(base.View(), Seen(), ReaderOf(base.View()).names)
    {
      forall a | a in accounts && accounts[a].name != []
        ensures accounts[a].name in ReaderOf(base.View()).names
      {
        assert NameIndexed(base.accounts, base.nameIndex, a);
      }
    }

    /** Looks an account up, keeping a private copy. What the state shows does not change. */
    method GetAccount(a: Address) returns (found: bool)
      requires Valid()
      modifies this
      ensures Valid()
      ensures found <==> a in Seen()
      ensures found ==> a in accounts
      ensures Seen() == old(Seen())
    {
      if a !in accounts && a in base.accounts {
        accounts := accounts[a := base.accounts[a]];
        assert base.accounts + accounts == old(base.accounts + accounts);
      }
      found := a in accounts;
    }

    /** Stores an account copy that keeps its name. */
    method Put(a: Address, acct: Account)
      requires Valid() && (acct.name != [] ==> a in base.accounts && base.accounts[a].name == acct.name)
      modifies this
      ensures Valid() && a in accounts
      ensures Seen() == old(Seen())[a := acct]
    {
      accounts := accounts[a := acct];
      assert base.accounts + accounts == old(base.accounts + accounts)[a := acct];
    }

    /** Books an accepted transaction: nonce, balance and, for a transfer, the recipient's credit. */
    method ApplyTx(tx: Tx)
      requires Valid() && tx.sender in accounts
      modifies this
      ensures Valid()
      ensures Seen() == SpecApply(old(Seen()), tx)
    {
      Charge(tx.sender, tx.amount);
      if tx.kind == TX_TRANSFER {
        CreditCopy(tx.recipient, tx.amount);
      }
    }

    method Charge(a: Address, x: Uint64)
      requires Valid() && a in accounts
      modifies this
      ensures Valid() && a in old(Seen()) && Seen() == SpecCharge(old(Seen()), a, x)
    {
      var acct := accounts[a];
      Put(a, acct.(nonce := Wrap(acct.nonce + 1), balance := Wrap(acct.balance - x)));
    }

    method CreditCopy(a: Address, x: Uint64)
      requires Valid()
      modifies this
      ensures Valid() && Seen() == SpecCredit(old(Seen()), a, x)
    {
      var acct := if a in accounts then accounts[a] else if a in base.accounts then base.accounts[a] else NEW_ACCOUNT;
      Put(a, acct.(balance := Wrap(acct.balance + x)));
    }
  }

  datatype Queue = Queue(address: Address, txs: seq<Tx>, idx: nat)

  /** One queue per sender, each sorted by nonce and consisting of pooled transactions. */
  ghost predicate WellQueued(queues: seq<Queue>, pool: set<Tx>) {
    && OnePerSender(queues)
    && (forall i :: 0 <= i < |queues| ==> queues[i].idx <= |queues[i].txs|)
    && (forall i, j :: 0 <= i < |queues| && 0 <= j < |queues[i].txs| ==>
          queues[i].txs[j] in pool && queues[i].txs[j].sender == queues[i].address)
    && (forall i, j, k :: 0 <= i < |queues| && 0 <= j < k < |queues[i].txs| ==>
          queues[i].txs[j].nonce <= queues[i].txs[k].nonce)
  }

  ghost predicate OnePerSender(queues: seq<Queue>) {
    forall i, j :: 0 <= i < j < |queues| ==> queues[i].address != queues[j].address
  }

  function Remaining(queues: seq<Queue>): int {
    if queues == [] then 0 else
      var last := queues[|queues| - 1];
      Remaining(queues[..|queues| - 1]) + |last.txs| - last.idx
  }

  lemma {:induction false} RemainingStep(queues: seq<Queue>, i: nat)
    requires i < |queues|
    ensures Remaining(queues[i := queues[i].(idx := queues[i].idx + 1)]) == Remaining(queues) - 1
  {
    var n := |queues| - 1;
    var next := queues[i := queues[i].(idx := queues[i].idx + 1)];
    if i == n {
      assert next[..n] == queues[..n];
    } else {
      RemainingStep(queues[..n], i);
      assert next[..n] == queues[..n][i := queues[..n][i].(idx := queues[..n][i].idx + 1)];
    }
  }

  lemma {:induction false} RemainingNonNegative(queues: seq<Queue>)
    requires forall i :: 0 <= i < |queues| ==> queues[i].idx <= |queues[i].txs|
    ensures Remaining(queues) >= 0
  {
    if queues != [] {
      RemainingNonNegative(queues[..|queues| - 1]);
    }
  }

  /** The head of a queue is refused, or there is none left. */
  predicate Stuck(p: Params, r: Reader, q: Queue) {
    q.idx >= |q.txs| || !ValidTx(p, r, q.txs[q.idx])
  }

  /** None of the first n queues has an acceptable head. */
  ghost predicate HeadsStuck(p: Params, s: State, seen: map<Address, Account>, queues: seq<Queue>, n: nat)
    requires n <= |queues|
  {
    forall j :: 0 <= j < n ==> HeadStuck(p, s, seen, queues[j])
  }

  ghost predicate HeadStuck(p: Params, s: State, seen: map<Address, Account>, q: Queue) {
    Stuck(p, SpecReader(s, seen, ReaderOf(s).names), q)
  }

  lemma StuckNext(p: Params, s: State, seen: map<Address, Account>, queues: seq<Queue>, n: nat)
    requires n < |queues| && HeadsStuck(p, s, seen, queues, n) && HeadStuck(p, s, seen, queues[n])
    ensures HeadsStuck(p, s, seen, queues, n + 1)
  {}

  // ---------- Grouping ----------

  /** Where a transaction goes among those of its sender: behind all with a smaller or equal nonce. */
  method InsertByNonce(txs: seq<Tx>, tx: Tx) returns (out: seq<Tx>)
    requires forall j, k :: 0 <= j < k < |txs| ==> txs[j].nonce <= txs[k].nonce
    ensures |out| == |txs| + 1
    ensures forall x :: x in out <==> x in txs || x == tx
    ensures forall j, k :: 0 <= j < k < |out| ==> out[j].nonce <= out[k].nonce
  {
    var i := |txs|;
    while i > 0 && tx.nonce < txs[i - 1].nonce
      invariant 0 <= i <= |txs|
      invariant forall k :: i <= k < |txs| ==> tx.nonce < txs[k].nonce
    {
      i := i - 1;
    }
    out := txs[..i] + [tx] + txs[i..];
    InsertedMembers(txs, tx, i);
    InsertedOrder(txs, tx, i);
  }

  lemma InsertedMembers(txs: seq<Tx>, tx: Tx, i: nat)
    requires i <= |txs|
    ensures forall x :: x in txs[..i] + [tx] + txs[i..] <==> x in txs || x == tx
  {
    assert txs == txs[..i] + txs[i..];
    assert forall x :: x in txs <==> x in txs[..i] || x in txs[i..];
  }

  lemma InsertedOrder(txs: seq<Tx>, tx: Tx, i: nat)
    requires i <= |txs| && forall j, k :: 0 <= j < k < |txs| ==> txs[j].nonce <= txs[k].nonce
    requires i > 0 ==> txs[i - 1].nonce <= tx.nonce
    requires forall k :: i <= k < |txs| ==> tx.nonce < txs[k].nonce
    ensures var out := txs[..i] + [tx] + txs[i..];
            forall j, k :: 0 <= j < k < |out| ==> out[j].nonce <= out[k].nonce
  {
    var out := txs[..i] + [tx] + txs[i..];
    forall j, k | 0 <= j < k < |out|
      ensures out[j].nonce <= out[k].nonce
    {
      assert j < i ==> out[j] == txs[j];
      assert k < i ==> out[k] == txs[k];
      assert j > i ==> out[j] == txs[j - 1];
      assert k > i ==> out[k] == txs[k - 1];
    }
  }

  method AddToQueues(queues: seq<Queue>, tx: Tx, ghost pool: set<Tx>) returns (out: seq<Queue>)
    requires WellQueued(queues, pool) && forall i :: 0 <= i < |queues| ==> queues[i].idx == 0
    ensures WellQueued(out, pool + {tx}) && forall i :: 0 <= i < |out| ==> out[i].idx == 0
    ensures Remaining(out) == Remaining(queues) + 1
    ensures forall x :: Queued(queues, x) || x == tx ==> Queued(out, x)
  {
    for i := 0 to |queues|
      invariant forall j :: 0 <= j < i ==> queues[j].address != tx.sender
    {
      if queues[i].address == tx.sender {
        var txs := InsertByNonce(queues[i].txs, tx);
        LongerQueue(queues, i, txs, tx, pool);
        return queues[i := queues[i].(txs := txs)];
      }
    }
    NewQueue(queues, tx, pool);
    return queues + [Queue(tx.sender, [tx], 0)];
  }

  lemma LongerQueue(queues: seq<Queue>, i: nat, txs: seq<Tx>, tx: Tx, pool: set<Tx>)
    requires WellQueued(queues, pool) && i < |queues| && queues[i].address == tx.sender
    requires |txs| == |queues[i].txs| + 1 && forall x :: x in txs <==> x in queues[i].txs || x == tx
    requires forall j, k :: 0 <= j < k < |txs| ==> txs[j].nonce <= txs[k].nonce
    ensures var out := queues[i := queues[i].(txs := txs)];
            && WellQueued(out, pool + {tx}) && Remaining(out) == Remaining(queues) + 1
            && forall x :: Queued(queues, x) || x == tx ==> Queued(out, x)
  {
    var out := queues[i := queues[i].(txs := txs)];
    RemainingOneMore(queues, i, txs);
    forall j | 0 <= j < |txs|
      ensures txs[j] in pool + {tx} && txs[j].sender == queues[i].address
    {
      assert txs[j] in queues[i].txs || txs[j] == tx;
    }
    forall x | Queued(queues, x) || x == tx
      ensures Queued(out, x)
    {
      if x == tx || x in queues[i].txs {
        assert x in out[i].txs;
      } else {
        var j :| 0 <= j < |queues| && x in queues[j].txs;
        assert x in out[j].txs;
      }
    }
  }

  lemma NewQueue(queues: seq<Queue>, tx: Tx, pool: set<Tx>)
    requires WellQueued(queues, pool) && forall j :: 0 <= j < |queues| ==> queues[j].address != tx.sender
    ensures var out := queues + [Queue(tx.sender, [tx], 0)];
            && WellQueued(out, pool + {tx}) && Remaining(out) == Remaining(queues) + 1
            && forall x :: Queued(queues, x) || x == tx ==> Queued(out, x)
  {
    var q := Queue(tx.sender, [tx], 0);
    NewQueueWell(queues, q, pool, pool + {tx});
    assert (queues + [q])[..|queues|] == queues;
    forall x | Queued(queues, x) || x == tx
      ensures Queued(queues + [q], x)
    {
      NewQueueHolds(queues, q, x);
    }
  }

  lemma NewQueueHolds(queues: seq<Queue>, q: Queue, x: Tx)
    requires Queued(queues, x) || x in q.txs
    ensures Queued(queues + [q], x)
  {
    var out := queues + [q];
    if x in q.txs {
      assert x in out[|queues|].txs;
    } else {
      var j :| 0 <= j < |queues| && x in queues[j].txs;
      assert x in out[j].txs;
    }
  }

  lemma NewQueueWell(queues: seq<Queue>, q: Queue, pool: set<Tx>, more: set<Tx>)
    requires WellQueued(queues, pool) && WellQueued([q], more) && pool <= more
    requires forall j :: 0 <= j < |queues| ==> queues[j].address != q.address
    ensures WellQueued(queues + [q], more)
  {
    var out := queues + [q];
    assert [q][0] == q;
    assert forall i :: 0 <= i < |out| ==> out[i] == if i < |queues| then queues[i] else q;
  }

  ghost predicate Queued(queues: seq<Queue>, tx: Tx) {
    exists i :: 0 <= i < |queues| && tx in queues[i].txs
  }

  lemma {:induction false} RemainingOneMore(queues: seq<Queue>, i: nat, txs: seq<Tx>)
    requires i < |queues| && |txs| == |queues[i].txs| + 1
    ensures Remaining(queues[i := queues[i].(txs := txs)]) == Remaining(queues) + 1
  {
    var n := |queues| - 1;
    var next := queues[i := queues[i].(txs := txs)];
    if i == n {
      assert next[..n] == queues[..n];
    } else {
      RemainingOneMore(queues[..n], i, txs);
      assert next[..n] == queues[..n][i := queues[..n][i].(txs := txs)];
    }
  }

  ghost function PoolTxs(pool: map<Digest, Tx>): set<Tx> {
    set k | k in pool :: pool[k]
  }

  /** Groups the pool by sender, each group in nonce order; transactions and groups come in any order. */
  method GroupBySender(pool: map<Digest, Tx>) returns (queues: seq<Queue>)
    ensures WellQueued(queues, PoolTxs(pool)) && forall i :: 0 <= i < |queues| ==> queues[i].idx == 0
    ensures Remaining(queues) == |pool|
    ensures forall k :: k in pool ==> Queued(queues, pool[k])
  {
    queues := [];
    var todo: set<Digest> := pool.Keys;
    ghost var taken: set<Tx> := {};
    while todo != {}
      invariant todo <= pool.Keys
      invariant taken <= PoolTxs(pool)
      invariant WellQueued(queues, taken) && forall i :: 0 <= i < |queues| ==> queues[i].idx == 0
      invariant Remaining(queues) + |todo| == |pool|
      invariant forall k :: k in pool && k !in todo ==> Queued(queues, pool[k])
      decreases todo
    {
      var k: Digest :| k in todo;
      queues := AddToQueues(queues, pool[k], taken);
      taken := taken + {pool[k]};
      todo := todo - {k};
    }
    assert forall i, j :: 0 <= i < |queues| && 0 <= j < |queues[i].txs| ==> queues[i].txs[j] in taken;
  }

  // ---------- Reaping ----------

  ghost predicate AllSimple(pool: map<Digest, Tx>) {
    forall k :: k in pool ==> Simple(pool[k])
  }

  /** What assembling a block from this state and pool relies on. */
  ghost predicate CanAssemble(p: Params, s: State, pool: map<Digest, Tx>) {
    Sound(p, s) && GoodParams(p) && PostIdsDistinct(p) && |pool| < TWO64 && NonceRoom(s, |pool|)
  }

  /** The transactions of one sender, in order. */
  function From(txs: seq<Tx>, a: Address): seq<Tx> {
    if txs == [] then [] else
      var last := txs[|txs| - 1];
      From(txs[..|txs| - 1], a) + if last.sender == a then [last] else []
  }

  lemma FromNext(txs: seq<Tx>, tx: Tx, a: Address)
    ensures From(txs + [tx], a) == if tx.sender == a then From(txs, a) + [tx] else From(txs, a)
  {
    assert (txs + [tx])[..|txs|] == txs;
    assert From(txs, a) + [] == From(txs, a);
  }

  /** What has been chosen from a sender is the front part of its queue. */
  ghost predicate TakenInOrder(queues: seq<Queue>, chosen: seq<Tx>) {
    forall i {:trigger TakenFrom(queues[i], chosen)} :: 0 <= i < |queues| ==> TakenFrom(queues[i], chosen)
  }

  ghost predicate TakenFrom(q: Queue, chosen: seq<Tx>) {
    q.idx <= |q.txs| && From(chosen, q.address) == q.txs[..q.idx]
  }

  ghost predicate AllQueued(queues: seq<Queue>, pool: map<Digest, Tx>) {
    forall k :: k in pool ==> Queued(queues, pool[k])
  }

  /** Every pooled transaction is in its sender's queue, each queue is chosen from the front, and nothing else is
      chosen. */
  ghost predicate Assembled(queues: seq<Queue>, chosen: seq<Tx>, pool: map<Digest, Tx>) {
    && WellQueued(queues, PoolTxs(pool)) && AllQueued(queues, pool)
    && |chosen| + Remaining(queues) == |pool|
    && TakenInOrder(queues, chosen)
    && forall i :: 0 <= i < |chosen| ==> chosen[i] in PoolTxs(pool)
  }

  /** What a reaped list is, whatever order the pool, the senders and equal nonces came in: chosen from the front of
      each sender's queue, accepted transaction by transaction by the speculative state, gap-free in every sender's
      nonces, and short of the limit only when no queue has an acceptable head left. */
  ghost predicate Reaped(p: Params, s: State, pool: map<Digest, Tx>, maxTx: int, chosen: seq<Tx>,
                         seen: map<Address, Account>, queues: seq<Queue>)
  {
    && |chosen| <= (if maxTx > 0 then maxTx else 0)
    && Assembled(queues, chosen, pool) && SpecRun(p, s, chosen) == Some(seen)
    && Continues(s.accounts, chosen)
    && (|chosen| >= maxTx || HeadsStuck(p, s, seen, queues, |queues|))
  }

  lemma AssembledNext(queues: seq<Queue>, chosen: seq<Tx>, pool: map<Digest, Tx>, i: nat)
    requires Assembled(queues, chosen, pool) && i < |queues| && queues[i].idx < |queues[i].txs|
    ensures var q := queues[i];
            && Assembled(queues[i := q.(idx := q.idx + 1)], chosen + [q.txs[q.idx]], pool)
            && Remaining(queues[i := q.(idx := q.idx + 1)]) == Remaining(queues) - 1
  {
    RemainingStep(queues, i);
    NextQueues(queues, i, pool);
    NextTaken(queues, chosen, i);
    NextQueued(queues, i, pool);
  }

  lemma NextTaken(queues: seq<Queue>, chosen: seq<Tx>, i: nat)
    requires OnePerSender(queues) && TakenInOrder(queues, chosen) && i < |queues| && queues[i].idx < |queues[i].txs|
    requires queues[i].txs[queues[i].idx].sender == queues[i].address
    ensures TakenInOrder(queues[i := queues[i].(idx := queues[i].idx + 1)], chosen + [queues[i].txs[queues[i].idx]])
  {
    var tx := queues[i].txs[queues[i].idx];
    var next, more := queues[i := queues[i].(idx := queues[i].idx + 1)], chosen + [tx];
    forall j | 0 <= j < |next|
      ensures TakenFrom(next[j], more)
    {
      assert TakenFrom(queues[j], chosen);
      FromNext(chosen, tx, queues[j].address);
      assert j != i ==> queues[j].address != queues[i].address;
    }
  }

  lemma NextQueued(queues: seq<Queue>, i: nat, pool: map<Digest, Tx>)
    requires AllQueued(queues, pool) && i < |queues|
    ensures AllQueued(queues[i := queues[i].(idx := queues[i].idx + 1)], pool)
  {
    var next := queues[i := queues[i].(idx := queues[i].idx + 1)];
    forall k | k in pool
      ensures Queued(next, pool[k])
    {
      assert Queued(queues, pool[k]);
      var j :| 0 <= j < |queues| && pool[k] in queues[j].txs;
      assert pool[k] in next[j].txs;
    }
  }

  lemma NextQueues(queues: seq<Queue>, i: nat, pool: map<Digest, Tx>)
    requires WellQueued(queues, PoolTxs(pool)) && i < |queues| && queues[i].idx < |queues[i].txs|
    ensures WellQueued(queues[i := queues[i].(idx := queues[i].idx + 1)], PoolTxs(pool))
  {
    var next := queues[i := queues[i].(idx := queues[i].idx + 1)];
    assert forall j :: 0 <= j < |next| ==> next[j].txs == queues[j].txs && next[j].address == queues[j].address;
  }

  lemma NothingTaken(queues: seq<Queue>)
    requires forall i :: 0 <= i < |queues| ==> queues[i].idx == 0
    ensures TakenInOrder(queues, [])
  {
    forall i | 0 <= i < |queues|
      ensures TakenFrom(queues[i], [])
    {
      assert queues[i].txs[..0] == [];
    }
  }

  lemma AssembledSize(queues: seq<Queue>, chosen: seq<Tx>, pool: map<Digest, Tx>)
    requires Assembled(queues, chosen, pool)
    ensures |chosen| <= |pool|
  {
    RemainingNonNegative(queues);
  }

  lemma SimplePoolSimpleChoice(queues: seq<Queue>, chosen: seq<Tx>, pool: map<Digest, Tx>)
    requires Assembled(queues, chosen, pool) && AllSimple(pool)
    ensures forall i :: 0 <= i < |chosen| ==> Simple(chosen[i])
  {}

  /** What the pool asks of a transaction in the state it is submitted in. */
  predicate NotHopeless(accounts: map<Address, Account>, tx: Tx) {
    && tx.sender in accounts
    && !(tx.amount > 0 && accounts[tx.sender].balance < tx.amount)
    && tx.nonce > accounts[tx.sender].nonce
  }

  /** What the pool admits in a given state, its size and repeats aside. */
  predicate Admissible(p: Params, accounts: map<Address, Account>, tx: Tx) {
    p.addressOf(tx.pubKey) == tx.sender && p.txSigned(tx) && NotHopeless(accounts, tx)
  }

  class Mempool {
    var txs: map<Digest, Tx>
    const maxSize: int

    constructor (maxSize: int)
      ensures txs == map[] && this.maxSize == maxSize
    {
      txs := map[];
      this.maxSize := maxSize;
    }

    /** Accepts a transaction that is signed, new by its hash, and not hopeless in the given state. */
    method Add(p: Params, tx: Tx, ws: WorldState?) returns (ok: bool)
      modifies this
      ensures ok <==>
        && p.addressOf(tx.pubKey) == tx.sender && p.txSigned(tx)
        && (ws != null ==> NotHopeless(ws.accounts, tx))
        && TxHash(p, tx) !in old(txs) && |old(txs)| < maxSize
      ensures txs == if ok then old(txs)[TxHash(p, tx) := tx] else old(txs)
    {
      if p.addressOf(tx.pubKey) != tx.sender || !p.txSigned(tx) {
        return false;
      }
      if ws != null {
        if tx.sender !in ws.accounts {
          return false;
        }
        if tx.amount > 0 && ws.accounts[tx.sender].balance < tx.amount {
          return false;
        }
        if tx.nonce <= ws.accounts[tx.sender].nonce {
          return false;
        }
      }
      var hash := HashTx(p, tx);
      if hash in txs || |txs| >= maxSize {
        return false;
      }
      txs := txs[hash := tx];
      return true;
    }

    /** Drops the transactions of a committed block. */
    method Remove(hashes: seq<Digest>)
      modifies this
      ensures txs == map k | k in old(txs) && k !in hashes :: old(txs)[k]
    {
      for i := 0 to |hashes|
        invariant txs == map k | k in old(txs) && k !in hashes[..i] :: old(txs)[k]
      {
        txs := txs - {hashes[i]};
        assert hashes[..i + 1] == hashes[..i] + [hashes[i]];
      }
      assert hashes[..|hashes|] == hashes;
    }

    /** Drops everything that can no longer execute: unknown sender or used nonce. */
    method EvictStale(ws: WorldState)
      modifies this
      ensures txs == map k | k in old(txs) && old(txs)[k].sender in ws.accounts
                             && old(txs)[k].nonce > ws.accounts[old(txs)[k].sender].nonce :: old(txs)[k]
    {
      var todo := txs.Keys;
      while todo != {}
        invariant todo <= old(txs).Keys
        invariant txs == map k | k in old(txs) && (k in todo || (old(txs)[k].sender in ws.accounts
                                  && old(txs)[k].nonce > ws.accounts[old(txs)[k].sender].nonce)) :: old(txs)[k]
        decreases todo
      {
        var k: Digest :| k in todo;
        var tx := txs[k];
        if tx.sender !in ws.accounts || tx.nonce <= ws.accounts[tx.sender].nonce {
          txs := txs - {k};
        }
        todo := todo - {k};
      }
    }

    /** Assembles a transaction list for the next block. Whatever order the pool, the senders and equal nonces come
        in: the nonces of each sender continue without a gap; the assembly stops only at the limit or when no queue
        has an acceptable head; and a pool of transfers, posts, boosts and stakes yields a list that executes in a
        block at any height and time. */
    method ReapForBlock(p: Params, ws: WorldState, maxTx: int)
      returns (chosen: seq<Tx>, ghost seen: map<Address, Account>, ghost queues: seq<Queue>)
      requires CanAssemble(p, ws.View(), txs)
      ensures Reaped(p, ws.View(), txs, maxTx, chosen, seen, queues)
      ensures AllSimple(txs) ==> forall h: Uint64, t: Int64 :: Executes(p, ws.View(), h, t, seen, chosen)
      ensures ws.View() == old(ws.View()) && txs == old(txs)
    {
      chosen, seen, queues := Assemble(p, ws, maxTx);
      SpecNonces(p, ws.View(), chosen);
      if AllSimple(txs) {
        SimplePoolSimpleChoice(queues, chosen, txs);
        AssembledSize(queues, chosen, txs);
        forall h: Uint64, t: Int64
          ensures Executes(p, ws.View(), h, t, seen, chosen)
        {
          SpecExecutes(p, ws.View(), chosen, h, t, |txs|);
        }
      }
    }

    /** Rounds over the queues until nothing changes or the limit is reached. */
    method Assemble(p: Params, ws: WorldState, maxTx: int)
      returns (chosen: seq<Tx>, ghost seen: map<Address, Account>, ghost queues: seq<Queue>)
      requires NamesAgree(ws.View())
      ensures |chosen| <= (if maxTx > 0 then maxTx else 0)
      ensures Assembled(queues, chosen, txs) && SpecRun(p, ws.View(), chosen) == Some(seen)
      ensures |chosen| >= maxTx || HeadsStuck(p, ws.View(), seen, queues, |queues|)
      ensures ws.View() == old(ws.View()) && txs == old(txs)
    {
      ghost var s := ws.View();
      var qs := OpenQueues();
      var spec := new SpeculativeState(ws);
      assert ws.accounts + map[] == ws.accounts;
      SpecRunUnfold(p, s, []);
      chosen := [];
      var changed := true;
      while changed && |chosen| < maxTx
        invariant spec.Valid() && spec.base == ws && fresh(spec)
        invariant Assembled(qs, chosen, txs) && SpecRun(p, s, chosen) == Some(spec.Seen())
        invariant |chosen| <= (if maxTx > 0 then maxTx else 0)
        invariant !changed ==> HeadsStuck(p, s, spec.Seen(), qs, |qs|)
        decreases Remaining(qs), changed
      {
        qs, chosen, changed := ReapRound(p, ws, spec, maxTx, qs, chosen);
      }
      seen, queues := spec.Seen(), qs;
    }

    method OpenQueues() returns (qs: seq<Queue>)
      ensures Assembled(qs, [], txs)
    {
      qs := GroupBySender(txs);
      NothingTaken(qs);
    }

    /** One round over all queues, taking at most one transaction from each. */
    method ReapRound(p: Params, ws: WorldState, spec: SpeculativeState, maxTx: int, qs: seq<Queue>, chosen: seq<Tx>)
      returns (qs': seq<Queue>, chosen': seq<Tx>, changed: bool)
      requires spec.Valid() && spec.base == ws && |chosen| < maxTx
      requires Assembled(qs, chosen, txs) && SpecRun(p, ws.View(), chosen) == Some(spec.Seen())
      modifies spec
      ensures spec.Valid() && Assembled(qs', chosen', txs) && SpecRun(p, ws.View(), chosen') == Some(spec.Seen())
      ensures |chosen'| <= maxTx
      ensures changed ==> Remaining(qs') < Remaining(qs)
      ensures !changed ==> Remaining(qs') == Remaining(qs)
      ensures Remaining(qs') >= 0
      ensures !changed ==> HeadsStuck(p, ws.View(), spec.Seen(), qs', |qs'|)
    {
      ghost var s := ws.View();
      ghost var seen := spec.Seen();
      qs', chosen', changed := qs, chosen, false;
      var i := 0;
      while i < |qs'| && |chosen'| < maxTx
        invariant spec.Valid() && i <= |qs'| && |qs'| == |qs|
        invariant Assembled(qs', chosen', txs) && SpecRun(p, s, chosen') == Some(spec.Seen())
        invariant |chosen'| <= maxTx
        invariant changed ==> Remaining(qs') < Remaining(qs)
        invariant !changed ==> qs' == qs && |chosen'| < maxTx && spec.Seen() == seen
        invariant !changed ==> HeadsStuck(p, s, seen, qs, i)
      {
        var took: bool;
        qs', chosen', took := Consider(p, ws, spec, qs', chosen', i);
        changed := changed || took;
        if !changed {
          StuckNext(p, s, seen, qs, i);
        }
        i := i + 1;
      }
      RemainingNonNegative(qs');
    }

    /** Takes the head of queue i if the speculative state accepts it. */
    method Consider(p: Params, ws: WorldState, spec: SpeculativeState, qs: seq<Queue>, chosen: seq<Tx>, i: nat)
      returns (qs': seq<Queue>, chosen': seq<Tx>, took: bool)
      requires spec.Valid() && spec.base == ws && i < |qs|
      requires Assembled(qs, chosen, txs) && SpecRun(p, ws.View(), chosen) == Some(spec.Seen())
      modifies spec
      ensures spec.Valid() && Assembled(qs', chosen', txs) && SpecRun(p, ws.View(), chosen') == Some(spec.Seen())
      ensures |qs'| == |qs|
      ensures took ==> Remaining(qs') == Remaining(qs) - 1 && |chosen'| == |chosen| + 1
      ensures !took ==> qs' == qs && chosen' == chosen && spec.Seen() == old(spec.Seen())
      ensures !took ==> HeadStuck(p, ws.View(), spec.Seen(), qs[i])
    {
      qs', chosen', took := qs, chosen, false;
      var q := qs[i];
      if q.idx < |q.txs| {
        var tx := q.txs[q.idx];
        took := TryHead(p, ws, spec, tx, chosen);
        if took {
          qs', chosen' := TakeHead(qs, chosen, i);
        }
      }
    }

    method TakeHead(qs: seq<Queue>, chosen: seq<Tx>, i: nat) returns (qs': seq<Queue>, chosen': seq<Tx>)
      requires Assembled(qs, chosen, txs) && i < |qs| && qs[i].idx < |qs[i].txs|
      ensures Assembled(qs', chosen', txs) && |qs'| == |qs|
      ensures chosen' == chosen + [qs[i].txs[qs[i].idx]] && Remaining(qs') == Remaining(qs) - 1
    {
      AssembledNext(qs, chosen, txs, i);
      return qs[i := qs[i].(idx := qs[i].idx + 1)], chosen + [qs[i].txs[qs[i].idx]];
    }

    method TryHead(p: Params, ws: WorldState, spec: SpeculativeState, tx: Tx, ghost chosen: seq<Tx>) returns (ok: bool)
      requires spec.Valid() && spec.base == ws && SpecRun(p, ws.View(), chosen) == Some(spec.Seen())
      modifies spec
      ensures spec.Valid()
      ensures ok <==> ValidTx(p, SpecReader(ws.View(), old(spec.Seen()), ReaderOf(ws.View()).names), tx)
      ensures ok ==> SpecRun(p, ws.View(), chosen + [tx]) == Some(spec.Seen())
      ensures !ok ==> spec.Seen() == old(spec.Seen())
    {
      var known := spec.GetAccount(tx.sender);
      spec.LookIsSpecReader();
      ok := ValidTx(p, spec.Look(), tx);
      if ok {
        SpecRunNext(p, ws.View(), chosen, tx);
        HeadFacts(p, ws.View(), spec.Seen(), tx);
        spec.ApplyTx(tx);
      }
    }
  }
}
