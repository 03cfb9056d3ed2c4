/** A boost that loses a coin, in a state that two blocks reach from genesis. */
module DustDemo {
  import opened Words
  import opened Types
  import opened Ledger
  import opened Invariant
  import opened Fees
  import opened Executors
  import opened Genesis
  import opened Runs
  import opened Speculation
  import opened Demo

  const BOOST: Tx := DemoTx(TX_BOOST_POST, 3, DEMO_POST, [], 100, 1)
  const AGAIN: Tx := DemoTx(TX_BOOST_POST, 1, DEMO_POST, [], 100, 1)

  lemma BoostApplied(p: Params, s: State, tx: Tx, split: Split)
    requires tx.kind == TX_BOOST_POST && tx.sender in s.accounts && s.accounts[tx.sender].balance >= tx.amount
    requires tx.postId in s.posts && BoostSplit(p, tx.amount) == split
    ensures ApplyTx(p, s, tx, 2, 0) == Some(Boosted(s, tx, split, 2))
  {}

  lemma BoostIsValid(x: Bytes, m: State)
    requires 3 in m.accounts && m.accounts[3] == Account(1000, 0, [], 0, 0)
    requires DEMO_POST in m.posts && !m.posts[DEMO_POST].withdrawn
    ensures ValidTx(DemoParams(x), ReaderOf(m), BOOST)
  {}

  /** Accounts 2 and 3 hold equal positions on the post, after two blocks. */
  lemma DemoBoosted(x: Bytes) returns (s: State)
    ensures Reached(DemoParams(x), s)
    ensures Sound(DemoParams(x), s)
    ensures s.stakes == map[StakeKey(DEMO_POST, 2) := Position(94, 1), StakeKey(DEMO_POST, 3) := Position(94, 2)]
    ensures DEMO_POST in s.posts && !s.posts[DEMO_POST].withdrawn
    ensures 1 in s.accounts && s.accounts[1].balance >= 1400 && s.accounts[1].nonce == 0
  {
    var m := DemoPosted(x);
    BoostIsValid(x, m);
    BoostReached(x, m);
    var r := AfterBoost(x, m);
    s := r.(height := 2);
    HeightIsFree(DemoParams(x), r, 2);
  }

  lemma AfterBoost(x: Bytes, m: State) returns (s: State)
    requires Sound(DemoParams(x), m) && NonceRoom(m, 90) && ValidTx(DemoParams(x), ReaderOf(m), BOOST)
    requires m.stakes == map[StakeKey(DEMO_POST, 2) := Position(94, 1)]
    requires DEMO_POST in m.posts && !m.posts[DEMO_POST].withdrawn
    requires 1 in m.accounts && m.accounts[1].balance == 1400 && m.accounts[1].nonce == 0
    ensures BOOST.sender in m.accounts && s == Boosted(m, BOOST, Split(3, 2, 1), 2) && Sound(DemoParams(x), s)
    ensures s.stakes == map[StakeKey(DEMO_POST, 2) := Position(94, 1), StakeKey(DEMO_POST, 3) := Position(94, 2)]
    ensures DEMO_POST in s.posts && !s.posts[DEMO_POST].withdrawn
    ensures 1 in s.accounts && s.accounts[1].balance >= 1400 && s.accounts[1].nonce == 0
  {
    BoostSound(x, m);
    s := BoostComputed(m);
    StillThere(m.accounts, s.accounts);
  }

  lemma BoostReached(x: Bytes, m: State)
    requires Leads(x, [OneTx(CREATE, 1)], m) && ValidTx(DemoParams(x), ReaderOf(m), BOOST) && m.queue == []
    ensures BOOST.sender in m.accounts && DEMO_POST in m.posts
    ensures Reached(DemoParams(x), Boosted(m, BOOST, Split(3, 2, 1), 2).(height := 2))
  {
    BoostInBlock(x, m);
    var s := ApplyBlock(DemoParams(x), m, OneTx(BOOST, 2)).value;
    LeadsOn(x, [OneTx(CREATE, 1)], m, OneTx(BOOST, 2), s);
    LeadsReaches(x, [OneTx(CREATE, 1)] + [OneTx(BOOST, 2)], s);
  }

  lemma BoostInBlock(x: Bytes, m: State)
    requires ValidTx(DemoParams(x), ReaderOf(m), BOOST) && m.queue == []
    ensures BOOST.sender in m.accounts && DEMO_POST in m.posts
    ensures ApplyBlock(DemoParams(x), m, OneTx(BOOST, 2)) == Some(Boosted(m, BOOST, Split(3, 2, 1), 2).(height := 2))
  {
    DemoFees(x);
    BoostApplied(DemoParams(x), m, BOOST, Split(3, 2, 1));
    OneTxBlock(DemoParams(x), m, BOOST, 2);
  }

  lemma BoostSound(x: Bytes, m: State)
    requires Sound(DemoParams(x), m) && NonceRoom(m, 90) && ValidTx(DemoParams(x), ReaderOf(m), BOOST)
    ensures BOOST.sender in m.accounts && DEMO_POST in m.posts
    ensures Sound(DemoParams(x), Boosted(m, BOOST, Split(3, 2, 1), 2))
    ensures MovesAtLeast(m.accounts, Boosted(m, BOOST, Split(3, 2, 1), 2).accounts, BOOST)
  {
    var p := DemoParams(x);
    DemoParamsGood(x);
    DemoFees(x);
    StepKeepsSound(p, m, BOOST, 2, 0);
    BoostApplied(p, m, BOOST, Split(3, 2, 1));
    SimpleMoves(p, m, BOOST, 2, 0);
  }

  lemma BoostComputed(m: State) returns (s: State)
    requires BOOST.sender in m.accounts && DEMO_POST in m.posts && !m.posts[DEMO_POST].withdrawn
    requires m.stakes == map[StakeKey(DEMO_POST, 2) := Position(94, 1)]
    ensures s == Boosted(m, BOOST, Split(3, 2, 1), 2)
    ensures s.stakes == map[StakeKey(DEMO_POST, 2) := Position(94, 1), StakeKey(DEMO_POST, 3) := Position(94, 2)]
    ensures DEMO_POST in s.posts && !s.posts[DEMO_POST].withdrawn
  {
    s := Boosted(m, BOOST, Split(3, 2, 1), 2);
  }

  lemma StillThere(before: map<Address, Account>, after: map<Address, Account>)
    requires MovesAtLeast(before, after, BOOST) && 1 in before && before[1].balance == 1400 && before[1].nonce == 0
    ensures 1 in after && after[1].balance >= 1400 && after[1].nonce == 0
  {}

  lemma TwoEqualStakers(stakes: map<StakeKey, Position>)
    requires stakes == map[StakeKey(DEMO_POST, 2) := Position(94, 1), StakeKey(DEMO_POST, 3) := Position(94, 2)]
    ensures |Stakers(stakes, DEMO_POST)| == 2
    ensures forall a :: a in Stakers(stakes, DEMO_POST) ==> Stakers(stakes, DEMO_POST)[a].amount == 94
  {
    var on: map<Address, Position> := Stakers(stakes, DEMO_POST);
    forall a: Address
      ensures a in on <==> a == 2 || a == 3
    {
      assert StakeKey(DEMO_POST, a) in stakes <==> a == 2 || a == 3;
    }
    assert on.Keys == {2, 3};
  }

  /** A valid boost in a reachable state that loses one coin: of a reward of one, two equal stakers get nothing, as many
      coins as the bound allows. */
  lemma DustWitness() returns (p: Params, s: State, tx: Tx)
    ensures Reached(p, s) && ValidTx(p, ReaderOf(s), tx) && tx.kind == TX_BOOST_POST
    ensures TxDust(p, s, tx) == 1 == |Stakers(s.stakes, tx.postId)| - 1 && !EvenSplit(p, s, tx)
  {
    p := DemoParams([]);
    s := DemoBoosted([]);
    tx := AGAIN;
    DemoFees([]);
    TwoEqualStakers(s.stakes);
    BoostDustTight(p, s, tx, 94);
    BoostDustExact(p, s, tx);
  }
}
