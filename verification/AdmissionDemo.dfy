/** An unstake that would execute and that the pool turns away, in a state that one block reaches from genesis. */
module AdmissionDemo {
  import opened Words
  import opened Types
  import opened Ledger
  import opened Blocks
  import opened Genesis
  import opened Runs
  import opened Mempools
  import opened Demo

  /** Account 1 gives most of its free balance away. */
  const GIVE: Tx := Tx(TX_TRANSFER, 1, 2, NO_POST, [], [], 1000, 1, [], 1)

  /** And wants its whole stake back. */
  const WITHDRAW: Tx := DemoTx(TX_UNSTAKE, 1, NO_POST, [], 600, 2)

  function Given(g: State): State
    requires g.accounts == START
  {
    g.(accounts :=
      map[1 := Account(400, 1, [], 600, 0), 2 := Account(2000, 0, [], 0, 0), 3 := Account(1000, 0, [], 0, 0)])
  }

  lemma GiveApplies(x: Bytes, g: State)
    requires g.accounts == START
    ensures ValidTx(DemoParams(x), ReaderOf(g), GIVE) && ApplyTx(DemoParams(x), g, GIVE, 1, 0) == Some(Given(g))
  {
    var debited := START[1 := Account(400, 1, [], 600, 0)];
    assert Credit(debited, 2, 1000) == Given(g).accounts;
  }

  lemma GivenReached(x: Bytes, g: State)
    requires GenesisState(ACCOUNTS, VALIDATORS, AnyAddress) == Some(g) && g.accounts == START && g.queue == []
    ensures Reached(DemoParams(x), Given(g).(height := 1))
  {
    GiveApplies(x, g);
    OneTxBlock(DemoParams(x), g, GIVE, 1);
    LeadsNowhere(x, g);
    LeadsOn(x, [], g, OneTx(GIVE, 1), Given(g).(height := 1));
    LeadsReaches(x, [] + [OneTx(GIVE, 1)], Given(g).(height := 1));
  }

  lemma WithdrawExecutes(p: Params, s: State, tx: Tx)
    requires ValidTx(p, ReaderOf(s), tx)
    ensures ApplyTxs(p, s, [tx], 2, 0).Some?
  {
    TxsUnfold(p, s, [], 2, 0);
    TxsNext(p, s, [], tx, 2, 0);
    assert [] + [tx] == [tx];
    ValidTxApplies(p, s, tx, 2, 0);
  }

  /** The pool turns away an unstake that would execute, because its amount is more than the free balance. */
  lemma UnstakeTurnedAway() returns (p: Params, s: State, tx: Tx)
    ensures Reached(p, s) && tx.kind == TX_UNSTAKE
    ensures ApplyTxs(p, s, [tx], 2, 0).Some? && !Admissible(p, s.accounts, tx)
  {
    var g := DemoGenesis();
    p, s, tx := DemoParams([]), Given(g).(height := 1), WITHDRAW;
    GivenReached([], g);
    WithdrawExecutes(p, s, tx);
  }
}
