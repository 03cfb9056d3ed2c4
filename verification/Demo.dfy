/** A small chain with three funded accounts: concrete reachable states for the lemmas that need an example. */
module Demo {
  import opened Words
  import opened Types
  import opened SafeMath
  import opened Ledger
  import opened Invariant
  import opened Executors
  import opened Genesis
  import opened Runs
  import opened Encoding
  import opened Hashes

  /** Default fees, no block reward, every signature good; the hash tells x from everything else. */
  function DemoParams(x: Bytes): Params {
    Params(1, 1, 100, 0, 0, 0, 1, 0, 0, 0, 0, 0,
      (b: Bytes) => if b == x then 1 else 2,
      (a: Address, n: Uint64) => a * 0x1_0000_0000_0000_0000 + n,
      (k: PublicKey) => k % 0x1_0000_0000_0000_0000_0000_0000_0000_0000_0000_0000_0000_0000,
      (tx: Tx) => true, (v: Vote) => true, (text: Bytes) => true)
  }

  lemma DemoParamsGood(x: Bytes)
    ensures GoodParams(DemoParams(x)) && PostIdsDistinct(DemoParams(x))
  {}

  function DemoTx(kind: Byte, sender: Address, postId: PostId, text: Bytes, amount: Uint64, nonce: Uint64): Tx {
    Tx(kind, sender, NO_ADDRESS, postId, text, [], amount, nonce, [], sender)
  }

  // ---------- Genesis ----------

  const ACCOUNTS := [GenesisAccount(1, 2000), GenesisAccount(2, 1000), GenesisAccount(3, 1000)]
  const VALIDATORS := [GenesisValidator(1, 1, 600)]

  function AnyAddress(a: Address): bool { true }

  lemma DemoFunded()
    ensures Funded(ACCOUNTS) ==
      map[1 := Account(2000, 0, [], 0, 0), 2 := Account(1000, 0, [], 0, 0), 3 := Account(1000, 0, [], 0, 0)]
    ensures Supply(ACCOUNTS) == 4000
  {
    assert ACCOUNTS[..2] == [ACCOUNTS[0], ACCOUNTS[1]] && ACCOUNTS[..2][..1] == [ACCOUNTS[0]];
    assert ACCOUNTS[..2][..1][..0] == [];
    assert Funded([ACCOUNTS[0]]) == map[1 := Account(2000, 0, [], 0, 0)];
    assert Funded(ACCOUNTS[..2]) == map[1 := Account(2000, 0, [], 0, 0), 2 := Account(1000, 0, [], 0, 0)];
    assert [ACCOUNTS[0]][..0] == [];
    assert Supply([ACCOUNTS[0]]) == 2000;
    assert Supply(ACCOUNTS[..2]) == Supply(ACCOUNTS[..2][..1]) + 1000;
  }

  lemma DemoGenesis() returns (g: State)
    ensures GenesisState(ACCOUNTS, VALIDATORS, AnyAddress) == Some(g)
    ensures g.accounts == START
    ensures g.posts == map[] && g.names == map[] && g.stakes == map[] && g.queue == [] && g.slashed == {}
    ensures g.validators == [Validator(1, 1, 600)] && g.burned == g.issued == g.height == 0
    ensures forall p :: Sound(p, g)
    ensures NonceRoom(g, 100)
  {
    DemoFunded();
    assert VALIDATORS[..0] == [];
    assert Bonded(Funded(ACCOUNTS), VALIDATORS) == BondOne(Funded(ACCOUNTS), VALIDATORS[0]);
    g := GenesisState(ACCOUNTS, VALIDATORS, AnyAddress).value;
    forall p
      ensures Sound(p, g)
    {
      GenesisSound(p, ACCOUNTS, VALIDATORS, AnyAddress);
    }
  }

  // ---------- Blocks ----------

  function OneTx(tx: Tx, h: Uint64): Block {
    Block(Header(h, 0, 1, 0, 0, 0), [tx], [], None)
  }

  /** Without reward, epoch or releases, a block of one transaction is that transaction. */
  lemma OneTxBlock(p: Params, s: State, tx: Tx, h: Uint64)
    requires p.blockReward == 0 && p.epochLength == 0 && s.queue == []
    requires ValidTx(p, ReaderOf(s), tx) && ApplyTx(p, s, tx, h, 0).Some?
    ensures ApplyBlock(p, s, OneTx(tx, h)) == Some(ApplyTx(p, s, tx, h, 0).value.(height := h))
  {
    assert Release(s, h) == s;
    assert BeginBlock(p, s, OneTx(tx, h)) == s;
    TxsUnfold(p, s, [], h, 0);
    TxsNext(p, s, [], tx, h, 0);
    assert [] + [tx] == [tx];
  }

  lemma HeightIsFree(p: Params, s: State, h: Uint64)
    requires Sound(p, s)
    ensures Sound(p, s.(height := h))
  {
    GrowsKeepsInv(p, s, s.(height := h));
  }

  /** The blocks, of at most one transaction each, lead from genesis to s. */
  ghost predicate Leads(x: Bytes, blocks: seq<Block>, s: State) {
    && TxCount(blocks) <= |blocks| <= 10
    && GenesisState(ACCOUNTS, VALIDATORS, AnyAddress).Some?
    && Execute(DemoParams(x), GenesisState(ACCOUNTS, VALIDATORS, AnyAddress).value, blocks) == Some(s)
  }

  lemma LeadsNowhere(x: Bytes, g: State)
    requires GenesisState(ACCOUNTS, VALIDATORS, AnyAddress) == Some(g)
    ensures Leads(x, [], g)
  {
    ExecuteUnfold(DemoParams(x), g, []);
  }

  lemma LeadsOn(x: Bytes, blocks: seq<Block>, s: State, b: Block, r: State)
    requires Leads(x, blocks, s) && |blocks| < 10 && |b.txs| <= 1 && ApplyBlock(DemoParams(x), s, b) == Some(r)
    ensures Leads(x, blocks + [b], r)
  {
    var all := blocks + [b];
    assert all[..|blocks|] == blocks;
    ExecuteUnfold(DemoParams(x), GenesisState(ACCOUNTS, VALIDATORS, AnyAddress).value, all);
  }

  lemma LeadsReaches(x: Bytes, blocks: seq<Block>, s: State)
    requires Leads(x, blocks, s)
    ensures Reached(DemoParams(x), s)
  {
    DemoParamsGood(x);
    assert Run(DemoParams(x), ACCOUNTS, VALIDATORS, AnyAddress, blocks);
  }

  // ---------- A post ----------

  const DEMO_POST: PostId := 2 * 0x1_0000_0000_0000_0000 + 1

  lemma DemoFees(x: Bytes)
    ensures PostFee(DemoParams(x), 100) == 6 && BoostSplit(DemoParams(x), 100) == Split(3, 2, 1)
  {
    MulDivIsClampedFloor(100, 6, 100);
    MulDivIsClampedFloor(100, 3, 100);
    MulDivIsClampedFloor(100, 2, 100);
    MulDivIsClampedFloor(100, 1, 100);
  }

  /** The three accounts at genesis. */
  const START: map<Address, Account> :=
    map[1 := Account(1400, 0, [], 600, 0), 2 := Account(1000, 0, [], 0, 0), 3 := Account(1000, 0, [], 0, 0)]

  const CREATE: Tx := DemoTx(TX_CREATE_POST, 2, NO_POST, [], 100, 1)

  lemma CreateIsValid(x: Bytes, g: State)
    requires g.accounts == START
    ensures ValidTx(DemoParams(x), ReaderOf(g), CREATE)
  {}

  lemma CreateComputed(x: Bytes, g: State) returns (s: State)
    requires g.accounts == START && g.posts == map[] && g.stakes == map[]
    ensures s == Created(DemoParams(x), g, CREATE, 6, 1, 0)
    ensures s.accounts ==
      map[1 := Account(1400, 0, [], 600, 0), 2 := Account(900, 1, [], 0, 94), 3 := Account(1000, 0, [], 0, 0)]
    ensures s.posts == map[DEMO_POST := Post(2, [], [], NO_POST, 1, 0, 94, 6, 1, false)]
    ensures s.stakes == map[StakeKey(DEMO_POST, 2) := Position(94, 1)] && s.queue == g.queue
  {
    s := Created(DemoParams(x), g, CREATE, 6, 1, 0);
  }

  lemma StepKeepsSound(p: Params, s: State, tx: Tx, h: Uint64, t: Int64)
    requires Sound(p, s) && NonceRoom(s, 1) && GoodParams(p) && PostIdsDistinct(p) && ValidTx(p, ReaderOf(s), tx)
    ensures ApplyTx(p, s, tx, h, t).Some? && Sound(p, ApplyTx(p, s, tx, h, t).value)
  {
    TxSound(p, s, tx, h, t);
  }

  /** Account 2 has created a post with 100 coins, in the first block. */
  lemma DemoPosted(x: Bytes) returns (s: State)
    ensures Leads(x, [OneTx(CREATE, 1)], s)
    ensures Sound(DemoParams(x), s) && NonceRoom(s, 90)
    ensures s.accounts ==
      map[1 := Account(1400, 0, [], 600, 0), 2 := Account(900, 1, [], 0, 94), 3 := Account(1000, 0, [], 0, 0)]
    ensures s.posts == map[DEMO_POST := Post(2, [], [], NO_POST, 1, 0, 94, 6, 1, false)]
    ensures s.stakes == map[StakeKey(DEMO_POST, 2) := Position(94, 1)]
    ensures s.queue == []
  {
    var g := DemoGenesis();
    CreateSound(x, g);
    var m := CreateComputed(x, g);
    s := m.(height := 1);
    HeightIsFree(DemoParams(x), m, 1);
    CreateLeads(x, g);
  }

  lemma CreateLeads(x: Bytes, g: State)
    requires GenesisState(ACCOUNTS, VALIDATORS, AnyAddress) == Some(g) && g.accounts == START && g.queue == []
    ensures Leads(x, [OneTx(CREATE, 1)], Created(DemoParams(x), g, CREATE, 6, 1, 0).(height := 1))
  {
    LeadsNowhere(x, g);
    CreateInBlock(x, g);
    LeadsOn(x, [], g, OneTx(CREATE, 1), Created(DemoParams(x), g, CREATE, 6, 1, 0).(height := 1));
    assert [] + [OneTx(CREATE, 1)] == [OneTx(CREATE, 1)];
  }

  lemma CreateInBlock(x: Bytes, g: State)
    requires g.accounts == START && g.queue == []
    ensures ApplyBlock(DemoParams(x), g, OneTx(CREATE, 1))
            == Some(Created(DemoParams(x), g, CREATE, 6, 1, 0).(height := 1))
  {
    DemoFees(x);
    CreateIsValid(x, g);
    CreateApplied(DemoParams(x), g, CREATE, 6);
    OneTxBlock(DemoParams(x), g, CREATE, 1);
  }

  lemma CreateSound(x: Bytes, g: State)
    requires g.accounts == START && Sound(DemoParams(x), g) && NonceRoom(g, 100)
    ensures Sound(DemoParams(x), Created(DemoParams(x), g, CREATE, 6, 1, 0))
  {
    DemoParamsGood(x);
    DemoFees(x);
    CreateIsValid(x, g);
    StepKeepsSound(DemoParams(x), g, CREATE, 1, 0);
    CreateApplied(DemoParams(x), g, CREATE, 6);
  }

  lemma CreateApplied(p: Params, g: State, tx: Tx, fee: Uint64)
    requires tx.kind == TX_CREATE_POST && tx.sender in g.accounts && g.accounts[tx.sender].balance >= tx.amount
    requires PostFee(p, tx.amount) == fee
    ensures ApplyTx(p, g, tx, 1, 0) == Some(Created(p, g, tx, fee, 1, 0))
  {}

  // ---------- Small transactions fit ----------

  lemma {:induction false} StreamSize(fs: seq<Field>, c: nat)
    requires forall i :: 0 <= i < |fs| ==> |Render(fs[i])| <= c
    ensures |Stream(fs)| <= c * |fs|
  {
    if fs == [] {
      StreamNone();
    } else {
      var init, last := fs[..|fs| - 1], fs[|fs| - 1];
      assert fs == init + [last];
      StreamSize(init, c);
      StreamSizeNext(init, last, c);
    }
  }

  lemma StreamSizeNext(fs: seq<Field>, f: Field, c: nat)
    requires |Stream(fs)| <= c * |fs| && |Render(f)| <= c
    ensures |Stream(fs + [f])| <= c * |fs + [f]|
  {
    StreamLast(fs, f);
    var n := |fs|;
    assert |fs + [f]| == n + 1 && c * (n + 1) == c * n + c;
  }

  lemma SmallTxFits(tx: Tx)
    requires |tx.text| <= 100 && |tx.channel| <= 100 && |tx.signature| <= 100
    ensures TxFits(tx)
  {
    StreamSize(TxFields(tx), 108);
  }

  /** Two different small transactions have different hashes when the hash tells the first one apart. */
  lemma TwoHashes(first: Tx, second: Tx) returns (p: Params)
    requires |first.text| <= 100 && |first.channel| <= 100 && |first.signature| <= 100
    requires |second.text| <= 100 && |second.channel| <= 100 && |second.signature| <= 100
    requires first != second
    ensures p == DemoParams(Stream(TxHashFields(first)))
    ensures TxHash(p, first) == 1 && TxHash(p, second) == 2 && GoodParams(p) && PostIdsDistinct(p)
  {
    p := DemoParams(Stream(TxHashFields(first)));
    DemoParamsGood(Stream(TxHashFields(first)));
    SmallTxFits(first);
    SmallTxFits(second);
    if Stream(TxHashFields(first)) == Stream(TxHashFields(second)) {
      TxHashInjective(first, second);
    }
  }
}
