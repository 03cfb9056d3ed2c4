/** Computing the state root: collect in map order, sort, write. */
module StateRootWriter {
  import opened Words
  import opened Types
  import opened Ordering
  import opened Ledger
  import opened Bounds
  import opened Executors
  import opened BigEndians
  import opened Encoding
  import opened WorldStates
  import opened StateRoots

  // ---------- Sorting keys by their bytes ----------

  predicate AddressBefore(a: Address, b: Address) {
    Lex(BigEndian(24, a), BigEndian(24, b)) < 0
  }

  predicate WordBefore(a: Word256, b: Word256) {
    Lex(BigEndian(32, a), BigEndian(32, b)) < 0
  }

  predicate StakeBefore(k: StakeKey, l: StakeKey) {
    var c := Lex(BigEndian(32, k.post), BigEndian(32, l.post));
    if c != 0 then c < 0 else AddressBefore(k.staker, l.staker)
  }

  ghost predicate Orders<K(!new)>(before: (K, K) -> bool, rank: K -> int) {
    forall x, y {:trigger before(x, y)} :: before(x, y) <==> rank(x) < rank(y)
  }

  lemma AddressOrder()
    ensures Orders(AddressBefore, AddressRank)
  {
    Pow256Literals();
    forall a: Address, b: Address
      ensures AddressBefore(a, b) <==> AddressRank(a) < AddressRank(b)
    {
      LexIsNumeric(24, a, b);
    }
  }

  lemma WordOrder()
    ensures Orders(WordBefore, PostRank)
  {
    Pow256Literals();
    forall a: Word256, b: Word256
      ensures WordBefore(a, b) <==> PostRank(a) < PostRank(b)
    {
      LexIsNumeric(32, a, b);
    }
  }

  lemma StakeOrder()
    ensures Orders(StakeBefore, StakeRank)
  {
    Pow256Literals();
    forall k: StakeKey, l: StakeKey
      ensures StakeBefore(k, l) <==> StakeRank(k) < StakeRank(l)
    {
      LexIsNumeric(32, k.post, l.post);
      LexIsNumeric(24, k.staker, l.staker);
      StakeRankExact(k, l);
    }
  }

  lemma InsertedElements<K>(out: seq<K>, i: nat, x: K)
    requires i <= |out|
    ensures Elements(out[..i] + [x] + out[i..]) == Elements(out) + {x}
  {
    assert out == out[..i] + out[i..];
    var all := out[..i] + [x] + out[i..];
    forall y
      ensures y in Elements(all) <==> y in Elements(out) + {x}
    {
      assert y in all <==> y in out[..i] || y == x || y in out[i..];
      assert y in out <==> y in out[..i] || y in out[i..];
    }
  }

  lemma InsertedAscending<K>(out: seq<K>, i: nat, x: K, rank: K -> int)
    requires i <= |out| && Ascending(out, rank)
    requires forall j :: 0 <= j < i ==> rank(out[j]) < rank(x)
    requires i < |out| ==> rank(x) < rank(out[i])
    ensures Ascending(out[..i] + [x] + out[i..], rank)
  {
    var all := out[..i] + [x] + out[i..];
    forall j, k | 0 <= j < k < |all|
      ensures rank(all[j]) < rank(all[k])
    {
      assert all[j] == if j < i then out[j] else if j == i then x else out[j - 1];
      assert all[k] == if k < i then out[k] else if k == i then x else out[k - 1];
    }
  }

  /** The keys of a map, visited in any order, sorted by a byte comparison: always the same sequence. */
  method SortedKeys<K(!new, ==)>(elems: set<K>, before: (K, K) -> bool, ghost rank: K -> int) returns (out: seq<K>)
    requires Orders(before, rank) && Injective(rank)
    ensures out == Sorted(elems, rank)
  {
    out := [];
    var todo := elems;
    while todo != {}
      invariant todo <= elems && Elements(out) == elems - todo && Ascending(out, rank)
      decreases todo
    {
      var x :| x in todo;
      var i := 0;
      while i < |out| && before(out[i], x)
        invariant i <= |out| && forall j :: 0 <= j < i ==> rank(out[j]) < rank(x)
      {
        i := i + 1;
      }
      assert i < |out| ==> out[i] in Elements(out);
      InsertedElements(out, i, x);
      InsertedAscending(out, i, x, rank);
      out := out[..i] + [x] + out[i..];
      todo := todo - {x};
    }
    SortedProperties(elems, rank);
    AscendingUnique(out, Sorted(elems, rank), rank);
  }

  // ---------- The sections ----------

  method WriteAccount(hw: HashWriter, a: Address, acct: Account)
    requires hw.Valid()
    modifies hw
    ensures hw.Valid() && hw.log == old(hw.log) + AccountRecord(ToAccountRow(a, acct))
  {
    hw.WriteAddress(a);
    hw.WriteUint64(Wrap(acct.balance));
    hw.WriteUint64(Wrap(acct.nonce));
    hw.WriteBytes(acct.name);
    hw.WriteUint64(Wrap(acct.staked));
  }

  method WritePostHead(hw: HashWriter, id: PostId, post: Post)
    requires hw.Valid()
    modifies hw
    ensures hw.Valid() && hw.log == old(hw.log) + PostHead(ToPostRow(id, post))
  {
    hw.WriteWord(id);
    hw.WriteAddress(post.author);
    hw.WriteBytes(post.text);
    hw.WriteBytes(post.channel);
    hw.WriteWord(post.parent);
  }

  method WritePostTail(hw: HashWriter, post: Post)
    requires hw.Valid()
    modifies hw
    ensures hw.Valid() && hw.log == old(hw.log) + PostTail(post)
  {
    hw.WriteUint64(post.createdAtHeight);
    hw.WriteInt64(post.createdAtTime);
    hw.WriteUint64(Wrap(post.totalStaked));
    hw.WriteUint64(Wrap(post.totalBurned));
    hw.WriteUint64(post.stakerCount);
    if post.withdrawn {
      hw.WriteUint64(1);
    } else {
      hw.WriteUint64(0);
    }
  }

  method WritePost(hw: HashWriter, id: PostId, post: Post)
    requires hw.Valid()
    modifies hw
    ensures hw.Valid() && hw.log == old(hw.log) + PostRecord(ToPostRow(id, post))
  {
    WritePostHead(hw, id, post);
    WritePostTail(hw, post);
  }

  method WriteStake(hw: HashWriter, k: StakeKey, x: Position)
    requires hw.Valid()
    modifies hw
    ensures hw.Valid() && hw.log == old(hw.log) + StakeRecord(ToStakeRow(k, x))
  {
    hw.WriteWord(k.post);
    hw.WriteAddress(k.staker);
    hw.WriteUint64(Wrap(x.amount));
    hw.WriteUint64(x.height);
  }

  /** Writes the accounts in the given order. */
  method WriteAccountsInOrder(hw: HashWriter, m: map<Address, Account>, keys: seq<Address>, ghost rows: seq<AccountRow>)
    requires hw.Valid() && |rows| == |keys|
    requires forall i :: 0 <= i < |keys| ==> keys[i] in m && rows[i] == ToAccountRow(keys[i], m[keys[i]])
    modifies hw
    ensures hw.Valid() && hw.log == old(hw.log) + Section(rows, AccountRecord)
  {
    hw.WriteUint64(Wrap(|keys|));
    ghost var start := hw.log;
    assert start + Flat(rows[..0], AccountRecord) == start;
    for i := 0 to |keys|
      invariant hw.Valid() && hw.log == start + Flat(rows[..i], AccountRecord)
    {
      FlatGrows(start, rows, AccountRecord, i);
      WriteAccount(hw, keys[i], m[keys[i]]);
    }
    assert rows[..|keys|] == rows;
  }

  method WriteAccounts(hw: HashWriter, m: map<Address, Account>)
    requires hw.Valid()
    modifies hw
    ensures hw.Valid() && hw.log == old(hw.log) + Section(Rows(m, AddressRank, ToAccountRow), AccountRecord)
  {
    AddressOrder();
    RanksInjective();
    var keys := SortedKeys(m.Keys, AddressBefore, AddressRank);
    forall i | 0 <= i < |keys|
      ensures |Rows(m, AddressRank, ToAccountRow)| == |keys| && keys[i] in m
      ensures Rows(m, AddressRank, ToAccountRow)[i] == ToAccountRow(keys[i], m[keys[i]])
    {
      RowAt(m, AddressRank, ToAccountRow, i);
    }
    WriteAccountsInOrder(hw, m, keys, Rows(m, AddressRank, ToAccountRow));
  }

  /** Writes the posts in the given order. */
  method WritePostsInOrder(hw: HashWriter, m: map<PostId, Post>, keys: seq<PostId>, ghost rows: seq<PostRow>)
    requires hw.Valid() && |rows| == |keys|
    requires forall i :: 0 <= i < |keys| ==> keys[i] in m && rows[i] == ToPostRow(keys[i], m[keys[i]])
    modifies hw
    ensures hw.Valid() && hw.log == old(hw.log) + Section(rows, PostRecord)
  {
    hw.WriteUint64(Wrap(|keys|));
    ghost var start := hw.log;
    assert start + Flat(rows[..0], PostRecord) == start;
    for i := 0 to |keys|
      invariant hw.Valid() && hw.log == start + Flat(rows[..i], PostRecord)
    {
      FlatGrows(start, rows, PostRecord, i);
      WritePost(hw, keys[i], m[keys[i]]);
    }
    assert rows[..|keys|] == rows;
  }

  method WritePosts(hw: HashWriter, m: map<PostId, Post>)
    requires hw.Valid()
    modifies hw
    ensures hw.Valid() && hw.log == old(hw.log) + Section(Rows(m, PostRank, ToPostRow), PostRecord)
  {
    WordOrder();
    RanksInjective();
    var keys := SortedKeys(m.Keys, WordBefore, PostRank);
    forall i | 0 <= i < |keys|
      ensures |Rows(m, PostRank, ToPostRow)| == |keys| && keys[i] in m
      ensures Rows(m, PostRank, ToPostRow)[i] == ToPostRow(keys[i], m[keys[i]])
    {
      RowAt(m, PostRank, ToPostRow, i);
    }
    WritePostsInOrder(hw, m, keys, Rows(m, PostRank, ToPostRow));
  }

  /** Writes the positions in the given order. */
  method WriteStakesInOrder(hw: HashWriter, m: map<StakeKey, Position>, keys: seq<StakeKey>, ghost rows: seq<StakeRow>)
    requires hw.Valid() && |rows| == |keys|
    requires forall i :: 0 <= i < |keys| ==> keys[i] in m && rows[i] == ToStakeRow(keys[i], m[keys[i]])
    modifies hw
    ensures hw.Valid() && hw.log == old(hw.log) + Section(rows, StakeRecord)
  {
    hw.WriteUint64(Wrap(|keys|));
    ghost var start := hw.log;
    assert start + Flat(rows[..0], StakeRecord) == start;
    for i := 0 to |keys|
      invariant hw.Valid() && hw.log == start + Flat(rows[..i], StakeRecord)
    {
      FlatGrows(start, rows, StakeRecord, i);
      WriteStake(hw, keys[i], m[keys[i]]);
    }
    assert rows[..|keys|] == rows;
  }

  method WriteStakes(hw: HashWriter, m: map<StakeKey, Position>)
    requires hw.Valid()
    modifies hw
    ensures hw.Valid() && hw.log == old(hw.log) + Section(Rows(m, StakeRank, ToStakeRow), StakeRecord)
  {
    StakeOrder();
    RanksInjective();
    var keys := SortedKeys(m.Keys, StakeBefore, StakeRank);
    forall i | 0 <= i < |keys|
      ensures |Rows(m, StakeRank, ToStakeRow)| == |keys| && keys[i] in m
      ensures Rows(m, StakeRank, ToStakeRow)[i] == ToStakeRow(keys[i], m[keys[i]])
    {
      RowAt(m, StakeRank, ToStakeRow, i);
    }
    WriteStakesInOrder(hw, m, keys, Rows(m, StakeRank, ToStakeRow));
  }

  method WriteValidator(hw: HashWriter, v: Validator)
    requires hw.Valid()
    modifies hw
    ensures hw.Valid() && hw.log == old(hw.log) + ValidatorRecord(v)
  {
    hw.WriteAddress(v.address);
    hw.WriteWord(v.pubKey);
    hw.WriteUint64(Wrap(v.stake));
  }

  method WriteUnbonding(hw: HashWriter, u: Unbonding)
    requires hw.Valid()
    modifies hw
    ensures hw.Valid() && hw.log == old(hw.log) + UnbondingRecord(u)
  {
    hw.WriteAddress(u.address);
    hw.WriteUint64(Wrap(u.amount));
    hw.WriteUint64(u.release);
  }

  method WriteValidators(hw: HashWriter, vs: seq<Validator>)
    requires hw.Valid()
    modifies hw
    ensures hw.Valid() && hw.log == old(hw.log) + Section(vs, ValidatorRecord)
  {
    hw.WriteUint64(Wrap(|vs|));
    ghost var start := hw.log;
    assert start + Flat(vs[..0], ValidatorRecord) == start;
    for i := 0 to |vs|
      invariant hw.Valid() && hw.log == start + Flat(vs[..i], ValidatorRecord)
    {
      FlatGrows(start, vs, ValidatorRecord, i);
      WriteValidator(hw, vs[i]);
    }
    assert vs[..|vs|] == vs;
  }

  method WriteQueue(hw: HashWriter, q: seq<Unbonding>)
    requires hw.Valid()
    modifies hw
    ensures hw.Valid() && hw.log == old(hw.log) + Section(q, UnbondingRecord)
  {
    hw.WriteUint64(Wrap(|q|));
    ghost var start := hw.log;
    assert start + Flat(q[..0], UnbondingRecord) == start;
    for i := 0 to |q|
      invariant hw.Valid() && hw.log == start + Flat(q[..i], UnbondingRecord)
    {
      FlatGrows(start, q, UnbondingRecord, i);
      WriteUnbonding(hw, q[i]);
    }
    assert q[..|q|] == q;
  }

  method WriteCounters(hw: HashWriter, ws: WorldState)
    requires hw.Valid()
    modifies hw
    ensures hw.Valid() && hw.log == old(hw.log) + Counters(ws.View())
  {
    hw.WriteUint64(ws.currentEpoch);
    hw.WriteUint64(Wrap(ws.burnedSupply));
    hw.WriteUint64(Wrap(ws.issuedSupply));
    hw.WriteUint64(ws.chainHeight);
  }

  lemma Regroup(a: seq<Field>, b: seq<Field>, c: seq<Field>, d: seq<Field>, e: seq<Field>, f: seq<Field>)
    ensures [] + a + b + c + d + e + f == a + (b + (c + (d + (e + f))))
  {}

  /** The root depends on the state alone, not on the order in which maps are visited. */
  method ComputeStateRoot(p: Params, ws: WorldState) returns (root: Digest)
    ensures root == StateRoot(p, ws.View())
  {
    var hw := new HashWriter();
    WriteAccounts(hw, ws.accounts);
    WritePosts(hw, ws.posts);
    WriteStakes(hw, ws.postStakes);
    WriteValidators(hw, ws.activeValidators);
    WriteQueue(hw, ws.unbondingQueue);
    WriteCounters(hw, ws);
    ghost var s := ws.View();
    Regroup(AccountSection(s), PostSection(s), StakeSection(s), Section(s.validators, ValidatorRecord),
            Section(s.queue, UnbondingRecord), Counters(s));
    return p.sha256(hw.buf);
  }

  // ---------- Sound states can be printed ----------

  lemma SoundPost(p: Params, s: State, id: PostId)
    requires Sound(p, s) && id in s.posts && |s.posts[id].text| < TWO64 && |s.posts[id].channel| < TWO64
    ensures PostOk(ToPostRow(id, s.posts[id]))
  {
    PostBound(p, s, id);
  }

  lemma SoundStake(p: Params, s: State, k: StakeKey)
    requires Sound(p, s) && k in s.stakes
    ensures StakeOk(ToStakeRow(k, s.stakes[k]))
  {
    PositionBound(p, s, k);
    AccountBound(s, k.staker);
  }

  lemma SoundQueue(p: Params, s: State, i: nat)
    requires Sound(p, s) && i < |s.queue|
    ensures UnbondingOk(s.queue[i])
  {
    SupplyBound(s);
    QueueTotalNonNegative(s.queue);
  }

  /** What the invariant does not bound: sizes, strings, validator weights and the issued counter. */
  ghost predicate SizesFit(s: State) {
    && |s.accounts| < TWO64 && |s.posts| < TWO64 && |s.stakes| < TWO64 && |s.validators| < TWO64 && |s.queue| < TWO64
    && (forall a :: a in s.accounts ==> |s.accounts[a].name| < TWO64)
    && (forall id :: id in s.posts ==> |s.posts[id].text| < TWO64 && |s.posts[id].channel| < TWO64)
    && (forall i :: 0 <= i < |s.validators| ==> ValidatorOk(s.validators[i]))
    && s.issued < TWO64
  }

  /** In a sound state every amount the root prints is a uint64, so nothing is truncated. */
  lemma SoundIsRepresentable(p: Params, s: State)
    requires Sound(p, s) && SizesFit(s)
    ensures Representable(s)
  {
    SupplyBound(s);
    forall a | a in s.accounts
      ensures AccountOk(ToAccountRow(a, s.accounts[a]))
    {
      AccountBound(s, a);
    }
    forall id | id in s.posts
      ensures PostOk(ToPostRow(id, s.posts[id]))
    {
      SoundPost(p, s, id);
    }
    forall k | k in s.stakes
      ensures StakeOk(ToStakeRow(k, s.stakes[k]))
    {
      SoundStake(p, s, k);
    }
    forall i | 0 <= i < |s.queue|
      ensures UnbondingOk(s.queue[i])
    {
      SoundQueue(p, s, i);
    }
  }
}
