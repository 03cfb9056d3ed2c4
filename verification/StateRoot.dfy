/** The state root: a sorted, length-prefixed printout of the world state that determines it. */
module StateRoots {
  import opened Words
  import opened Types
  import opened Ordering
  import opened Ledger
  import opened Invariant
  import opened Encoding

  // ---------- What is written ----------

  /** The part of an account that the root covers: everything but the post-stake balance. */
  datatype AccountRow = AccountRow(address: Address, balance: int, nonce: int, name: Bytes, staked: int)
  datatype PostRow = PostRow(id: PostId, post: Post)
  datatype StakeRow = StakeRow(key: StakeKey, position: Position)

  function ToAccountRow(a: Address, acct: Account): AccountRow {
    AccountRow(a, acct.balance, acct.nonce, acct.name, acct.staked)
  }

  function ToPostRow(id: PostId, post: Post): PostRow { PostRow(id, post) }
  function ToStakeRow(k: StakeKey, x: Position): StakeRow { StakeRow(k, x) }

  function AccountRecord(r: AccountRow): seq<Field> {
    [AddressField(r.address), U64(Wrap(r.balance)), U64(Wrap(r.nonce)), Blob(r.name), U64(Wrap(r.staked))]
  }

  function PostHead(r: PostRow): seq<Field> {
    [WordField(r.id), AddressField(r.post.author), Blob(r.post.text), Blob(r.post.channel), WordField(r.post.parent)]
  }

  function PostTail(x: Post): seq<Field> {
    [U64(x.createdAtHeight), SignedField(x.createdAtTime), U64(Wrap(x.totalStaked)), U64(Wrap(x.totalBurned)),
     U64(x.stakerCount), U64(if x.withdrawn then 1 else 0)]
  }

  function PostRecord(r: PostRow): seq<Field> {
    PostHead(r) + PostTail(r.post)
  }

  function StakeRecord(r: StakeRow): seq<Field> {
    [WordField(r.key.post), AddressField(r.key.staker), U64(Wrap(r.position.amount)), U64(r.position.height)]
  }

  function ValidatorRecord(v: Validator): seq<Field> {
    [AddressField(v.address), WordField(v.pubKey), U64(Wrap(v.stake))]
  }

  function UnbondingRecord(u: Unbonding): seq<Field> {
    [AddressField(u.address), U64(Wrap(u.amount)), U64(u.release)]
  }

  function PostRank(id: PostId): int { id }

  /** Position keys are ordered by post, then by staker. */
  function StakeRank(k: StakeKey): int {
    k.post * 0x1_0000_0000_0000_0000_0000_0000_0000_0000_0000_0000_0000_0000 + k.staker
  }

  /** The entries of a map in ascending key order. */
  ghost function Rows<K(!new), V, R>(m: map<K, V>, rank: K -> int, row: (K, V) -> R): seq<R> {
    var order := Sorted(m.Keys, rank);
    seq(|order|, i requires 0 <= i < |order| => SortedMember(m.Keys, rank, i); row(order[i], m[order[i]]))
  }

  lemma RowAt<K(!new), V, R>(m: map<K, V>, rank: K -> int, row: (K, V) -> R, i: nat)
    requires i < |Sorted(m.Keys, rank)|
    ensures |Rows(m, rank, row)| == |Sorted(m.Keys, rank)| && Sorted(m.Keys, rank)[i] in m
    ensures Rows(m, rank, row)[i] == row(Sorted(m.Keys, rank)[i], m[Sorted(m.Keys, rank)[i]])
  {
    SortedMember(m.Keys, rank, i);
  }

  ghost function AccountSection(s: State): seq<Field> {
    Section(Rows(s.accounts, AddressRank, ToAccountRow), AccountRecord)
  }

  ghost function PostSection(s: State): seq<Field> {
    Section(Rows(s.posts, PostRank, ToPostRow), PostRecord)
  }

  ghost function StakeSection(s: State): seq<Field> {
    Section(Rows(s.stakes, StakeRank, ToStakeRow), StakeRecord)
  }

  function Counters(s: State): seq<Field> {
    [U64(s.epoch), U64(Wrap(s.burned)), U64(Wrap(s.issued)), U64(s.height)]
  }

  ghost function QueueOnwards(s: State): seq<Field> {
    Section(s.queue, UnbondingRecord) + Counters(s)
  }

  ghost function ValidatorsOnwards(s: State): seq<Field> {
    Section(s.validators, ValidatorRecord) + QueueOnwards(s)
  }

  ghost function StakesOnwards(s: State): seq<Field> {
    StakeSection(s) + ValidatorsOnwards(s)
  }

  ghost function PostsOnwards(s: State): seq<Field> {
    PostSection(s) + StakesOnwards(s)
  }

  /** Everything ComputeStateRoot writes, in order. */
  ghost function RootFields(s: State): seq<Field> {
    AccountSection(s) + PostsOnwards(s)
  }

  ghost function StateRoot(p: Params, s: State): Digest {
    p.sha256(Stream(RootFields(s)))
  }

  // ---------- Ranks order as the byte comparison does ----------

  lemma StakeRankExact(k: StakeKey, l: StakeKey)
    ensures StakeRank(k) < StakeRank(l) <==> k.post < l.post || (k.post == l.post && k.staker < l.staker)
    ensures StakeRank(k) == StakeRank(l) ==> k == l
  {}

  lemma RanksInjective()
    ensures Injective(AddressRank) && Injective(PostRank) && Injective(StakeRank)
  {
    forall k, l | StakeRank(k) == StakeRank(l)
      ensures k == l
    {
      StakeRankExact(k, l);
    }
  }

  // ---------- Rows determine the map ----------

  ghost predicate KeyedRows<K(!new), V(!new), R>(row: (K, V) -> R) {
    forall k, v, l, w {:trigger row(k, v), row(l, w)} :: row(k, v) == row(l, w) ==> k == l
  }

  lemma RowOf<K(!new), V, R>(m: map<K, V>, rank: K -> int, row: (K, V) -> R, k: K) returns (i: nat)
    requires Injective(rank) && k in m
    ensures i < |Rows(m, rank, row)| && Rows(m, rank, row)[i] == row(k, m[k])
  {
    SortedProperties(m.Keys, rank);
    assert k in Elements(Sorted(m.Keys, rank));
    i :| 0 <= i < |Sorted(m.Keys, rank)| && Sorted(m.Keys, rank)[i] == k;
  }

  lemma RowIsEntry<K(!new), V, R>(m: map<K, V>, rank: K -> int, row: (K, V) -> R, i: nat) returns (k: K)
    requires i < |Rows(m, rank, row)|
    ensures k in m && Rows(m, rank, row)[i] == row(k, m[k])
  {
    SortedMember(m.Keys, rank, i);
    k := Sorted(m.Keys, rank)[i];
  }

  lemma RowsCover<K(!new), V(!new), R>(m: map<K, V>, n: map<K, V>, rank: K -> int, row: (K, V) -> R, k: K)
    requires Injective(rank) && KeyedRows(row) && Rows(m, rank, row) == Rows(n, rank, row) && k in m
    ensures k in n && row(k, m[k]) == row(k, n[k])
  {
    var i := RowOf(m, rank, row, k);
    var l := RowIsEntry(n, rank, row, i);
    assert row(k, m[k]) == row(l, n[l]);
  }

  /** Equal rows mean the same keys, each with the same row. */
  lemma RowsDetermine<K(!new), V(!new), R>(m: map<K, V>, n: map<K, V>, rank: K -> int, row: (K, V) -> R)
    requires Injective(rank) && KeyedRows(row) && Rows(m, rank, row) == Rows(n, rank, row)
    ensures m.Keys == n.Keys && forall k :: k in m ==> row(k, m[k]) == row(k, n[k])
  {
    forall k
      ensures k in m ==> k in n && row(k, m[k]) == row(k, n[k])
      ensures k in n ==> k in m
    {
      if k in m {
        RowsCover(m, n, rank, row, k);
      }
      if k in n {
        RowsCover(n, m, rank, row, k);
      }
    }
  }

  // ---------- Records are legible ----------

  predicate IsWord(x: int) { 0 <= x < TWO64 }

  predicate AccountOk(r: AccountRow) {
    IsWord(r.balance) && IsWord(r.nonce) && IsWord(r.staked) && |r.name| < TWO64
  }

  predicate PostOk(r: PostRow) {
    IsWord(r.post.totalStaked) && IsWord(r.post.totalBurned) && |r.post.text| < TWO64 && |r.post.channel| < TWO64
  }

  predicate StakeOk(r: StakeRow) { IsWord(r.position.amount) }
  predicate ValidatorOk(v: Validator) { IsWord(v.stake) }
  predicate UnbondingOk(u: Unbonding) { IsWord(u.amount) }

  lemma AccountRecordInjective(x: AccountRow, y: AccountRow)
    requires AccountOk(x) && AccountOk(y) && AccountRecord(x) == AccountRecord(y)
    ensures x == y
  {
    var f, g := AccountRecord(x), AccountRecord(y);
    assert f[0] == g[0] && f[1] == g[1] && f[2] == g[2] && f[3] == g[3] && f[4] == g[4];
    AddressFieldInjective(x.address, y.address);
  }

  lemma AccountsLegible()
    ensures Legible(AccountRecord, AccountOk)
  {
    forall x, y | AccountOk(x) && AccountOk(y) && AccountRecord(x) == AccountRecord(y)
      ensures x == y
    {
      AccountRecordInjective(x, y);
    }
  }

  lemma PostTailInjective(x: Post, y: Post)
    requires PostTail(x) == PostTail(y)
    requires IsWord(x.totalStaked) && IsWord(x.totalBurned) && IsWord(y.totalStaked) && IsWord(y.totalBurned)
    ensures x.createdAtHeight == y.createdAtHeight && x.createdAtTime == y.createdAtTime
    ensures x.totalStaked == y.totalStaked && x.totalBurned == y.totalBurned
    ensures x.stakerCount == y.stakerCount && x.withdrawn == y.withdrawn
  {
    var f, g := PostTail(x), PostTail(y);
    assert f[0] == g[0] && f[1] == g[1] && f[2] == g[2] && f[3] == g[3] && f[4] == g[4] && f[5] == g[5];
  }

  lemma PostHeadInjective(x: PostRow, y: PostRow)
    requires PostHead(x) == PostHead(y)
    ensures x.id == y.id && x.post.author == y.post.author && x.post.text == y.post.text
    ensures x.post.channel == y.post.channel && x.post.parent == y.post.parent
  {
    var f, g := PostHead(x), PostHead(y);
    assert f[0] == g[0] && f[1] == g[1] && f[2] == g[2] && f[3] == g[3] && f[4] == g[4];
    WordFieldInjective(x.id, y.id);
    AddressFieldInjective(x.post.author, y.post.author);
    WordFieldInjective(x.post.parent, y.post.parent);
  }

  lemma PostRecordInjective(x: PostRow, y: PostRow)
    requires PostOk(x) && PostOk(y) && PostRecord(x) == PostRecord(y)
    ensures x == y
  {
    var f, g := PostRecord(x), PostRecord(y);
    assert PostHead(x) == f[..5] && PostHead(y) == g[..5];
    assert PostTail(x.post) == f[5..] && PostTail(y.post) == g[5..];
    PostHeadInjective(x, y);
    PostTailInjective(x.post, y.post);
  }

  lemma PostsLegible()
    ensures Legible(PostRecord, PostOk)
  {
    forall x, y | PostOk(x) && PostOk(y)
      ensures AllFit(PostRecord(x)) && SameShape(PostRecord(x), PostRecord(y))
      ensures PostRecord(x) == PostRecord(y) ==> x == y
    {
      PostShape(x, y);
      if PostRecord(x) == PostRecord(y) {
        PostRecordInjective(x, y);
      }
    }
  }

  lemma PostShape(x: PostRow, y: PostRow)
    requires PostOk(x) && PostOk(y)
    ensures AllFit(PostRecord(x)) && SameShape(PostRecord(x), PostRecord(y))
  {
    assert AllFit(PostHead(x)) && AllFit(PostTail(x.post));
    assert SameShape(PostHead(x), PostHead(y)) && SameShape(PostTail(x.post), PostTail(y.post));
  }

  lemma StakesLegible()
    ensures Legible(StakeRecord, StakeOk)
  {
    forall x, y | StakeOk(x) && StakeOk(y) && StakeRecord(x) == StakeRecord(y)
      ensures x == y
    {
      var f, g := StakeRecord(x), StakeRecord(y);
      assert f[0] == g[0] && f[1] == g[1] && f[2] == g[2] && f[3] == g[3];
      WordFieldInjective(x.key.post, y.key.post);
      AddressFieldInjective(x.key.staker, y.key.staker);
    }
  }

  lemma ValidatorsLegible()
    ensures Legible(ValidatorRecord, ValidatorOk)
  {
    forall x, y | ValidatorOk(x) && ValidatorOk(y) && ValidatorRecord(x) == ValidatorRecord(y)
      ensures x == y
    {
      var f, g := ValidatorRecord(x), ValidatorRecord(y);
      assert f[0] == g[0] && f[1] == g[1] && f[2] == g[2];
      AddressFieldInjective(x.address, y.address);
      WordFieldInjective(x.pubKey, y.pubKey);
    }
  }

  lemma UnbondingLegible()
    ensures Legible(UnbondingRecord, UnbondingOk)
  {
    forall x, y | UnbondingOk(x) && UnbondingOk(y) && UnbondingRecord(x) == UnbondingRecord(y)
      ensures x == y
    {
      var f, g := UnbondingRecord(x), UnbondingRecord(y);
      assert f[0] == g[0] && f[1] == g[1] && f[2] == g[2];
      AddressFieldInjective(x.address, y.address);
    }
  }

  // ---------- The root determines the state ----------

  /** What Go's types guarantee of a state: amounts are uint64s, and sizes fit one. */
  ghost predicate Representable(s: State) {
    && |s.accounts| < TWO64 && |s.posts| < TWO64 && |s.stakes| < TWO64 && |s.validators| < TWO64 && |s.queue| < TWO64
    && (forall a :: a in s.accounts ==> AccountOk(ToAccountRow(a, s.accounts[a])))
    && (forall id :: id in s.posts ==> PostOk(ToPostRow(id, s.posts[id])))
    && (forall k :: k in s.stakes ==> StakeOk(ToStakeRow(k, s.stakes[k])))
    && (forall i :: 0 <= i < |s.validators| ==> ValidatorOk(s.validators[i]))
    && (forall i :: 0 <= i < |s.queue| ==> UnbondingOk(s.queue[i]))
    && IsWord(s.burned) && IsWord(s.issued)
  }

  lemma RowsOk<K(!new), V, R>(m: map<K, V>, rank: K -> int, row: (K, V) -> R, ok: R -> bool)
    requires Injective(rank) && forall k :: k in m ==> ok(row(k, m[k]))
    ensures |Rows(m, rank, row)| == |m|
    ensures forall i :: 0 <= i < |Rows(m, rank, row)| ==> ok(Rows(m, rank, row)[i])
  {
    SortedProperties(m.Keys, rank);
    forall i | 0 <= i < |Rows(m, rank, row)|
      ensures ok(Rows(m, rank, row)[i])
    {
      var k := RowIsEntry(m, rank, row, i);
    }
  }

  /** Reading one section off two equal streams. */
  lemma ReadSection<T(!new)>(xs: seq<T>, ys: seq<T>, enc: T -> seq<Field>, ok: T -> bool, r: seq<Field>, s: seq<Field>)
    requires Legible(enc, ok) && |xs| < TWO64 && |ys| < TWO64
    requires (forall i :: 0 <= i < |xs| ==> ok(xs[i])) && (forall i :: 0 <= i < |ys| ==> ok(ys[i]))
    requires Stream(Section(xs, enc) + r) == Stream(Section(ys, enc) + s)
    ensures xs == ys && Stream(r) == Stream(s)
  {
    StreamConcat(Section(xs, enc), r);
    StreamConcat(Section(ys, enc), s);
    SectionPrefix(xs, ys, enc, ok, Stream(r), Stream(s));
  }

  /** Reading a sorted map off two equal streams. */
  lemma ReadRows<K(!new), V(!new), R(!new)>(
      m: map<K, V>, n: map<K, V>, rank: K -> int, row: (K, V) -> R, enc: R -> seq<Field>, ok: R -> bool,
      r: seq<Field>, s: seq<Field>)
    requires Injective(rank) && KeyedRows(row) && Legible(enc, ok) && |m| < TWO64 && |n| < TWO64
    requires (forall k :: k in m ==> ok(row(k, m[k]))) && (forall k :: k in n ==> ok(row(k, n[k])))
    requires Stream(Section(Rows(m, rank, row), enc) + r) == Stream(Section(Rows(n, rank, row), enc) + s)
    ensures m.Keys == n.Keys && (forall k :: k in m ==> row(k, m[k]) == row(k, n[k]))
    ensures Stream(r) == Stream(s)
  {
    RowsOk(m, rank, row, ok);
    RowsOk(n, rank, row, ok);
    ReadSection(Rows(m, rank, row), Rows(n, rank, row), enc, ok, r, s);
    RowsDetermine(m, n, rank, row);
  }

  lemma ReadCounters(s: State, t: State)
    requires IsWord(s.burned) && IsWord(s.issued) && IsWord(t.burned) && IsWord(t.issued)
    requires Stream(Counters(s)) == Stream(Counters(t))
    ensures s.epoch == t.epoch && s.burned == t.burned && s.issued == t.issued && s.height == t.height
  {
    var f, g := Counters(s), Counters(t);
    StreamInjective(f, g);
    assert f[0] == g[0] && f[1] == g[1] && f[2] == g[2] && f[3] == g[3];
  }

  lemma ReadAccounts(s: State, t: State)
    requires Representable(s) && Representable(t) && Stream(RootFields(s)) == Stream(RootFields(t))
    ensures s.accounts.Keys == t.accounts.Keys
    ensures forall a :: a in s.accounts ==> ToAccountRow(a, s.accounts[a]) == ToAccountRow(a, t.accounts[a])
    ensures Stream(PostsOnwards(s)) == Stream(PostsOnwards(t))
  {
    RanksInjective();
    RowsKeyed();
    AccountsLegible();
    ReadRows(s.accounts, t.accounts, AddressRank, ToAccountRow, AccountRecord, AccountOk,
             PostsOnwards(s), PostsOnwards(t));
  }

  lemma RowsKeyed()
    ensures KeyedRows(ToAccountRow) && KeyedRows(ToPostRow) && KeyedRows(ToStakeRow)
  {}

  lemma SamePosts(m: map<PostId, Post>, n: map<PostId, Post>)
    requires m.Keys == n.Keys && forall id :: id in m ==> ToPostRow(id, m[id]) == ToPostRow(id, n[id])
    ensures m == n
  {}

  lemma SameStakes(m: map<StakeKey, Position>, n: map<StakeKey, Position>)
    requires m.Keys == n.Keys && forall k :: k in m ==> ToStakeRow(k, m[k]) == ToStakeRow(k, n[k])
    ensures m == n
  {}

  lemma ReadPosts(s: State, t: State)
    requires Representable(s) && Representable(t) && Stream(PostsOnwards(s)) == Stream(PostsOnwards(t))
    ensures s.posts == t.posts && Stream(StakesOnwards(s)) == Stream(StakesOnwards(t))
  {
    RanksInjective();
    RowsKeyed();
    PostsLegible();
    ReadRows(s.posts, t.posts, PostRank, ToPostRow, PostRecord, PostOk, StakesOnwards(s), StakesOnwards(t));
    SamePosts(s.posts, t.posts);
  }

  lemma ReadStakes(s: State, t: State)
    requires Representable(s) && Representable(t) && Stream(StakesOnwards(s)) == Stream(StakesOnwards(t))
    ensures s.stakes == t.stakes && Stream(ValidatorsOnwards(s)) == Stream(ValidatorsOnwards(t))
  {
    RanksInjective();
    RowsKeyed();
    StakesLegible();
    ReadRows(s.stakes, t.stakes, StakeRank, ToStakeRow, StakeRecord, StakeOk,
             ValidatorsOnwards(s), ValidatorsOnwards(t));
    SameStakes(s.stakes, t.stakes);
  }

  lemma ReadLists(s: State, t: State)
    requires Representable(s) && Representable(t) && Stream(ValidatorsOnwards(s)) == Stream(ValidatorsOnwards(t))
    ensures s.validators == t.validators && s.queue == t.queue && Stream(Counters(s)) == Stream(Counters(t))
  {
    ValidatorsLegible();
    ReadSection(s.validators, t.validators, ValidatorRecord, ValidatorOk, QueueOnwards(s), QueueOnwards(t));
    UnbondingLegible();
    ReadSection(s.queue, t.queue, UnbondingRecord, UnbondingOk, Counters(s), Counters(t));
  }

  /** Equal rows and equal positions leave no freedom for the unwritten post-stake balances. */
  lemma PostStakesDetermined(p: Params, s: State, t: State)
    requires Inv(p, s) && Inv(p, t) && s.stakes == t.stakes && s.accounts.Keys == t.accounts.Keys
    requires forall a :: a in s.accounts ==> ToAccountRow(a, s.accounts[a]) == ToAccountRow(a, t.accounts[a])
    ensures s.accounts == t.accounts
  {
    forall a | a in s.accounts
      ensures s.accounts[a] == t.accounts[a]
    {
      assert AccountAgrees(s.stakes, a, s.accounts[a]) && AccountAgrees(t.stakes, a, t.accounts[a]);
      assert ToAccountRow(a, s.accounts[a]) == ToAccountRow(a, t.accounts[a]);
    }
  }

  /** Equal accounts leave no freedom for the unwritten name index. */
  lemma NamesDetermined(accounts: map<Address, Account>, m: map<Bytes, Address>, n: map<Bytes, Address>)
    requires NamesMatch(accounts, m) && NamesMatch(accounts, n)
    ensures m == n
  {
    forall x: Bytes
      ensures x in m <==> x in n
      ensures x in m ==> m[x] == n[x]
    {
      NameIn(accounts, m, n, x);
      NameIn(accounts, n, m, x);
    }
  }

  lemma NameIn(accounts: map<Address, Account>, m: map<Bytes, Address>, n: map<Bytes, Address>, x: Bytes)
    requires NamesMatch(accounts, m) && NamesMatch(accounts, n)
    ensures x in m ==> x in n && n[x] == m[x]
  {
    if x in m {
      assert NameResolves(accounts, m, x);
      assert NameIndexed(accounts, n, m[x]);
    }
  }

  /** The state root determines the state: two states that satisfy the ledger invariant and print to the same bytes
      are equal in everything except the slash record, which is not printed. The post-stake balances and the name
      index are not printed either, but follow. */
  lemma RootDetermines(p: Params, s: State, t: State)
    requires Inv(p, s) && Inv(p, t) && Representable(s) && Representable(t)
    ensures Stream(RootFields(s)) == Stream(RootFields(t)) <==> s == t.(slashed := s.slashed)
  {
    if Stream(RootFields(s)) == Stream(RootFields(t)) {
      ReadAccounts(s, t);
      ReadPosts(s, t);
      ReadStakes(s, t);
      ReadLists(s, t);
      ReadCounters(s, t);
      PostStakesDetermined(p, s, t);
      NamesDetermined(s.accounts, s.names, t.names);
    }
  }
}
