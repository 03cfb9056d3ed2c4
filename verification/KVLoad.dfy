/** Loading a state back, and when that restores what was saved. */
module KVLoad {
  import opened Words
  import opened Types
  import opened Ledger
  import opened Invariant
  import opened BigEndians
  import opened Encoding
  import opened KVCodec
  import opened KVStores
  import opened WorldStates
  import opened StateRoots

  // ---------- What a store holds ----------

  ghost predicate AccountAt(db: Database, accounts: map<Address, Account>, a: Address, todo: set<Bytes>) {
    var b := KeyBytes(AccountKey(a));
    && (a in accounts <==> b in db && b !in todo)
    && (a in accounts ==> DecodeAccount(db[b]) == Some(StoredAccount(a, accounts[a])))
  }

  /** The accounts under the keys that are not in todo. */
  ghost predicate AccountsRead(db: Database, accounts: map<Address, Account>, todo: set<Bytes>) {
    forall a: Address {:trigger AccountAt(db, accounts, a, todo)} :: AccountAt(db, accounts, a, todo)
  }

  ghost predicate PostAt(db: Database, posts: map<PostId, Post>, id: PostId, todo: set<Bytes>) {
    var b := KeyBytes(PostKey(id));
    && (id in posts <==> b in db && b !in todo)
    && (id in posts ==> DecodePost(db[b]) == Some(StoredPost(id, posts[id])))
  }

  ghost predicate PostsRead(db: Database, posts: map<PostId, Post>, todo: set<Bytes>) {
    forall id: PostId {:trigger PostAt(db, posts, id, todo)} :: PostAt(db, posts, id, todo)
  }

  ghost predicate PositionAt(db: Database, stakes: map<StakeKey, Position>, k: StakeKey, todo: set<Bytes>) {
    var b := KeyBytes(PositionKey(k));
    && (k in stakes <==> b in db && b !in todo)
    && (k in stakes ==> DecodePostStake(db[b]) == Some(StoredPosition(k, stakes[k])))
  }

  ghost predicate PositionsRead(db: Database, stakes: map<StakeKey, Position>, todo: set<Bytes>) {
    forall k: StakeKey {:trigger PositionAt(db, stakes, k, todo)} :: PositionAt(db, stakes, k, todo)
  }

  /** An index built by setting accounts one after the other: every name resolves to a holder. */
  ghost predicate Indexed(accounts: map<Address, Account>, names: map<Bytes, Address>) {
    && (forall n {:trigger NameResolves(accounts, names, n)} :: n in names ==> NameResolves(accounts, names, n))
    && (forall a {:trigger NameKnown(accounts, names, a)} :: a in accounts ==> NameKnown(accounts, names, a))
  }

  ghost predicate NameKnown(accounts: map<Address, Account>, names: map<Bytes, Address>, a: Address)
    requires a in accounts
  {
    accounts[a].name != [] ==> accounts[a].name in names
  }

  function Counter(db: Database, k: Key): int {
    match Lookup(db, k)
    case None => 0
    case Some(v) => if |v| < 8 then 0 else WordAt(v, 0)
  }

  function ValidatorsIn(db: Database): seq<Validator> {
    match Lookup(db, ValidatorsKey)
    case None => []
    case Some(v) => ReadList(v, 64, ValidatorFrom)
  }

  function QueueIn(db: Database): seq<Unbonding> {
    match Lookup(db, QueueKey)
    case None => []
    case Some(v) => ReadList(v, 40, UnbondingFrom)
  }

  ghost predicate CountersRead(db: Database, s: State) {
    && s.burned == Counter(db, BurnedKey) && s.issued == Counter(db, IssuedKey)
    && s.height == Counter(db, HeightKey) && s.epoch == Counter(db, EpochKey)
    && s.validators == ValidatorsIn(db) && s.queue == QueueIn(db) && s.slashed == {}
  }

  /** The state is what the store holds; the slash record is empty because it is not stored. */
  ghost predicate LoadedFrom(db: Database, s: State) {
    && AccountsRead(db, s.accounts, {}) && Indexed(s.accounts, s.names)
    && PostsRead(db, s.posts, {}) && PositionsRead(db, s.stakes, {})
    && CountersRead(db, s)
  }

  // ---------- Steps of the scans ----------

  lemma KeyOf(db: Database, b: Bytes) returns (k: Key)
    requires Clean(db) && b in db
    ensures KeyBytes(k) == b && WellFiled(k, db[b])
    ensures HasPrefix(b, ACCOUNT_PREFIX) <==> k.AccountKey?
    ensures HasPrefix(b, POST_PREFIX) <==> k.PostKey?
    ensures HasPrefix(b, POSITION_PREFIX) <==> k.PositionKey?
  {
    assert Filed(db, b);
    k :| KeyBytes(k) == b && WellFiled(k, db[b]);
    PrefixExact(k);
  }

  lemma NoAccountsYet(db: Database, todo: set<Bytes>)
    requires forall b :: b in db && HasPrefix(b, ACCOUNT_PREFIX) ==> b in todo
    ensures AccountsRead(db, map[], todo)
  {
    forall a: Address
      ensures AccountAt(db, map[], a, todo)
    {
      PrefixExact(AccountKey(a));
    }
  }

  lemma NextAccount(db: Database, accounts: map<Address, Account>, todo: set<Bytes>, b: Bytes, r: StoredAccount)
    requires Clean(db) && AccountsRead(db, accounts, todo) && b in todo && b in db && HasPrefix(b, ACCOUNT_PREFIX)
    requires DecodeAccount(db[b]) == Some(r)
    ensures r.address !in accounts
    ensures AccountsRead(db, accounts[r.address := r.account], todo - {b})
  {
    var k := KeyOf(db, b);
    assert AccountAt(db, accounts, r.address, todo);
    var after, left := accounts[r.address := r.account], todo - {b};
    forall a: Address
      ensures AccountAt(db, after, a, left)
    {
      assert AccountAt(db, accounts, a, todo);
      if KeyBytes(AccountKey(a)) == b {
        KeysApart(AccountKey(a), k);
      }
    }
  }

  lemma NextName(accounts: map<Address, Account>, names: map<Bytes, Address>, a: Address, acct: Account)
    requires Indexed(accounts, names) && a !in accounts
    ensures Indexed(accounts[a := acct], if acct.name != [] then names[acct.name := a] else names)
  {
    var now, after := accounts[a := acct], if acct.name != [] then names[acct.name := a] else names;
    forall n | n in after
      ensures NameResolves(now, after, n)
    {
      assert n in names ==> NameResolves(accounts, names, n);
    }
    forall x | x in now
      ensures NameKnown(now, after, x)
    {
      assert x in accounts ==> NameKnown(accounts, names, x);
    }
  }

  ghost predicate AccountsDecode(db: Database) {
    forall b :: b in db && HasPrefix(b, ACCOUNT_PREFIX) ==> DecodeAccount(db[b]).Some?
  }

  /** Scans the account keys; fails on the first record that does not decode. */
  method LoadAccounts(db: Database, ws: WorldState) returns (ok: bool)
    requires ws.accounts == map[] && ws.nameIndex == map[]
    modifies ws`accounts, ws`nameIndex
    ensures ok <==> AccountsDecode(db)
    ensures ok && Clean(db) ==> AccountsRead(db, ws.accounts, {}) && Indexed(ws.accounts, ws.nameIndex)
  {
    var todo: set<Bytes> := set b | b in db && HasPrefix(b, ACCOUNT_PREFIX);
    NoAccountsYet(db, todo);
    while todo != {}
      invariant forall b :: b in todo ==> b in db && HasPrefix(b, ACCOUNT_PREFIX)
      invariant forall b :: b in db && HasPrefix(b, ACCOUNT_PREFIX) && b !in todo ==> DecodeAccount(db[b]).Some?
      invariant Clean(db) ==> AccountsRead(db, ws.accounts, todo) && Indexed(ws.accounts, ws.nameIndex)
      decreases todo
    {
      var b: Bytes :| b in todo;
      var r := DecodeAccount(db[b]);
      if r.None? {
        return false;
      }
      if Clean(db) {
        NextAccount(db, ws.accounts, todo, b, r.value);
        NextName(ws.accounts, ws.nameIndex, r.value.address, r.value.account);
      }
      ws.SetAccount(r.value.address, r.value.account);
      todo := todo - {b};
    }
    return true;
  }

  lemma NoPostsYet(db: Database, todo: set<Bytes>)
    requires forall b :: b in db && HasPrefix(b, POST_PREFIX) ==> b in todo
    ensures PostsRead(db, map[], todo)
  {
    forall id: PostId
      ensures PostAt(db, map[], id, todo)
    {
      PrefixExact(PostKey(id));
    }
  }

  lemma NextPost(db: Database, posts: map<PostId, Post>, todo: set<Bytes>, b: Bytes, r: StoredPost)
    requires Clean(db) && PostsRead(db, posts, todo) && b in todo && b in db && HasPrefix(b, POST_PREFIX)
    requires DecodePost(db[b]) == Some(r)
    ensures PostsRead(db, posts[r.id := r.post], todo - {b})
  {
    var k := KeyOf(db, b);
    var after, left := posts[r.id := r.post], todo - {b};
    forall id: PostId
      ensures PostAt(db, after, id, left)
    {
      assert PostAt(db, posts, id, todo);
      if KeyBytes(PostKey(id)) == b {
        KeysApart(PostKey(id), k);
      }
    }
  }

  ghost predicate PostsDecode(db: Database) {
    forall b :: b in db && HasPrefix(b, POST_PREFIX) ==> DecodePost(db[b]).Some?
  }

  /** Scans the post keys; fails on the first record that does not decode. */
  method LoadPosts(db: Database, ws: WorldState) returns (ok: bool)
    requires ws.posts == map[]
    modifies ws`posts
    ensures ok <==> PostsDecode(db)
    ensures ok && Clean(db) ==> PostsRead(db, ws.posts, {})
  {
    var todo: set<Bytes> := set b | b in db && HasPrefix(b, POST_PREFIX);
    NoPostsYet(db, todo);
    while todo != {}
      invariant forall b :: b in todo ==> b in db && HasPrefix(b, POST_PREFIX)
      invariant forall b :: b in db && HasPrefix(b, POST_PREFIX) && b !in todo ==> DecodePost(db[b]).Some?
      invariant Clean(db) ==> PostsRead(db, ws.posts, todo)
      decreases todo
    {
      var b: Bytes :| b in todo;
      var r := DecodePost(db[b]);
      if r.None? {
        return false;
      }
      if Clean(db) {
        NextPost(db, ws.posts, todo, b, r.value);
      }
      ws.posts := ws.posts[r.value.id := r.value.post];
      todo := todo - {b};
    }
    return true;
  }

  lemma NoPositionsYet(db: Database, todo: set<Bytes>)
    requires forall b :: b in db && HasPrefix(b, POSITION_PREFIX) ==> b in todo
    ensures PositionsRead(db, map[], todo)
  {
    forall k: StakeKey
      ensures PositionAt(db, map[], k, todo)
    {
      PrefixExact(PositionKey(k));
    }
  }

  lemma NextPosition(db: Database, stakes: map<StakeKey, Position>, todo: set<Bytes>, b: Bytes)
    requires Clean(db) && PositionsRead(db, stakes, todo) && b in todo && b in db && HasPrefix(b, POSITION_PREFIX)
    ensures DecodePostStake(db[b]).Some?
    ensures var r := DecodePostStake(db[b]).value; PositionsRead(db, stakes[r.key := r.position], todo - {b})
  {
    var k := KeyOf(db, b);
    var r := DecodePostStake(db[b]).value;
    var after, left := stakes[r.key := r.position], todo - {b};
    forall l: StakeKey
      ensures PositionAt(db, after, l, left)
    {
      assert PositionAt(db, stakes, l, todo);
      if KeyBytes(PositionKey(l)) == b {
        KeysApart(PositionKey(l), k);
      }
    }
  }

  /** Scans the position keys; a record that does not decode is skipped. */
  method LoadPositions(db: Database, ws: WorldState)
    requires ws.postStakes == map[]
    modifies ws`postStakes
    ensures Clean(db) ==> PositionsRead(db, ws.postStakes, {})
  {
    var todo: set<Bytes> := set b | b in db && HasPrefix(b, POSITION_PREFIX);
    NoPositionsYet(db, todo);
    while todo != {}
      invariant forall b :: b in todo ==> b in db && HasPrefix(b, POSITION_PREFIX)
      invariant Clean(db) ==> PositionsRead(db, ws.postStakes, todo)
      decreases todo
    {
      var b: Bytes :| b in todo;
      var r := DecodePostStake(db[b]);
      if Clean(db) {
        NextPosition(db, ws.postStakes, todo, b);
      }
      if r.Some? {
        ws.postStakes := ws.postStakes[r.value.key := r.value.position];
      }
      todo := todo - {b};
    }
  }

  /** A counter record shorter than a word makes the reader panic. */
  predicate CounterReadable(db: Database, k: Key) {
    Lookup(db, k).Some? ==> |Lookup(db, k).value| >= 8
  }

  predicate CountersReadable(db: Database) {
    CounterReadable(db, BurnedKey) && CounterReadable(db, IssuedKey)
    && CounterReadable(db, HeightKey) && CounterReadable(db, EpochKey)
  }

  method LoadMeta(db: Database, ws: WorldState) returns (ok: bool)
    modifies ws`burnedSupply, ws`issuedSupply, ws`chainHeight, ws`currentEpoch, ws`activeValidators, ws`unbondingQueue
    requires ws.View() == State(ws.accounts, ws.posts, ws.nameIndex, ws.postStakes, [], [], {}, 0, 0, 0, 0)
    ensures ok <==> CountersReadable(db)
    ensures ok ==> CountersRead(db, ws.View())
  {
    if !CountersReadable(db) {
      return false;
    }
    ws.burnedSupply, ws.issuedSupply := Counter(db, BurnedKey), Counter(db, IssuedKey);
    ws.chainHeight, ws.currentEpoch := Counter(db, HeightKey), Counter(db, EpochKey);
    var validators := Lookup(db, ValidatorsKey);
    if validators.Some? {
      ws.activeValidators := DecodeValidatorSet(validators.value);
    }
    var queue := Lookup(db, QueueKey);
    if queue.Some? {
      ws.unbondingQueue := DecodeUnbondingQueue(queue.value);
    }
    return true;
  }

  /** In a clean store every record can be read. */
  lemma CleanIsReadable(db: Database)
    requires Clean(db)
    ensures AccountsDecode(db) && PostsDecode(db) && CountersReadable(db)
  {
    forall b | b in db && HasPrefix(b, ACCOUNT_PREFIX)
      ensures DecodeAccount(db[b]).Some?
    {
      var k := KeyOf(db, b);
    }
    forall b | b in db && HasPrefix(b, POST_PREFIX)
      ensures DecodePost(db[b]).Some?
    {
      var k := KeyOf(db, b);
    }
    CleanCounter(db, BurnedKey);
    CleanCounter(db, IssuedKey);
    CleanCounter(db, HeightKey);
    CleanCounter(db, EpochKey);
  }

  lemma CleanCounter(db: Database, k: Key)
    requires Clean(db) && (k.BurnedKey? || k.IssuedKey? || k.HeightKey? || k.EpochKey?)
    ensures CounterReadable(db, k)
  {
    if KeyBytes(k) in db {
      var l := KeyOf(db, KeyBytes(k));
      KeysApart(k, l);
    }
  }

  /** Reads a state: fails exactly when an account, a post or a counter does not decode; from a store of
      well-filed records it yields what the store holds. */
  method LoadState(kv: KVStore) returns (ws: WorldState?)
    ensures ws != null <==> AccountsDecode(kv.db) && PostsDecode(kv.db) && CountersReadable(kv.db)
    ensures Clean(kv.db) ==> ws != null && LoadedFrom(kv.db, ws.View())
    ensures ws != null ==> fresh(ws)
  {
    if Clean(kv.db) {
      CleanIsReadable(kv.db);
    }
    var state := new WorldState();
    var ok := LoadAccounts(kv.db, state);
    if !ok {
      return null;
    }
    ok := LoadPosts(kv.db, state);
    if !ok {
      return null;
    }
    ok := LoadMeta(kv.db, state);
    if !ok {
      return null;
    }
    LoadPositions(kv.db, state);
    return state;
  }

  // ---------- Round trip ----------

  /** Nothing in the store is left over from a record the state no longer has. */
  ghost predicate NoStale(db: Database, s: State) {
    forall k {:trigger StaleAt(db, s, k)} :: !StaleAt(db, s, k)
  }

  ghost predicate StaleAt(db: Database, s: State, k: Key) {
    Lookup(db, k).Some? && RecordOf(s, k).None?
  }

  lemma LoadedAccount(db: Database, s: State, after: Database, t: State, a: Address)
    requires SavedOver(db, s, after) && AccountsRead(after, t.accounts, {}) && Storable(s)
    ensures a in t.accounts <==> a in s.accounts || StaleAt(db, s, AccountKey(a))
    ensures a in s.accounts ==> a in t.accounts && t.accounts[a] == s.accounts[a]
  {
    assert SavedAt(db, s, after, AccountKey(a)) && AccountAt(after, t.accounts, a, {});
    if a in s.accounts {
      AccountRoundTrip(a, s.accounts[a]);
    }
  }

  lemma LoadedPost(db: Database, s: State, after: Database, t: State, id: PostId)
    requires SavedOver(db, s, after) && PostsRead(after, t.posts, {}) && Storable(s)
    ensures id in t.posts <==> id in s.posts || StaleAt(db, s, PostKey(id))
    ensures id in s.posts ==> id in t.posts && t.posts[id] == s.posts[id]
  {
    assert SavedAt(db, s, after, PostKey(id)) && PostAt(after, t.posts, id, {});
    if id in s.posts {
      PostRoundTrip(id, s.posts[id]);
    }
  }

  lemma LoadedPosition(db: Database, s: State, after: Database, t: State, k: StakeKey)
    requires SavedOver(db, s, after) && PositionsRead(after, t.stakes, {}) && Storable(s)
    ensures k in t.stakes <==> k in s.stakes || StaleAt(db, s, PositionKey(k))
    ensures k in s.stakes ==> k in t.stakes && t.stakes[k] == s.stakes[k]
  {
    assert SavedAt(db, s, after, PositionKey(k)) && PositionAt(after, t.stakes, k, {});
    if k in s.stakes {
      PositionRoundTrip(k, s.stakes[k]);
    }
  }

  lemma LoadedCounter(v: Uint64)
    ensures WordAt(BigEndian(8, v), 0) == v
  {
    var b := BigEndian(8, v);
    assert b[0..] == b + [];
    ReadWord(b, 0, v, []);
  }

  lemma LoadedCounterAt(db: Database, s: State, after: Database, k: Key, v: Uint64)
    requires SavedOver(db, s, after) && RecordOf(s, k) == Some(BigEndian(8, v))
    ensures Counter(after, k) == v
  {
    assert SavedAt(db, s, after, k);
    LoadedCounter(v);
  }

  lemma ValidatorsRoundTrip(vs: seq<Validator>, v: Bytes)
    requires |vs| < TWO32 && forall i :: 0 <= i < |vs| ==> 0 <= vs[i].stake < TWO64
    requires v == ListBytes(vs, ValidatorBytes)
    ensures ReadList(v, 64, ValidatorFrom) == vs
  {
    forall i | 0 <= i < |vs|
      ensures ValidatorFrom(ValidatorBytes(vs[i])) == vs[i]
    {
      ValidatorRoundTrip(vs[i]);
    }
    ListRoundTrip(vs, 64, ValidatorBytes, ValidatorFrom);
  }

  lemma QueueRoundTrip(q: seq<Unbonding>, v: Bytes)
    requires |q| < TWO32 && forall i :: 0 <= i < |q| ==> 0 <= q[i].amount < TWO64
    requires v == ListBytes(q, UnbondingBytes)
    ensures ReadList(v, 40, UnbondingFrom) == q
  {
    forall i | 0 <= i < |q|
      ensures UnbondingFrom(UnbondingBytes(q[i])) == q[i]
    {
      UnbondingRoundTrip(q[i]);
    }
    ListRoundTrip(q, 40, UnbondingBytes, UnbondingFrom);
  }

  lemma ValidatorsSaved(db: Database, s: State, after: Database, v: Bytes)
    requires SavedOver(db, s, after) && RecordOf(s, ValidatorsKey) == Some(v)
    ensures ValidatorsIn(after) == ReadList(v, 64, ValidatorFrom)
  {
    assert SavedAt(db, s, after, ValidatorsKey);
  }

  lemma QueueSaved(db: Database, s: State, after: Database, v: Bytes)
    requires SavedOver(db, s, after) && RecordOf(s, QueueKey) == Some(v)
    ensures QueueIn(after) == ReadList(v, 40, UnbondingFrom)
  {
    assert SavedAt(db, s, after, QueueKey);
  }

  lemma LoadedValidators(db: Database, s: State, after: Database)
    requires SavedOver(db, s, after) && Storable(s)
    ensures ValidatorsIn(after) == s.validators
  {
    var v := RecordOf(s, ValidatorsKey).value;
    ValidatorsSaved(db, s, after, v);
    ValidatorsRoundTrip(s.validators, v);
  }

  lemma LoadedQueue(db: Database, s: State, after: Database)
    requires SavedOver(db, s, after) && Storable(s)
    ensures QueueIn(after) == s.queue
  {
    var v := RecordOf(s, QueueKey).value;
    QueueSaved(db, s, after, v);
    QueueRoundTrip(s.queue, v);
  }

  /** Counters, validators and queue always come back. */
  lemma LoadedMeta(db: Database, s: State, after: Database, t: State)
    requires SavedOver(db, s, after) && CountersRead(after, t) && Storable(s)
    ensures t.burned == s.burned && t.issued == s.issued && t.height == s.height && t.epoch == s.epoch
    ensures t.validators == s.validators && t.queue == s.queue && t.slashed == {}
  {
    LoadedCounterAt(db, s, after, BurnedKey, s.burned);
    LoadedCounterAt(db, s, after, IssuedKey, s.issued);
    LoadedCounterAt(db, s, after, HeightKey, s.height);
    LoadedCounterAt(db, s, after, EpochKey, s.epoch);
    LoadedValidators(db, s, after);
    LoadedQueue(db, s, after);
  }

  /** What loading after saving yields, whatever the store held before: every saved record, and besides them
      exactly the stale ones. */
  lemma LoadedRecords(db: Database, s: State, after: Database, t: State)
    requires SavedOver(db, s, after) && LoadedFrom(after, t) && Storable(s)
    ensures t.accounts == s.accounts <==> forall a :: !StaleAt(db, s, AccountKey(a))
    ensures t.posts == s.posts <==> forall id :: !StaleAt(db, s, PostKey(id))
    ensures t.stakes == s.stakes <==> forall k :: !StaleAt(db, s, PositionKey(k))
  {
    forall a: Address
      ensures a in t.accounts <==> a in s.accounts || StaleAt(db, s, AccountKey(a))
      ensures a in s.accounts ==> a in t.accounts && t.accounts[a] == s.accounts[a]
    {
      LoadedAccount(db, s, after, t, a);
    }
    forall id: PostId
      ensures id in t.posts <==> id in s.posts || StaleAt(db, s, PostKey(id))
      ensures id in s.posts ==> id in t.posts && t.posts[id] == s.posts[id]
    {
      LoadedPost(db, s, after, t, id);
    }
    forall k: StakeKey
      ensures k in t.stakes <==> k in s.stakes || StaleAt(db, s, PositionKey(k))
      ensures k in s.stakes ==> k in t.stakes && t.stakes[k] == s.stakes[k]
    {
      LoadedPosition(db, s, after, t, k);
    }
  }

  lemma NoStaleByKind(db: Database, s: State)
    ensures NoStale(db, s) <==>
      && (forall a :: !StaleAt(db, s, AccountKey(a)))
      && (forall id :: !StaleAt(db, s, PostKey(id)))
      && (forall k :: !StaleAt(db, s, PositionKey(k)))
  {}

  lemma LoadedNames(accounts: map<Address, Account>, saved: map<Bytes, Address>, loaded: map<Bytes, Address>)
    requires NamesMatch(accounts, saved) && Indexed(accounts, loaded)
    ensures loaded == saved
  {
    forall n: Bytes
      ensures n in loaded <==> n in saved
      ensures n in loaded ==> loaded[n] == saved[n]
    {
      if n in loaded {
        assert NameResolves(accounts, loaded, n);
        assert NameIndexed(accounts, saved, loaded[n]);
      }
      if n in saved {
        assert NameResolves(accounts, saved, n);
        assert NameKnown(accounts, loaded, saved[n]);
      }
    }
  }

  lemma RestoredExactly(p: Params, db: Database, s: State, after: Database, t: State)
    requires Inv(p, s) && Storable(s) && SavedOver(db, s, after) && LoadedFrom(after, t)
    ensures NoStale(db, s) <==> t.accounts == s.accounts && t.posts == s.posts && t.stakes == s.stakes
    ensures NoStale(db, s) <==> t == s.(slashed := {})
  {
    LoadedRecords(db, s, after, t);
    LoadedMeta(db, s, after, t);
    NoStaleByKind(db, s);
    if t.accounts == s.accounts {
      LoadedNames(s.accounts, s.names, t.names);
    }
  }

  lemma SameRootSameRecords(db: Database, s: State, after: Database, t: State)
    requires Storable(s) && SavedOver(db, s, after) && AccountsRead(after, t.accounts, {})
    requires Representable(s) && Representable(t) && Stream(RootFields(t)) == Stream(RootFields(s))
    ensures t.accounts == s.accounts && t.posts == s.posts && t.stakes == s.stakes
  {
    ReadAccounts(t, s);
    ReadPosts(t, s);
    ReadStakes(t, s);
    SameAccountKeys(db, s, after, t);
  }

  /** Saving and loading restores the state, all but its slash record, exactly when the store held nothing stale;
      and exactly then the state root is the same. */
  lemma PersistenceRoundTrip(p: Params, db: Database, s: State, after: Database, t: State)
    requires Inv(p, s) && Storable(s) && SavedOver(db, s, after) && LoadedFrom(after, t)
    requires Representable(s) && Representable(t)
    ensures NoStale(db, s) <==> t == s.(slashed := {})
    ensures NoStale(db, s) <==> Stream(RootFields(t)) == Stream(RootFields(s))
  {
    RestoredExactly(p, db, s, after, t);
    if t == s.(slashed := {}) {
      SlashesNotPrinted(s, t);
    } else if Stream(RootFields(t)) == Stream(RootFields(s)) {
      SameRootSameRecords(db, s, after, t);
    }
  }

  lemma SlashesNotPrinted(s: State, t: State)
    requires t == s.(slashed := {})
    ensures Stream(RootFields(t)) == Stream(RootFields(s))
  {}

  lemma SameAccountKeys(db: Database, s: State, after: Database, t: State)
    requires SavedOver(db, s, after) && AccountsRead(after, t.accounts, {}) && Storable(s)
    requires t.accounts.Keys == s.accounts.Keys
    ensures t.accounts == s.accounts
  {
    forall a: Address
      ensures a in s.accounts ==> t.accounts[a] == s.accounts[a]
    {
      LoadedAccount(db, s, after, t, a);
    }
  }

  /** A fresh database holds nothing stale. */
  lemma EmptyStoreRoundTrip(p: Params, s: State, after: Database, t: State)
    requires Inv(p, s) && Storable(s) && Representable(s) && Representable(t)
    requires SavedOver(map[], s, after) && LoadedFrom(after, t)
    ensures t == s.(slashed := {}) && Stream(RootFields(t)) == Stream(RootFields(s))
  {
    PersistenceRoundTrip(p, map[], s, after, t);
  }
}
