/** The key-value store: where each record lives, and what saving and loading a whole state does. */
module KVStores {
  import opened Words
  import opened Types
  import opened Ledger
  import opened BigEndians
  import opened KVCodec
  import opened WorldStates

  // ---------- Keys ----------

  datatype Key =
    | AccountKey(address: Address) | PostKey(id: PostId) | PositionKey(key: StakeKey)
    | BurnedKey | IssuedKey | HeightKey | EpochKey | ValidatorsKey | QueueKey

  function Ascii(s: string): (b: Bytes)
    ensures |b| == |s|
  {
    seq(|s|, i requires 0 <= i < |s| => s[i] as int % 256)
  }

  const ACCOUNT_PREFIX: Bytes := Ascii("account:")
  const POST_PREFIX: Bytes := Ascii("post:")
  const POSITION_PREFIX: Bytes := Ascii("poststake:")

  function KeyBytes(k: Key): Bytes {
    match k
    case AccountKey(a) => ACCOUNT_PREFIX + BigEndian(24, a)
    case PostKey(id) => POST_PREFIX + BigEndian(32, id)
    case PositionKey(sk) => POSITION_PREFIX + (BigEndian(32, sk.post) + BigEndian(24, sk.staker))
    case BurnedKey => Ascii("meta:burned_supply")
    case IssuedKey => Ascii("meta:issued_supply")
    case HeightKey => Ascii("meta:chain_height")
    case EpochKey => Ascii("meta:current_epoch")
    case ValidatorsKey => Ascii("meta:active_validators")
    case QueueKey => Ascii("meta:unbonding_queue")
  }

  predicate HasPrefix(b: Bytes, prefix: Bytes) {
    |prefix| <= |b| && b[..|prefix|] == prefix
  }

  /** What kind of key a stored key is: its first byte and, for the two post prefixes, its fifth. */
  function Mark(k: Key): (int, int) {
    match k
    case AccountKey(_) => (97, 117)
    case PostKey(_) => (112, 58)
    case PositionKey(_) => (112, 115)
    case _ => (109, 58)
  }

  lemma KeyMark(k: Key)
    ensures |KeyBytes(k)| >= 17 && KeyBytes(k)[0] == Mark(k).0 && KeyBytes(k)[4] == Mark(k).1
  {}

  /** Scanning a prefix visits exactly the keys of that kind; in particular scanning posts skips positions. */
  lemma PrefixExact(k: Key)
    ensures HasPrefix(KeyBytes(k), ACCOUNT_PREFIX) <==> k.AccountKey?
    ensures HasPrefix(KeyBytes(k), POST_PREFIX) <==> k.PostKey?
    ensures HasPrefix(KeyBytes(k), POSITION_PREFIX) <==> k.PositionKey?
  {
    KeyMark(k);
    var b := KeyBytes(k);
    assert HasPrefix(b, ACCOUNT_PREFIX) ==> b[0] == ACCOUNT_PREFIX[0] == 97;
    assert HasPrefix(b, POST_PREFIX) ==> b[0] == POST_PREFIX[0] == 112 && b[4] == POST_PREFIX[4] == 58;
    assert HasPrefix(b, POSITION_PREFIX) ==> b[0] == POSITION_PREFIX[0] == 112 && b[4] == POSITION_PREFIX[4] == 115;
  }

  lemma MetaApart(k: Key, l: Key)
    requires Mark(k).0 == 109 && Mark(l).0 == 109 && KeyBytes(k) == KeyBytes(l)
    ensures k == l
  {
    var b := KeyBytes(k);
    assert b[5] == KeyBytes(l)[5] && b[6] == KeyBytes(l)[6];
    assert k.BurnedKey? ==> b[5] == 98;
    assert k.IssuedKey? ==> b[5] == 105;
    assert k.HeightKey? ==> b[5] == 99 && b[6] == 104;
    assert k.EpochKey? ==> b[5] == 99 && b[6] == 117;
    assert k.ValidatorsKey? ==> b[5] == 97;
    assert k.QueueKey? ==> b[5] == 117;
    var c := KeyBytes(l);
    assert l.BurnedKey? ==> c[5] == 98;
    assert l.IssuedKey? ==> c[5] == 105;
    assert l.HeightKey? ==> c[5] == 99 && c[6] == 104;
    assert l.EpochKey? ==> c[5] == 99 && c[6] == 117;
    assert l.ValidatorsKey? ==> c[5] == 97;
    assert l.QueueKey? ==> c[5] == 117;
  }

  lemma PositionKeysApart(k: StakeKey, l: StakeKey)
    requires KeyBytes(PositionKey(k)) == KeyBytes(PositionKey(l))
    ensures k == l
  {
    Pow256Literals();
    SplitEqual(POSITION_PREFIX, POSITION_PREFIX,
      BigEndian(32, k.post) + BigEndian(24, k.staker), BigEndian(32, l.post) + BigEndian(24, l.staker));
    FixedPrefix(32, k.post, l.post, BigEndian(24, k.staker), BigEndian(24, l.staker));
    BigEndianRoundTrip(24, k.staker);
    BigEndianRoundTrip(24, l.staker);
  }

  /** Different records never share a key. */
  lemma KeysApart(k: Key, l: Key)
    requires KeyBytes(k) == KeyBytes(l)
    ensures k == l
  {
    KeyMark(k);
    KeyMark(l);
    Pow256Literals();
    match k
    case AccountKey(a) =>
      SplitEqual(ACCOUNT_PREFIX, ACCOUNT_PREFIX, BigEndian(24, a), BigEndian(24, l.address));
      BigEndianRoundTrip(24, a);
      BigEndianRoundTrip(24, l.address);
    case PostKey(id) =>
      SplitEqual(POST_PREFIX, POST_PREFIX, BigEndian(32, id), BigEndian(32, l.id));
      BigEndianRoundTrip(32, id);
      BigEndianRoundTrip(32, l.id);
    case PositionKey(sk) => PositionKeysApart(sk, l.key);
    case _ => MetaApart(k, l);
  }

  // ---------- Stores ----------

  type Database = map<Bytes, Bytes>

  function Lookup(db: Database, k: Key): Option<Bytes> {
    if KeyBytes(k) in db then Some(db[KeyBytes(k)]) else None
  }

  lemma SetOne(db: Database, k: Key, v: Bytes, l: Key)
    ensures Lookup(db[KeyBytes(k) := v], l) == if l == k then Some(v) else Lookup(db, l)
  {
    if KeyBytes(k) == KeyBytes(l) {
      KeysApart(k, l);
    }
  }

  /** What a state stores under a key, if anything. */
  function RecordOf(s: State, k: Key): Option<Bytes> {
    match k
    case AccountKey(a) => if a in s.accounts then Some(AccountBytes(a, s.accounts[a])) else None
    case PostKey(id) => if id in s.posts then Some(PostBytes(id, s.posts[id])) else None
    case PositionKey(sk) => if sk in s.stakes then Some(PositionBytes(sk, s.stakes[sk])) else None
    case BurnedKey => Some(BigEndian(8, Wrap(s.burned)))
    case IssuedKey => Some(BigEndian(8, Wrap(s.issued)))
    case HeightKey => Some(BigEndian(8, s.height))
    case EpochKey => Some(BigEndian(8, s.epoch))
    case ValidatorsKey => Some(ListBytes(s.validators, ValidatorBytes))
    case QueueKey => Some(ListBytes(s.queue, UnbondingBytes))
  }

  /** After a save, every key of the state holds its record, every other key holds what it held before, and the store
      has no further keys. */
  ghost predicate SavedOver(before: Database, s: State, after: Database) {
    && (forall k {:trigger SavedAt(before, s, after, k)} :: SavedAt(before, s, after, k))
    && NothingElse(before, s, after)
  }

  ghost predicate NothingElse(before: Database, s: State, after: Database) {
    forall b {:trigger b in after} :: b in after ==> b in before || Recorded(s, b)
  }

  /** The state stores something under these key bytes. */
  ghost predicate Recorded(s: State, b: Bytes) {
    exists k :: KeyBytes(k) == b && RecordOf(s, k).Some?
  }

  ghost predicate SavedAt(before: Database, s: State, after: Database, k: Key) {
    Lookup(after, k) == if RecordOf(s, k).Some? then RecordOf(s, k) else Lookup(before, k)
  }

  /** Every stored pair is a record filed under its own key. */
  ghost predicate Clean(db: Database) {
    forall b {:trigger Filed(db, b)} :: b in db ==> Filed(db, b)
  }

  ghost predicate Filed(db: Database, b: Bytes)
    requires b in db
  {
    exists k :: KeyBytes(k) == b && WellFiled(k, db[b])
  }

  predicate WellFiled(k: Key, v: Bytes) {
    match k
    case AccountKey(a) => DecodeAccount(v).Some? && DecodeAccount(v).value.address == a
    case PostKey(id) => DecodePost(v).Some? && DecodePost(v).value.id == id
    case PositionKey(sk) => DecodePostStake(v).Some? && DecodePostStake(v).value.key == sk
    case ValidatorsKey => true
    case QueueKey => true
    case _ => |v| == 8
  }

  /** Some keys of a state have been written over a store. */
  ghost predicate Written(before: Database, s: State, db: Database, done: set<Key>) {
    && (forall k {:trigger Lookup(db, k)} :: Lookup(db, k) == if k in done then RecordOf(s, k) else Lookup(before, k))
    && (forall b {:trigger b in db} :: b in db ==> b in before || exists k :: k in done && KeyBytes(k) == b)
  }

  lemma WriteOne(before: Database, s: State, db: Database, done: set<Key>, k: Key, v: Bytes)
    requires Written(before, s, db, done) && RecordOf(s, k) == Some(v)
    ensures Written(before, s, db[KeyBytes(k) := v], done + {k})
  {
    var after := db[KeyBytes(k) := v];
    forall l
      ensures Lookup(after, l) == if l in done + {k} then RecordOf(s, l) else Lookup(before, l)
    {
      SetOne(db, k, v, l);
      assert Lookup(db, l) == if l in done then RecordOf(s, l) else Lookup(before, l);
    }
    forall b | b in after
      ensures b in before || exists l :: l in done + {k} && KeyBytes(l) == b
    {
      if b == KeyBytes(k) {
        assert k in done + {k} && KeyBytes(k) == b;
      } else if b !in before {
        assert b in db;
        var l :| l in done && KeyBytes(l) == b;
        assert l in done + {k};
      }
    }
  }

  class KVStore {
    var db: Database

    constructor ()
      ensures db == map[]
    {
      db := map[];
    }

    method Set(k: Key, v: Bytes, ghost before: Database, ghost s: State, ghost done: set<Key>)
      requires Written(before, s, db, done) && RecordOf(s, k) == Some(v)
      modifies this
      ensures Written(before, s, db, done + {k})
    {
      WriteOne(before, s, db, done, k, v);
      db := db[KeyBytes(k) := v];
    }

    method SaveAccounts(ws: WorldState, ghost before: Database, ghost done: set<Key>) returns (ghost now: set<Key>)
      requires Written(before, ws.View(), db, done)
      modifies this
      ensures now == done + (set a | a in ws.accounts :: AccountKey(a))
      ensures Written(before, ws.View(), db, now)
    {
      now := done;
      var todo := ws.accounts.Keys;
      while todo != {}
        invariant todo <= ws.accounts.Keys
        invariant now == done + (set a | a in ws.accounts && a !in todo :: AccountKey(a))
        invariant Written(before, ws.View(), db, now)
        decreases todo
      {
        var a: Address :| a in todo;
        var v := EncodeAccount(a, ws.accounts[a]);
        Set(AccountKey(a), v, before, ws.View(), now);
        now := now + {AccountKey(a)};
        todo := todo - {a};
      }
    }

    method SavePosts(ws: WorldState, ghost before: Database, ghost done: set<Key>) returns (ghost now: set<Key>)
      requires Written(before, ws.View(), db, done)
      modifies this
      ensures now == done + (set id | id in ws.posts :: PostKey(id))
      ensures Written(before, ws.View(), db, now)
    {
      now := done;
      var todo := ws.posts.Keys;
      while todo != {}
        invariant todo <= ws.posts.Keys
        invariant now == done + (set id | id in ws.posts && id !in todo :: PostKey(id))
        invariant Written(before, ws.View(), db, now)
        decreases todo
      {
        var id: PostId :| id in todo;
        var v := EncodePost(id, ws.posts[id]);
        Set(PostKey(id), v, before, ws.View(), now);
        now := now + {PostKey(id)};
        todo := todo - {id};
      }
    }

    method SavePositions(ws: WorldState, ghost before: Database, ghost done: set<Key>) returns (ghost now: set<Key>)
      requires Written(before, ws.View(), db, done)
      modifies this
      ensures now == done + (set k | k in ws.postStakes :: PositionKey(k))
      ensures Written(before, ws.View(), db, now)
    {
      now := done;
      var todo := ws.postStakes.Keys;
      while todo != {}
        invariant todo <= ws.postStakes.Keys
        invariant now == done + (set k | k in ws.postStakes && k !in todo :: PositionKey(k))
        invariant Written(before, ws.View(), db, now)
        decreases todo
      {
        var k: StakeKey :| k in todo;
        var v := EncodePostStake(k, ws.postStakes[k]);
        Set(PositionKey(k), v, before, ws.View(), now);
        now := now + {PositionKey(k)};
        todo := todo - {k};
      }
    }

    method SaveMeta(ws: WorldState, ghost before: Database, ghost done: set<Key>) returns (ghost now: set<Key>)
      requires Written(before, ws.View(), db, done)
      modifies this
      ensures now == done + {BurnedKey, IssuedKey, HeightKey, EpochKey, ValidatorsKey, QueueKey}
      ensures Written(before, ws.View(), db, now)
    {
      ghost var s := ws.View();
      Set(BurnedKey, BigEndian(8, Wrap(ws.burnedSupply)), before, s, done);
      now := done + {BurnedKey};
      Set(IssuedKey, BigEndian(8, Wrap(ws.issuedSupply)), before, s, now);
      now := now + {IssuedKey};
      Set(HeightKey, BigEndian(8, ws.chainHeight), before, s, now);
      now := now + {HeightKey};
      Set(EpochKey, BigEndian(8, ws.currentEpoch), before, s, now);
      now := now + {EpochKey};
      var validators := EncodeValidatorSet(ws.activeValidators);
      Set(ValidatorsKey, validators, before, s, now);
      now := now + {ValidatorsKey};
      var queue := EncodeUnbondingQueue(ws.unbondingQueue);
      Set(QueueKey, queue, before, s, now);
      now := now + {QueueKey};
    }

    /** Writes every record of the state, in any order, and deletes nothing. */
    method SaveState(ws: WorldState)
      modifies this
      ensures SavedOver(old(db), ws.View(), db)
      ensures Clean(old(db)) && Storable(ws.View()) ==> Clean(db)
    {
      ghost var before, s := db, ws.View();
      var done := SaveAccounts(ws, before, {});
      done := SavePosts(ws, before, done);
      done := SaveMeta(ws, before, done);
      done := SavePositions(ws, before, done);
      AllWritten(before, s, db, done);
      if Clean(before) && Storable(s) {
        SavedClean(before, s, db);
      }
    }
  }

  /** Once every key of the state has been written, the save is complete. */
  lemma AllWritten(before: Database, s: State, db: Database, done: set<Key>)
    requires Written(before, s, db, done) && forall k :: k in done <==> RecordOf(s, k).Some?
    ensures SavedOver(before, s, db)
  {
    forall k
      ensures SavedAt(before, s, db, k)
    {
      assert Lookup(db, k) == if k in done then RecordOf(s, k) else Lookup(before, k);
    }
    forall b | b in db
      ensures b in before || Recorded(s, b)
    {
      if b !in before {
        var k :| k in done && KeyBytes(k) == b;
        assert KeyBytes(k) == b && RecordOf(s, k).Some?;
      }
    }
  }

  // ---------- Records are filed under their own keys ----------

  /** What Go's types guarantee, with lengths and counts below 2^32 as the stored layouts need. */
  ghost predicate Storable(s: State) {
    && (forall a :: a in s.accounts ==> AccountStorable(s.accounts[a]))
    && (forall id :: id in s.posts ==> PostStorable(s.posts[id]))
    && (forall k :: k in s.stakes ==> 0 <= s.stakes[k].amount < TWO64)
    && (forall i :: 0 <= i < |s.validators| ==> 0 <= s.validators[i].stake < TWO64)
    && (forall i :: 0 <= i < |s.queue| ==> 0 <= s.queue[i].amount < TWO64)
    && |s.validators| < TWO32 && |s.queue| < TWO32
    && 0 <= s.burned < TWO64 && 0 <= s.issued < TWO64
  }

  lemma RecordWellFiled(s: State, k: Key)
    requires Storable(s) && RecordOf(s, k).Some?
    ensures WellFiled(k, RecordOf(s, k).value)
  {
    match k
    case AccountKey(a) => AccountRoundTrip(a, s.accounts[a]);
    case PostKey(id) => PostRoundTrip(id, s.posts[id]);
    case PositionKey(sk) => PositionRoundTrip(sk, s.stakes[sk]);
    case _ =>
  }

  /** Saving a storable state keeps a store clean. */
  lemma SavedClean(before: Database, s: State, after: Database)
    requires Clean(before) && Storable(s) && SavedOver(before, s, after)
    ensures Clean(after)
  {
    forall b | b in after
      ensures Filed(after, b)
    {
      var k: Key;
      if b in before {
        assert Filed(before, b);
        k :| KeyBytes(k) == b && WellFiled(k, before[b]);
      } else {
        k :| KeyBytes(k) == b && RecordOf(s, k).Some?;
      }
      assert SavedAt(before, s, after, k);
      if RecordOf(s, k).Some? {
        RecordWellFiled(s, k);
      }
      assert KeyBytes(k) == b && WellFiled(k, after[b]);
    }
  }
}
