/** The in-memory world state: maps, slices and counters updated in place. */
module WorldStates {
  import opened Words
  import opened Types
  import opened Ledger
  import opened Slashing

  /** An enumeration of a map in some order: every entry once. */
  ghost predicate Enumerates<V>(out: seq<(Address, V)>, m: map<Address, V>) {
    && (forall i :: 0 <= i < |out| ==> out[i].0 in m && m[out[i].0] == out[i].1)
    && (forall i, j :: 0 <= i < j < |out| ==> out[i].0 != out[j].0)
    && (forall a :: a in m ==> exists i :: 0 <= i < |out| && out[i].0 == a)
  }

  class WorldState {
    var accounts: map<Address, Account>
    var posts: map<PostId, Post>
    var nameIndex: map<Bytes, Address>
    var postStakes: map<StakeKey, Position>
    var activeValidators: seq<Validator>
    var unbondingQueue: seq<Unbonding>
    var slashRecord: set<SlashKey>
    var burnedSupply: int
    var issuedSupply: int
    var chainHeight: Uint64
    var currentEpoch: Uint64

    /** The mathematical state this object stands for. */
    ghost function View(): State
      reads this
    {
      State(accounts, posts, nameIndex, postStakes, activeValidators, unbondingQueue, slashRecord,
            burnedSupply, issuedSupply, chainHeight, currentEpoch)
    }

    constructor ()
      ensures View() == State(map[], map[], map[], map[], [], [], {}, 0, 0, 0, 0)
    {
      accounts, posts, nameIndex, postStakes := map[], map[], map[], map[];
      activeValidators, unbondingQueue, slashRecord := [], [], {};
      burnedSupply, issuedSupply, chainHeight, currentEpoch := 0, 0, 0, 0;
    }

    /** An independent copy: the records are values, so copying the maps copies them. */
    constructor Clone(ws: WorldState)
      ensures View() == ws.View()
    {
      accounts, posts, nameIndex, postStakes := ws.accounts, ws.posts, ws.nameIndex, ws.postStakes;
      activeValidators, unbondingQueue, slashRecord := ws.activeValidators, ws.unbondingQueue, ws.slashRecord;
      burnedSupply, issuedSupply := ws.burnedSupply, ws.issuedSupply;
      chainHeight, currentEpoch := ws.chainHeight, ws.currentEpoch;
    }

    function Read(): Reader
      reads this
    {
      Reader(accounts, posts, postStakes, set n | n in nameIndex && nameIndex[n] in accounts)
    }

    function AccountOrNew(a: Address): Account
      reads this
    {
      if a in accounts then accounts[a] else NEW_ACCOUNT
    }

    /** Stores an account and keeps the name index pointing at it. */
    method SetAccount(a: Address, acct: Account)
      modifies this`accounts, this`nameIndex
      ensures accounts == old(accounts)[a := acct]
      ensures nameIndex == if acct.name != [] then old(nameIndex)[acct.name := a] else old(nameIndex)
    {
      accounts := accounts[a := acct];
      if acct.name != [] {
        nameIndex := nameIndex[acct.name := a];
      }
    }

    /** All positions on a post, in whatever order the map yields them. */
    method GetPostStakers(id: PostId) returns (out: seq<(Address, Position)>)
      ensures Enumerates(out, Stakers(postStakes, id))
    {
      out := [];
      var todo := postStakes.Keys;
      ghost var on: map<Address, Position> := Stakers(postStakes, id);
      while todo != {}
        invariant todo <= postStakes.Keys
        invariant forall i :: 0 <= i < |out| ==>
          out[i].0 in on && on[out[i].0] == out[i].1 && StakeKey(id, out[i].0) !in todo
        invariant forall i, j :: 0 <= i < j < |out| ==> out[i].0 != out[j].0
        invariant forall a :: a in on && StakeKey(id, a) !in todo ==> exists i :: 0 <= i < |out| && out[i].0 == a
        decreases todo
      {
        var k: StakeKey :| k in todo;
        ghost var before := out;
        if k.post == id {
          out := out + [(k.staker, postStakes[k])];
          assert StakeKey(id, k.staker) == k;
        }
        forall a | a in on && StakeKey(id, a) !in todo - {k}
          ensures exists i :: 0 <= i < |out| && out[i].0 == a
        {
          if StakeKey(id, a) == k {
            assert out[|out| - 1].0 == a;
          } else {
            var i :| 0 <= i < |before| && before[i].0 == a;
            assert out[i].0 == a;
          }
        }
        todo := todo - {k};
      }
    }

    /** Takes the entries that are due out of the queue, in queue order. */
    method RemoveMaturedUnbonding(currentHeight: Uint64) returns (matured: seq<Unbonding>)
      modifies this`unbondingQueue
      ensures matured == Matured(old(unbondingQueue), currentHeight)
      ensures unbondingQueue == Pending(old(unbondingQueue), currentHeight)
    {
      matured := [];
      var remaining: seq<Unbonding> := [];
      var q := unbondingQueue;
      for i := 0 to |q|
        invariant matured == Matured(q[..i], currentHeight) && remaining == Pending(q[..i], currentHeight)
      {
        assert q[..i + 1][..i] == q[..i];
        if q[i].release <= currentHeight {
          matured := matured + [q[i]];
        } else {
          remaining := remaining + [q[i]];
        }
      }
      assert q[..|q|] == q;
      unbondingQueue := remaining;
    }

    method UnbondingBalanceFor(a: Address) returns (total: Uint64)
      requires forall i :: 0 <= i < |unbondingQueue| ==> unbondingQueue[i].amount >= 0
      requires QueueTotal(unbondingQueue) < TWO64
      ensures total == QueueFor(unbondingQueue, a)
    {
      total := 0;
      ghost var q := unbondingQueue;
      for i := 0 to |unbondingQueue|
        invariant total == QueueFor(q[..i], a)
      {
        assert q[..i + 1][..i] == q[..i];
        PartialQueueBound(q, a, i + 1);
        if unbondingQueue[i].address == a {
          QueueForBounds(q[..i], a);
          total := Plus(total, unbondingQueue[i].amount);
        }
      }
      assert q[..|q|] == q;
    }

    /** Takes x from the entries of a in queue order, editing them in place, and drops the emptied ones. */
    method SlashUnbonding(a: Address, x: Uint64)
      requires forall i :: 0 <= i < |unbondingQueue| ==> 0 <= unbondingQueue[i].amount < TWO64
      modifies this`unbondingQueue
      ensures unbondingQueue == DropEmpty(CutQueue(old(unbondingQueue), a, x))
    {
      ghost var q := unbondingQueue;
      ghost var target := CutQueue(q, a, x);
      var remaining := x;
      var i := 0;
      while i < |unbondingQueue| && remaining != 0
        invariant i <= |unbondingQueue| == |q|
        invariant forall j :: 0 <= j < i ==> unbondingQueue[j] == target[j]
        invariant forall j :: i <= j < |q| ==> unbondingQueue[j] == q[j]
        invariant remaining == StillToCut(q, a, x, i)
      {
        LeftStep(q, a, x, i);
        var e := unbondingQueue[i];
        if e.address == a {
          if e.amount <= remaining {
            remaining := Minus(remaining, e.amount);
            unbondingQueue := unbondingQueue[i := e.(amount := 0)];
          } else {
            unbondingQueue := unbondingQueue[i := e.(amount := Minus(e.amount, remaining))];
            remaining := 0;
          }
        }
        i := i + 1;
      }
      if remaining == 0 {
        NothingLeft(q, a, x, i);
      }
      assert unbondingQueue == target;
      var cleaned: seq<Unbonding> := [];
      for j := 0 to |unbondingQueue|
        invariant unbondingQueue == target && cleaned == DropEmpty(target[..j])
      {
        assert target[..j + 1][..j] == target[..j];
        if unbondingQueue[j].amount > 0 {
          cleaned := cleaned + [unbondingQueue[j]];
        }
      }
      assert target[..|target|] == target;
      unbondingQueue := cleaned;
    }

    method PubKeyForAccount(a: Address) returns (key: PublicKey)
      ensures key == KeyFor(activeValidators, a)
    {
      for i := 0 to |activeValidators|
        invariant KeyFor(activeValidators, a) == KeyFor(activeValidators[i..], a)
      {
        if activeValidators[i].address == a {
          return activeValidators[i].pubKey;
        }
        assert activeValidators[i..][1..] == activeValidators[i + 1..];
      }
      return NO_KEY;
    }

    method SetValidatorPubKey(a: Address, key: PublicKey)
      modifies this`activeValidators
      ensures activeValidators == WithKey(old(activeValidators), a, key)
    {
      for i := 0 to |activeValidators|
        invariant activeValidators == old(activeValidators)
        invariant forall j :: 0 <= j < i ==> activeValidators[j].address != a
      {
        if activeValidators[i].address == a {
          WithKeyAt(activeValidators, a, key, i);
          activeValidators := activeValidators[i := activeValidators[i].(pubKey := key)];
          return;
        }
      }
      WithKeyAt(activeValidators, a, key, |activeValidators|);
    }
  }

  lemma {:induction false} WithKeyAt(vs: seq<Validator>, a: Address, key: PublicKey, i: nat)
    requires i <= |vs| && forall j :: 0 <= j < i ==> vs[j].address != a
    requires i < |vs| ==> vs[i].address == a
    ensures WithKey(vs, a, key) == if i < |vs| then vs[i := vs[i].(pubKey := key)] else vs
  {
    if i > 0 {
      WithKeyAt(vs[1..], a, key, i - 1);
    }
  }

  // ---------- Queue arithmetic used by the loops ----------

  lemma {:induction false} PartialQueueBound(q: seq<Unbonding>, a: Address, n: nat)
    requires n <= |q| && forall i :: 0 <= i < |q| ==> q[i].amount >= 0
    ensures QueueFor(q[..n], a) <= QueueTotal(q)
    decreases |q| - n
  {
    if n == |q| {
      assert q[..n] == q;
      QueueForBounds(q, a);
    } else {
      PartialQueueBound(q, a, n + 1);
      assert q[..n + 1][..n] == q[..n];
    }
  }

  /** What is still to be taken before entry i. */
  function StillToCut(q: seq<Unbonding>, a: Address, x: int, i: nat): int
    requires i <= |q|
  {
    var left := x - QueueFor(q[..i], a);
    if left <= 0 then 0 else left
  }

  lemma LeftStep(q: seq<Unbonding>, a: Address, x: int, i: nat)
    requires i < |q|
    ensures StillToCut(q, a, x, i + 1) ==
            var next := x - QueueFor(q[..i], a) - (if q[i].address == a then q[i].amount else 0);
            if next <= 0 then 0 else next
  {
    assert q[..i + 1][..i] == q[..i];
  }

  lemma {:induction false} NothingLeft(q: seq<Unbonding>, a: Address, x: int, i: nat)
    requires i <= |q| && StillToCut(q, a, x, i) == 0 && forall j :: 0 <= j < |q| ==> q[j].amount >= 0
    ensures forall j :: i <= j < |q| ==> CutQueue(q, a, x)[j] == q[j]
    decreases |q| - i
  {
    if i < |q| {
      LeftStep(q, a, x, i);
      NothingLeft(q, a, x, i + 1);
    }
  }
}
