/** The clock of the epochs: when the validator set changes, and to what. */
module Epochs {
  import opened Types
  import opened SafeMath
  import opened Ledger
  import opened Runs
  import opened History

  lemma SameWeightsThen(a: seq<Validator>, b: seq<Validator>, c: seq<Validator>)
    requires SameWeights(a, b) && SameWeights(b, c)
    ensures SameWeights(a, c)
  {}

  /** Within an epoch the count of epochs stays, and the last boundary too. */
  lemma OneHeightOn(n: nat, length: nat)
    requires length > 0 && (n + 1) % length != 0
    ensures (n + 1) / length == n / length && (n + 1) - (n + 1) % length == n - n % length
  {
    var q, r := (n + 1) / length, (n + 1) % length;
    assert n + 1 == length * q + r;
    DivUnique(n, length, q, r - 1);
  }

  /** After n blocks of consecutive heights the epoch is n divided by the epoch length, and the validators are, in
      address and weight, those of the last height that the length divides: then exactly the accounts with enough
      stake. */
  lemma {:induction false} EpochClock(p: Params, s: State, blocks: seq<Block>)
    requires Execute(p, s, blocks).Some? && Consecutive(blocks) && s.epoch == 0 && p.epochLength > 0
    ensures var n := |blocks|;
            var since := n - n % p.epochLength;
            && 0 <= since <= n && Execute(p, s, blocks[..since]).Some?
            && Execute(p, s, blocks).value.epoch == n / p.epochLength
            && SameWeights(Execute(p, s, blocks[..since]).value.validators, Execute(p, s, blocks).value.validators)
            && (since > 0 ==> ActiveFor(Execute(p, s, blocks[..since]).value, p.minStake))
  {
    ExecuteUnfold(p, s, blocks);
    var n := |blocks|;
    if n % p.epochLength == 0 {
      assert blocks[..n] == blocks;
    }
    if n > 0 {
      LastBlock(p, s, blocks);
      EpochClock(p, s, blocks[..n - 1]);
      EpochStep(p, Execute(p, s, blocks[..n - 1]).value, blocks[n - 1]);
      if n % p.epochLength != 0 {
        EpochClockNext(p, s, blocks);
      }
    } else {
      DivUnique(0, p.epochLength, 0, 0);
    }
  }

  lemma EpochClockNext(p: Params, s: State, blocks: seq<Block>)
    requires blocks != [] && p.epochLength > 0 && blocks[|blocks| - 1].header.height == |blocks|
    requires |blocks| % p.epochLength != 0
    requires Execute(p, s, blocks).Some? && Execute(p, s, blocks[..|blocks| - 1]).Some?
    requires var m, r := Execute(p, s, blocks[..|blocks| - 1]).value, Execute(p, s, blocks).value;
             SameWeights(m.validators, r.validators) && r.epoch == m.epoch
    requires var n := |blocks| - 1;
             var since := n - n % p.epochLength;
             && 0 <= since <= n && Execute(p, s, blocks[..n][..since]).Some?
             && Execute(p, s, blocks[..n]).value.epoch == n / p.epochLength
             && SameWeights(Execute(p, s, blocks[..n][..since]).value.validators,
                            Execute(p, s, blocks[..n]).value.validators)
             && (since > 0 ==> ActiveFor(Execute(p, s, blocks[..n][..since]).value, p.minStake))
    ensures var n := |blocks|;
            var since := n - n % p.epochLength;
            && 0 <= since <= n && Execute(p, s, blocks[..since]).Some?
            && Execute(p, s, blocks).value.epoch == n / p.epochLength
            && SameWeights(Execute(p, s, blocks[..since]).value.validators, Execute(p, s, blocks).value.validators)
            && (since > 0 ==> ActiveFor(Execute(p, s, blocks[..since]).value, p.minStake))
  {
    var n := |blocks| - 1;
    var since := n - n % p.epochLength;
    OneHeightOn(n, p.epochLength);
    assert blocks[..n][..since] == blocks[..since];
    SameWeightsThen(Execute(p, s, blocks[..since]).value.validators, Execute(p, s, blocks[..n]).value.validators,
                    Execute(p, s, blocks).value.validators);
  }
}
