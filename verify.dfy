// The verifier: verifyLottery in app/compute/lottery.ts.
module Verify {
  import opened LotteryTypes
  import opened Commitment
  import opened Ranking
  import opened Polling
  import opened Draw

  /**
   * Re-fetches the block at the recorded height from `chain` and recomputes the
   * winners from the players and the recorded hash. A thrown fetch, a missing block
   * and a hash that differs from the recorded one (a block without a hash among them)
   * all give false.
   */
  function VerifyLottery(h: Hashing, result: LotteryResult, players: seq<PlayerInfo>, chain: int -> Rpc<Option<Block>>): bool
  {
    match chain(result.blockNumber)
    case RpcError => false
    case Answer(None) => false
    case Answer(Some(block)) =>
      if block.hash != Some(result.blockHash) then false
      else RankWinners(h, GeneratePlayerHashes(h, players), result.blockHash) == result.winners
  }

  /** The chain confirms the recorded block: it answers with a block carrying the recorded hash. */
  predicate Confirms(chain: int -> Rpc<Option<Block>>, blockNumber: int, blockHash: Word256)
  {
    chain(blockNumber) == Answer(Some(Block(Some(blockHash))))
  }

  /**
   * Verification succeeds exactly when the chain confirms the recorded block and the
   * recorded winners equal the recomputed top 20, in length and element by element.
   */
  lemma VerifyIff(h: Hashing, result: LotteryResult, players: seq<PlayerInfo>, chain: int -> Rpc<Option<Block>>)
    ensures VerifyLottery(h, result, players, chain) <==>
      Confirms(chain, result.blockNumber, result.blockHash) &&
      var expected := RankWinners(h, GeneratePlayerHashes(h, players), result.blockHash);
      |expected| == |result.winners| && forall i :: 0 <= i < |expected| ==> expected[i] == result.winners[i]
  {
    var expected := RankWinners(h, GeneratePlayerHashes(h, players), result.blockHash);
    if |expected| == |result.winners| && forall i :: 0 <= i < |expected| ==> expected[i] == result.winners[i] {
      assert expected == result.winners;
    }
  }

  /**
   * Soundness: a result produced by a draw verifies against the same players, as long
   * as the chain later returns the block the draw used.
   */
  lemma VerifyAcceptsOwnDraw(offset: nat, h: Hashing, players: seq<PlayerInfo>, p: Provider, now: string, chain: int -> Rpc<Option<Block>>)
    requires DrawSpec(offset, h, players, p, now).Ok?
    requires var res := DrawSpec(offset, h, players, p, now).value;
      Confirms(chain, res.blockNumber, res.blockHash)
    ensures VerifyLottery(h, DrawSpec(offset, h, players, p, now).value, players, chain)
  {
    DrawResultFacts(offset, h, players, p, now);
  }

  /** Any other winner list, a reordering included, is refused. */
  lemma VerifyRejectsOtherWinners(h: Hashing, result: LotteryResult, players: seq<PlayerInfo>, chain: int -> Rpc<Option<Block>>, winners: seq<string>)
    requires VerifyLottery(h, result, players, chain)
    requires winners != result.winners
    ensures !VerifyLottery(h, result.(winners := winners), players, chain)
  {
  }

  /** Any other recorded block hash is refused. */
  lemma VerifyRejectsOtherHash(h: Hashing, result: LotteryResult, players: seq<PlayerInfo>, chain: int -> Rpc<Option<Block>>, blockHash: Word256)
    requires VerifyLottery(h, result, players, chain)
    requires blockHash != result.blockHash
    ensures !VerifyLottery(h, result.(blockHash := blockHash), players, chain)
  {
  }

  /** The verdict does not depend on the recorded timestamp. */
  lemma VerifyIgnoresTimestamp(h: Hashing, result: LotteryResult, players: seq<PlayerInfo>, chain: int -> Rpc<Option<Block>>, timestamp: string)
    ensures VerifyLottery(h, result.(timestamp := timestamp), players, chain) == VerifyLottery(h, result, players, chain)
  {
  }
}
