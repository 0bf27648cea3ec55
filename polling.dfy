// The bounded wait for the target block in drawLottery (app/compute/lottery.ts and
// lottery.js): a while loop over `attempts` and `randomBlock`, with every RPC
// failure caught and counted.
module Polling {
  import opened LotteryTypes

  /** `maxAttempts`. */
  const MaxAttempts: nat := 60

  /**
   * The JSON-RPC provider, injected. `current` answers the first `getBlockNumber`
   * (outside the loop), `latest(k)` the `getBlockNumber` of attempt k and
   * `blockAt(k, n)` the `getBlock(n)` of attempt k; any of them may throw.
   */
  datatype Provider = Provider(
    current: Rpc<int>,
    latest: nat -> Rpc<int>,
    blockAt: (nat, int) -> Rpc<Option<Block>>)

  /** The loop's variables when it ends. */
  datatype PollState = PollState(randomBlock: Option<Block>, attempts: nat)

  /**
   * What attempt k leaves in `randomBlock`: the block fetched once the latest height
   * reaches the target, or None when a call threw, the height is short of the
   * target, or `getBlock` returned null.
   */
  function Fetched(p: Provider, target: int, k: nat): Option<Block>
  {
    match p.latest(k)
    case RpcError => None
    case Answer(latestBlock) =>
      if latestBlock < target then None
      else match p.blockAt(k, target)
        case RpcError => None
        case Answer(block) => block
  }

  /**
   * The loop from attempt k on. A null block is retried; a block is kept as soon as one
   * is fetched: with a hash the loop breaks before counting the attempt, without one
   * the throw is caught, the attempt counted, and the loop then stops because
   * `randomBlock` is set.
   */
  function Poll(p: Provider, target: int, k: nat): (s: PollState)
    requires k <= MaxAttempts
    ensures k <= s.attempts <= MaxAttempts
    ensures s.randomBlock.None? <==> forall j :: k <= j < MaxAttempts ==> Fetched(p, target, j).None?
    ensures s.randomBlock.None? ==> s.attempts == MaxAttempts
    decreases MaxAttempts - k
  {
    if k == MaxAttempts then PollState(None, k)
    else match Fetched(p, target, k)
      case None => Poll(p, target, k + 1)
      case Some(block) => PollState(Some(block), if block.hash.Some? then k else k + 1)
  }

  /**
   * Poll keeps the FIRST block fetched, at the attempt it was fetched: an earlier null
   * block or error never stops the loop, and a later block is never looked at.
   */
  lemma {:induction false} PollKeepsFirstBlock(p: Provider, target: int, k: nat, first: nat)
    requires k <= first < MaxAttempts
    requires Fetched(p, target, first).Some?
    requires forall j :: k <= j < first ==> Fetched(p, target, j).None?
    ensures var block := Fetched(p, target, first).value;
      Poll(p, target, k) == PollState(Some(block), if block.hash.Some? then first else first + 1)
    decreases first - k
  {
    if k < first {
      PollKeepsFirstBlock(p, target, k + 1, first);
    }
  }

  /**
   * The `while` loop of drawLottery.
   */
  method AwaitBlock(p: Provider, target: int) returns (randomBlock: Option<Block>, attempts: nat)
    ensures PollState(randomBlock, attempts) == Poll(p, target, 0)
    ensures attempts <= MaxAttempts
  {
    randomBlock := None;
    attempts := 0;
    while randomBlock.None? && attempts < MaxAttempts
      invariant attempts <= MaxAttempts
      invariant randomBlock.None? ==> Poll(p, target, attempts) == Poll(p, target, 0)
      invariant randomBlock.Some? ==> PollState(randomBlock, attempts) == Poll(p, target, 0)
      decreases MaxAttempts - attempts
    {
      match p.latest(attempts) {
        case RpcError =>
          // a failed getBlockNumber is caught
          attempts := attempts + 1;
        case Answer(latestBlock) =>
          if latestBlock >= target {
            match p.blockAt(attempts, target) {
              case RpcError =>
                attempts := attempts + 1;
              case Answer(block) =>
                randomBlock := block;
                if randomBlock.None? || randomBlock.value.hash.None? {
                  // the throw for a missing block or hash is caught by the same catch
                  attempts := attempts + 1;
                } else {
                  break;
                }
            }
          } else {
            attempts := attempts + 1;
          }
      }
    }
  }
}
