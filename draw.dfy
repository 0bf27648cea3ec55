// The draw: drawLottery in app/compute/lottery.ts (target offset 2), sharing its
// body with drawLottery in lottery.js (target offset 10).
module Draw {
  import opened LotteryTypes
  import opened Commitment
  import opened Ranking
  import opened Polling

  /** `futureBlockNumber - currentBlock` in app/compute/lottery.ts. */
  const AppOffset: nat := 2

  datatype DrawError =
    | HeightUnavailable        // the first getBlockNumber threw; nothing catches it
    | TargetBlockUnavailable   // the loop ended without a block with a hash

  /** The result a draw produces, from the injected provider and timestamp. */
  function DrawSpec(offset: nat, h: Hashing, players: seq<PlayerInfo>, p: Provider, now: string): Result<LotteryResult, DrawError>
  {
    match p.current
    case RpcError => Err(HeightUnavailable)
    case Answer(currentBlock) =>
      var futureBlockNumber := currentBlock + offset;
      var polled := Poll(p, futureBlockNumber, 0);
      if polled.randomBlock.None? || polled.randomBlock.value.hash.None? then Err(TargetBlockUnavailable)
      else
        var blockHash := polled.randomBlock.value.hash.value;
        Ok(LotteryResult(futureBlockNumber, blockHash, now, RankWinners(h, GeneratePlayerHashes(h, players), blockHash)))
  }

  /** Some attempt among the 60 is the first to fetch a block, and that block has a hash. */
  predicate AcquiresHash(p: Provider, target: int)
  {
    exists first :: 0 <= first < MaxAttempts && FirstFetchHasHash(p, target, first)
  }

  /** Attempt `first` is the first one to fetch a block, and that block has a hash. */
  predicate FirstFetchHasHash(p: Provider, target: int, first: nat)
  {
    first < MaxAttempts &&
    Fetched(p, target, first).Some? && Fetched(p, target, first).value.hash.Some? &&
    forall j :: 0 <= j < first ==> Fetched(p, target, j).None?
  }

  /**
   * What a returned result holds: the target height fixed from the first height read,
   * the hash of the block fetched there, and min(20, n) winners ranked from the
   * players' commitments and that hash.
   */
  lemma DrawResultFacts(offset: nat, h: Hashing, players: seq<PlayerInfo>, p: Provider, now: string)
    requires DrawSpec(offset, h, players, p, now).Ok?
    ensures var res := DrawSpec(offset, h, players, p, now).value;
      p.current.Answer? &&
      res.blockNumber == p.current.value + offset &&
      res.timestamp == now &&
      (exists k :: FirstFetchHasHash(p, res.blockNumber, k) && Fetched(p, res.blockNumber, k).value.hash == Some(res.blockHash)) &&
      res.winners == RankWinners(h, GeneratePlayerHashes(h, players), res.blockHash) &&
      |res.winners| == Min(WinnerCount, |players|)
  {
    var res := DrawSpec(offset, h, players, p, now).value;
    var target := res.blockNumber;
    var first :| 0 <= first < MaxAttempts && Fetched(p, target, first).Some? &&
      (forall j :: 0 <= j < first ==> Fetched(p, target, j).None?) by {
      FirstFetchExists(p, target, 0);
    }
    PollKeepsFirstBlock(p, target, 0, first);
    assert FirstFetchHasHash(p, target, first);
    TopKSelects(SortValues(h, GeneratePlayerHashes(h, players), res.blockHash));
  }

  /** When some attempt fetches a block, some attempt is the first to do so. */
  lemma {:induction false} FirstFetchExists(p: Provider, target: int, k: nat)
    requires k <= MaxAttempts
    requires exists j :: k <= j < MaxAttempts && Fetched(p, target, j).Some?
    ensures exists first ::
      k <= first < MaxAttempts && Fetched(p, target, first).Some? &&
      (forall j :: k <= j < first ==> Fetched(p, target, j).None?)
    decreases MaxAttempts - k
  {
    if Fetched(p, target, k).None? {
      FirstFetchExists(p, target, k + 1);
    } else {
      assert k <= k < MaxAttempts;
    }
  }

  /**
   * A draw succeeds exactly when the first height is read and, among the 60 attempts,
   * the first one that fetches a block gets one with a hash: null blocks and errors
   * are retried, a block without a hash ends the draw in failure.
   */
  lemma DrawSucceedsIff(offset: nat, h: Hashing, players: seq<PlayerInfo>, p: Provider, now: string)
    ensures DrawSpec(offset, h, players, p, now).Ok? <==>
      p.current.Answer? && AcquiresHash(p, p.current.value + offset)
  {
    if p.current.Answer? {
      var target := p.current.value + offset;
      if first :| FirstFetchHasHash(p, target, first) {
        PollKeepsFirstBlock(p, target, 0, first);
      } else if DrawSpec(offset, h, players, p, now).Ok? {
        DrawResultFacts(offset, h, players, p, now);
      }
    }
  }

  /**
   * A block without a hash, fetched before any block with one, ends the draw in
   * failure, whatever later attempts would have returned.
   */
  lemma HashlessBlockEndsDraw(offset: nat, h: Hashing, players: seq<PlayerInfo>, p: Provider, now: string, first: nat)
    requires p.current.Answer?
    requires var target := p.current.value + offset;
      first < MaxAttempts &&
      Fetched(p, target, first) == Some(Block(None)) &&
      (forall j :: 0 <= j < first ==> Fetched(p, target, j).None?)
    ensures DrawSpec(offset, h, players, p, now) == Err(TargetBlockUnavailable)
  {
    PollKeepsFirstBlock(p, p.current.value + offset, 0, first);
  }

  /**
   * The draw does not reject an empty roster: a successful draw over no players
   * records a result with no winners.
   */
  lemma EmptyRosterDrawsNoWinners(offset: nat, h: Hashing, p: Provider, now: string)
    requires DrawSpec(offset, h, [], p, now).Ok?
    ensures DrawSpec(offset, h, [], p, now).value.winners == []
  {
    DrawResultFacts(offset, h, [], p, now);
  }

  /**
   * The body of drawLottery, with the target offset as a parameter.
   */
  method DrawWithOffset(offset: nat, h: Hashing, players: seq<PlayerInfo>, p: Provider, now: string)
    returns (r: Result<LotteryResult, DrawError>)
    ensures r == DrawSpec(offset, h, players, p, now)
  {
    var playerHashes := GeneratePlayerHashes(h, players);
    if p.current.RpcError? {
      return Err(HeightUnavailable);
    }
    var currentBlock := p.current.value;
    var futureBlockNumber := currentBlock + offset;
    var randomBlock, attempts := AwaitBlock(p, futureBlockNumber);
    if randomBlock.None? || randomBlock.value.hash.None? {
      return Err(TargetBlockUnavailable);
    }
    var blockHash := randomBlock.value.hash.value;
    var finalResults := new Winner[|playerHashes|](i requires 0 <= i < |playerHashes| =>
      Winner(playerHashes[i].name, h.mix(playerHashes[i].hash, blockHash)));
    assert finalResults[..] == SortValues(h, playerHashes, blockHash);
    SortBySortValue(finalResults);
    SortEntriesFacts(SortValues(h, playerHashes, blockHash));
    var winners := finalResults[..Min(WinnerCount, finalResults.Length)];
    r := Ok(LotteryResult(futureBlockNumber, blockHash, now, WinnerNames(winners)));
  }

  /**
   * drawLottery of app/compute/lottery.ts: the target is two blocks past the first
   * height read.
   */
  method DrawLottery(h: Hashing, players: seq<PlayerInfo>, p: Provider, now: string)
    returns (r: Result<LotteryResult, DrawError>)
    ensures r == DrawSpec(AppOffset, h, players, p, now)
    ensures r.Ok? ==> p.current.Answer? && r.value.blockNumber == p.current.value + 2
  {
    r := DrawWithOffset(AppOffset, h, players, p, now);
    if r.Ok? {
      DrawResultFacts(AppOffset, h, players, p, now);
    }
  }
}
