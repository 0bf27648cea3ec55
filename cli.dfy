// lottery.js: the command-line copy of the draw. It reads the roster, filters and
// hashes it at top level, and runs the same draw with a target ten blocks ahead.
module Cli {
  import opened LotteryTypes
  import opened Roster
  import opened Ranking
  import opened Polling
  import opened Draw

  /** `futureBlockNumber - currentBlock` in lottery.js. */
  const CliOffset: nat := 10

  /**
   * The script from the parsed roster to the saved result: `players` is the same
   * filter as processPlayers, and the draw waits for the block ten past the first
   * height read. An error anywhere ends the script (exit code 1) with no result.
   */
  method RunLotteryScript(raw: seq<RawItem>, h: Hashing, p: Provider, now: string)
    returns (r: Result<LotteryResult, DrawError>)
    ensures r == DrawSpec(CliOffset, h, ProcessPlayers(raw), p, now)
    ensures r.Ok? ==>
      p.current.Answer? && r.value.blockNumber == p.current.value + 10 &&
      |r.value.winners| == Min(WinnerCount, |ProcessPlayers(raw)|)
  {
    var players := ProcessPlayers(raw);
    r := DrawWithOffset(CliOffset, h, players, p, now);
    if r.Ok? {
      DrawResultFacts(CliOffset, h, players, p, now);
    }
  }
}
