# Verifiable lottery draw: a Dafny model

This project models the draw-and-verify engine of a small blockchain lottery.
A roster of players is normalised and each player gets a commitment
`keccak256(abi.encode(name, token))`. The draw reads the current block height,
waits for the block two heights later (ten in the command-line copy), and mixes
each commitment with that block's hash into a 256-bit sort value. The 20 smallest
sort values win. A verifier re-fetches the recorded block, recomputes the same
ranking and compares it with the recorded winner list. A small Python script that
picks the teams referenced by a user-to-team mapping is modelled too.

Modules, one per component:

- `LotteryTypes` (types.dfy): the records of `app/types/lottery.ts` (`PlayerInfo`,
  `PlayerHash`, `Winner`, `LotteryResult`), `Word256`, `Block`, RPC replies, and the
  `Hashing` pair of uninterpreted hash functions.
- `Roster` (roster.dfy): `processPlayers`. It unwraps a nested first array and keeps
  the entries with a non-empty name and token.
- `Commitment` (commitment.dfy): `generatePlayerHashes`.
- `Ranking` (ranking.dfy): sort values, one fixed ascending sort, the top-20 slice.
  `RankWinners` is the single ranking function. The draw reaches it through an
  in-place array sort proved equal to it, and the verifier calls it directly.
- `Polling` (polling.dfy): the bounded `while` loop that waits for the target block.
  `AwaitBlock` is the loop and `Poll` is its specification.
- `Draw` (draw.dfy): `drawLottery`. `DrawWithOffset` is the shared body and
  `DrawSpec` is its specification; `DrawLottery` uses offset 2.
- `Verify` (verify.dfy): `VerifyLottery` models `verifyLottery`. Its properties are
  stated in `VerifyIff` and the lemmas after it.
- `Cli` (cli.dfy): the pipeline of `lottery.js` with offset 10.
- `ExtractTeams` (extract_teams.dfy): `scripts/extract_teams.py`.

How the outside world is abstracted:

- Hashing is a parameter `h: Hashing`. `h.commit` stands for Keccak-256 over the ABI
  encoding of `(string, string)`, and `h.mix` for Keccak-256 over `(bytes32, bytes32)`.
  Both return naturals below 2^256. Nothing is assumed about them, and in particular
  nothing about collisions.
- The RPC provider is a parameter `p: Provider`:
  - `current` is the first `getBlockNumber`;
  - `latest(k)` is the `getBlockNumber` of attempt k;
  - `blockAt(k, n)` is the `getBlock(n)` of attempt k.
  Each reply is an answer or `RpcError`, the thrown error.
- Because every loop iteration that does not break counts an attempt, iteration k
  reads observation k.
- The verifier gets its own lookup `chain: int -> Rpc<Option<Block>>`.
- The timestamp is a parameter `now`.

Behaviour of the code that the model keeps as written:

- The draw does not reject an empty roster or duplicate names.
  `Draw.EmptyRosterDrawsNoWinners` shows that an empty roster yields a result with no
  winners.
- The comparator `(a, b) => a.sortValue < b.sortValue ? -1 : 1` never returns 0.
  Nothing in the code fixes the order of equal sort values, so the model claims no
  roster-order tie-break. It fixes one concrete sort, a stable insertion sort shared
  by draw and verify. `Ranking.TieFreeSortIsUnique` proves that when no two sort
  values are equal, every ascending reordering is exactly this order.
- The polling loop has no cancellation signal.
- A block without a hash is not reported as a separate error: after the loop, the
  draw throws the same error as when the attempts run out.

## Model

| member | source | states |
|---|---|---|
| `Roster.TeamData` | app/compute/lottery.ts:15-17 | the list filtered is the first element when that is an array, otherwise the top-level values, where an array element reads as a non-player |
| `Roster.KeepValid` | app/compute/lottery.ts:19-27 | the result is no longer than the input, every kept entry has a non-empty name and token and comes from the input, and every such input entry is kept |
| `Roster.ProcessPlayersExact` | app/compute/lottery.ts:14-28 | `processPlayers` returns exactly the players with a truthy name and token in the (possibly unwrapped) roster (both directions), and at most as many as the roster has |
| `Roster.KeepValidAppend` | lottery.js:22-28 | filtering a concatenation is the concatenation of the filtered parts, so the original order is kept |
| `Roster.KeepValidAllValid` | lottery.js:16-28 | a roster whose entries are all valid is kept whole, position by position |
| `Commitment.GeneratePlayerHashes` | app/compute/lottery.ts:31-41 | one commitment per player, in roster order, each carrying that player's name and `commit(name, token)` |
| `Commitment.CommitmentIsLocal` | app/compute/lottery.ts:32-40 | a player's commitment depends only on that player's name and token, not on other players or on the score |
| `Commitment.GeneratePlayerHashesAppend` | lottery.js:34-42 | hashing a concatenated roster hashes each part, so positions are kept |
| `Ranking.SortValues` | app/compute/lottery.ts:101-112 | one entry per commitment, in order, with sort value `mix(commitment, blockHash)` |
| `Ranking.InsertFacts` | app/compute/lottery.ts:116 | inserting into an ascending list keeps it ascending and adds exactly that entry |
| `Ranking.SortEntriesFacts` | app/compute/lottery.ts:115-116 | the fixed sort returns an ascending permutation of its input, of the same length |
| `Ranking.TopKSelects` | app/compute/lottery.ts:114-117 | min(20, n) entries, ascending, drawn from the entries without repetition beyond their multiplicity, and no entry left out has a smaller sort value than any entry selected |
| `Ranking.SmallRosterAllWin` | lottery.js:123-126 | with at most 20 entries, every entry wins exactly as often as it occurs |
| `Ranking.AscendingPermutationUnique` | app/compute/lottery.ts:155-157 | two ascending lists with the same entries are equal when one has no tie |
| `Ranking.TieFreeSortIsUnique` | app/compute/lottery.ts:115-117 | without tied sort values, every ascending reordering of the entries equals the model's order, so the winners do not depend on the sort algorithm |
| `Ranking.InsertInPlace` | lottery.js:124-125 | one in-place step: the prefix of length i+1 becomes the insertion of a[i] into the sorted prefix, and the rest is unchanged |
| `Ranking.SortBySortValue` | app/compute/lottery.ts:115-116 | the in-place sort of `finalResults` leaves the array holding the fixed sort of its old contents |
| `Polling.Poll` | app/compute/lottery.ts:64-92 | the loop ends within 60 attempts; it ends with no block exactly when no attempt fetched one, and then after exactly 60 attempts |
| `Polling.PollKeepsFirstBlock` | app/compute/lottery.ts:78-91 | the loop keeps the first block fetched. Null blocks and errors before it are retried. A block with a hash leaves before its attempt is counted, a block without one after. |
| `Polling.AwaitBlock` | app/compute/lottery.ts:60-92 | the imperative loop ends in the state `Poll` specifies, with at most 60 attempts |
| `Draw.DrawResultFacts` | app/compute/lottery.ts:98-125 | a returned result has `blockNumber = current + offset`, the hash of the first block fetched at that height, and `min(20, n)` winners equal to the shared ranking |
| `Draw.DrawSucceedsIff` | app/compute/lottery.ts:56-96 | the draw succeeds exactly when the first height is read and the first block fetched within 60 attempts has a hash |
| `Draw.HashlessBlockEndsDraw` | app/compute/lottery.ts:79-96 | a block without a hash, fetched first, makes the draw throw whatever later attempts would return |
| `Draw.EmptyRosterDrawsNoWinners` | app/compute/lottery.ts:53-125 | an empty roster is not rejected: a successful draw records no winners |
| `Draw.DrawWithOffset` | app/compute/lottery.ts:44-126 | the imperative draw (target fixed once, polling, in-place sort, slice) returns exactly `DrawSpec` |
| `Draw.DrawLottery` | app/compute/lottery.ts:56-57 | the app's draw targets the block two past the first height read |
| `Verify.VerifyIff` | app/compute/lottery.ts:133-166 | verification holds exactly when the chain returns a block with the recorded hash and the recomputed winners equal the recorded ones in length and element by element |
| `Verify.VerifyAcceptsOwnDraw` | app/compute/lottery.ts:141-161 | a draw's own result verifies against the same players when the chain returns the same block |
| `Verify.VerifyRejectsOtherWinners` | app/compute/lottery.ts:161 | changing a verified winner list in any way, reordering included, makes verification fail |
| `Verify.VerifyRejectsOtherHash` | app/compute/lottery.ts:135-138 | changing the recorded block hash of a verified result makes verification fail |
| `Verify.VerifyIgnoresTimestamp` | app/compute/lottery.ts:129-166 | the verdict does not depend on the recorded timestamp |
| `Cli.RunLotteryScript` | lottery.js:16-140 | the script filters like `processPlayers` and draws with target `current + 10`; a saved result has min(20, n) winners |
| `ExtractTeams.MatchingAppend` | scripts/extract_teams.py:13-16 | the loop's filter distributes over concatenation, so it keeps order |
| `ExtractTeams.MatchingCounts` | scripts/extract_teams.py:14-16 | each team occurs in `target_teams` as often as in `team_data[0]` when its id is wanted and never otherwise, so the list is no longer than the input |
| `ExtractTeams.SortedIds` | scripts/extract_teams.py:23 | the printed list holds exactly the missing ids, strictly ascending |
| `ExtractTeams.Extract` | scripts/extract_teams.py:4-23 | `team_ids` are the mapping's values and `target_teams` is the ordered filter. Found ids are among `team_ids`, missing ids are the difference, and the sorted report appears exactly when some id is missing. An empty `team_data` is an `IndexError`. |
| `ExtractTeams.FoundAndMissingPartition` | scripts/extract_teams.py:19-20 | found and missing ids are disjoint and together make up `team_ids` |

## Left out

- Keccak-256 and the ABI encoding are foreign library calls. They are the
  uninterpreted fields of `Hashing`, and no collision property is assumed or proved.
- Block hashes are compared as 256-bit numbers. The code compares hex strings with
  `!==`. Both agree only when the provider returns hashes in the canonical
  lower-case `0x` form and the recorded `blockHash` string is written in that same
  form. The recorded hash comes from a result file the user uploads. The code refuses
  a result file that spells the right hash any other way, for example in upper case.
  The model has no counterpart for such a file: `Verify.VerifyLottery` sees only the
  hash value.
- Network access through `ethers.JsonRpcProvider` is replaced by the injected
  `Provider` and `chain` lookups.
- `verifyLottery` catches any exception. Only a thrown `getBlock` is modelled. A
  recorded hash that differs from the provider's makes it return false before the
  ABI encoder sees that hash. Its remaining throw paths are not modelled, because
  `PlayerInfo` fields are strings: a non-string name or token would make the ABI
  string encoder throw (see the roster line below).
- The `setTimeout` sleeps (3000 ms and 2000 ms) and `new Date().toISOString()` are
  time, not logic. The timestamp is the parameter `now`.
- The `onProgress` callback, its floating-point `progress` fraction and
  `blocksLeft`, and the terminal progress bar of `lottery.js` are not modelled. In
  `app/compute/lottery.ts` they are observation only. In `lottery.js` a latest
  height below the first height read makes `progress` negative, and the bar's
  `'█'.repeat` then throws a `RangeError`. The catch counts the attempt. The loop
  state afterwards is the same as for any height below the target, which is what
  `Polling.Fetched` gives: no block, attempt counted.
- Reading `team.json`, writing `lottery_result.json` and `target_teams.json`, and
  `console.log`/`print` output are file and terminal I/O.
- The React pages, the player table and `scripts/extract_users.py` (an HTTP
  crawler) are outside the engine.
- `Roster.TeamData`: the parsed roster is taken to be a JSON array. A top-level
  string, number or object without an array under key `"0"` makes `teamData.filter`
  throw a `TypeError`, and `null` makes `rawData[0]` itself throw. An object with an
  array under key `"0"`, such as `{"0": [...]}`, is accepted: `rawData[0]` is that
  array, and it is unwrapped and filtered like a wrapped roster. The model's
  `seq<RawItem>` input has no counterpart for any of these values.
- Roster entries are objects with string `name` and `token`. A missing field is
  written as the empty string, which is falsy in the same way. Non-string truthy
  values are not modelled.
- `ExtractTeams.Extract`: `team.json` is taken to be a list whose first element is a
  list of team objects, and team ids are integers. The script checks none of this,
  and these error paths are not modelled:
  - a flat list of team objects, where `team_data[0]` is the first team's dict and
    the loop walks its string keys, so `team["id"]` raises `TypeError`;
  - a top-level JSON object, where `team_data[0]` raises `KeyError`;
  - a top-level string or number, where indexing or iterating raises `TypeError`;
  - an entry of `team_data[0]` that is not an object, such as `null`, where
    `team["id"]` raises `TypeError`;
  - a team object without an `"id"` key, where `team["id"]` raises `KeyError`.
- `Ranking.TopKSelects`: states "no player is selected twice" as a bound on the
  multiset of (name, sort value) entries, not on roster indices, because ranked
  entries carry no index.
- `Ranking.SortBySortValue`: fixes insertion sort. The JavaScript engine's own
  algorithm is not modelled. With a comparator that never returns 0, that algorithm
  decides the order of tied sort values.
