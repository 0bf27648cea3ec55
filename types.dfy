// Shared value types of the lottery: the records declared in app/types/lottery.ts,
// the 256-bit hash values, the abstracted hash functions and the RPC replies.
module LotteryTypes {

  datatype Option<+T> = None | Some(value: T)

  /** Outcome of an operation that may fail with an error of type E. */
  datatype Result<+T, +E> = Ok(value: T) | Err(error: E)

  /** Reply of one call to the JSON-RPC provider: an answer or a thrown network error. */
  datatype Rpc<+T> = Answer(value: T) | RpcError

  const TwoTo256: nat := 0x1_0000_0000_0000_0000_0000_0000_0000_0000_0000_0000_0000_0000_0000_0000_0000_0000

  /** A Keccak-256 digest read as an unsigned integer (what `BigInt(hex)` yields). */
  type Word256 = x: nat | x < TwoTo256

  /**
   * The two hash computations of the draw, left uninterpreted:
   * `commit(name, token)` is keccak256(abi.encode(string, string)) and
   * `mix(commitment, blockHash)` is keccak256(abi.encode(bytes32, bytes32)).
   */
  datatype Hashing = Hashing(commit: (string, string) -> Word256, mix: (Word256, Word256) -> Word256)

  /** A roster entry after normalisation (`PlayerInfo`). */
  datatype PlayerInfo = PlayerInfo(name: string, token: string, score: int)

  /** A player's commitment (`PlayerHash`). */
  datatype PlayerHash = PlayerHash(name: string, hash: Word256)

  /** A ranked entry (`Winner`): a name and its sort value. */
  datatype Winner = Winner(name: string, sortValue: Word256)

  /** The persisted outcome of a draw (`LotteryResult`). */
  datatype LotteryResult = LotteryResult(blockNumber: int, blockHash: Word256, timestamp: string, winners: seq<string>)

  /** A block as returned by `getBlock`: its hash may be absent. */
  datatype Block = Block(hash: Option<Word256>)

  function Min(a: int, b: int): int
  {
    if a < b then a else b
  }
}
