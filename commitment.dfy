// Commitments: `generatePlayerHashes` in app/compute/lottery.ts and the
// `playerHashes` map of lottery.js.
module Commitment {
  import opened LotteryTypes

  /** Each player becomes `(name, commit(name, token))`. */
  function GeneratePlayerHashes(h: Hashing, players: seq<PlayerInfo>): (hashes: seq<PlayerHash>)
    ensures |hashes| == |players|
    ensures forall i :: 0 <= i < |players| ==> hashes[i].name == players[i].name
    ensures forall i :: 0 <= i < |players| ==> hashes[i].hash == h.commit(players[i].name, players[i].token)
  {
    seq(|players|, i requires 0 <= i < |players| => PlayerHash(players[i].name, h.commit(players[i].name, players[i].token)))
  }

  /**
   * A player's commitment depends on that player's name and token only: two rosters
   * that agree on the name and token at position i agree on the commitment at i,
   * whatever the other players and the scores are.
   */
  lemma CommitmentIsLocal(h: Hashing, ps: seq<PlayerInfo>, qs: seq<PlayerInfo>, i: int)
    requires 0 <= i < |ps| && 0 <= i < |qs|
    requires ps[i].name == qs[i].name && ps[i].token == qs[i].token
    ensures GeneratePlayerHashes(h, ps)[i] == GeneratePlayerHashes(h, qs)[i]
  {
  }

  /** Hashing a concatenated roster hashes each part: order and positions are kept. */
  lemma GeneratePlayerHashesAppend(h: Hashing, ps: seq<PlayerInfo>, qs: seq<PlayerInfo>)
    ensures GeneratePlayerHashes(h, ps + qs) == GeneratePlayerHashes(h, ps) + GeneratePlayerHashes(h, qs)
  {
  }
}
