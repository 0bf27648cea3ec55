// Roster normalisation: `processPlayers` in app/compute/lottery.ts and the
// top-level filter of lottery.js.
module Roster {
  import opened LotteryTypes

  /**
   * One JSON value of the roster file. `Player` is an object with the fields the
   * draw reads (a missing `name` or `token` is written ""), `Other` is anything
   * else: null, a number, an array met as an element, ...
   */
  datatype RawValue = Player(name: string, token: string, score: int) | Other

  /** An element of the top-level array: a plain value, or a nested array. */
  datatype RawItem = Value(v: RawValue) | Array(items: seq<RawValue>)

  /** A plain value as read when it stands inside the list being filtered. */
  function AsElement(item: RawItem): RawValue
  {
    match item
    case Value(v) => v
    case Array(_) => Other
  }

  /**
   * `teamData`: the first element if it is an array, else the data itself.
   */
  function TeamData(raw: seq<RawItem>): (teamData: seq<RawValue>)
    ensures |raw| > 0 && raw[0].Array? ==> teamData == raw[0].items
    ensures !(|raw| > 0 && raw[0].Array?) ==>
      |teamData| == |raw| && forall i :: 0 <= i < |raw| ==> teamData[i] == AsElement(raw[i])
  {
    if |raw| > 0 && raw[0].Array? then raw[0].items
    else seq(|raw|, i requires 0 <= i < |raw| => AsElement(raw[i]))
  }

  /** `Boolean(player && player.name && player.token)`: both strings non-empty. */
  predicate Kept(v: RawValue)
  {
    v.Player? && v.name != "" && v.token != ""
  }

  function Info(v: RawValue): PlayerInfo
    requires v.Player?
  {
    PlayerInfo(v.name, v.token, v.score)
  }

  /** The `filter(...).map(...)` chain over `teamData`. */
  function KeepValid(s: seq<RawValue>): (r: seq<PlayerInfo>)
    ensures |r| <= |s|
    ensures forall p :: p in r ==> p.name != "" && p.token != "" && Player(p.name, p.token, p.score) in s
    ensures forall i :: 0 <= i < |s| && Kept(s[i]) ==> Info(s[i]) in r
  {
    if s == [] then []
    else
      var rest := KeepValid(s[1..]);
      assert forall i :: 1 <= i < |s| ==> s[i] == s[1..][i - 1];
      if Kept(s[0]) then [Info(s[0])] + rest else rest
  }

  function ProcessPlayers(raw: seq<RawItem>): (players: seq<PlayerInfo>)
  {
    KeepValid(TeamData(raw))
  }

  /** Filtering a concatenation filters each part: the filter keeps the original order. */
  lemma {:induction false} KeepValidAppend(a: seq<RawValue>, b: seq<RawValue>)
    ensures KeepValid(a + b) == KeepValid(a) + KeepValid(b)
  {
    if a == [] {
      assert a + b == b;
    } else {
      var head := if Kept(a[0]) then [Info(a[0])] else [];
      assert (a + b)[0] == a[0];
      assert (a + b)[1..] == a[1..] + b;
      assert KeepValid(a + b) == head + KeepValid(a[1..] + b);
      KeepValidAppend(a[1..], b);
      assert KeepValid(a) == head + KeepValid(a[1..]);
    }
  }

  /**
   * `processPlayers` returns, in order, exactly the entries of the (possibly unwrapped)
   * roster with a non-empty name and token, and never more entries than the roster has.
   */
  lemma ProcessPlayersExact(raw: seq<RawItem>)
    ensures var players := ProcessPlayers(raw);
      |players| <= |TeamData(raw)| &&
      (forall p: PlayerInfo :: p in players <==> p.name != "" && p.token != "" && Player(p.name, p.token, p.score) in TeamData(raw))
  {
    var td := TeamData(raw);
    forall p: PlayerInfo | p.name != "" && p.token != "" && Player(p.name, p.token, p.score) in td
      ensures p in ProcessPlayers(raw)
    {
      var i :| 0 <= i < |td| && td[i] == Player(p.name, p.token, p.score);
      assert Kept(td[i]) && Info(td[i]) == p;
    }
  }

  /** A roster whose entries are all valid is kept whole, in order. */
  lemma {:induction false} KeepValidAllValid(s: seq<RawValue>)
    requires forall i :: 0 <= i < |s| ==> Kept(s[i])
    ensures |KeepValid(s)| == |s|
    ensures forall i :: 0 <= i < |s| ==> KeepValid(s)[i] == Info(s[i])
  {
    if s != [] {
      KeepValidAllValid(s[1..]);
    }
  }
}
