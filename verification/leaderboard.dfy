/** The leaderboard (src/pages/Leaderboard.jsx:11-41): per-user activity
    counts, the score built from them, the ranking, and the rank badges. */
module Leaderboard {
  import opened Strings
  import opened Records
  import opened Sorting
  import Seqs

  /** A stored user with their accepted connections, sent messages and score. */
  datatype UserStat = UserStat(user: Profile, connections: nat, messages: nat, score: nat)

  /** Points per accepted connection and per sent message. */
  const ConnectionPoints: nat := 10
  const MessagePoints: nat := 2

  /** An accepted connection with the user on either end. */
  function AcceptedWith(id: string): Connection -> bool {
    (c: Connection) => (c.fromUserId == id || c.toUserId == id) && c.status == Accepted
  }

  function SentBy(id: string): Message -> bool {
    (m: Message) => m.fromUserId == id
  }

  /** The entry of one user. */
  function StatOf(u: Profile, conns: seq<Connection>, msgs: seq<Message>): (r: UserStat)
    ensures r.user == u
    ensures r.connections == |Seqs.Filter(conns, AcceptedWith(u.id))|
    ensures r.messages == |Seqs.Filter(msgs, SentBy(u.id))|
    ensures r.score == ConnectionPoints * r.connections + MessagePoints * r.messages
    ensures r.connections <= |conns| && r.messages <= |msgs|
  {
    var c := Seqs.Count(conns, AcceptedWith(u.id));
    var m := Seqs.Count(msgs, SentBy(u.id));
    UserStat(u, c, m, ConnectionPoints * c + MessagePoints * m)
  }

  function StatsOf(users: seq<Profile>, conns: seq<Connection>, msgs: seq<Message>): (r: seq<UserStat>)
    ensures |r| == |users|
    ensures forall i :: 0 <= i < |r| ==> r[i] == StatOf(users[i], conns, msgs)
  {
    if users == [] then [] else [StatOf(users[0], conns, msgs)] + StatsOf(users[1..], conns, msgs)
  }

  /** The comparator `b.score - a.score`: only the score orders entries. */
  function ScoreKey(s: UserStat): Key {
    Key(s.score, 0.0)
  }

  /** `loadLeaderboard`: every user's entry, highest score first; users with
      equal scores keep their stored order. */
  function LoadLeaderboard(users: seq<Profile>, conns: seq<Connection>, msgs: seq<Message>): (r: seq<UserStat>)
    ensures |r| == |users|
    ensures forall i, j :: 0 <= i < j < |r| ==> r[i].score >= r[j].score
    ensures multiset(r) == multiset(StatsOf(users, conns, msgs))
    ensures forall k :: WithKey(r, ScoreKey, k) == WithKey(StatsOf(users, conns, msgs), ScoreKey, k)
  {
    var stats := StatsOf(users, conns, msgs);
    var r := SortDesc(stats, ScoreKey);
    assert forall i, j :: 0 <= i < j < |r| ==> Ge(ScoreKey(r[i]), ScoreKey(r[j]));
    r
  }

  /** Each stored user appears, with the stats computed for them, and nothing
      else appears. */
  lemma LeaderboardEntries(users: seq<Profile>, conns: seq<Connection>, msgs: seq<Message>)
    ensures forall s :: s in LoadLeaderboard(users, conns, msgs) ==>
              s.user in users && s == StatOf(s.user, conns, msgs)
    ensures forall u :: u in users ==> StatOf(u, conns, msgs) in LoadLeaderboard(users, conns, msgs)
  {
    var stats := StatsOf(users, conns, msgs);
    SortDescMembers(stats, ScoreKey);
    forall s | s in LoadLeaderboard(users, conns, msgs) ensures s.user in users && s == StatOf(s.user, conns, msgs) {
      assert s in stats;
      var i :| 0 <= i < |stats| && stats[i] == s;
      assert users[i] in users;
    }
    forall u | u in users ensures StatOf(u, conns, msgs) in LoadLeaderboard(users, conns, msgs) {
      var i :| 0 <= i < |users| && users[i] == u;
      assert stats[i] == StatOf(u, conns, msgs);
    }
  }

  const Gold: string := "\U{1F947}"
  const Silver: string := "\U{1F948}"
  const Bronze: string := "\U{1F949}"

  /** `getRankIcon` for a zero-based position: medals for the first three,
      then `#` followed by the one-based rank. */
  function RankIcon(rank: nat): (r: string)
    ensures rank == 0 <==> r == Gold
    ensures rank == 1 <==> r == Silver
    ensures rank == 2 <==> r == Bronze
    ensures rank >= 3 ==> |r| >= 2 && r[0] == '#' && AllDigits(r[1..]) && ParseDigits(r[1..]) == rank + 1
    ensures rank >= 3 ==> r == "#" + NatToString(rank + 1)
  {
    if rank == 0 then Gold
    else if rank == 1 then Silver
    else if rank == 2 then Bronze
    else
      var digits := NatToString(rank + 1);
      ParseNatToString(rank + 1);
      assert ("#" + digits)[1..] == digits;
      "#" + digits
  }
}
