/** The admin dashboard (src/pages/AdminDashboard.jsx:19-48): platform totals
    and deleting a user. */
module AdminDashboard {
  import opened Records
  import Seqs
  import Leaderboard

  datatype Stats = Stats(totalUsers: nat, totalConnections: nat, totalMessages: nat, activeUsers: nat)

  /** The ids that sent or received at least one message. */
  function Participants(msgs: seq<Message>): (r: set<string>)
    ensures |r| <= 2 * |msgs|
    ensures forall id :: id in r <==> exists i :: 0 <= i < |msgs| && (msgs[i].fromUserId == id || msgs[i].toUserId == id)
  {
    if msgs == [] then {}
    else
      var last := msgs[|msgs| - 1];
      var rest := Participants(msgs[..|msgs| - 1]);
      var r := rest + {last.fromUserId, last.toUserId};
      assert |r| <= |rest| + 2 by {
        assert r == rest + {last.fromUserId} + {last.toUserId};
      }
      forall id | id in r ensures exists i :: 0 <= i < |msgs| && (msgs[i].fromUserId == id || msgs[i].toUserId == id) {
        if id in rest {
          var i :| 0 <= i < |msgs| - 1 && (msgs[..|msgs| - 1][i].fromUserId == id || msgs[..|msgs| - 1][i].toUserId == id);
          assert msgs[i] == msgs[..|msgs| - 1][i];
        }
      }
      forall id | exists i :: 0 <= i < |msgs| && (msgs[i].fromUserId == id || msgs[i].toUserId == id) ensures id in r {
        var i :| 0 <= i < |msgs| && (msgs[i].fromUserId == id || msgs[i].toUserId == id);
        if i < |msgs| - 1 {
          assert msgs[..|msgs| - 1][i] == msgs[i];
        }
      }
      r
  }

  /** The `forEach` over the messages that fills the `activeUsers` set. */
  method CollectActive(msgs: seq<Message>) returns (active: set<string>)
    ensures active == Participants(msgs)
  {
    active := {};
    var i := 0;
    while i < |msgs|
      invariant 0 <= i <= |msgs|
      invariant active == Participants(msgs[..i])
    {
      assert msgs[..i + 1][..i] == msgs[..i];
      active := active + {msgs[i].fromUserId, msgs[i].toUserId};
      i := i + 1;
    }
    assert msgs[..i] == msgs;
  }

  function IsAccepted(c: Connection): bool {
    c.status == Accepted
  }

  /** `loadData`'s totals. */
  function LoadStats(users: seq<Profile>, conns: seq<Connection>, msgs: seq<Message>): (r: Stats)
    ensures r.totalUsers == |users| && r.totalMessages == |msgs|
    ensures r.totalConnections == |Seqs.Filter(conns, IsAccepted)| && r.totalConnections <= |conns|
    ensures r.activeUsers == |Participants(msgs)|
    ensures r.activeUsers <= 2 * r.totalMessages
    ensures r.activeUsers == 0 <==> r.totalMessages == 0
  {
    var active := Participants(msgs);
    assert msgs != [] ==> msgs[0].fromUserId in active;
    Stats(|users|, Seqs.Count(conns, IsAccepted), |msgs|, |active|)
  }

  /** No leaderboard entry counts more connections or messages than the
      platform totals hold. */
  lemma LeaderboardWithinTotals(u: Profile, users: seq<Profile>, conns: seq<Connection>, msgs: seq<Message>)
    ensures Leaderboard.StatOf(u, conns, msgs).connections <= LoadStats(users, conns, msgs).totalConnections
    ensures Leaderboard.StatOf(u, conns, msgs).messages <= LoadStats(users, conns, msgs).totalMessages
  {
    Seqs.CountMonotone(conns, Leaderboard.AcceptedWith(u.id), IsAccepted);
  }

  /** `handleDeleteUser`: nothing changes unless the dialog was confirmed;
      then every entry with that id is removed. */
  function DeleteUser(users: seq<Profile>, userId: string, confirmed: bool): (r: seq<Profile>)
    ensures !confirmed ==> r == users
    ensures confirmed ==> forall u :: u in r <==> u in users && u.id != userId
    ensures confirmed ==> forall u: Profile :: u.id != userId ==> multiset(r)[u] == multiset(users)[u]
    ensures Seqs.IsSubsequence(r, users)
  {
    if confirmed then WithoutUser(users, userId)
    else
      Seqs.SubsequenceOfSelf(users);
      users
  }
}
