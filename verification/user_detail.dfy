/** The user detail dialog (src/components/UserDetail.jsx:10-105): the
    connection lookup between the two users, the request and accept
    transitions, the message guard, and its copy of the exact-match helper. */
module UserDetail {
  import opened Wrappers
  import opened Strings
  import opened Records
  import opened Matching
  import Seqs
  import Dashboard
  import Leaderboard
  import AdminDashboard

  /** `connectionStatus`: `'none'` until a stored connection is found. */
  datatype LinkStatus = NoLink | Linked(status: Status)

  predicate Between(c: Connection, a: string, b: string) {
    (c.fromUserId == a && c.toUserId == b) || (c.fromUserId == b && c.toUserId == a)
  }

  function BetweenUs(a: string, b: string): Connection -> bool {
    (c: Connection) => Between(c, a, b)
  }

  function FromTo(a: string, b: string): Connection -> bool {
    (c: Connection) => c.fromUserId == a && c.toUserId == b
  }

  /** The status of the first stored connection between the two users, in
      either direction. */
  function ConnectionStatus(conns: seq<Connection>, me: Profile, other: Profile): (r: LinkStatus)
    ensures r == NoLink <==> forall c :: c in conns ==> !Between(c, me.id, other.id)
    ensures r.Linked? ==>
              exists k :: 0 <= k < |conns| && Between(conns[k], me.id, other.id) && conns[k].status == r.status
                          && forall j :: 0 <= j < k ==> !Between(conns[j], me.id, other.id)
  {
    match Seqs.FindIndex(conns, BetweenUs(me.id, other.id))
    case None =>
      assert forall c :: c in conns ==> !Between(c, me.id, other.id) by {
        forall c | c in conns ensures !Between(c, me.id, other.id) {
          var j :| 0 <= j < |conns| && conns[j] == c;
          assert !BetweenUs(me.id, other.id)(conns[j]);
        }
      }
      NoLink
    case Some(k) =>
      assert conns[k] in conns && Between(conns[k], me.id, other.id);
      Linked(conns[k].status)
  }

  /** `handleSendConnectionRequest`: one pending request from me to the other
      user is appended. */
  function SendRequest(conns: seq<Connection>, me: Profile, other: Profile, now: nat, timestamp: string)
    : (r: seq<Connection>)
    ensures |r| == |conns| + 1 && r[..|conns|] == conns
    ensures r[|conns|].fromUserId == me.id && r[|conns|].toUserId == other.id
    ensures r[|conns|].status == Pending && r[|conns|].id == NatToString(now)
    ensures r[|conns|].fromUserName == me.name && r[|conns|].toUserName == other.name
  {
    conns + [Connection(NatToString(now), me.id, other.id, me.name, other.name, Pending, timestamp)]
  }

  /** A request between users with no connection reads back as pending, the
      status the dialog switches to; an existing connection keeps deciding the
      status. */
  lemma RequestThenStatus(conns: seq<Connection>, me: Profile, other: Profile, now: nat, timestamp: string)
    ensures var after := ConnectionStatus(SendRequest(conns, me, other, now, timestamp), me, other);
            after == if ConnectionStatus(conns, me, other) == NoLink then Linked(Pending)
                     else ConnectionStatus(conns, me, other)
  {
    var r := SendRequest(conns, me, other, now, timestamp);
    var p := BetweenUs(me.id, other.id);
    Seqs.FindIndexAppend(conns, r[|conns|], p);
    assert r == conns + [r[|conns|]];
  }

  /** `handleAcceptConnection`: the first connection from the other user to me
      becomes accepted; nothing changes when there is none. */
  function AcceptConnection(conns: seq<Connection>, me: Profile, other: Profile): (r: seq<Connection>)
    ensures |r| == |conns|
    ensures (forall c :: c in conns ==> !(c.fromUserId == other.id && c.toUserId == me.id)) ==> r == conns
    ensures forall j :: 0 <= j < |conns| && Seqs.FindIndex(conns, FromTo(other.id, me.id)) != Some(j) ==>
              r[j] == conns[j]
    ensures forall j :: 0 <= j < |conns| && Seqs.FindIndex(conns, FromTo(other.id, me.id)) == Some(j) ==>
              r[j] == conns[j].(status := Accepted) && conns[j].fromUserId == other.id && conns[j].toUserId == me.id
  {
    var p := FromTo(other.id, me.id);
    assert (forall c :: c in conns ==> !p(c)) ==> Seqs.FindIndex(conns, p).None? by {
      if forall c :: c in conns ==> !p(c) {
        assert forall j :: 0 <= j < |conns| ==> conns[j] in conns;
      }
    }
    AcceptFirst(conns, p)
  }

  /** When the other user's request is the first connection between us,
      accepting it makes the pair read back as accepted. */
  lemma AcceptThenStatus(conns: seq<Connection>, me: Profile, other: Profile, k: nat)
    requires k < |conns| && conns[k].fromUserId == other.id && conns[k].toUserId == me.id
    requires forall j :: 0 <= j < k ==> !Between(conns[j], me.id, other.id)
    ensures ConnectionStatus(AcceptConnection(conns, me, other), me, other) == Linked(Accepted)
  {
    var p := FromTo(other.id, me.id);
    var r := AcceptConnection(conns, me, other);
    assert p(conns[k]);
    assert forall j :: 0 <= j < k ==> !p(conns[j]);
    assert Between(r[k], me.id, other.id) && r[k].status == Accepted;
    assert forall j :: 0 <= j < k ==> r[j] == conns[j];
  }

  /** What the message form reports. */
  datatype SendOutcome = Ignored | NeedsConnection | Delivered

  /** The stored messages, the conversation on screen, and the text box after
      a send. */
  datatype Sent = Sent(stored: seq<Message>, thread: seq<Message>, draft: string, outcome: SendOutcome)

  /** `handleSendMessage`: a blank draft is ignored, a pair that is not
      accepted is refused, and otherwise the trimmed text is appended to
      both the store and the conversation and the box is cleared. */
  function SendMessage(msgs: seq<Message>, thread: seq<Message>, status: LinkStatus,
                       me: Profile, other: Profile, draft: string, now: nat, timestamp: string): (r: Sent)
    ensures Trim(draft) == "" ==> r == Sent(msgs, thread, draft, Ignored)
    ensures Trim(draft) != "" && status != Linked(Accepted) ==> r == Sent(msgs, thread, draft, NeedsConnection)
    ensures r.outcome == Delivered <==> Trim(draft) != "" && status == Linked(Accepted)
    ensures r.outcome == Delivered ==>
              && |r.stored| == |msgs| + 1 && r.stored[..|msgs|] == msgs
              && r.thread == thread + [r.stored[|msgs|]]
              && r.stored[|msgs|].message == Trim(draft)
              && r.stored[|msgs|].id == NatToString(now)
              && r.stored[|msgs|].fromUserId == me.id && r.stored[|msgs|].toUserId == other.id
              && r.draft == ""
  {
    if Trim(draft) == "" then Sent(msgs, thread, draft, Ignored)
    else if status != Linked(Accepted) then Sent(msgs, thread, draft, NeedsConnection)
    else
      var m := Message(NatToString(now), me.id, me.name, other.id, other.name, Trim(draft), timestamp);
      Sent(msgs + [m], thread + [m], "", Delivered)
  }

  /** A delivered message is never blank and carries no surrounding white space. */
  lemma DeliveredIsTrimmed(msgs: seq<Message>, thread: seq<Message>, status: LinkStatus,
                           me: Profile, other: Profile, draft: string, now: nat, timestamp: string)
    requires SendMessage(msgs, thread, status, me, other, draft, now, timestamp).outcome == Delivered
    ensures var m := SendMessage(msgs, thread, status, me, other, draft, now, timestamp).stored[|msgs|];
            m.message != "" && Trim(m.message) == m.message
  {
    TrimIdempotent(draft);
  }

  /** A delivered message adds one to the sender's leaderboard message count
      and makes both users active on the admin dashboard. */
  lemma DeliveredCounts(conns: seq<Connection>, msgs: seq<Message>, thread: seq<Message>, status: LinkStatus,
                        me: Profile, other: Profile, draft: string, now: nat, timestamp: string)
    requires SendMessage(msgs, thread, status, me, other, draft, now, timestamp).outcome == Delivered
    ensures var after := SendMessage(msgs, thread, status, me, other, draft, now, timestamp).stored;
            && Leaderboard.StatOf(me, conns, after).messages == Leaderboard.StatOf(me, conns, msgs).messages + 1
            && me.id in AdminDashboard.Participants(after) && other.id in AdminDashboard.Participants(after)
  {
    var after := SendMessage(msgs, thread, status, me, other, draft, now, timestamp).stored;
    assert after == msgs + [after[|msgs|]];
    Seqs.FilterConcat(msgs, [after[|msgs|]], Leaderboard.SentBy(me.id));
    assert Seqs.Filter([after[|msgs|]], Leaderboard.SentBy(me.id)) == [after[|msgs|]];
    assert after[|msgs|].fromUserId == me.id && after[|msgs|].toUserId == other.id;
  }

  datatype DetailMatch = DetailMatch(kind: string, skill: string, direction: string)

  function Detailed(skills: seq<string>, kind: string, direction: string): (r: seq<DetailMatch>)
    ensures |r| == |skills|
    ensures forall i :: 0 <= i < |r| ==> r[i] == DetailMatch(kind, skills[i], direction)
  {
    if skills == [] then [] else [DetailMatch(kind, skills[0], direction)] + Detailed(skills[1..], kind, direction)
  }

  /** The two runs, outgoing first. */
  function Listing(mine: seq<string>, theirs: seq<string>): (r: seq<DetailMatch>)
    ensures |r| == |mine| + |theirs|
    ensures forall i :: 0 <= i < |mine| ==> r[i] == DetailMatch("I can teach", mine[i], "outgoing")
    ensures forall i :: 0 <= i < |theirs| ==> r[|mine| + i] == DetailMatch("They can teach", theirs[i], "incoming")
  {
    Detailed(mine, "I can teach", "outgoing") + Detailed(theirs, "They can teach", "incoming")
  }

  /** `getPotentialMatches`: my teachable skills the other user wants, as
      outgoing records, then theirs that I want, as incoming ones. */
  function PotentialMatches(me: Profile, other: Profile): (r: seq<DetailMatch>)
    ensures var mine := Seqs.Filter(me.Teach(), MemberOf(other.Learn()));
            var theirs := Seqs.Filter(other.Teach(), MemberOf(me.Learn()));
            && |r| == |mine| + |theirs|
            && (forall i :: 0 <= i < |mine| ==> r[i] == DetailMatch("I can teach", mine[i], "outgoing"))
            && (forall i :: 0 <= i < |theirs| ==> r[|mine| + i] == DetailMatch("They can teach", theirs[i], "incoming"))
  {
    Listing(Seqs.Filter(me.Teach(), MemberOf(other.Learn())), Seqs.Filter(other.Teach(), MemberOf(me.Learn())))
  }

  /** The dialog and the discover card list the same skills in the same order. */
  lemma SameAsDashboard(me: Profile, other: Profile)
    ensures |PotentialMatches(me, other)| == |Dashboard.PotentialMatches(me, other)|
    ensures forall i :: 0 <= i < |PotentialMatches(me, other)| ==>
              PotentialMatches(me, other)[i].skill == Dashboard.PotentialMatches(me, other)[i].skill
              && PotentialMatches(me, other)[i].kind == Dashboard.PotentialMatches(me, other)[i].kind
  {
  }
}
