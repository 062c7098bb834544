/** The incoming-request page (src/pages/SwapRequests.jsx:11-44): the pending
    requests addressed to the signed-in user, and accepting or rejecting one. */
module SwapRequests {
  import opened Wrappers
  import opened Records
  import Seqs

  /** A request as listed: the connection and its sender, if still stored. */
  datatype Request = Request(connection: Connection, fromUser: Option<Profile>)

  function PendingFor(me: string): Connection -> bool {
    (c: Connection) => c.toUserId == me && c.status == Pending
  }

  function HasId(id: string): Profile -> bool {
    (u: Profile) => u.id == id
  }

  function ConnectionHasId(id: string): Connection -> bool {
    (c: Connection) => c.id == id
  }

  function ConnectionIdIsNot(id: string): Connection -> bool {
    (c: Connection) => c.id != id
  }

  /** The connections waiting for `me`, in stored order. */
  function PendingList(conns: seq<Connection>, me: string): (r: seq<Connection>)
    ensures forall c :: c in r <==> c in conns && c.toUserId == me && c.status == Pending
    ensures Seqs.IsSubsequence(r, conns)
    ensures forall c: Connection :: c.toUserId == me && c.status == Pending ==> multiset(r)[c] == multiset(conns)[c]
  {
    Seqs.FilterKeepsOrderAndCopies(conns, PendingFor(me));
    Seqs.Filter(conns, PendingFor(me))
  }

  function WithSenders(pending: seq<Connection>, users: seq<Profile>): (r: seq<Request>)
    ensures |r| == |pending|
    ensures forall i :: 0 <= i < |r| ==> r[i].connection == pending[i]
    ensures forall i :: 0 <= i < |r| ==> r[i].fromUser == Seqs.Find(users, HasId(pending[i].fromUserId))
  {
    if pending == [] then []
    else [Request(pending[0], Seqs.Find(users, HasId(pending[0].fromUserId)))] + WithSenders(pending[1..], users)
  }

  /** `loadRequests`: each pending request to `me`, joined with the stored
      user who sent it; the sender is absent when no user has that id. */
  function LoadRequests(conns: seq<Connection>, users: seq<Profile>, me: string): (r: seq<Request>)
    ensures |r| == |PendingList(conns, me)|
    ensures forall i :: 0 <= i < |r| ==> r[i].connection == PendingList(conns, me)[i]
    ensures forall i :: 0 <= i < |r| ==> r[i].connection.toUserId == me && r[i].connection.status == Pending
    ensures forall i :: 0 <= i < |r| && r[i].fromUser.Some? ==>
              r[i].fromUser.value in users && r[i].fromUser.value.id == r[i].connection.fromUserId
    ensures forall i :: 0 <= i < |r| && r[i].fromUser.None? ==>
              forall u :: u in users ==> u.id != r[i].connection.fromUserId
  {
    var pending := PendingList(conns, me);
    assert forall i :: 0 <= i < |pending| ==> pending[i] in pending;
    WithSenders(pending, users)
  }

  /** `handleAccept`: the first connection with this id becomes accepted. */
  function Accept(conns: seq<Connection>, requestId: string): (r: seq<Connection>)
    ensures |r| == |conns|
    ensures (forall c :: c in conns ==> c.id != requestId) ==> r == conns
    ensures forall j :: 0 <= j < |conns| && Seqs.FindIndex(conns, ConnectionHasId(requestId)) != Some(j) ==>
              r[j] == conns[j]
    ensures forall j :: 0 <= j < |conns| && Seqs.FindIndex(conns, ConnectionHasId(requestId)) == Some(j) ==>
              r[j] == conns[j].(status := Accepted)
  {
    var r := AcceptFirst(conns, ConnectionHasId(requestId));
    assert (forall c :: c in conns ==> c.id != requestId) ==> Seqs.FindIndex(conns, ConnectionHasId(requestId)).None? by {
      if forall c :: c in conns ==> c.id != requestId {
        assert forall j :: 0 <= j < |conns| ==> conns[j] in conns;
      }
    }
    r
  }

  /** After accepting, the pending list is the old one without the accepted
      connection: every other request stays, in order. */
  lemma AcceptLeavesOthersPending(conns: seq<Connection>, me: string, requestId: string, k: nat)
    requires Seqs.FindIndex(conns, ConnectionHasId(requestId)) == Some(k)
    ensures PendingList(Accept(conns, requestId), me) == PendingList(conns[..k] + conns[k + 1..], me)
  {
    var accepted := conns[k].(status := Accepted);
    assert Accept(conns, requestId) == conns[..k] + [accepted] + conns[k + 1..];
    Seqs.FilterDrops(conns[..k], accepted, conns[k + 1..], PendingFor(me));
  }

  /** `handleReject`: every connection with this id is deleted, whatever its
      status or addressee. */
  function Reject(conns: seq<Connection>, requestId: string): (r: seq<Connection>)
    ensures forall c :: c in r <==> c in conns && c.id != requestId
    ensures Seqs.IsSubsequence(r, conns)
    ensures forall c: Connection :: c.id != requestId ==> multiset(r)[c] == multiset(conns)[c]
  {
    Seqs.FilterKeepsOrderAndCopies(conns, ConnectionIdIsNot(requestId));
    Seqs.Filter(conns, ConnectionIdIsNot(requestId))
  }
}
