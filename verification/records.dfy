/** The records the application keeps in browser storage under the keys
    `users`, `connections` and `messages`. Storage itself is not modelled:
    each store is a sequence handed to an operation and returned by it. */
module Records {
  import opened Wrappers
  import Seqs

  datatype Role = Admin | Member

  /** A stored user. Fields the source may leave undefined are `Option`s. */
  datatype Profile = Profile(
    id: string,
    name: string,
    email: string,
    password: string,
    location: Option<string>,
    bio: Option<string>,
    skillsToTeach: Option<seq<string>>,
    skillsToLearn: Option<seq<string>>,
    role: Role,
    createdAt: string)
  {
    /** `skillsToTeach || []` */
    function Teach(): seq<string> {
      skillsToTeach.GetOr([])
    }

    /** `skillsToLearn || []` */
    function Learn(): seq<string> {
      skillsToLearn.GetOr([])
    }
  }

  /** The values the source writes into a connection's `status`. */
  datatype Status = Pending | Accepted

  datatype Connection = Connection(
    id: string,
    fromUserId: string,
    toUserId: string,
    fromUserName: string,
    toUserName: string,
    status: Status,
    timestamp: string)

  datatype Message = Message(
    id: string,
    fromUserId: string,
    fromUserName: string,
    toUserId: string,
    toUserName: string,
    message: string,
    timestamp: string)

  function IdIsNot(id: string): Profile -> bool {
    (u: Profile) => u.id != id
  }

  /** `users.filter(u => u.id !== id)`: every stored user but the one with
      this id, in stored order. */
  function WithoutUser(users: seq<Profile>, id: string): (r: seq<Profile>)
    ensures forall u :: u in r <==> u in users && u.id != id
    ensures Seqs.IsSubsequence(r, users)
    ensures forall u: Profile :: u.id != id ==> multiset(r)[u] == multiset(users)[u]
  {
    Seqs.FilterKeepsOrderAndCopies(users, IdIsNot(id));
    Seqs.Filter(users, IdIsNot(id))
  }

  /** `conns.find(p)` followed by `connection.status = 'accepted'`: the first
      connection satisfying `p` becomes accepted, every other entry is left
      as it was, and nothing changes when none satisfies `p`. */
  function AcceptFirst(conns: seq<Connection>, p: Connection -> bool): (r: seq<Connection>)
    ensures |r| == |conns|
    ensures Seqs.FindIndex(conns, p).None? ==> r == conns
    ensures Seqs.FindIndex(conns, p).Some? ==>
              var k := Seqs.FindIndex(conns, p).value;
              r == conns[..k] + [conns[k].(status := Accepted)] + conns[k + 1..]
  {
    match Seqs.FindIndex(conns, p)
    case None => conns
    case Some(k) => conns[k := conns[k].(status := Accepted)]
  }
}
