/** Account creation (src/pages/Register.jsx:22-65). The source reads the
    clock twice, once for the new id and once for the session token; both
    readings are parameters. */
module Registration {
  import opened Wrappers
  import opened Strings
  import opened Records
  import Seqs

  datatype RegisterForm = RegisterForm(
    name: string,
    email: string,
    password: string,
    confirmPassword: string,
    location: string)

  /** The three refusals, in the order they are checked. */
  datatype RegisterError = PasswordMismatch | PasswordTooShort | EmailTaken

  function ErrorMessage(e: RegisterError): (r: string)
    ensures r == "Passwords do not match" <==> e == PasswordMismatch
    ensures r == "Password must be at least 6 characters" <==> e == PasswordTooShort
    ensures r == "Email already registered" <==> e == EmailTaken
  {
    match e
    case PasswordMismatch => "Passwords do not match"
    case PasswordTooShort => "Password must be at least 6 characters"
    case EmailTaken => "Email already registered"
  }

  /** The address that is given the admin role on sign-up. */
  const AdminEmail: string := "admin@skillswap.com"

  /** The fewest UTF-16 code units a password may have. */
  const MinPasswordLength: nat := 6

  function HasEmail(email: string): Profile -> bool {
    (u: Profile) => u.email == email
  }

  /** The account a successful sign-up creates. */
  function NewUser(f: RegisterForm, now: nat, createdAt: string): (u: Profile)
    ensures u.id == NatToString(now)
    ensures u.name == f.name && u.email == f.email && u.password == f.password
    ensures u.Teach() == [] && u.Learn() == [] && u.bio == Some("") && u.location == Some(f.location)
    ensures u.role == Admin <==> f.email == AdminEmail
  {
    Profile(NatToString(now), f.name, f.email, f.password, Some(f.location), Some(""),
            Some([]), Some([]), if f.email == AdminEmail then Admin else Member, createdAt)
  }

  /** `'token_' + Date.now()`. */
  function Token(now: nat): (t: string)
    ensures |t| > 6 && t[..6] == "token_" && AllDigits(t[6..]) && ParseDigits(t[6..]) == now
    ensures t == "token_" + NatToString(now)
  {
    ParseNatToString(now);
    var t := "token_" + NatToString(now);
    assert t[6..] == NatToString(now);
    t
  }

  datatype Outcome = Registered(user: Profile, token: string) | Refused(error: RegisterError)

  /** The stored users after the submit and what the page reports. */
  datatype Submission = Submission(users: seq<Profile>, outcome: Outcome)

  /** `handleSubmit`: the first failing check is reported and nothing is
      stored; otherwise the new account is appended and signed in. */
  function Submit(f: RegisterForm, users: seq<Profile>, now: nat, createdAt: string, tokenNow: nat): (r: Submission)
    ensures r.outcome.Refused? ==> r.users == users
    ensures r.outcome == Refused(PasswordMismatch) <==> f.password != f.confirmPassword
    ensures r.outcome == Refused(PasswordTooShort) <==>
              f.password == f.confirmPassword && Utf16Length(f.password) < MinPasswordLength
    ensures r.outcome == Refused(EmailTaken) <==>
              f.password == f.confirmPassword && Utf16Length(f.password) >= MinPasswordLength
              && exists u :: u in users && u.email == f.email
    ensures r.outcome.Registered? ==>
              && r.users == users + [r.outcome.user]
              && r.outcome.user == NewUser(f, now, createdAt)
              && r.outcome.token == Token(tokenNow)
              && forall u :: u in users ==> u.email != f.email
  {
    if f.password != f.confirmPassword then Submission(users, Refused(PasswordMismatch))
    else if Utf16Length(f.password) < MinPasswordLength then Submission(users, Refused(PasswordTooShort))
    else if Seqs.Find(users, HasEmail(f.email)).Some? then Submission(users, Refused(EmailTaken))
    else
      var u := NewUser(f, now, createdAt);
      Submission(users + [u], Registered(u, Token(tokenNow)))
  }

  /** A password of one emoji and three letters has four code points but five
      UTF-16 code units, so it is refused as too short. */
  lemma AstralPasswordTooShort(f: RegisterForm, users: seq<Profile>, now: nat, createdAt: string, tokenNow: nat)
    requires f.password == "\U{1F600}abc" && f.confirmPassword == f.password
    ensures Utf16Length(f.password) == 5
    ensures Submit(f, users, now, createdAt, tokenNow).outcome == Refused(PasswordTooShort)
  {
  }
}
