/** The profile editor (src/pages/Profile.jsx:5-91): the form seeded from the
    signed-in user, the skill-list editing, and the save. */
module ProfileEdit {
  import opened Wrappers
  import opened Strings
  import opened Records
  import Seqs

  datatype FormData = FormData(
    name: string,
    email: string,
    bio: string,
    location: string,
    skillsToTeach: seq<string>,
    skillsToLearn: seq<string>)

  /** The form together with the two "new skill" text boxes. */
  datatype Editor = Editor(form: FormData, newSkillTeach: string, newSkillLearn: string)

  /** The form's initial value: missing bio, location and lists become `''`
      and `[]`. */
  function InitialForm(u: Profile): (f: FormData)
    ensures f.name == u.name && f.email == u.email
    ensures u.bio.Some? ==> f.bio == u.bio.value
    ensures u.bio.None? ==> f.bio == ""
    ensures u.location.Some? ==> f.location == u.location.value
    ensures u.location.None? ==> f.location == ""
    ensures f.skillsToTeach == u.Teach() && f.skillsToLearn == u.Learn()
  {
    FormData(u.name, u.email, u.bio.GetOr(""), u.location.GetOr(""), u.Teach(), u.Learn())
  }

  function Open(u: Profile): Editor {
    Editor(InitialForm(u), "", "")
  }

  /** The text inputs that `handleInputChange` writes through their `name`. */
  datatype Field = Name | Email | Bio | Location

  function Get(f: FormData, field: Field): string {
    match field
    case Name => f.name
    case Email => f.email
    case Bio => f.bio
    case Location => f.location
  }

  /** `handleInputChange`: one field takes the typed value. */
  function SetField(f: FormData, field: Field, value: string): (r: FormData)
    ensures Get(r, field) == value
    ensures forall other :: other != field ==> Get(r, other) == Get(f, other)
    ensures r.skillsToTeach == f.skillsToTeach && r.skillsToLearn == f.skillsToLearn
  {
    match field
    case Name => f.(name := value)
    case Email => f.(email := value)
    case Bio => f.(bio := value)
    case Location => f.(location := value)
  }

  ghost predicate NoDuplicates(s: seq<string>) {
    forall i, j :: 0 <= i < j < |s| ==> s[i] != s[j]
  }

  /** The guard of both "add skill" handlers. */
  predicate Addable(list: seq<string>, input: string) {
    Trim(input) != "" && Trim(input) !in list
  }

  /** The list after an "add skill" handler: the trimmed input is appended
      unless it is blank or already listed. */
  function AddSkill(list: seq<string>, input: string): (r: seq<string>)
    ensures Addable(list, input) ==> r == list + [Trim(input)]
    ensures !Addable(list, input) ==> r == list
    ensures NoDuplicates(list) ==> NoDuplicates(r)
    ensures forall s :: s in r <==> s in list || (s == Trim(input) && s != "")
  {
    if Addable(list, input) then list + [Trim(input)] else list
  }

  /** `handleAddSkillTeach`: the input box is cleared only when a skill was added. */
  function AddSkillTeach(e: Editor): (r: Editor)
    ensures r.form.skillsToTeach == AddSkill(e.form.skillsToTeach, e.newSkillTeach)
    ensures r.newSkillTeach == if Addable(e.form.skillsToTeach, e.newSkillTeach) then "" else e.newSkillTeach
    ensures r.form.(skillsToTeach := e.form.skillsToTeach) == e.form
    ensures r.newSkillLearn == e.newSkillLearn
  {
    if Addable(e.form.skillsToTeach, e.newSkillTeach) then
      e.(form := e.form.(skillsToTeach := AddSkill(e.form.skillsToTeach, e.newSkillTeach)), newSkillTeach := "")
    else e
  }

  /** `handleAddSkillLearn`. */
  function AddSkillLearn(e: Editor): (r: Editor)
    ensures r.form.skillsToLearn == AddSkill(e.form.skillsToLearn, e.newSkillLearn)
    ensures r.newSkillLearn == if Addable(e.form.skillsToLearn, e.newSkillLearn) then "" else e.newSkillLearn
    ensures r.form.(skillsToLearn := e.form.skillsToLearn) == e.form
    ensures r.newSkillTeach == e.newSkillTeach
  {
    if Addable(e.form.skillsToLearn, e.newSkillLearn) then
      e.(form := e.form.(skillsToLearn := AddSkill(e.form.skillsToLearn, e.newSkillLearn)), newSkillLearn := "")
    else e
  }

  function IsNot(skill: string): string -> bool {
    s => s != skill
  }

  /** `list.filter(s => s !== skill)`: every copy of `skill` goes, the rest
      stay in order. */
  function RemoveSkill(list: seq<string>, skill: string): (r: seq<string>)
    ensures skill !in r
    ensures forall s :: s != skill ==> (s in r <==> s in list) && multiset(r)[s] == multiset(list)[s]
    ensures Seqs.IsSubsequence(r, list)
  {
    Seqs.FilterKeepsOrderAndCopies(list, IsNot(skill));
    Seqs.Filter(list, IsNot(skill))
  }

  /** `handleRemoveSkillTeach`. */
  function RemoveSkillTeach(e: Editor, skill: string): (r: Editor)
    ensures r.form.skillsToTeach == RemoveSkill(e.form.skillsToTeach, skill)
    ensures r.form.(skillsToTeach := e.form.skillsToTeach) == e.form
    ensures r.newSkillTeach == e.newSkillTeach && r.newSkillLearn == e.newSkillLearn
  {
    e.(form := e.form.(skillsToTeach := RemoveSkill(e.form.skillsToTeach, skill)))
  }

  /** `handleRemoveSkillLearn`. */
  function RemoveSkillLearn(e: Editor, skill: string): (r: Editor)
    ensures r.form.skillsToLearn == RemoveSkill(e.form.skillsToLearn, skill)
    ensures r.form.(skillsToLearn := e.form.skillsToLearn) == e.form
    ensures r.newSkillTeach == e.newSkillTeach && r.newSkillLearn == e.newSkillLearn
  {
    e.(form := e.form.(skillsToLearn := RemoveSkill(e.form.skillsToLearn, skill)))
  }

  /** Adding a skill and then removing it restores a list that did not have it. */
  lemma AddThenRemove(list: seq<string>, input: string)
    requires Trim(input) !in list
    ensures RemoveSkill(AddSkill(list, input), Trim(input)) == list
  {
    Seqs.FilterAll(list, IsNot(Trim(input)));
    if Addable(list, input) {
      Seqs.FilterConcat(list, [Trim(input)], IsNot(Trim(input)));
      assert Seqs.Filter([Trim(input)], IsNot(Trim(input))) == [];
    }
  }

  /** `{ ...u, ...formData }`: the form's six fields overwrite the profile's. */
  function Merge(u: Profile, f: FormData): (r: Profile)
    ensures InitialForm(r) == f
    ensures r.id == u.id && r.password == u.password && r.role == u.role && r.createdAt == u.createdAt
  {
    u.(name := f.name, email := f.email, bio := Some(f.bio), location := Some(f.location),
       skillsToTeach := Some(f.skillsToTeach), skillsToLearn := Some(f.skillsToLearn))
  }

  /** What `handleSave` stores: the user list with the signed-in user's entry
      merged, and the new session user. */
  datatype Saved = Saved(users: seq<Profile>, current: Profile)

  function SaveAll(users: seq<Profile>, id: string, f: FormData): (r: seq<Profile>)
    ensures |r| == |users|
    ensures forall i :: 0 <= i < |r| ==> if users[i].id == id then r[i] == Merge(users[i], f) else r[i] == users[i]
  {
    if users == [] then []
    else [if users[0].id == id then Merge(users[0], f) else users[0]] + SaveAll(users[1..], id, f)
  }

  /** `handleSave`: the stored entry and the session user both reopen with
      the saved form, and no other stored user changes. */
  function Save(users: seq<Profile>, me: Profile, f: FormData): (r: Saved)
    ensures |r.users| == |users|
    ensures forall i :: 0 <= i < |users| && users[i].id != me.id ==> r.users[i] == users[i]
    ensures forall i :: 0 <= i < |users| && users[i].id == me.id ==>
              InitialForm(r.users[i]) == f && r.users[i].id == me.id && r.users[i] == Merge(users[i], f)
    ensures InitialForm(r.current) == f && r.current.id == me.id
    ensures r.current.password == me.password && r.current.role == me.role && r.current.createdAt == me.createdAt
  {
    Saved(SaveAll(users, me.id, f), Merge(me, f))
  }
}
