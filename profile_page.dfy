/** The tag editing of the profile page: skills and causes are added from
    their input boxes and removed by value; each change replaces the form
    state as a whole. */
module ProfilePage {
  import opened Common

  /** The profile form. */
  datatype FormData = FormData(name: string, email: string, skills: seq<string>, causes: seq<string>)

  /** The page state: the form and the two tag input boxes. */
  datatype ProfileState = ProfileState(formData: FormData, skillInput: string, causeInput: string)

  /** Adding the text of an input box to a tag list: an empty input or one
      already listed changes nothing and the box keeps its text; otherwise
      the input is appended and the box is cleared. */
  function AddTag(tags: seq<string>, input: string): (r: (seq<string>, string))
    ensures input == [] || input in tags ==> r == (tags, input)
    ensures input != [] && input !in tags ==> r.0 == tags + [input] && r.1 == []
    ensures input != [] ==> input in r.0
    ensures NoDup(tags) ==> NoDup(r.0)
  {
    if input != [] && input !in tags then (tags + [input], []) else (tags, input)
  }

  function AddSkill(st: ProfileState): (r: ProfileState)
    ensures (r.formData.skills, r.skillInput) == AddTag(st.formData.skills, st.skillInput)
    ensures r.formData.causes == st.formData.causes && r.causeInput == st.causeInput
    ensures r.formData.name == st.formData.name && r.formData.email == st.formData.email
  {
    var (skills, input) := AddTag(st.formData.skills, st.skillInput);
    st.(formData := st.formData.(skills := skills), skillInput := input)
  }

  function RemoveSkill(st: ProfileState, skill: string): (r: ProfileState)
    ensures skill !in r.formData.skills
    ensures IsSubsequence(r.formData.skills, st.formData.skills)
    ensures forall x :: x != skill ==> multiset(r.formData.skills)[x] == multiset(st.formData.skills)[x]
    ensures r.formData.causes == st.formData.causes && r.causeInput == st.causeInput && r.skillInput == st.skillInput
    ensures r.formData.name == st.formData.name && r.formData.email == st.formData.email
  {
    st.(formData := st.formData.(skills := Without(st.formData.skills, skill)))
  }

  function AddCause(st: ProfileState): (r: ProfileState)
    ensures (r.formData.causes, r.causeInput) == AddTag(st.formData.causes, st.causeInput)
    ensures r.formData.skills == st.formData.skills && r.skillInput == st.skillInput
    ensures r.formData.name == st.formData.name && r.formData.email == st.formData.email
  {
    var (causes, input) := AddTag(st.formData.causes, st.causeInput);
    st.(formData := st.formData.(causes := causes), causeInput := input)
  }

  function RemoveCause(st: ProfileState, cause: string): (r: ProfileState)
    ensures cause !in r.formData.causes
    ensures IsSubsequence(r.formData.causes, st.formData.causes)
    ensures forall x :: x != cause ==> multiset(r.formData.causes)[x] == multiset(st.formData.causes)[x]
    ensures r.formData.skills == st.formData.skills && r.skillInput == st.skillInput && r.causeInput == st.causeInput
    ensures r.formData.name == st.formData.name && r.formData.email == st.formData.email
  {
    st.(formData := st.formData.(causes := Without(st.formData.causes, cause)))
  }

  /** Removing a skill that was just added gives the skills back. */
  lemma RemoveSkillUndoesAddSkill(st: ProfileState)
    requires st.skillInput != [] && st.skillInput !in st.formData.skills
    ensures RemoveSkill(AddSkill(st), st.skillInput).formData == st.formData
  {
    WithoutUndoesAppend(st.formData.skills, st.skillInput);
  }

  /** Removing a cause that was just added gives the causes back. */
  lemma RemoveCauseUndoesAddCause(st: ProfileState)
    requires st.causeInput != [] && st.causeInput !in st.formData.causes
    ensures RemoveCause(AddCause(st), st.causeInput).formData == st.formData
  {
    WithoutUndoesAppend(st.formData.causes, st.causeInput);
  }

  /** Pressing "add" twice adds once: the second press finds the box cleared
      or the tag already listed. */
  lemma AddSkillTwiceIsOnce(st: ProfileState)
    ensures AddSkill(AddSkill(st)) == AddSkill(st)
  {
  }
}
