/**
 * The input form (`ProjectInput`): three fields, the acceptance rule that
 * combines the validators, and the submit step that hands an accepted entry to
 * the store and clears the fields.
 */
module Form {
  import opened Wrappers
  import opened Validation
  import opened Projects
  import opened Columns
  import opened Store

  /** The tuple `[title, description, peopleAmount]` that `gatherUserInput` returns. */
  datatype UserInput = UserInput(title: string, description: string, peopleAmount: int)

  /** The content of the people field: empty, or holding a number. */
  datatype PeopleField = Blank | Entered(amount: int)

  /** `Number(field.value)`: the empty string reads as 0, a number as itself. */
  function PeopleValue(field: PeopleField): (n: int)
    ensures field == Blank ==> n == 0
    ensures field.Entered? ==> n == field.amount
  {
    match field
    case Blank => 0
    case Entered(n) => n
  }

  /** `gatherUserInput`'s decision: the title is a required text of 5 to 50
      UTF-16 code units once trimmed, the description one of 10 to 50, and at least one person is
      assigned. An accepted entry carries the raw field values; trimming only
      measures them. */
  function GatherUserInput(title: string, description: string, peopleAmount: int): (r: Option<UserInput>)
    ensures r.Some? <==> 5 <= Utf16Length(Trim(title)) <= 50 && 10 <= Utf16Length(Trim(description)) <= 50 && peopleAmount >= 1
    ensures r.Some? ==> r.value == UserInput(title, description, peopleAmount)
  {
    var titleRequirements := ValidationText(title, true, 5, 50);
    var descriptionRequirements := ValidationText(description, true, 10, 50);
    if !IsValidInput(titleRequirements) || !IsValidInput(descriptionRequirements) || peopleAmount < 1 then
      None
    else
      Some(UserInput(title, description, peopleAmount))
  }

  /** The bounds are inclusive: trimmed titles of 5 and 50 code units pass, 4 and 51 do not. */
  lemma TitleBoundaries(title: string, description: string, peopleAmount: int)
    requires 10 <= Utf16Length(Trim(description)) <= 50 && peopleAmount >= 1
    ensures Utf16Length(Trim(title)) == 4 || Utf16Length(Trim(title)) == 51 ==> GatherUserInput(title, description, peopleAmount) == None
    ensures Utf16Length(Trim(title)) == 5 || Utf16Length(Trim(title)) == 50 ==> GatherUserInput(title, description, peopleAmount).Some?
  {
  }

  /** Trimmed descriptions of 10 and 50 code units pass, 9 and 51 do not. */
  lemma DescriptionBoundaries(title: string, description: string, peopleAmount: int)
    requires 5 <= Utf16Length(Trim(title)) <= 50 && peopleAmount >= 1
    ensures Utf16Length(Trim(description)) == 9 || Utf16Length(Trim(description)) == 51 ==> GatherUserInput(title, description, peopleAmount) == None
    ensures Utf16Length(Trim(description)) == 10 || Utf16Length(Trim(description)) == 50 ==> GatherUserInput(title, description, peopleAmount).Some?
  {
  }

  /** A blank people field reads as 0, which fails the "at least one person"
      test, so an entry with a blank people field is always rejected. */
  lemma BlankPeopleRejected(title: string, description: string)
    ensures GatherUserInput(title, description, PeopleValue(Blank)).None?
  {
  }

  /** Length is counted in UTF-16 code units: three U+1F600 emoji make a title
      of length 6, which is accepted. */
  lemma EmojiTitleAccepted(description: string)
    requires 10 <= Utf16Length(Trim(description)) <= 50
    ensures Utf16Length(Trim("\U{1F600}\U{1F600}\U{1F600}")) == 6
    ensures GatherUserInput("\U{1F600}\U{1F600}\U{1F600}", description, 1).Some?
  {
    var title := "\U{1F600}\U{1F600}\U{1F600}";
    assert title == [] + title + [];
    TrimOfPadded([], title, []);
    assert title[1..][1..][1..] == [];
  }

  /** Padding a field with white-space does not change whether the entry is
      accepted, but the padding is kept in what is returned. */
  lemma PaddedTitleKeepsPadding(lead: string, title: string, trail: string, description: string, peopleAmount: int)
    requires AllWhitespace(lead) && AllWhitespace(trail)
    ensures GatherUserInput(lead + title + trail, description, peopleAmount).Some? ==
            GatherUserInput(title, description, peopleAmount).Some?
    ensures GatherUserInput(lead + title + trail, description, peopleAmount).Some? ==>
            GatherUserInput(lead + title + trail, description, peopleAmount).value.title == lead + title + trail
  {
    TrimIgnoresPadding(lead, title, trail);
  }

  class ProjectInput {
    var title: string
    var description: string
    var people: PeopleField

    /** The form with whatever its three fields hold when it is built. */
    constructor(title: string, description: string, people: PeopleField)
      ensures this.title == title && this.description == description && this.people == people
    {
      this.title := title;
      this.description := description;
      this.people := people;
    }

    /** `clearInputs`: all three fields are emptied. */
    method ClearInputs()
      modifies this
      ensures title == "" && description == "" && people == Blank
    {
      title := "";
      description := "";
      people := Blank;
    }

    /** `submitHandler` with the store passed in and the new project's id as a
        parameter: an accepted entry is added to the store exactly once, with
        its raw values, and the fields are then cleared; a rejected entry changes
        nothing. */
    method SubmitHandler(store: ProjectState, id: string)
      requires store.Valid()
      modifies this, store, store.listeners
      ensures store.Valid()
      ensures store.listeners == old(store.listeners)
      ensures GatherUserInput(old(title), old(description), PeopleValue(old(people))).Some? ==>
                store.projects == old(store.projects) + [Project(id, old(title), old(description), PeopleValue(old(people)), Active)] &&
                store.log == old(store.log) + NotifyAll(|store.listeners|, store.projects) &&
                (forall c :: c in store.listeners ==> c.assignedProjects == RelevantProjects(c.kind, store.projects)) &&
                title == "" && description == "" && people == Blank
      ensures GatherUserInput(old(title), old(description), PeopleValue(old(people))).None? ==>
                store.projects == old(store.projects) && store.log == old(store.log) &&
                (forall c :: c in store.listeners ==> c.assignedProjects == old(c.assignedProjects)) &&
                title == old(title) && description == old(description) && people == old(people)
      ensures forall c :: c in store.listeners ==> c.droppable == old(c.droppable)
    {
      var userInput := GatherUserInput(title, description, PeopleValue(people));
      if userInput.Some? {
        var UserInput(titleValue, descriptionValue, peopleAmountValue) := userInput.value;
        store.AddProject(titleValue, descriptionValue, peopleAmountValue, id);
        ClearInputs();
      }
    }
  }
}
