/**
 * The profile page: its edit form, the preferred-cinema toggle, and the save and cancel
 * handlers. The page shows nothing without a signed-in user, so its handlers only exist when
 * there is one.
 */
module Profile {
  import opened Wrappers
  import opened Types
  import opened Lists

  /** `list.filter(name => name !== c)`'s test. */
  function IsNot(c: string): string -> bool {
    name => name != c
  }

  /** `handleCinemaChange`'s update: a listed name is removed everywhere it occurs; an unlisted
      one is appended. */
  function Toggle(list: seq<string>, c: string): (r: seq<string>)
    ensures c in list ==> r == Filter(list, IsNot(c))
    ensures c in list ==> c !in r && forall x :: x in r <==> x in list && x != c
    ensures c !in list ==> r == list + [c]
  {
    if c in list then Filter(list, IsNot(c)) else list + [c]
  }

  /** The checkbox of `c` flips with every toggle, and no other name changes membership. */
  lemma ToggleFlips(list: seq<string>, c: string, x: string)
    ensures c in Toggle(list, c) <==> c !in list
    ensures x != c ==> (x in Toggle(list, c) <==> x in list)
  {
  }

  /** Toggling a name twice restores the set of names. */
  lemma ToggleTwiceSameNames(list: seq<string>, c: string, x: string)
    ensures x in Toggle(Toggle(list, c), c) <==> x in list
  {
    ToggleFlips(list, c, x);
    ToggleFlips(Toggle(list, c), c, x);
  }

  /** Toggling an unlisted name twice restores the list exactly. */
  lemma ToggleTwiceAbsent(list: seq<string>, c: string)
    requires c !in list
    ensures Toggle(Toggle(list, c), c) == list
  {
    var once := list + [c];
    assert c in once;
    FilterAppendDropped(list, c);
  }

  /** Removing the name just appended to a list that lacked it gives the list back. */
  lemma {:induction false} FilterAppendDropped(list: seq<string>, c: string)
    requires c !in list
    ensures Filter(list + [c], IsNot(c)) == list
  {
    if list == [] {
      assert [] + [c] == [c];
      assert [c][1..] == [];
    } else {
      assert (list + [c])[0] == list[0] && (list + [c])[1..] == list[1..] + [c];
      FilterAppendDropped(list[1..], c);
    }
  }

  /** A name listed twice is not restored by two toggles: both copies go, and one comes back. */
  lemma DuplicatesCollapse()
    ensures Toggle(Toggle(["AMC Metreon", "AMC Metreon"], "AMC Metreon"), "AMC Metreon") == ["AMC Metreon"]
  {
    var l := ["AMC Metreon", "AMC Metreon"];
    assert Filter(l[1..], IsNot("AMC Metreon")) == [] by { assert l[1..][1..] == []; }
    assert Toggle(l, "AMC Metreon") == [];
  }

  datatype ProfileForm = ProfileForm(name: string, email: string, preferredCinemas: seq<string>)

  /** The form's initial values: the user's, or empty ones before a user is known. */
  function InitialForm(user: Option<User>): (f: ProfileForm)
    ensures user.Some? ==> f == ProfileForm(user.value.name, user.value.email, user.value.preferredCinemas)
    ensures user.None? ==> f == ProfileForm("", "", [])
  {
    match user
    case Some(u) => ProfileForm(u.name, u.email, u.preferredCinemas)
    case None => ProfileForm("", "", [])
  }

  class ProfilePage {
    const user: Option<User>
    var isEditing: bool
    var isSaving: bool
    var formData: ProfileForm

    constructor (user: Option<User>)
      ensures this.user == user && formData == InitialForm(user) && !isEditing && !isSaving
    {
      this.user := user;
      formData := InitialForm(user);
      isEditing, isSaving := false, false;
    }

    /** Whether the page renders at all. */
    predicate Renders() {
      user.Some?
    }

    /** Whether the cinema `c` is ticked in the edit form. */
    function Checked(c: string): (b: bool)
      reads this
      ensures b <==> c in formData.preferredCinemas
    {
      c in formData.preferredCinemas
    }

    /** The edit button. */
    method Edit()
      requires Renders()
      modifies this`isEditing
      ensures isEditing
    {
      isEditing := true;
    }

    /** `handleSave`: saving runs and ends, edit mode closes, and neither the form nor the user
        changes (nothing is sent). */
    method Save()
      requires Renders()
      modifies this`isSaving, this`isEditing
      ensures !isSaving && !isEditing
    {
      isSaving := true;
      isSaving := false;
      isEditing := false;
    }

    /** `handleCancel`: the form is reset to the user's values and edit mode closes. */
    method Cancel()
      requires Renders()
      modifies this`formData, this`isEditing
      ensures formData == InitialForm(user) && !isEditing
    {
      var u := user.value;
      formData := ProfileForm(u.name, u.email, u.preferredCinemas);
      isEditing := false;
    }

    /** `handleCinemaChange`: only the cinema list changes, by `Toggle`. */
    method CinemaChange(c: string)
      requires Renders()
      modifies this`formData
      ensures formData == old(formData).(preferredCinemas := Toggle(old(formData.preferredCinemas), c))
      ensures Checked(c) <==> !old(Checked(c))
    {
      formData := formData.(preferredCinemas := Toggle(formData.preferredCinemas, c));
      ToggleFlips(old(formData.preferredCinemas), c, c);
    }
  }
}
