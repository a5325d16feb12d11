/**
 * The profile page of `src/pages/Profile.js`: the saved user, a form copy of it, and an edit
 * mode switched by the Edit, Cancel and Save buttons. Only the name, email and password have
 * inputs; the membership fee and credit points are shown but cannot be edited.
 */
module Profile {

  datatype User = User(
    name: string,
    email: string,
    password: string,
    membershipFee: real,
    creditPoints: int)

  const InitialUser: User := User("John Doe", "johndoe@example.com", "********", 25.0, 100)

  const SavedAlert: string := "Profile updated!"

  /** The fields that have an input in edit mode. */
  datatype ProfileField = Name | Email | Password

  function FieldValue(user: User, field: ProfileField): string
  {
    match field
    case Name => user.name
    case Email => user.email
    case Password => user.password
  }

  /** One input's change handler: `{ ...formData, [field]: value }`. */
  function WithField(user: User, field: ProfileField, value: string): (next: User)
    ensures FieldValue(next, field) == value
    ensures forall other :: other != field ==> FieldValue(next, other) == FieldValue(user, other)
    ensures next.membershipFee == user.membershipFee && next.creditPoints == user.creditPoints
  {
    match field
    case Name => user.(name := value)
    case Email => user.(email := value)
    case Password => user.(password := value)
  }

  /** The form after a series of edits, applied in order. */
  function ApplyEdits(user: User, edits: seq<(ProfileField, string)>): User
  {
    if edits == [] then user
    else
      var (field, value) := edits[|edits| - 1];
      WithField(ApplyEdits(user, edits[..|edits| - 1]), field, value)
  }

  /** No series of edits changes the membership fee or the credit points. */
  lemma {:induction false} EditsKeepFeeAndPoints(user: User, edits: seq<(ProfileField, string)>)
    ensures ApplyEdits(user, edits).membershipFee == user.membershipFee
    ensures ApplyEdits(user, edits).creditPoints == user.creditPoints
  {
    if edits != [] {
      EditsKeepFeeAndPoints(user, edits[..|edits| - 1]);
    }
  }

  /** Editing a field and then setting it back to its old value restores the form. */
  lemma RestoringFieldRestoresForm(user: User, field: ProfileField, value: string)
    ensures WithField(WithField(user, field, value), field, FieldValue(user, field)) == user
  {
  }

  class ProfilePage {
    var user: User
    var editMode: bool
    var formData: User
    /** The messages shown with `alert`, in order. */
    var alerts: seq<string>

    /** Outside edit mode the form mirrors the saved user, and neither the user nor the form
        ever has a membership fee or credit balance other than the initial one. */
    ghost predicate Valid()
      reads this
    {
      && (!editMode ==> formData == user)
      && user.membershipFee == formData.membershipFee == InitialUser.membershipFee
      && user.creditPoints == formData.creditPoints == InitialUser.creditPoints
    }

    constructor ()
      ensures Valid()
      ensures user == InitialUser && !editMode && formData == user && alerts == []
    {
      user := InitialUser;
      editMode := false;
      formData := InitialUser;
      alerts := [];
    }

    /** `handleEdit`, behind the "Edit Profile" button of the view mode. */
    method HandleEdit()
      requires Valid() && !editMode
      modifies this
      ensures Valid()
      ensures editMode
      ensures user == old(user) && formData == old(formData) && alerts == old(alerts)
    {
      editMode := true;
    }

    /** One input of the edit form. */
    method HandleInput(field: ProfileField, value: string)
      requires Valid() && editMode
      modifies this
      ensures Valid() && editMode
      ensures formData == WithField(old(formData), field, value)
      ensures user == old(user) && alerts == old(alerts)
    {
      formData := WithField(formData, field, value);
    }

    /** `handleCancel`: leave edit mode and throw the edits away. */
    method HandleCancel()
      requires Valid() && editMode
      modifies this
      ensures Valid()
      ensures !editMode && formData == old(user)
      ensures user == old(user) && alerts == old(alerts)
    {
      editMode := false;
      formData := user;
    }

    /** `handleSave`: the form becomes the user, edit mode ends, and the page alerts. */
    method HandleSave()
      requires Valid() && editMode
      modifies this
      ensures Valid()
      ensures user == old(formData) && !editMode && formData == old(formData)
      ensures alerts == old(alerts) + [SavedAlert]
    {
      user := formData;
      editMode := false;
      alerts := alerts + [SavedAlert];
    }
  }
}
