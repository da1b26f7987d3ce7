/** The user list of components/admin/UserManagement.tsx: a local list of users, starting
    from four fixed accounts, with an add/edit form and a confirmed delete. */
module UserAdmin {
  import opened Common
  import opened Model

  /** The form's four fields. */
  datatype UserForm = UserForm(name: string, email: string, role: string, status: string)

  const BlankForm: UserForm := UserForm("", "", "Viewer", "Active")

  const MockUsers: seq<User> := [
    User("u1", "admin@insightflow.com", "Admin User", None, Some("Administrator"), Some("Active")),
    User("u2", "john@company.com", "John Doe", None, Some("Viewer"), Some("Active")),
    User("u3", "sarah@company.com", "Sarah Smith", None, Some("Editor"), Some("Inactive")),
    User("u4", "mike@company.com", "Mike Jones", None, Some("Viewer"), Some("Active"))]

  /** `value || fallback` on an optional string: a missing or empty value falls back. */
  function OrDefault(v: Option<string>, fallback: string): (r: string)
    ensures (v.Some? && v.value != "") ==> r == v.value
    ensures (v.None? || v.value == "") ==> r == fallback
  {
    if v.Some? && v.value != "" then v.value else fallback
  }

  /** The form filled from a user, as handleEdit loads it. */
  function LoadForm(u: User): (f: UserForm)
    ensures f.name == u.name && f.email == u.email
    ensures f.role == OrDefault(u.role, "Viewer") && f.status == OrDefault(u.status, "Active")
  {
    UserForm(u.name, u.email, OrDefault(u.role, "Viewer"), OrDefault(u.status, "Active"))
  }

  /** `{ ...u, ...formData }`: the form's four fields over the user. */
  function Overwrite(u: User, f: UserForm): (r: User)
    ensures r.id == u.id && r.avatar == u.avatar
    ensures r.name == f.name && r.email == f.email && r.role == Some(f.role) && r.status == Some(f.status)
  {
    u.(name := f.name, email := f.email, role := Some(f.role), status := Some(f.status))
  }

  /** Saving an edit: every user carrying the edited id takes the form's fields. */
  function EditedUsers(users: seq<User>, id: string, f: UserForm): (r: seq<User>)
    ensures |r| == |users|
    decreases |users|
  {
    if users == [] then []
    else [if users[0].id == id then Overwrite(users[0], f) else users[0]] + EditedUsers(users[1..], id, f)
  }

  /** An edit keeps the count, every position and every id; the users with the edited id
      carry the form's fields and the others are unchanged. */
  lemma {:induction false} EditedUsersMeaning(users: seq<User>, id: string, f: UserForm)
    ensures var r := EditedUsers(users, id, f);
      |r| == |users|
      && (forall i :: 0 <= i < |users| ==> r[i].id == users[i].id)
      && (forall i :: 0 <= i < |users| && users[i].id == id ==> r[i] == Overwrite(users[i], f))
      && (forall i :: 0 <= i < |users| && users[i].id != id ==> r[i] == users[i])
    decreases |users|
  {
    if users != [] {
      EditedUsersMeaning(users[1..], id, f);
      var r := EditedUsers(users, id, f);
      assert r[1..] == EditedUsers(users[1..], id, f);
      forall i | 1 <= i < |users| ensures r[i] == EditedUsers(users[1..], id, f)[i - 1] && users[i] == users[1..][i - 1] {
      }
    }
  }

  /** Opening a user for edit and saving without changes leaves the list as it was, when
      the user has a role and a status and no other user shares the id. */
  lemma EditSaveUnchanged(users: seq<User>, u: User)
    requires u.role.Some? && u.role.value != "" && u.status.Some? && u.status.value != ""
    requires forall v :: v in users && v.id == u.id ==> v == u
    ensures EditedUsers(users, u.id, LoadForm(u)) == users
  {
    EditedUsersMeaning(users, u.id, LoadForm(u));
    var r := EditedUsers(users, u.id, LoadForm(u));
    forall i | 0 <= i < |users| ensures r[i] == users[i] {
      if users[i].id == u.id {
        assert users[i] in users;
      }
    }
  }

  /** Deleting: the users whose id differs, in order. */
  function WithoutUser(users: seq<User>, id: string): seq<User>
  {
    Keep(users, (u: User) => u.id != id)
  }

  /** Deleting removes exactly the users with that id and keeps the others in order,
      each as often as it occurs. */
  lemma WithoutUserMeaning(users: seq<User>, id: string)
    ensures IsSubsequence(WithoutUser(users, id), users)
    ensures forall u :: u in WithoutUser(users, id) <==> u in users && u.id != id
    ensures forall u :: multiset(WithoutUser(users, id))[u] == if u.id != id then multiset(users)[u] else 0
    ensures (forall u :: u in users ==> u.id != id) ==> WithoutUser(users, id) == users
  {
    KeepMeaning(users, (u: User) => u.id != id);
  }

  /** The user a new-user save appends: the time-stamped id and the form's fields. */
  function NewUser(f: UserForm, now: nat): (u: User)
    ensures u.id == "u-" + NatText(now) && u.avatar.None?
    ensures u.name == f.name && u.email == f.email && u.role == Some(f.role) && u.status == Some(f.status)
  {
    User("u-" + NatText(now), f.email, f.name, None, Some(f.role), Some(f.status))
  }

  class UserManagement {
    var users: seq<User>
    var editingUser: Option<User>
    var form: UserForm
    var modalOpen: bool

    constructor()
      ensures users == MockUsers && editingUser.None? && form == BlankForm && !modalOpen
    {
      users, editingUser, form, modalOpen := MockUsers, None, BlankForm, false;
    }

    /** handleEdit: the user is remembered and loaded into the form. */
    method Edit(u: User)
      modifies this
      ensures editingUser == Some(u) && form == LoadForm(u) && modalOpen
      ensures users == old(users)
    {
      editingUser, form, modalOpen := Some(u), LoadForm(u), true;
    }

    /** handleAdd: a blank form for a new user. */
    method Add()
      modifies this
      ensures editingUser.None? && form == BlankForm && modalOpen
      ensures users == old(users)
    {
      editingUser, form, modalOpen := None, BlankForm, true;
    }

    /** handleDelete: the confirmation is the answer to the browser's dialog. */
    method Delete(id: string, confirmed: bool)
      modifies this
      ensures users == (if confirmed then WithoutUser(old(users), id) else old(users))
      ensures editingUser == old(editingUser) && form == old(form) && modalOpen == old(modalOpen)
    {
      if confirmed {
        users := WithoutUser(users, id);
      }
    }

    /** The form's inputs: `setFormData({...formData, <field>: value})`. */
    method TypeName(v: string)
      modifies this
      ensures form == old(form).(name := v)
      ensures users == old(users) && editingUser == old(editingUser) && modalOpen == old(modalOpen)
    {
      form := form.(name := v);
    }

    method TypeEmail(v: string)
      modifies this
      ensures form == old(form).(email := v)
      ensures users == old(users) && editingUser == old(editingUser) && modalOpen == old(modalOpen)
    {
      form := form.(email := v);
    }

    method ChooseRole(v: string)
      modifies this
      ensures form == old(form).(role := v)
      ensures users == old(users) && editingUser == old(editingUser) && modalOpen == old(modalOpen)
    {
      form := form.(role := v);
    }

    method ChooseStatus(v: string)
      modifies this
      ensures form == old(form).(status := v)
      ensures users == old(users) && editingUser == old(editingUser) && modalOpen == old(modalOpen)
    {
      form := form.(status := v);
    }

    /** The modal's onClose: it closes without saving, keeping the form. */
    method CloseModal()
      modifies this
      ensures !modalOpen
      ensures users == old(users) && editingUser == old(editingUser) && form == old(form)
    {
      modalOpen := false;
    }

    /** handleSave: an edit overwrites the edited user, otherwise a new user is appended;
        the modal closes. The clock is a parameter. */
    method Save(now: nat)
      modifies this
      ensures old(editingUser).Some? ==> users == EditedUsers(old(users), old(editingUser).value.id, old(form))
      ensures old(editingUser).None? ==> users == old(users) + [NewUser(old(form), now)]
      ensures |users| == |old(users)| + (if old(editingUser).None? then 1 else 0)
      ensures !modalOpen && editingUser == old(editingUser) && form == old(form)
    {
      if editingUser.Some? {
        users := EditedUsers(users, editingUser.value.id, form);
      } else {
        users := users + [NewUser(form, now)];
      }
      modalOpen := false;
    }
  }
}
