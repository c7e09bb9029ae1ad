/**
 * frontend/src/pages/Admin.jsx: the user table with one edit form. The component's three
 * state cells are `users`, `editingId` and `formData`; `sent` records the requests the
 * handlers issue, in order. The outcome of each request is a parameter: a fetch either
 * rejects (None / false) or resolves, and `fetchUsers` stores whatever list it gets.
 */
module Admin {
  import opened Wrappers
  import opened Records

  /** A stored user as `/users` returns it. */
  datatype User = User(id: string, name: string, department: string, face: StoredFace)

  /** The edit form's `{name, department, face}`. */
  datatype Form = Form(name: string, department: string, face: StoredFace)

  /** The `name` attribute of the input that fired `onChange`. */
  datatype Field = NameField | DepartmentField | FaceField

  datatype Request = GetUsers | PutUser(id: string, body: Form) | DeleteUser(id: string)

  const EmptyForm: Form := Form("", "", Encoded(""))

  /** `{ ...prev, [e.target.name]: e.target.value }`; the face textarea yields text. */
  function WithField(f: Form, field: Field, value: string): (g: Form)
    ensures field == NameField ==> g == Form(value, f.department, f.face)
    ensures field == DepartmentField ==> g == Form(f.name, value, f.face)
    ensures field == FaceField ==> g == Form(f.name, f.department, Encoded(value))
  {
    match field
    case NameField => f.(name := value)
    case DepartmentField => f.(department := value)
    case FaceField => f.(face := Encoded(value))
  }

  /** The form that `handleEdit` loads for a user. */
  function FormOf(u: User): Form
  {
    Form(u.name, u.department, u.face)
  }

  /** `editingId === user._id`: the row renders inputs instead of text. */
  predicate InEditMode(editingId: Option<string>, u: User)
  {
    editingId == Some(u.id)
  }

  predicate UniqueIds(users: seq<User>)
  {
    forall i, j :: 0 <= i < |users| && 0 <= j < |users| && users[i].id == users[j].id ==> i == j
  }

  /** The indices of the rows in edit mode. */
  function EditableRows(editingId: Option<string>, users: seq<User>): (rows: set<nat>)
    ensures forall i: nat :: i in rows <==> i < |users| && InEditMode(editingId, users[i])
  {
    set i: nat | i < |users| && InEditMode(editingId, users[i])
  }

  /** With unique ids, at most one row is in edit mode; none when nothing is being edited. */
  lemma AtMostOneRowEditable(editingId: Option<string>, users: seq<User>)
    requires UniqueIds(users)
    ensures |EditableRows(editingId, users)| <= 1
    ensures editingId.None? ==> EditableRows(editingId, users) == {}
  {
    var rows := EditableRows(editingId, users);
    if rows != {} {
      var k :| k in rows;
      assert rows == {k};
    }
  }

  class AdminPanel {
    var users: seq<User>
    var editingId: Option<string>
    var formData: Form
    var sent: seq<Request>

    /** The initial state cells. */
    constructor ()
      ensures users == [] && editingId == None && formData == EmptyForm && sent == []
    {
      users, editingId, formData, sent := [], None, EmptyForm, [];
    }

    /** `fetchUsers`: GET `/users` and replace the list wholesale with the answer. */
    method FetchUsers(fetched: Option<seq<User>>)
      modifies this
      ensures sent == old(sent) + [GetUsers]
      ensures users == if fetched.Some? then fetched.value else old(users)
      ensures editingId == old(editingId) && formData == old(formData)
    {
      sent := sent + [GetUsers];
      if fetched.Some? {
        users := fetched.value;
      }
    }

    /** `handleEdit(user)`: that user's row enters edit mode; unsaved edits elsewhere are dropped. */
    method Edit(u: User)
      modifies this
      ensures editingId == Some(u.id)
      ensures formData == FormOf(u)
      ensures users == old(users) && sent == old(sent)
    {
      editingId := Some(u.id);
      formData := FormOf(u);
    }

    /** `handleChange(e)`: only the named field of the form changes. */
    method Change(field: Field, value: string)
      modifies this
      ensures formData == WithField(old(formData), field, value)
      ensures users == old(users) && editingId == old(editingId) && sent == old(sent)
    {
      formData := WithField(formData, field, value);
    }

    /** The Cancel button: `setEditingId(null)`, no request, the form left as it is. */
    method Cancel()
      modifies this
      ensures editingId == None
      ensures users == old(users) && formData == old(formData) && sent == old(sent)
    {
      editingId := None;
    }

    /**
     * `handleUpdate(id)`: PUT the whole form, then leave edit mode whatever the status and
     * refetch. When the PUT rejects, the rest of the handler does not run.
     */
    method Update(id: string, putResolved: bool, fetched: Option<seq<User>>)
      modifies this
      ensures formData == old(formData)
      ensures putResolved ==>
        editingId == None &&
        sent == old(sent) + [PutUser(id, old(formData)), GetUsers] &&
        users == if fetched.Some? then fetched.value else old(users)
      ensures !putResolved ==>
        editingId == old(editingId) && sent == old(sent) + [PutUser(id, old(formData))] && users == old(users)
    {
      sent := sent + [PutUser(id, formData)];
      if putResolved {
        editingId := None;
        FetchUsers(fetched);
      }
    }

    /** `handleDelete(id)`: DELETE, then refetch; edit state is untouched. */
    method Delete(id: string, deleteResolved: bool, fetched: Option<seq<User>>)
      modifies this
      ensures editingId == old(editingId) && formData == old(formData)
      ensures deleteResolved ==>
        sent == old(sent) + [DeleteUser(id), GetUsers] &&
        users == if fetched.Some? then fetched.value else old(users)
      ensures !deleteResolved ==> sent == old(sent) + [DeleteUser(id)] && users == old(users)
    {
      sent := sent + [DeleteUser(id)];
      if deleteResolved {
        FetchUsers(fetched);
      }
    }
  }

  /** Editing a row then changing one field leaves the other two fields as that row's values. */
  lemma EditThenChange(u: User, field: Field, value: string)
    ensures field != NameField ==> WithField(FormOf(u), field, value).name == u.name
    ensures field != DepartmentField ==> WithField(FormOf(u), field, value).department == u.department
    ensures field != FaceField ==> WithField(FormOf(u), field, value).face == u.face
  {
  }
}
