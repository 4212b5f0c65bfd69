/**
 * The admin users page: the local copy of one page of users and the pagination
 * state, updated after each successful edit, delete or status toggle without
 * reloading the list. Every request is a parameter: `ok` stands for
 * `response.ok`, `confirmed` for the answer to the delete confirmation.
 */
module UsersPage {
  import opened Wrappers

  datatype Role = Admin | Member

  /** A listed user; `id` is `_id`. */
  datatype User = User(id: string, name: string, email: string, role: Role, isActive: bool, createdAt: string)

  /** `EditUserData`: the four fields the edit form sends. */
  datatype EditData = EditData(name: string, email: string, role: Role, isActive: bool)

  /** The add form. */
  datatype NewUserData = NewUserData(name: string, email: string, password: string, role: Role)

  /** `PaginationInfo`. */
  datatype Pagination = Pagination(currentPage: int, totalPages: int, totalUsers: int, hasNext: bool, hasPrev: bool)

  /** The edit form when no user is being edited. */
  const BlankEdit := EditData("", "", Member, true)

  /** The add form when it opens or closes. */
  const BlankNewUser := NewUserData("", "", "", Member)

  /** The edit form filled from a user. */
  function EditDataOf(u: User): (d: EditData)
    ensures d.name == u.name && d.email == u.email && d.role == u.role && d.isActive == u.isActive
  {
    EditData(u.name, u.email, u.role, u.isActive)
  }

  /** `{ ...user, ...editFormData }`. */
  function Edited(u: User, d: EditData): User {
    u.(name := d.name, email := d.email, role := d.role, isActive := d.isActive)
  }

  /** The ids in list order. */
  function Ids(users: seq<User>): (r: seq<string>)
    ensures |r| == |users| && forall i :: 0 <= i < |users| ==> r[i] == users[i].id
  {
    seq(|users|, i requires 0 <= i < |users| => users[i].id)
  }

  /** `prev.map(user => user._id === id ? { ...user, ...editFormData } : user)`. */
  function EditUser(users: seq<User>, id: string, d: EditData): (r: seq<User>)
    ensures Ids(r) == Ids(users)
  {
    seq(|users|, i requires 0 <= i < |users| => if users[i].id == id then Edited(users[i], d) else users[i])
  }

  /**
   * An edit gives the matching users the form's four fields and keeps their id and
   * creation date; every other user stays exactly as it was.
   */
  lemma EditChangesOnlyMatching(users: seq<User>, id: string, d: EditData, i: nat)
    requires i < |users|
    ensures var r := EditUser(users, id, d);
      && |r| == |users|
      && (users[i].id != id ==> r[i] == users[i])
      && (users[i].id == id ==> EditDataOf(r[i]) == d && r[i].id == id && r[i].createdAt == users[i].createdAt)
  {
  }

  /** Submitting the same edit twice changes nothing more. */
  lemma EditIdempotent(users: seq<User>, id: string, d: EditData)
    ensures EditUser(EditUser(users, id, d), id, d) == EditUser(users, id, d)
  {
  }

  /** `prev.filter(user => user._id !== id)`. */
  function DeleteUser(users: seq<User>, id: string): (r: seq<User>)
    ensures |r| <= |users|
  {
    if users == [] then []
    else (if users[0].id != id then [users[0]] else []) + DeleteUser(users[1..], id)
  }

  /** The users left are exactly the listed users with another id. */
  lemma {:induction false} DeleteUserMembers(users: seq<User>, id: string, u: User)
    ensures u in DeleteUser(users, id) <==> u in users && u.id != id
  {
    if users != [] {
      DeleteUserMembers(users[1..], id, u);
      assert u in users <==> u == users[0] || u in users[1..];
    }
  }

  /** No two users share an id. */
  predicate UniqueIds(users: seq<User>) {
    forall i, j :: 0 <= i < j < |users| ==> users[i].id != users[j].id
  }

  /** Deleting an id no user has changes nothing. */
  lemma {:induction false} DeleteAbsentKeepsAll(users: seq<User>, id: string)
    requires forall i :: 0 <= i < |users| ==> users[i].id != id
    ensures DeleteUser(users, id) == users
  {
    if users != [] {
      DeleteAbsentKeepsAll(users[1..], id);
      assert users == [users[0]] + users[1..];
    }
  }

  /** With unique ids, deleting a listed user removes exactly that one user, keeping the others in order. */
  lemma {:induction false} DeleteRemovesOne(users: seq<User>, id: string, k: nat)
    requires UniqueIds(users) && k < |users| && users[k].id == id
    ensures DeleteUser(users, id) == users[..k] + users[k + 1..]
  {
    var rest := users[1..];
    if k == 0 {
      forall i | 0 <= i < |rest|
        ensures rest[i].id != id
      {
        assert rest[i] == users[i + 1];
      }
      DeleteAbsentKeepsAll(rest, id);
    } else {
      assert users[0].id != id;
      assert DeleteUser(users, id) == [users[0]] + DeleteUser(rest, id);
      forall i, j | 0 <= i < j < |rest|
        ensures rest[i].id != rest[j].id
      {
        assert rest[i] == users[i + 1] && rest[j] == users[j + 1];
      }
      DeleteRemovesOne(rest, id, k - 1);
      assert users[..k] == [users[0]] + rest[..k - 1];
      assert users[k + 1..] == rest[k..];
    }
  }

  /** `prev.map(user => user._id === id ? { ...user, isActive: active } : user)`. */
  function SetActive(users: seq<User>, id: string, active: bool): (r: seq<User>)
    ensures Ids(r) == Ids(users)
  {
    seq(|users|, i requires 0 <= i < |users| => if users[i].id == id then users[i].(isActive := active) else users[i])
  }

  /**
   * A toggle from the status shown gives the matching users the opposite status
   * and changes nothing else.
   */
  lemma ToggleFlips(users: seq<User>, id: string, i: nat)
    requires i < |users|
    ensures var r := SetActive(users, id, !users[i].isActive);
      && |r| == |users|
      && (users[i].id == id ==> r[i] == users[i].(isActive := !users[i].isActive))
      && forall j :: 0 <= j < |users| && users[j].id != id ==> r[j] == users[j]
  {
  }

  /** Toggling a user twice, from the status shown each time, gives the list back. */
  lemma ToggleTwiceRestores(users: seq<User>, id: string, status: bool)
    requires forall i :: 0 <= i < |users| && users[i].id == id ==> users[i].isActive == status
    ensures SetActive(SetActive(users, id, !status), id, status) == users
  {
    var r := SetActive(SetActive(users, id, !status), id, status);
    forall i | 0 <= i < |users|
      ensures r[i] == users[i]
    {
    }
  }

  /** The page number after a delete: one back when the deleted user was the only one listed on a later page. */
  function PageAfterDelete(listed: nat, currentPage: int): (p: int)
    ensures currentPage > 1 ==> p >= 1
    ensures p == currentPage || (p == currentPage - 1 && listed == 1)
  {
    if listed == 1 && currentPage > 1 then currentPage - 1 else currentPage
  }

  class UsersPageState {
    var users: seq<User>
    var pagination: Pagination
    var searchTerm: string
    var roleFilter: string
    var editingUser: Option<User>
    var editForm: EditData
    var showEditModal: bool
    var showAddModal: bool
    var newUser: NewUserData

    constructor ()
      ensures users == [] && pagination == Pagination(1, 1, 0, false, false)
      ensures searchTerm == "" && roleFilter == ""
      ensures editingUser == None && editForm == BlankEdit && !showEditModal
      ensures !showAddModal && newUser == BlankNewUser
    {
      users := [];
      pagination := Pagination(1, 1, 0, false, false);
      searchTerm, roleFilter := "", "";
      editingUser, editForm, showEditModal := None, BlankEdit, false;
      showAddModal, newUser := false, BlankNewUser;
    }

    /** `handleSearch`: back to the first page. */
    method HandleSearch()
      modifies this
      ensures pagination == old(pagination).(currentPage := 1)
      ensures users == old(users) && searchTerm == old(searchTerm) && roleFilter == old(roleFilter)
      ensures editingUser == old(editingUser) && editForm == old(editForm) && showEditModal == old(showEditModal)
      ensures showAddModal == old(showAddModal) && newUser == old(newUser)
    {
      pagination := pagination.(currentPage := 1);
    }

    /** `openEditModal`: the user is remembered and the form holds its four fields. */
    method OpenEditModal(u: User)
      modifies this
      ensures editingUser == Some(u) && editForm == EditDataOf(u) && showEditModal
      ensures users == old(users) && pagination == old(pagination)
      ensures searchTerm == old(searchTerm) && roleFilter == old(roleFilter) && showAddModal == old(showAddModal) && newUser == old(newUser)
    {
      editingUser := Some(u);
      editForm := EditDataOf(u);
      showEditModal := true;
    }

    /** `closeEditModal`: nobody is edited and the form is blank again. */
    method CloseEditModal()
      modifies this
      ensures editingUser == None && editForm == BlankEdit && !showEditModal
      ensures users == old(users) && pagination == old(pagination)
      ensures searchTerm == old(searchTerm) && roleFilter == old(roleFilter) && showAddModal == old(showAddModal) && newUser == old(newUser)
    {
      showEditModal := false;
      editingUser := None;
      editForm := BlankEdit;
    }

    /**
     * `handleEditSubmit`: nothing happens with nobody being edited; on success the
     * list takes the form's fields for the edited id and the modal closes; on
     * failure the list and the modal stay as they were and an alert is shown.
     */
    method HandleEditSubmit(ok: bool) returns (alerted: bool)
      modifies this
      ensures alerted <==> old(editingUser).Some? && !ok
      ensures old(editingUser).Some? && ok ==>
        && users == EditUser(old(users), old(editingUser).value.id, old(editForm))
        && editingUser == None && editForm == BlankEdit && !showEditModal
      ensures old(editingUser).None? || !ok ==>
        users == old(users) && editingUser == old(editingUser) && editForm == old(editForm) && showEditModal == old(showEditModal)
      ensures pagination == old(pagination)
      ensures searchTerm == old(searchTerm) && roleFilter == old(roleFilter) && showAddModal == old(showAddModal) && newUser == old(newUser)
    {
      alerted := false;
      if editingUser.None? {
        return;
      }
      if !ok {
        alerted := true;
        return;
      }
      users := EditUser(users, editingUser.value.id, editForm);
      CloseEditModal();
    }

    /** `openAddModal`: a blank form with the `user` role. */
    method OpenAddModal()
      modifies this
      ensures newUser == BlankNewUser && showAddModal
      ensures users == old(users) && pagination == old(pagination)
      ensures searchTerm == old(searchTerm) && roleFilter == old(roleFilter) && editingUser == old(editingUser) && editForm == old(editForm) && showEditModal == old(showEditModal)
    {
      newUser := BlankNewUser;
      showAddModal := true;
    }

    /** `closeAddModal`: the form is blanked as well. */
    method CloseAddModal()
      modifies this
      ensures newUser == BlankNewUser && !showAddModal
      ensures users == old(users) && pagination == old(pagination)
      ensures searchTerm == old(searchTerm) && roleFilter == old(roleFilter) && editingUser == old(editingUser) && editForm == old(editForm) && showEditModal == old(showEditModal)
    {
      showAddModal := false;
      newUser := BlankNewUser;
    }

    /**
     * `handleDeleteUser`: without confirmation nothing happens; on success the
     * user is dropped and, when it was the only user listed on a later page, the
     * page goes one back; on failure nothing changes but an alert.
     */
    method HandleDeleteUser(id: string, confirmed: bool, ok: bool) returns (alerted: bool)
      modifies this
      ensures alerted <==> confirmed && !ok
      ensures confirmed && ok ==>
        && users == DeleteUser(old(users), id)
        && pagination == old(pagination).(currentPage := PageAfterDelete(|old(users)|, old(pagination).currentPage))
      ensures !confirmed || !ok ==> users == old(users) && pagination == old(pagination)
      ensures searchTerm == old(searchTerm) && roleFilter == old(roleFilter)
      ensures editingUser == old(editingUser) && editForm == old(editForm) && showEditModal == old(showEditModal) && showAddModal == old(showAddModal) && newUser == old(newUser)
    {
      alerted := false;
      if !confirmed {
        return;
      }
      if !ok {
        alerted := true;
        return;
      }
      var listed := |users|;
      users := DeleteUser(users, id);
      if listed == 1 && pagination.currentPage > 1 {
        pagination := pagination.(currentPage := pagination.currentPage - 1);
      }
    }

    /**
     * `toggleUserStatus`: the request asks for `!currentStatus`; on success the
     * matching users take that status, on failure nothing changes but an alert.
     */
    method ToggleUserStatus(id: string, currentStatus: bool, ok: bool) returns (requested: bool, alerted: bool)
      modifies this
      ensures requested == !currentStatus
      ensures alerted <==> !ok
      ensures ok ==> users == SetActive(old(users), id, !currentStatus)
      ensures !ok ==> users == old(users)
      ensures pagination == old(pagination)
      ensures searchTerm == old(searchTerm) && roleFilter == old(roleFilter)
      ensures editingUser == old(editingUser) && editForm == old(editForm) && showEditModal == old(showEditModal) && showAddModal == old(showAddModal) && newUser == old(newUser)
    {
      requested := !currentStatus;
      alerted := !ok;
      if ok {
        users := SetActive(users, id, requested);
      }
    }
  }
}
