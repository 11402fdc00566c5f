/** The users page: the edit form a user opens into, the patch `save` sends
    for it, and the guard in front of `del`. */
module Users {
  import opened Js

  const DefaultRole: string := "seeker"

  /** A user as `/admin/users` lists it. */
  datatype User = User(
    id: Option<string>, email: Option<string>, role: Option<string>,
    fullName: Option<string>, companyName: Option<string>, phone: Option<string>)

  /** `selected`: a copy of the user with its editable texts filled in. */
  datatype UserForm = UserForm(
    id: Option<string>, email: Option<string>, role: string,
    fullName: string, companyName: string, phone: string)

  /** `openEdit`: a missing role becomes `seeker`, missing names and phone
      the empty text; the id and email are kept. */
  function OpenEdit(u: User): (f: UserForm)
    ensures f.id == u.id && f.email == u.email
    ensures f.role == OrElse(u.role, DefaultRole)
    ensures f.fullName == OrElse(u.fullName, "") && f.companyName == OrElse(u.companyName, "")
    ensures f.phone == OrElse(u.phone, "")
  {
    UserForm(u.id, u.email, OrElse(u.role, DefaultRole), OrElse(u.fullName, ""),
             OrElse(u.companyName, ""), OrElse(u.phone, ""))
  }

  /** The body of `PATCH /admin/users/:id`: exactly these four fields. */
  datatype UserPatch = UserPatch(role: string, fullName: string, companyName: Option<string>, phone: Option<string>)

  function PatchOf(f: UserForm): UserPatch
  {
    UserPatch(f.role, f.fullName, OrNull(f.companyName), OrNull(f.phone))
  }

  /** `save`: nothing is sent without a form or when the form's user has no
      id; otherwise the patch goes to that id. */
  function Save(selected: Option<UserForm>): (r: Option<(string, UserPatch)>)
    ensures r.Some? <==> selected.Some? && Truthy(selected.value.id)
    ensures r.Some? ==> r.value.0 == selected.value.id.value && r.value.1 == PatchOf(selected.value)
  {
    if selected.Some? && Truthy(selected.value.id) then Some((selected.value.id.value, PatchOf(selected.value)))
    else None
  }

  /** Saving an opened user unchanged writes back its role (or `seeker` when
      it had none), its name (or the empty text) and its company and phone
      (or `null`); the email is never sent. */
  lemma SaveOpenedUser(u: User, email: Option<string>)
    requires Truthy(u.id)
    ensures var r := Save(Some(OpenEdit(u)));
            r.Some? && r.value.0 == u.id.value &&
            r.value.1.role == (if Truthy(u.role) then u.role.value else DefaultRole) &&
            r.value.1.fullName == OrElse(u.fullName, "") &&
            r.value.1.companyName == (if Truthy(u.companyName) then u.companyName else None) &&
            r.value.1.phone == (if Truthy(u.phone) then u.phone else None)
    ensures Save(Some(OpenEdit(u.(email := email)))) == Save(Some(OpenEdit(u)))
  {
  }

  /** `del(id)`: the confirmation is asked only for a non-empty id, and the
      delete goes out only when it is given. `confirm` is the admin's answer. */
  function Delete(id: Option<string>, confirm: bool): (r: Option<string>)
    ensures r.Some? <==> Truthy(id) && confirm
    ensures r.Some? ==> r == id
  {
    if !Truthy(id) then None
    else if !confirm then None
    else id
  }
}
