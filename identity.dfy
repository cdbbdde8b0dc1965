/** The identity accessor: the signed-in user injected by the application
    shell, with fail-fast guards and the display-name fallback. */
module Identity {
  import opened Wrappers

  /** The identity provider's user record; `displayName` and `email` may be null. */
  datatype User = User(uid: string, displayName: Option<string>, email: Option<string>)

  /** The injected `user` reference; its value is null while nobody is signed in. */
  datatype UserRef = UserRef(value: Option<User>)

  const NoContextMessage := "User is required. Make sure you are using this composable within a component that has access to the user context."
  const NoUserMessage := "User is required"
  const NamePlaceholder := "Användare"

  /** JavaScript truthiness of an optional string: present and non-empty. */
  predicate Truthy(s: Option<string>) { s.Some? && s.value != "" }

  /** `useUser()`: throws at once when no user context was injected, and
      otherwise hands out the injected reference. */
  function UseUser(injected: Option<UserRef>): (r: Result<UserRef>)
    ensures r.Err? <==> injected.None?
    ensures r.Err? ==> r.message == NoContextMessage
    ensures r.Ok? ==> r.value == injected.value
  {
    if injected.None? then Err(NoContextMessage) else Ok(injected.value)
  }

  /** `userValue`: the signed-in user, or an error when the reference is null. */
  function UserValue(user: UserRef): (r: Result<User>)
    ensures r.Ok? <==> user.value.Some?
    ensures r.Ok? ==> r.value == user.value.value
    ensures r.Err? ==> r.message == NoUserMessage
  {
    match user.value
    case None => Err(NoUserMessage)
    case Some(u) => Ok(u)
  }

  /** `userName`: the display name, else the e-mail address, else a placeholder. */
  function UserName(user: UserRef): (r: Result<string>)
    ensures r.Err? <==> user.value.None?
    ensures r.Err? ==> r.message == NoUserMessage
    ensures r.Ok? ==> r.value != ""
    ensures r.Ok? && Truthy(user.value.value.displayName) ==> r.value == user.value.value.displayName.value
    ensures r.Ok? && !Truthy(user.value.value.displayName) && Truthy(user.value.value.email) ==> r.value == user.value.value.email.value
    ensures r.Ok? && !Truthy(user.value.value.displayName) && !Truthy(user.value.value.email) ==> r.value == NamePlaceholder
  {
    match UserValue(user)
    case Err(e) => Err(e)
    case Ok(u) =>
      Ok(if Truthy(u.displayName) then u.displayName.value
         else if Truthy(u.email) then u.email.value
         else NamePlaceholder)
  }

  /** `userId`: the user's `uid`. */
  function UserId(user: UserRef): (r: Result<string>)
    ensures r.Err? <==> user.value.None?
    ensures r.Ok? ==> r.value == user.value.value.uid
  {
    match UserValue(user)
    case Err(e) => Err(e)
    case Ok(u) => Ok(u.uid)
  }

  /** The accessors agree on whether somebody is signed in, and the
      placeholder shows only when it is the user's own name or the user has
      neither a display name nor an e-mail address. */
  lemma NameAndIdAgree(user: UserRef)
    ensures UserName(user).Ok? <==> UserId(user).Ok?
    ensures UserName(user).Ok? && UserName(user).value == NamePlaceholder ==>
      var u := user.value.value;
      (!Truthy(u.displayName) && !Truthy(u.email))
        || (Truthy(u.displayName) && u.displayName.value == NamePlaceholder)
        || (!Truthy(u.displayName) && u.email.value == NamePlaceholder)
  {
  }
}
