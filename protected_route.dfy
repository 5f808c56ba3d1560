/** The route guard (`ProtectedRoute.tsx`): a placeholder while the session
    loads, a redirect to the login page without a user, the page otherwise. */
module Guard {
  import opened Wrappers
  import opened Users
  import opened Auth

  datatype Outcome = Placeholder | Redirect(to: string, replace: bool) | RenderChildren

  function Route(loading: bool, user: Option<UserDto>): (r: Outcome)
    ensures r == Placeholder <==> loading
    ensures r == Redirect("/login", true) <==> !loading && user.None?
    ensures r == RenderChildren <==> !loading && user.Some?
    ensures r.Redirect? ==> r == Redirect("/login", true)
  {
    if loading then Placeholder
    else if user.None? then Redirect("/login", true)
    else RenderChildren
  }

  /** Before the provider's first effect the guard shows the placeholder;
      once it has run on storage without a record, it redirects. */
  lemma GuardAroundInit(storage: map<string, string>, parse: string -> Option<UserDto>)
    requires StorageKey !in storage
    ensures Route(true, None) == Placeholder
    ensures Route(false, ReadStoredUser(storage, parse)) == Redirect("/login", true)
  {
  }

  /** After a logout the guard redirects; after a login it lets the page
      through. */
  lemma GuardAfterSessionChange(s: Session, u: UserDto, serialize: UserDto -> string)
    ensures Route(false, Persisted(s, None, serialize).user) == Redirect("/login", true)
    ensures Route(false, Persisted(s, Some(u), serialize).user) == RenderChildren
  {
  }
}
