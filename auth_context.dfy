/** The signed-in user on the client (`AuthContext.tsx`): the record kept in
    browser storage under one key, the provider's `user` and `loading` state,
    and the guard on use outside a provider. JSON encoding and decoding are
    functions the provider is given; `types/user.ts` is not part of this
    model, and the record is taken to be the profile the server returns. */
module Auth {
  import opened Wrappers
  import opened Users

  const StorageKey: string := "waifuCardUser"

  /** `readStoredUser`: nothing when the key is absent or holds the empty
      string, else what parsing gives (nothing when it fails). It never
      throws. */
  function ReadStoredUser(storage: map<string, string>, parse: string -> Option<UserDto>): (r: Option<UserDto>)
    ensures StorageKey !in storage ==> r.None?
    ensures StorageKey in storage && storage[StorageKey] == "" ==> r.None?
    ensures StorageKey in storage && storage[StorageKey] != "" ==> r == parse(storage[StorageKey])
  {
    if StorageKey in storage && storage[StorageKey] != "" then parse(storage[StorageKey]) else None
  }

  /** The provider's observable state: `user` and the storage it mirrors. */
  datatype Session = Session(user: Option<UserDto>, storage: map<string, string>)

  /** `persistUser`: the state takes the record, and storage holds its
      encoding, or loses the key when there is no record. */
  function Persisted(s: Session, data: Option<UserDto>, serialize: UserDto -> string): (r: Session)
    ensures r.user == data
    ensures data.Some? ==> r.storage == s.storage[StorageKey := serialize(data.value)]
    ensures data.None? ==> r.storage == s.storage - {StorageKey}
  {
    if data.Some? then Session(data, s.storage[StorageKey := serialize(data.value)])
    else Session(None, s.storage - {StorageKey})
  }

  /** After `logout`, a fresh read of storage finds nobody. */
  lemma LogoutThenRead(s: Session, serialize: UserDto -> string, parse: string -> Option<UserDto>)
    ensures ReadStoredUser(Persisted(s, None, serialize).storage, parse) == None
  {
  }

  /** After `login(u)`, a fresh read of storage gives u back, provided the
      JSON encoding round-trips and is never the empty string. */
  lemma LoginThenRead(s: Session, u: UserDto, serialize: UserDto -> string, parse: string -> Option<UserDto>)
    requires serialize(u) != "" && parse(serialize(u)) == Some(u)
    ensures ReadStoredUser(Persisted(s, Some(u), serialize).storage, parse) == Some(u)
    ensures Persisted(s, Some(u), serialize).user == Some(u)
  {
  }

  /** Keys other than the session's own are never touched. */
  lemma PersistKeepsOtherKeys(s: Session, data: Option<UserDto>, serialize: UserDto -> string, key: string)
    requires key != StorageKey
    ensures key in Persisted(s, data, serialize).storage <==> key in s.storage
    ensures key in s.storage ==> Persisted(s, data, serialize).storage[key] == s.storage[key]
  {
  }

  /** `useAuth`: the context value, or the error thrown outside a provider. */
  function UseAuth<T>(context: Option<T>): (r: Result<T>)
    ensures context.None? <==> r.Err?
    ensures r.Err? ==> r.error == Runtime("useAuth must be used within an AuthProvider")
    ensures context.Some? ==> r == Ok(context.value)
  {
    match context
    case None => Err(Runtime("useAuth must be used within an AuthProvider"))
    case Some(v) => Ok(v)
  }

  class AuthProvider {
    var user: Option<UserDto>
    var loading: bool
    /** `localStorage`. */
    var storage: map<string, string>
    /** `JSON.stringify` on a record. */
    const serialize: UserDto -> string
    /** `JSON.parse` of a stored record; nothing when it throws. */
    const parse: string -> Option<UserDto>

    constructor (storage: map<string, string>, serialize: UserDto -> string, parse: string -> Option<UserDto>)
      ensures user.None? && loading && this.storage == storage
      ensures this.serialize == serialize && this.parse == parse
    {
      user := None;
      loading := true;
      this.storage := storage;
      this.serialize := serialize;
      this.parse := parse;
    }

    /** The mount effect, run once: the stored record becomes the state and
        loading ends. */
    method Init()
      requires loading
      modifies this`user, this`loading
      ensures user == ReadStoredUser(storage, parse) && !loading
    {
      user := ReadStoredUser(storage, parse);
      loading := false;
    }

    method PersistUser(data: Option<UserDto>)
      modifies this`user, this`storage
      ensures Session(user, storage) == Persisted(Session(old(user), old(storage)), data, serialize)
    {
      user := data;
      if data.Some? {
        storage := storage[StorageKey := serialize(data.value)];
      } else {
        storage := storage - {StorageKey};
      }
    }

    /** `login`; `updateUser` is the same callback. Loading is untouched. */
    method Login(data: UserDto)
      modifies this`user, this`storage
      ensures Session(user, storage) == Persisted(Session(old(user), old(storage)), Some(data), serialize)
    {
      PersistUser(Some(data));
    }

    method UpdateUser(data: UserDto)
      modifies this`user, this`storage
      ensures Session(user, storage) == Persisted(Session(old(user), old(storage)), Some(data), serialize)
    {
      PersistUser(Some(data));
    }

    method Logout()
      modifies this`user, this`storage
      ensures Session(user, storage) == Persisted(Session(old(user), old(storage)), None, serialize)
    {
      PersistUser(None);
    }
  }
}
