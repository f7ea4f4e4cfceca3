/** The frontend's session state: the token, user id and email kept in the browser's
    localStorage, written after login or registration and cleared on logout. */
module SessionAuth {
  import opened Common

  const TOKEN_KEY: string := "token"
  const USER_ID_KEY: string := "userId"
  const EMAIL_KEY: string := "userEmail"

  /** window.localStorage: a string-keyed store of strings. */
  class LocalStorage {
    var items: map<string, string>

    constructor (items: map<string, string>)
      ensures this.items == items
    {
      this.items := items;
    }

    /** getItem: the stored string, or null for an absent key. */
    function GetItem(key: string): (v: Option<string>)
      reads this
      ensures v.Some? <==> key in items
      ensures v.Some? ==> v.value == items[key]
    {
      if key in items then Some(items[key]) else None
    }

    method SetItem(key: string, value: string)
      modifies this
      ensures items == old(items)[key := value]
    {
      items := items[key := value];
    }

    method RemoveItem(key: string)
      modifies this
      ensures items == old(items) - {key}
    {
      items := items - {key};
    }
  }

  /** The object getUserAuth returns. */
  datatype AuthData = AuthData(token: Option<string>, userId: Option<string>, email: Option<string>)

  /** The user id storeUserAuth ends up writing: the given one when it is truthy, else the
      `id` read from the token's payload (`None` when decoding fails or finds no id). */
  function ResolvedUserId(token: string, userId: Option<string>, decodeId: string -> Option<string>): Option<string>
  {
    if Truthy(userId) then userId else decodeId(token)
  }

  /** The store holds a non-empty token and a non-empty user id. */
  predicate SignedIn(items: map<string, string>)
  {
    TOKEN_KEY in items && items[TOKEN_KEY] != "" && USER_ID_KEY in items && items[USER_ID_KEY] != ""
  }

  /** storeUserAuth(token, userId, email). A falsy token, or a missing user id that cannot be
      read from the token, returns false and writes nothing; otherwise it writes the token,
      the user id and the email ("" when falsy) and returns whether the stored user id reads
      back as the one written. */
  method StoreUserAuth(store: LocalStorage, token: Option<string>, userId: Option<string>, email: Option<string>,
                       decodeId: string -> Option<string>) returns (ok: bool)
    modifies store
    ensures !Truthy(token) ==> !ok && store.items == old(store.items)
    ensures Truthy(token) && !Truthy(ResolvedUserId(token.value, userId, decodeId)) ==>
      !ok && store.items == old(store.items)
    ensures Truthy(token) && Truthy(ResolvedUserId(token.value, userId, decodeId)) ==>
      && ok
      && store.items == old(store.items)[TOKEN_KEY := token.value]
                                        [USER_ID_KEY := ResolvedUserId(token.value, userId, decodeId).value]
                                        [EMAIL_KEY := if Truthy(email) then email.value else ""]
    ensures ok ==> SignedIn(store.items)
  {
    var id := userId;
    if !Truthy(token) || !Truthy(userId) {
      if Truthy(token) && !Truthy(userId) {
        id := decodeId(token.value);
        if !Truthy(id) {
          return false;
        }
      } else if !Truthy(token) {
        return false;
      }
    }
    store.SetItem(TOKEN_KEY, token.value);
    store.SetItem(USER_ID_KEY, id.value);
    store.SetItem(EMAIL_KEY, if Truthy(email) then email.value else "");
    var stored := store.GetItem(USER_ID_KEY);
    ok := stored == id;
  }

  /** getUserAuth(): the three stored values, null for absent keys; the store is only read. */
  function GetUserAuth(store: LocalStorage): (a: AuthData)
    reads store
    ensures a.token.Some? <==> TOKEN_KEY in store.items
    ensures a.userId.Some? <==> USER_ID_KEY in store.items
    ensures a.email.Some? <==> EMAIL_KEY in store.items
    ensures a.token.Some? ==> a.token.value == store.items[TOKEN_KEY]
    ensures a.userId.Some? ==> a.userId.value == store.items[USER_ID_KEY]
    ensures a.email.Some? ==> a.email.value == store.items[EMAIL_KEY]
  {
    AuthData(store.GetItem(TOKEN_KEY), store.GetItem(USER_ID_KEY), store.GetItem(EMAIL_KEY))
  }

  /** clearUserAuth(): removes exactly the three keys and returns true. */
  method ClearUserAuth(store: LocalStorage) returns (ok: bool)
    modifies store
    ensures ok
    ensures store.items == old(store.items) - {TOKEN_KEY, USER_ID_KEY, EMAIL_KEY}
    ensures !SignedIn(store.items)
  {
    store.RemoveItem(TOKEN_KEY);
    store.RemoveItem(USER_ID_KEY);
    store.RemoveItem(EMAIL_KEY);
    ok := true;
  }

  /** isAuthenticated(): the stored token and user id are both present and non-empty. */
  function IsAuthenticated(store: LocalStorage): (b: bool)
    reads store
    ensures b <==> SignedIn(store.items)
  {
    var a := GetUserAuth(store);
    Truthy(a.token) && Truthy(a.userId)
  }

  /** Logging in after a logout: clearing signs the session out, and a store that returned
      true signs it back in. */
  method LogoutThenLogin(store: LocalStorage, token: string, userId: string, email: Option<string>,
                         decodeId: string -> Option<string>) returns (ok: bool)
    requires token != "" && userId != ""
    modifies store
    ensures ok && IsAuthenticated(store)
  {
    var cleared := ClearUserAuth(store);
    assert !IsAuthenticated(store);
    ok := StoreUserAuth(store, Some(token), Some(userId), email, decodeId);
  }
}
