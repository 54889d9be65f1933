/** The client's session (the `auth` slice of the Redux store): the `logout`
    and `clearError` reducers and the pending, fulfilled and rejected cases
    of the three session requests.  The requests, and `localStorage`, are
    not part of this model: the stored token is a constructor parameter and
    each case receives its payload. */
module AuthSlice {
  import opened Wrappers
  import opened Ids

  /** The three requests whose outcome the slice records. */
  datatype Thunk = GetCurrentUser | LoginUser | RegisterUser

  /** A fulfilled payload: the user the server returned and, for login and
      registration, the token issued with it. */
  datatype Session = Session(user: User, token: Option<string>)

  class AuthState {
    var user: Option<Session>
    var token: Option<string>
    var loading: bool
    var error: Option<string>
    var isAuthenticated: bool

    /** Nobody is authenticated without a user. */
    ghost predicate Valid()
      reads this
    {
      isAuthenticated ==> user.Some?
    }

    /** The initial state: a token read from storage does not make the
        session authenticated, and there is no user yet. */
    constructor (storedToken: Option<string>)
      ensures Valid()
      ensures user == None && token == storedToken && !loading && error == None && !isAuthenticated
    {
      user := None;
      token := storedToken;
      loading := false;
      error := None;
      isAuthenticated := false;
    }

    /** `logout`: user and token are dropped; `loading` and `error` stay. */
    method Logout()
      modifies this`user, this`token, this`isAuthenticated
      ensures Valid()
      ensures user == None && token == None && !isAuthenticated
    {
      user := None;
      token := None;
      isAuthenticated := false;
    }

    method ClearError()
      requires Valid()
      modifies this`error
      ensures Valid() && error == None
    {
      error := None;
    }

    /** Every request starts the same way. */
    method Pending(thunk: Thunk)
      requires Valid()
      modifies this`loading, this`error
      ensures Valid() && loading && error == None
    {
      loading := true;
      error := None;
    }

    /** The session is authenticated with the returned user; login and
        registration also take the token that came with it, while
        `getCurrentUser` keeps the token it was sent with. */
    method Fulfilled(thunk: Thunk, payload: Session)
      modifies this`loading, this`user, this`token, this`isAuthenticated
      ensures Valid()
      ensures !loading && user == Some(payload) && isAuthenticated
      ensures token == if thunk == GetCurrentUser then old(token) else payload.token
    {
      loading := false;
      user := Some(payload);
      if thunk != GetCurrentUser {
        token := payload.token;
      }
      isAuthenticated := true;
    }

    /** Every failure records its payload as the error and leaves the session
        unauthenticated.  Only a failed `getCurrentUser` also drops user and
        token: a failed login or registration leaves them as they were. */
    method Rejected(thunk: Thunk, payload: Option<string>)
      modifies this`loading, this`user, this`token, this`isAuthenticated, this`error
      ensures Valid()
      ensures !loading && error == payload && !isAuthenticated
      ensures thunk == GetCurrentUser ==> user == None && token == None
      ensures thunk != GetCurrentUser ==> user == old(user) && token == old(token)
    {
      loading := false;
      if thunk == GetCurrentUser {
        user := None;
        token := None;
      }
      isAuthenticated := false;
      error := payload;
    }
  }
}
