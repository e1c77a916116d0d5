/** The client session held by `AuthProvider`: the token, the signed-in user
    and the loading flag, with the token persisted in `localStorage`. Each
    answer of the backend API is an input to the transition that awaits it. */
module AuthContext {
  import opened Base
  import Types

  /** The one `localStorage` key the session uses. */
  const TokenKey: string := "token"

  /** JavaScript truthiness of a `string | null`: null and '' are both falsy. */
  predicate Truthy(v: Option<string>) {
    v.Some? && |v.value| > 0
  }

  /** The user object in a login or register answer, carrying MongoDB's `_id`. */
  datatype ApiUser = ApiUser(mongoId: string, name: string, email: string, bio: string, avatarUrl: string)

  /** `{ ...u, id: u._id }`. */
  function WithClientId(u: ApiUser): (c: Types.User) {
    Types.User(Some(u.mongoId), u.name, u.email, u.bio, u.avatarUrl)
  }

  /** What `api.loadUserFromToken()` yields: a profile, null, or an exception. */
  datatype ProfileLookup = Profile(user: Types.User) | NoProfile | Threw

  /** What `api.login` / `api.register` yields: `{ token, user }`, or an
      exception carrying a message. */
  datatype AuthReply = Replied(token: string, user: ApiUser) | Rejected(message: string)

  /** `{ success, error? }` as returned to the forms. */
  datatype Outcome = Outcome(success: bool, error: Option<string>)

  class AuthProvider {
    var token: Option<string>
    var user: Option<Types.User>
    var isLoading: bool
    var storage: map<string, string>

    /** The token in state is always the one in storage, and a user is only
        ever held together with a token. */
    ghost predicate Valid()
      reads this
    {
      && token == Lookup(storage, TokenKey)
      && (user.Some? ==> token.Some?)
    }

    /** Mounting the provider: the token is read from storage, no user yet,
        and loading until `LoadUser` has run. */
    constructor (stored: map<string, string>)
      ensures Valid()
      ensures storage == stored && token == Lookup(stored, TokenKey)
      ensures user.None? && isLoading
    {
      storage := stored;
      token := Lookup(stored, TokenKey);
      user := None;
      isLoading := true;
    }

    /** `isAuthenticated: !!token`; the user plays no part. */
    function IsAuthenticated(): (b: bool)
      reads this
      ensures b <==> token.Some? && token.value != ""
    {
      Truthy(token)
    }

    /** `loadUser`, with `lookup` the answer of the identity lookup, which is
        consulted only when a token is stored. */
    method LoadUser(lookup: ProfileLookup)
      requires Valid()
      modifies this
      ensures Valid() && !isLoading
      ensures IsAuthenticated() ==> user.Some?
      ensures !Truthy(old(Lookup(storage, TokenKey))) ==>
        token == old(token) && user == old(user) && storage == old(storage)
      ensures Truthy(old(Lookup(storage, TokenKey))) && lookup.Profile? ==>
        user == Some(lookup.user) && token == old(Lookup(storage, TokenKey)) && storage == old(storage)
      ensures Truthy(old(Lookup(storage, TokenKey))) && !lookup.Profile? ==>
        token.None? && user.None? && storage == old(storage) - {TokenKey}
    {
      var storedToken := Lookup(storage, TokenKey);
      if Truthy(storedToken) {
        match lookup {
          case Profile(profile) =>
            user := Some(profile);
            token := storedToken;
          case NoProfile =>
            storage := storage - {TokenKey};
            token := None;
            user := None;
          case Threw =>
            storage := storage - {TokenKey};
            token := None;
            user := None;
        }
      }
      isLoading := false;
    }

    /** What `login` and `register` do with the API's answer: a token that
        arrives is stored under `'token'` and held with the user, whose `id`
        is set from `_id`; an error is reported and nothing changes. */
    twostate predicate Answered(reply: AuthReply, r: Outcome)
      reads this
    {
      && (reply.Replied? ==>
          && storage == old(storage)[TokenKey := reply.token]
          && token == Some(reply.token)
          && user == Some(WithClientId(reply.user))
          && r == Outcome(true, None))
      && (reply.Rejected? ==>
          && storage == old(storage) && token == old(token) && user == old(user)
          && r == Outcome(false, Some(reply.message)))
    }

    /** The common part of `login` and `register`: store and adopt the token
        of a successful answer, or report the error and change nothing. */
    method Accept(reply: AuthReply) returns (r: Outcome)
      requires Valid()
      modifies this
      ensures Valid() && isLoading == old(isLoading)
      ensures Answered(reply, r)
    {
      match reply {
        case Replied(receivedToken, apiUser) =>
          storage := storage[TokenKey := receivedToken];
          token := Some(receivedToken);
          user := Some(WithClientId(apiUser));
          r := Outcome(true, None);
        case Rejected(message) =>
          r := Outcome(false, Some(message));
      }
    }

    /** `login(email, password)`; the credentials go only to the API, whose
        answer is `reply`. */
    method Login(email: string, password: string, reply: AuthReply) returns (r: Outcome)
      requires Valid()
      modifies this
      ensures Valid() && isLoading == old(isLoading)
      ensures Answered(reply, r)
    {
      r := Accept(reply);
    }

    /** `register(name, email, password, bio)`; the fields go only to the
        API, whose answer is `reply`. */
    method Register(name: string, email: string, password: string, bio: string, reply: AuthReply)
      returns (r: Outcome)
      requires Valid()
      modifies this
      ensures Valid() && isLoading == old(isLoading)
      ensures Answered(reply, r)
    {
      r := Accept(reply);
    }

    /** `logout`: always signed out, with the stored token removed. */
    method Logout()
      requires Valid()
      modifies this
      ensures Valid() && !IsAuthenticated()
      ensures storage == old(storage) - {TokenKey}
      ensures token.None? && user.None? && isLoading == old(isLoading)
    {
      storage := storage - {TokenKey};
      token := None;
      user := None;
    }
  }

  /** A session as the application drives it: mount, bootstrap, sign in,
      sign out. Bootstrapping ends signed in exactly when a non-empty token
      was stored and the lookup found its profile; signing out leaves the
      other storage keys as they were. */
  method SignInAndOut(stored: map<string, string>, lookup: ProfileLookup,
                      email: string, password: string, reply: AuthReply)
    returns (bootstrapped: bool, signedIn: bool, afterwards: map<string, string>)
    ensures bootstrapped <==> Truthy(Lookup(stored, TokenKey)) && lookup.Profile?
    ensures reply.Replied? ==> (signedIn <==> |reply.token| > 0)
    ensures reply.Rejected? ==> signedIn == bootstrapped
    ensures afterwards == stored - {TokenKey}
  {
    var session := new AuthProvider(stored);
    session.LoadUser(lookup);
    bootstrapped := session.IsAuthenticated();
    var outcome := session.Login(email, password, reply);
    signedIn := session.IsAuthenticated();
    session.Logout();
    afterwards := session.storage;
  }
}
