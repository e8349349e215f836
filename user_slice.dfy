/** The client's `user` slice: the signed-in user, its token, and the sign-in progress and
    error. A user object is modelled as its fields, a map from field name to value. */
module UserSlice {
  import opened Common

  const ServerUrl: string := "http://localhost:3000"

  type User = map<string, string>

  predicate StartsWith(s: string, prefix: string)
  {
    |prefix| <= |s| && s[..|prefix|] == prefix
  }

  /** The avatar rule: a non-empty avatar that does not start with "http" is a path on the
      API server and gets the server's URL in front; anything else stays as it is. */
  function NormalizeAvatar(avatar: string): (r: string)
    ensures avatar == "" || StartsWith(avatar, "http") ==> r == avatar
    ensures r == "" || StartsWith(r, "http")
    ensures |avatar| <= |r| && r[|r| - |avatar|..] == avatar
  {
    if avatar != "" && !StartsWith(avatar, "http") then
      assert (ServerUrl + avatar)[..4] == "http";
      ServerUrl + avatar
    else avatar
  }

  /** Normalising twice is normalising once, because the server URL itself starts with "http". */
  lemma NormalizeAvatarIdempotent(avatar: string)
    ensures NormalizeAvatar(NormalizeAvatar(avatar)) == NormalizeAvatar(avatar)
  {
  }

  /** A field's value, absent when the object has no such field. */
  function Field(u: User, name: string): Option<string>
  {
    if name in u then Some(u[name]) else None
  }

  /** The user object as `signInSuccess` stores it: the avatar normalised, every other field
      and the set of fields unchanged. */
  function WithNormalAvatar(user: User): (u: User)
    ensures u.Keys == user.Keys
    ensures forall f :: f in user && f != "avatar" ==> u[f] == user[f]
    ensures "avatar" in user ==> u["avatar"] == NormalizeAvatar(user["avatar"])
  {
    if "avatar" in user then user["avatar" := NormalizeAvatar(user["avatar"])] else user
  }

  /** Signing in with an already normalised user object changes nothing further. */
  lemma WithNormalAvatarIdempotent(user: User)
    ensures WithNormalAvatar(WithNormalAvatar(user)) == WithNormalAvatar(user)
  {
    if "avatar" in user {
      NormalizeAvatarIdempotent(user["avatar"]);
    }
  }

  class UserState {
    var currentUser: Option<User>
    var isLoading: bool
    var token: Option<string>
    var error: Option<string>

    predicate IsInitial()
      reads this
    {
      currentUser == None && !isLoading && token == None && error == None
    }

    /** `initialState`. */
    constructor ()
      ensures IsInitial()
    {
      currentUser, isLoading, token, error := None, false, None, None;
    }

    /** `signInStart`: loading, no error; user and token untouched. */
    method SignInStart()
      modifies this
      ensures isLoading && error == None
      ensures currentUser == old(currentUser) && token == old(token)
    {
      isLoading := true;
      error := None;
    }

    /** `signInSuccess`: the user (avatar normalised) becomes the current user, its `token`
        field the token; loading stops and the error is cleared. */
    method SignInSuccess(user: User)
      modifies this
      ensures !isLoading && error == None
      ensures currentUser == Some(WithNormalAvatar(user))
      ensures token == Field(user, "token")
    {
      isLoading := false;
      var u := user;
      if "avatar" in u && u["avatar"] != "" && !StartsWith(u["avatar"], "http") {
        u := u["avatar" := ServerUrl + u["avatar"]];
      } else if "avatar" in u {
        assert u == u["avatar" := NormalizeAvatar(u["avatar"])];
      }
      assert "token" != "avatar";
      currentUser := Some(u);
      token := Field(u, "token");
      error := None;
    }

    /** `signInFailure`: loading stops and the payload becomes the error; user and token stay. */
    method SignInFailure(payload: string)
      modifies this
      ensures !isLoading && error == Some(payload)
      ensures currentUser == old(currentUser) && token == old(token)
    {
      isLoading := false;
      error := Some(payload);
    }

    /** `noError`: only the error is cleared. */
    method NoError()
      modifies this
      ensures error == None
      ensures currentUser == old(currentUser) && token == old(token) && isLoading == old(isLoading)
    {
      error := None;
    }

    /** `signOut`: back to exactly the initial state. */
    method SignOut()
      modifies this
      ensures IsInitial()
    {
      currentUser := None;
      isLoading := false;
      token := None;
      error := None;
    }

    /** `updateAvatar`: with nobody signed in nothing happens; otherwise only the current
        user's avatar changes, to the normalised payload. */
    method UpdateAvatar(payload: string)
      modifies this
      ensures isLoading == old(isLoading) && token == old(token) && error == old(error)
      ensures old(currentUser) == None ==> currentUser == None
      ensures old(currentUser).Some? ==>
        currentUser == Some(old(currentUser).value["avatar" := NormalizeAvatar(payload)])
    {
      if currentUser.Some? {
        var avatar := payload;
        if avatar != "" && !StartsWith(avatar, "http") {
          avatar := ServerUrl + avatar;
        }
        currentUser := Some(currentUser.value["avatar" := avatar]);
      }
    }

    /** `updateUser`: `{ ...currentUser, ...payload }`. Fields of the payload win, every other
        field of the current user is kept; with nobody signed in the payload alone becomes
        the current user. */
    method UpdateUser(payload: User)
      modifies this
      ensures isLoading == old(isLoading) && token == old(token) && error == old(error)
      ensures currentUser.Some?
      ensures currentUser.value.Keys == payload.Keys + (if old(currentUser).Some? then old(currentUser).value.Keys else {})
      ensures forall f :: f in payload ==> currentUser.value[f] == payload[f]
      ensures old(currentUser).Some? ==>
        forall f :: f in old(currentUser).value && f !in payload ==> currentUser.value[f] == old(currentUser).value[f]
    {
      var base: User := if currentUser.Some? then currentUser.value else map[];
      currentUser := Some(base + payload);
    }
  }
}
