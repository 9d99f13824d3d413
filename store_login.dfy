/** The store login: an e-mail address typed by a shop is normalised and
    looked up, first among the users of the config location, then among the
    legacy users; the first matching document becomes the session. */
module StoreLogin {
  import opened Types
  import opened Text

  const EMAIL_NOT_FOUND := "Email not found. Please contact your administrator."
  const LOGIN_FAILED := "Login failed. Please try again."

  /** What the page keeps in session storage: the matched document's id and
      its `email`, `name` and `deviceId` as stored. */
  datatype Session = Session(id: string, email: Option<string>, name: Option<string>, deviceId: Option<string>)

  /** A successful login writes a session and leaves for the store
      dashboard; a failed one shows a message. */
  datatype LoginResult = LoggedIn(session: Session) | Failed(message: string)

  /** The position of the first document whose stored e-mail is exactly `e`. */
  function FirstMatch(users: seq<UserDoc>, e: string): (r: Option<nat>)
    ensures r.Some? ==> r.value < |users| && users[r.value].email == Some(e)
    ensures r.Some? ==> forall j :: 0 <= j < r.value ==> users[j].email != Some(e)
    ensures r.None? ==> forall j :: 0 <= j < |users| ==> users[j].email != Some(e)
  {
    if users == [] then None
    else if users[0].email == Some(e) then Some(0)
    else match FirstMatch(users[1..], e)
      case None => None
      case Some(j) => Some(j + 1)
  }

  /** `where('email', '==', e)` over a location listed as `users`. */
  function Query(users: seq<UserDoc>, e: string): (r: seq<UserDoc>)
    ensures forall i :: 0 <= i < |r| ==> r[i].email == Some(e) && r[i] in users
    ensures r == [] <==> FirstMatch(users, e).None?
    ensures r != [] ==> r[0] == users[FirstMatch(users, e).value]
  {
    if users == [] then []
    else (if users[0].email == Some(e) then [users[0]] else []) + Query(users[1..], e)
  }

  function SessionOf(u: UserDoc): (s: Session)
    ensures s.id == u.id && s.email == u.email && s.name == u.name && s.deviceId == u.deviceId
  {
    Session(u.id, u.email, u.name, u.deviceId)
  }

  /** `handleLogin` against the two locations, listed as the store orders
      them. `configFails` and `legacyFails` say whether the corresponding
      read throws; the legacy location is read only when the config query
      comes back empty. */
  method HandleLogin(input: string, config: seq<UserDoc>, legacy: seq<UserDoc>, configFails: bool, legacyFails: bool)
    returns (result: LoginResult)
    ensures var e := NormalizeEmail(input);
            result.LoggedIn? ==> result.session.email == Some(e)
    ensures configFails ==> result == Failed(LOGIN_FAILED)
    ensures var c := FirstMatch(config, NormalizeEmail(input));
            !configFails && c.Some? ==> result == LoggedIn(SessionOf(config[c.value]))
    ensures var e := NormalizeEmail(input);
            var l := FirstMatch(legacy, e);
            !configFails && FirstMatch(config, e).None? ==>
              result == if legacyFails then Failed(LOGIN_FAILED)
                        else if l.None? then Failed(EMAIL_NOT_FOUND)
                        else LoggedIn(SessionOf(legacy[l.value]))
  {
    var email := NormalizeEmail(input);
    var userData: Option<UserDoc> := None;
    if configFails {
      return Failed(LOGIN_FAILED);
    }
    var configSnapshot := Query(config, email);
    if configSnapshot != [] {
      userData := Some(configSnapshot[0]);
    } else {
      if legacyFails {
        return Failed(LOGIN_FAILED);
      }
      var usersSnapshot := Query(legacy, email);
      if usersSnapshot != [] {
        userData := Some(usersSnapshot[0]);
      }
    }
    if userData.None? {
      return Failed(EMAIL_NOT_FOUND);
    }
    result := LoggedIn(SessionOf(userData.value));
  }

  /** Stored addresses are compared as they are: a stored address with a
      capital letter or surrounding blanks can never be logged in with. */
  lemma UnnormalizedNeverMatches(u: UserDoc, input: string)
    requires u.email.Some?
    requires !IsLowerCase(u.email.value) ||
             (u.email.value != [] && (IsWhitespace(u.email.value[0]) || IsWhitespace(u.email.value[|u.email.value| - 1])))
    ensures u.email != Some(NormalizeEmail(input))
  {
  }

  /** Typed capitals and blanks do not matter. */
  lemma NormalizeExample()
    ensures NormalizeEmail(" Ab@C.se\t") == "ab@c.se"
  {
    LowerExample();
    TrimExample();
  }

  lemma LowerExample()
    ensures Lower(" Ab@C.se\t") == " ab@c.se\t"
  {
    var l := Lower(" Ab@C.se\t");
    assert l[1] == 'a' && l[4] == 'c';
  }

  lemma TrimExample()
    ensures Trim(" ab@c.se\t") == "ab@c.se"
  {
    TrimStartExample();
    TrimEndExample();
  }

  lemma TrimStartExample()
    ensures TrimStart(" ab@c.se\t") == "ab@c.se\t"
  {
    var s := " ab@c.se\t";
    assert IsWhitespace(s[0]) && s[1..] == "ab@c.se\t";
    assert !IsWhitespace('a');
  }

  lemma TrimEndExample()
    ensures TrimEnd("ab@c.se\t") == "ab@c.se"
  {
    var u := "ab@c.se\t";
    assert IsWhitespace(u[|u| - 1]) && u[..|u| - 1] == "ab@c.se";
    assert !IsWhitespace('e');
  }
}
