/**
 * The sign-up and log-in pages (src/pages/Signup.jsx, src/pages/LoginPage.jsx):
 * each accepts any username that is not blank after trimming, stores it
 * trimmed as the current user and navigates to the feed; a blank username
 * raises an alert instead. Passwords and the e-mail address are never read.
 *
 * The alert, the user store and the router are observed through a log of
 * effects, kept in the order they happen.
 */
module Auth {
  import opened Common
  import opened JsText

  /** What a page does to the outside world. */
  datatype Effect = Alert(message: string) | SetCurrentUser(name: string) | Navigate(path: string)

  /** The username the pages store, or nothing when it is blank after trimming. */
  function AcceptedUsername(username: string): (r: Option<string>)
    ensures r.None? <==> AllWhitespace(username)
    ensures r.Some? ==> r.value != "" && IsTrimmed(r.value) && |r.value| <= |username|
    ensures r.Some? ==> r.value == Trim(username)
  {
    var name := Trim(username);
    if name == "" then None else Some(name)
  }

  /** Every navigation in the log comes right after a user was stored. */
  ghost predicate NavigatesOnlyAfterSignIn(effects: seq<Effect>)
  {
    forall i :: 0 <= i < |effects| && effects[i].Navigate? ==> i > 0 && effects[i - 1].SetCurrentUser?
  }

  lemma AlertKeepsOrder(effects: seq<Effect>, message: string)
    requires NavigatesOnlyAfterSignIn(effects)
    ensures NavigatesOnlyAfterSignIn(effects + [Alert(message)])
  {
    var e := effects + [Alert(message)];
    assert forall i :: 0 <= i < |effects| ==> e[i] == effects[i];
  }

  lemma SignInKeepsOrder(effects: seq<Effect>, name: string)
    requires NavigatesOnlyAfterSignIn(effects)
    ensures NavigatesOnlyAfterSignIn(effects + [SetCurrentUser(name), Navigate("/")])
  {
    var e := effects + [SetCurrentUser(name), Navigate("/")];
    assert forall i :: 0 <= i < |effects| ==> e[i] == effects[i];
    assert e[|effects|] == SetCurrentUser(name);
  }

  /** The current user (the authentication context) and the effects so far. */
  class Session {
    var currentUser: Option<string>
    var effects: seq<Effect>

    ghost predicate Valid()
      reads this
    {
      NavigatesOnlyAfterSignIn(effects)
    }

    constructor (stored: Option<string>)
      ensures Valid() && currentUser == stored && effects == []
    {
      currentUser := stored;
      effects := [];
    }

    /**
     * The body shared by `handleCreate` and `handleSignIn`: a blank username
     * only raises `blankAlert`; any other is stored trimmed, and only then
     * does the page navigate to "/".
     */
    method SubmitUsername(username: string, blankAlert: string) returns (accepted: bool)
      requires Valid()
      modifies this
      ensures Valid()
      ensures accepted <==> !AllWhitespace(username)
      ensures !accepted ==> effects == old(effects) + [Alert(blankAlert)] && currentUser == old(currentUser)
      ensures accepted ==> effects == old(effects) + [SetCurrentUser(Trim(username)), Navigate("/")]
      ensures accepted ==> currentUser == Some(Trim(username))
    {
      var name := Trim(username);
      if name == "" {
        AlertKeepsOrder(effects, blankAlert);
        effects := effects + [Alert(blankAlert)];
        return false;
      }
      SignInKeepsOrder(effects, name);
      currentUser := Some(name);
      effects := effects + [SetCurrentUser(name), Navigate("/")];
      accepted := true;
    }
  }

  /** The sign-up form; its e-mail and password inputs have no setter and stay "". */
  class SignupPage {
    const session: Session
    var username: string
    const email: string
    const password: string

    constructor (session: Session)
      ensures this.session == session && username == "" && email == "" && password == ""
    {
      this.session := session;
      username := "";
      email := "";
      password := "";
    }

    method EditUsername(value: string)
      modifies this
      ensures username == value
    {
      username := value;
    }

    /** `handleCreate`. */
    method HandleCreate() returns (accepted: bool)
      requires session.Valid()
      modifies session
      ensures session.Valid()
      ensures accepted <==> AcceptedUsername(username).Some?
      ensures !accepted ==> session.effects == old(session.effects) + [Alert("Enter a username")]
      ensures !accepted ==> session.currentUser == old(session.currentUser)
      ensures accepted ==> session.currentUser == AcceptedUsername(username)
      ensures accepted ==> session.effects == old(session.effects) + [SetCurrentUser(AcceptedUsername(username).value), Navigate("/")]
    {
      accepted := session.SubmitUsername(username, "Enter a username");
    }
  }

  /** The log-in form; its password input has no setter and stays "". */
  class LoginPage {
    const session: Session
    var username: string
    const password: string

    constructor (session: Session)
      ensures this.session == session && username == "" && password == ""
    {
      this.session := session;
      username := "";
      password := "";
    }

    method EditUsername(value: string)
      modifies this
      ensures username == value
    {
      username := value;
    }

    /** `handleSignIn`. */
    method HandleSignIn() returns (accepted: bool)
      requires session.Valid()
      modifies session
      ensures session.Valid()
      ensures accepted <==> AcceptedUsername(username).Some?
      ensures !accepted ==> session.effects == old(session.effects) + [Alert("Enter your username")]
      ensures !accepted ==> session.currentUser == old(session.currentUser)
      ensures accepted ==> session.currentUser == AcceptedUsername(username)
      ensures accepted ==> session.effects == old(session.effects) + [SetCurrentUser(AcceptedUsername(username).value), Navigate("/")]
    {
      accepted := session.SubmitUsername(username, "Enter your username");
    }
  }
}
