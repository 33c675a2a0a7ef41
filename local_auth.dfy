/** The device-local user table: sign-up with a duplicate check and email normalisation, sign-in by
    normalised email and password, the current-user slot, and user deletion with cascading sign-out. */
module LocalAuth {
  import opened Wrappers
  import opened Seqs
  import opened Text

  const AdminEmail := "admin@cleancity.com"
  const DuplicateEmail := "email already registered"
  const BadCredentials := "wrong email or password"

  datatype LocalUser = LocalUser(uid: string, email: string, displayName: string, password: string,
                                 createdAt: string, isAdmin: bool)

  /** The persisted user list and the current-user slot, which holds a copy of a user record. */
  datatype AuthState = AuthState(users: seq<LocalUser>, current: Option<LocalUser>)

  /** `email.trim().toLowerCase()`. */
  function NormalizeEmail(email: string): string
  {
    ToLower(Trim(email))
  }

  /** Normalising twice is normalising once. */
  lemma {:induction false} NormalizeEmailIdempotent(email: string)
    ensures NormalizeEmail(NormalizeEmail(email)) == NormalizeEmail(email)
  {
    var t := Trim(email);
    TrimIsCore(email);
    var l := ToLower(t);
    if l != [] {
      LowerPreservesWhiteSpace(t[0]);
      LowerPreservesWhiteSpace(t[|t| - 1]);
      TrimOfCore(l);
    } else {
      assert Trim(l) == [];
    }
    ToLowerIdempotent(t);
  }

  /** The position of the first user satisfying `p`: `users.find(p)`. */
  function Find(users: seq<LocalUser>, p: LocalUser -> bool): (r: Option<nat>)
    ensures r.None? <==> forall i :: 0 <= i < |users| ==> !p(users[i])
    ensures r.Some? ==> r.value < |users| && p(users[r.value]) && forall j :: 0 <= j < r.value ==> !p(users[j])
  {
    if users == [] then None
    else if p(users[0]) then Some(0)
    else match Find(users[1..], p)
      case None => None
      case Some(k) => Some(k + 1)
  }

  /** Appending a user that matches: the search succeeds, at the new user when no earlier one matches. */
  lemma FindAppended(users: seq<LocalUser>, u: LocalUser, p: LocalUser -> bool)
    requires p(u)
    ensures Find(users + [u], p).Some?
    ensures (forall i :: 0 <= i < |users| ==> !p(users[i])) ==> Find(users + [u], p) == Some(|users|)
  {
    assert (users + [u])[|users|] == u;
    if forall i :: 0 <= i < |users| ==> !p(users[i]) {
      assert forall i :: 0 <= i < |users| ==> (users + [u])[i] == users[i];
    }
  }

  /** A stored user whose email equals `email` exactly: the duplicate test, which does not normalise. */
  predicate EmailTaken(users: seq<LocalUser>, email: string)
    ensures EmailTaken(users, email) <==> exists i :: 0 <= i < |users| && users[i].email == email
  {
    Find(users, SameEmail(email)).Some?
  }

  function SameEmail(email: string): LocalUser -> bool
  {
    (u: LocalUser) => u.email == email
  }

  /** The user `signUpLocal` builds at clock value `now`. */
  function NewUser(email: string, password: string, displayName: string, now: nat, isoNow: string): LocalUser
  {
    LocalUser("local_" + NatToString(now), NormalizeEmail(email), Trim(displayName), password, isoNow,
              NormalizeEmail(email) == AdminEmail)
  }

  /** What `signUpLocal` returns. */
  function SignUp(s: AuthState, email: string, password: string, displayName: string, now: nat, isoNow: string): (r: Result<LocalUser>)
    ensures r.Err? <==> EmailTaken(s.users, email)
    ensures r.Ok? ==> && r.value.email == NormalizeEmail(email)
                      && r.value.displayName == Trim(displayName)
                      && r.value.password == password
                      && (r.value.isAdmin <==> NormalizeEmail(email) == AdminEmail)
  {
    if EmailTaken(s.users, email) then Err(DuplicateEmail) else Ok(NewUser(email, password, displayName, now, isoNow))
  }

  /** Sign-up by cases of the raw duplicate search: an error leaving the state alone, or the new user
      appended as the current user. */
  lemma SignUpCases(s: AuthState, email: string, password: string, displayName: string, now: nat, isoNow: string)
    ensures Find(s.users, SameEmail(email)).Some? ==>
      SignUp(s, email, password, displayName, now, isoNow) == Err(DuplicateEmail) &&
      AfterSignUp(s, email, password, displayName, now, isoNow) == s
    ensures Find(s.users, SameEmail(email)).None? ==>
      var u := NewUser(email, password, displayName, now, isoNow);
      SignUp(s, email, password, displayName, now, isoNow) == Ok(u) &&
      AfterSignUp(s, email, password, displayName, now, isoNow) == AuthState(s.users + [u], Some(u))
  {
  }

  /** The state after `signUpLocal`: the new user appended and made current, or nothing changed. */
  function AfterSignUp(s: AuthState, email: string, password: string, displayName: string, now: nat, isoNow: string): (r: AuthState)
    ensures SignUp(s, email, password, displayName, now, isoNow).Err? ==> r == s
    ensures SignUp(s, email, password, displayName, now, isoNow).Ok? ==>
      var u := SignUp(s, email, password, displayName, now, isoNow).value;
      r.users == s.users + [u] && r.current == Some(u)
  {
    match SignUp(s, email, password, displayName, now, isoNow)
    case Err(_) => s
    case Ok(u) => AuthState(s.users + [u], Some(u))
  }

  /** The sign-in match: normalised email and exact password. */
  function Matches(email: string, password: string): LocalUser -> bool
  {
    (u: LocalUser) => u.email == NormalizeEmail(email) && u.password == password
  }

  /** What `signInLocal` returns: the first matching user, or an error. */
  function SignIn(s: AuthState, email: string, password: string): (r: Result<LocalUser>)
    ensures r.Ok? <==> exists i :: 0 <= i < |s.users| && Matches(email, password)(s.users[i])
    ensures r.Ok? ==> r.value.email == NormalizeEmail(email) && r.value.password == password
    ensures r.Ok? ==>
      exists i :: 0 <= i < |s.users| && s.users[i] == r.value && forall j :: 0 <= j < i ==> !Matches(email, password)(s.users[j])
  {
    match Find(s.users, Matches(email, password))
    case None => Err(BadCredentials)
    case Some(i) => Ok(s.users[i])
  }

  /** The state after `signInLocal`: the match becomes current, or nothing changes. */
  function AfterSignIn(s: AuthState, email: string, password: string): AuthState
  {
    match SignIn(s, email, password)
    case Err(_) => s
    case Ok(u) => s.(current := Some(u))
  }

  /** The state after `deleteUserLocal(uid)`. */
  function AfterDeleteUser(s: AuthState, uid: string): (r: AuthState)
    ensures forall i :: 0 <= i < |r.users| ==> r.users[i].uid != uid && r.users[i] in s.users
    ensures forall i :: 0 <= i < |s.users| ==> (s.users[i] in r.users <==> s.users[i].uid != uid)
    ensures r.current == None <==> s.current == None || s.current.value.uid == uid
    ensures r.current.Some? ==> r.current == s.current
  {
    AuthState(Filter(s.users, (u: LocalUser) => u.uid != uid),
              if s.current.Some? && s.current.value.uid == uid then None else s.current)
  }

  /** After a successful sign-up, signing in with the same email and password succeeds; it yields the
      new user unless an earlier user already had the normalised email and the password. */
  lemma {:induction false} SignUpThenSignIn(s: AuthState, email: string, password: string, displayName: string, now: nat, isoNow: string)
    requires SignUp(s, email, password, displayName, now, isoNow).Ok?
    ensures var s' := AfterSignUp(s, email, password, displayName, now, isoNow);
      && SignIn(s', email, password).Ok?
      && ((forall i :: 0 <= i < |s.users| ==> s.users[i].email != NormalizeEmail(email) || s.users[i].password != password) ==>
            SignIn(s', email, password) == SignUp(s, email, password, displayName, now, isoNow))
  {
    var u := SignUp(s, email, password, displayName, now, isoNow).value;
    var s' := AfterSignUp(s, email, password, displayName, now, isoNow);
    var p := Matches(email, password);
    assert s'.users == s.users + [u];
    assert p(u);
    FindAppended(s.users, u, p);
    if forall i :: 0 <= i < |s.users| ==> s.users[i].email != NormalizeEmail(email) || s.users[i].password != password {
      assert forall i :: 0 <= i < |s.users| ==> !p(s.users[i]);
      assert SignIn(s', email, password) == Ok(u);
    }
  }

  /** When the email given is already in normal form, the raw duplicate test is the normalised one. */
  lemma DuplicateTestOnNormalEmail(s: AuthState, email: string, password: string, displayName: string, now: nat, isoNow: string)
    requires NormalizeEmail(email) == email
    ensures SignUp(s, email, password, displayName, now, isoNow).Err? <==>
      exists i :: 0 <= i < |s.users| && s.users[i].email == NormalizeEmail(email)
  {
  }

  /** The duplicate test compares the raw email: an address stored by no user, but normalising to a
      stored one, is accepted; the table then holds two users with the same stored email, and signing
      in with an old user's password finds a user stored before the sign-up. */
  lemma RawEmailDuplicate(s: AuthState, email: string, password: string, displayName: string, now: nat, isoNow: string, k: nat)
    requires forall i :: 0 <= i < |s.users| ==> s.users[i].email != email
    requires k < |s.users| && s.users[k].email == NormalizeEmail(email)
    ensures SignUp(s, email, password, displayName, now, isoNow).Ok?
    ensures var s' := AfterSignUp(s, email, password, displayName, now, isoNow);
      && |s'.users| == |s.users| + 1
      && s'.users[|s.users|].email == s.users[k].email
      && (s.users[k].password == password ==>
            SignIn(s', email, password).Ok? && SignIn(s', email, password).value in s.users)
  {
    var u := SignUp(s, email, password, displayName, now, isoNow).value;
    var s' := AfterSignUp(s, email, password, displayName, now, isoNow);
    assert s'.users == s.users + [u];
    if s.users[k].password == password {
      var p := Matches(email, password);
      assert p(s.users[k]);
      FindBeforeAppended(s.users, u, p, k);
    }
  }

  /** A match at `k` is found at or before `k`, and appending cannot move the search past it. */
  lemma FindBeforeAppended(users: seq<LocalUser>, u: LocalUser, p: LocalUser -> bool, k: nat)
    requires k < |users| && p(users[k])
    ensures Find(users + [u], p).Some? && Find(users + [u], p).value <= k
    ensures (users + [u])[Find(users + [u], p).value] in users
  {
    assert (users + [u])[k] == users[k];
    var j := Find(users + [u], p).value;
    assert (users + [u])[j] == users[j];
  }

  /** Stored emails are in normal form (sign-up stores them so), so an address that is not in normal
      form never equals one of them: the raw test lets it through. */
  lemma RawEmailNotStored(users: seq<LocalUser>, email: string)
    requires forall i :: 0 <= i < |users| ==> NormalizeEmail(users[i].email) == users[i].email
    requires NormalizeEmail(email) != email
    ensures forall i :: 0 <= i < |users| ==> users[i].email != email
  {
    forall i | 0 <= i < |users|
      ensures users[i].email != email
    {
      assert NormalizeEmail(users[i].email) == users[i].email;
    }
  }

  /** An instance over a one-user table holding "a@b.com": signing up with "A@b.com" is accepted,
      the table then holds two users with the email "a@b.com", and signing in with "A@b.com" and the
      first user's password yields the first user. */
  lemma DuplicateSignUpInstance(password: string, displayName: string, now: nat, isoNow: string)
    ensures var u := LocalUser("local_1", "a@b.com", "A", password, "", false);
      var s := AuthState([u], None);
      var s' := AfterSignUp(s, "A@b.com", password, displayName, now, isoNow);
      && SignUp(s, "A@b.com", password, displayName, now, isoNow).Ok?
      && |s'.users| == 2
      && s'.users[0].email == "a@b.com" && s'.users[1].email == "a@b.com"
      && SignIn(s', "A@b.com", password) == Ok(u)
  {
    SampleNormalization();
    StoredNormalization();
    assert "A@b.com"[0] != "a@b.com"[0];
    OneUserDuplicate(LocalUser("local_1", "a@b.com", "A", password, "", false), "A@b.com", password, displayName, now, isoNow);
  }

  /** `RawEmailDuplicate` on a one-user table. */
  lemma OneUserDuplicate(u: LocalUser, email: string, password: string, displayName: string, now: nat, isoNow: string)
    requires u.email != email && u.email == NormalizeEmail(email) && u.password == password
    ensures var s := AuthState([u], None);
      var s' := AfterSignUp(s, email, password, displayName, now, isoNow);
      && SignUp(s, email, password, displayName, now, isoNow).Ok?
      && |s'.users| == 2
      && s'.users[0].email == u.email && s'.users[1].email == u.email
      && SignIn(s', email, password) == Ok(u)
  {
    var s := AuthState([u], None);
    RawEmailDuplicate(s, email, password, displayName, now, isoNow, 0);
    var s' := AfterSignUp(s, email, password, displayName, now, isoNow);
    assert s'.users[0] == u;
  }

  lemma StoredNormalization()
    ensures NormalizeEmail("a@b.com") == "a@b.com"
  {
    StoredTrim();
    StoredLower();
  }

  lemma StoredTrim()
    ensures Trim("a@b.com") == "a@b.com"
  {
    var e := "a@b.com";
    assert !IsWhiteSpace(e[0]) && !IsWhiteSpace(e[|e| - 1]);
    TrimOfCore(e);
  }

  lemma StoredLower()
    ensures ToLower("a@b.com") == "a@b.com"
  {
    var l := ToLower("a@b.com");
    assert |l| == 7;
    assert l[0] == 'a' && l[1] == '@' && l[2] == 'b' && l[3] == '.';
    assert l[4] == 'c' && l[5] == 'o' && l[6] == 'm';
  }

  lemma SampleNormalization()
    ensures NormalizeEmail("A@b.com") == "a@b.com"
  {
    SampleTrim();
    SampleLower();
  }

  lemma SampleTrim()
    ensures Trim("A@b.com") == "A@b.com"
  {
    var e := "A@b.com";
    assert !IsWhiteSpace(e[0]) && !IsWhiteSpace(e[|e| - 1]);
    TrimOfCore(e);
  }

  lemma SampleLower()
    ensures ToLower("A@b.com") == "a@b.com"
  {
    var l := ToLower("A@b.com");
    assert |l| == 7;
    assert l[0] == 'a' && l[1] == '@' && l[2] == 'b' && l[3] == '.';
    assert l[4] == 'c' && l[5] == 'o' && l[6] == 'm';
  }

  /** The user table and current-user slot. */
  class LocalAuthService {
    var users: seq<LocalUser>
    var current: Option<LocalUser>

    constructor ()
      ensures users == [] && current == None
    {
      users := [];
      current := None;
    }

    function State(): AuthState
      reads this
    {
      AuthState(users, current)
    }

    /** `signUpLocal`. */
    method SignUpLocal(email: string, password: string, displayName: string, now: nat, isoNow: string)
      returns (r: Result<LocalUser>)
      modifies this
      ensures r == SignUp(old(State()), email, password, displayName, now, isoNow)
      ensures State() == AfterSignUp(old(State()), email, password, displayName, now, isoNow)
    {
      SignUpCases(State(), email, password, displayName, now, isoNow);
      var existingUser := Find(users, SameEmail(email));
      if existingUser.Some? {
        r := Err(DuplicateEmail);
      } else {
        var newUser := NewUser(email, password, displayName, now, isoNow);
        users, current := users + [newUser], Some(newUser);
        r := Ok(newUser);
      }
    }

    /** `signInLocal`. */
    method SignInLocal(email: string, password: string) returns (r: Result<LocalUser>)
      modifies this
      ensures r == SignIn(old(State()), email, password)
      ensures State() == AfterSignIn(old(State()), email, password)
    {
      var found := Find(users, Matches(email, password));
      if found.None? {
        return Err(BadCredentials);
      }
      current := Some(users[found.value]);
      r := Ok(users[found.value]);
    }

    /** `signOutLocal`. */
    method SignOutLocal()
      modifies this
      ensures users == old(users) && current == None
      ensures GetCurrentUserLocal() == None
    {
      current := None;
    }

    /** `getCurrentUserLocal`. */
    function GetCurrentUserLocal(): Option<LocalUser>
      reads this
    {
      current
    }

    /** `getAllUsersLocal`. */
    function GetAllUsersLocal(): seq<LocalUser>
      reads this
    {
      users
    }

    /** `deleteUserLocal`: filter the uid out, then sign out when the current user had it. */
    method DeleteUserLocal(uid: string)
      modifies this
      ensures State() == AfterDeleteUser(old(State()), uid)
    {
      users := Filter(users, (u: LocalUser) => u.uid != uid);
      var currentUser := current;
      if currentUser.Some? && currentUser.value.uid == uid {
        SignOutLocal();
      }
    }
  }
}
