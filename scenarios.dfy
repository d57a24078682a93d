/**
 * Sequences of requests against the server: what a client sees when it runs
 * the sign-up, password-reset and data-access flows call after call.
 */
module Scenarios {
  import opened Wrappers
  import opened Bcrypt
  import opened Jwt
  import opened Session
  import opened Server

  /**
   * A new account cannot log in until its emailed link is followed, the link
   * works once, and the session token from the next login identifies the account.
   */
  method SignUp(env: Option<string>, name: string, email: string, password: string, link: string, nowMs: nat)
    returns (registered: Response, early: Response, verified: Response, replayed: Response, session: Response)
    ensures registered == Response(200, Message(RegisteredMessage))
    ensures early == Response(403, Error(VerifyFirstMessage))
    ensures verified == Response(200, Message("Email verified successfully"))
    ensures replayed == Response(400, Error("Invalid or expired token"))
    ensures session == Response(200, LoggedIn(Sign(Issue(1, email, nowMs), SecretKey(env)), PublicUser(1, name, email, "User")))
    ensures Authenticate(Some("Bearer " + session.body.token), SecretKey(env), nowMs) == Authenticated(Issue(1, email, nowMs))
  {
    var secret := SecretKey(env);
    var app := new App(secret);
    registered := app.Register(name, email, password, link, false);
    assert app.users == map[1 := NewUser(name, email, password, link)];
    early := app.Login(email, password, nowMs, false);
    verified := app.VerifyEmail(link, false);
    assert app.users == map[1 := NewUser(name, email, password, link).(verified := true, verificationToken := None)];
    replayed := app.VerifyEmail(link, false);
    session := app.Login(email, password, nowMs, false);
    SessionLifetime(1, email, secret, nowMs, nowMs);
  }

  /** A second sign-up with the same email is refused and adds no account. */
  method DuplicateSignUp(name: string, email: string, password: string, link: string,
                         otherName: string, otherPassword: string, otherLink: string)
    returns (first: Response, second: Response, accounts: set<int>)
    ensures first.status == 200
    ensures second == Response(400, Error("Email already exists"))
    ensures accounts == {1}
  {
    var app := new App(DefaultSecret);
    first := app.Register(name, email, password, link, false);
    second := app.Register(otherName, email, otherPassword, otherLink, false);
    accounts := app.users.Keys;
  }

  /** No two accounts share this token; random 32-byte tokens make that so in practice. */
  ghost predicate SoleVerificationHolder(users: map<int, User>, token: string) {
    forall a, b ::
      a in users && b in users && users[a].verificationToken == Some(token) && users[b].verificationToken == Some(token)
      ==> a == b
  }

  ghost predicate SoleResetHolder(users: map<int, User>, token: string) {
    forall a, b ::
      a in users && b in users && users[a].resetToken == Some(token) && users[b].resetToken == Some(token)
      ==> a == b
  }

  /** On any store, a verification link that worked once is refused the second time. */
  method VerifyTwice(app: App, token: string) returns (first: Response, second: Response)
    requires app.Valid() && SoleVerificationHolder(app.users, token)
    modifies app
    ensures first.status == 200 ==> second == Response(400, Error("Invalid or expired token"))
  {
    first := app.VerifyEmail(token, false);
    second := app.VerifyEmail(token, false);
  }

  /** On any store, a reset link that worked once is refused the second time, at any later time. */
  method ResetTwice(app: App, token: string, password: string, again: string, nowMs: int, laterMs: int)
    returns (first: Response, second: Response)
    requires app.Valid() && SoleResetHolder(app.users, token)
    modifies app
    ensures first.status == 200 ==> second == Response(400, Error("Invalid or expired token"))
  {
    first := app.ResetPassword(token, password, nowMs, false);
    second := app.ResetPassword(token, again, laterMs, false);
  }

  /** A verified account for which two reset links were requested, `first` and then `second`. */
  method PendingReset(name: string, email: string, password: string, link: string,
                      first: string, second: string, nowMs: nat)
    returns (app: App)
    ensures fresh(app) && app.Valid() && app.secret == DefaultSecret
    ensures app.users == map[1 := NewUser(name, email, password, link).(verified := true, verificationToken := None,
                                                                        resetToken := Some(second),
                                                                        resetExpires := Some(nowMs + ResetWindowMs))]
  {
    app := new App(DefaultSecret);
    var _ := app.Register(name, email, password, link, false);
    assert app.users == map[1 := NewUser(name, email, password, link)];
    assert app.users[1].verificationToken == Some(link);
    var _ := app.VerifyEmail(link, false);
    assert app.users == map[1 := NewUser(name, email, password, link).(verified := true, verificationToken := None)];
    assert app.users[1].email == email;
    var _ := app.ForgotPassword(email, first, nowMs, false);
    var _ := app.ForgotPassword(email, second, nowMs, false);
  }

  /** The stale link is refused and the latest one sets the new password. */
  method RedeemLatest(name: string, email: string, password: string, newPassword: string, link: string,
                      firstReset: string, secondReset: string, nowMs: nat, laterMs: nat)
    returns (app: App, stale: Response, reset: Response)
    requires firstReset != secondReset
    requires nowMs <= laterMs < nowMs + ResetWindowMs
    ensures fresh(app) && app.Valid() && app.secret == DefaultSecret
    ensures stale == Response(400, Error("Invalid or expired token"))
    ensures reset == Response(200, Message("Password reset successfully"))
    ensures app.users == map[1 := NewUser(name, email, newPassword, link).(verified := true, verificationToken := None)]
  {
    app := PendingReset(name, email, password, link, firstReset, secondReset, nowMs);
    stale := app.ResetPassword(firstReset, newPassword, laterMs, false);
    assert Redeemable(app.users[1], secondReset, laterMs);
    reset := app.ResetPassword(secondReset, newPassword, laterMs, false);
  }

  /**
   * Only the latest reset link works, only within the hour, and only once;
   * afterwards the old password is refused and the new one opens a session.
   */
  method ResetPassword(name: string, email: string, password: string, newPassword: string, link: string,
                       firstReset: string, secondReset: string, nowMs: nat, laterMs: nat)
    returns (stale: Response, reset: Response, replayed: Response, oldLogin: Response, newLogin: Response)
    requires firstReset != secondReset && Significant(password) != Significant(newPassword)
    requires nowMs <= laterMs < nowMs + ResetWindowMs
    ensures stale == Response(400, Error("Invalid or expired token"))
    ensures reset == Response(200, Message("Password reset successfully"))
    ensures replayed == Response(400, Error("Invalid or expired token"))
    ensures oldLogin == Response(400, Error("Invalid password"))
    ensures newLogin == Response(200, LoggedIn(Sign(Issue(1, email, laterMs), DefaultSecret), PublicUser(1, name, email, "User")))
  {
    var app;
    app, stale, reset := RedeemLatest(name, email, password, newPassword, link, firstReset, secondReset, nowMs, laterMs);
    replayed := app.ResetPassword(secondReset, password, laterMs, false);
    assert app.users[1] == User(name, email, Hash(newPassword), "User", "Active", true, None, None, None);
    CompareHash(newPassword, password);
    oldLogin := app.Login(email, password, laterMs, false);
    newLogin := app.Login(email, newPassword, laterMs, false);
  }

  /** A reset link presented exactly one hour after it was issued has expired. */
  method ResetAfterAnHour(name: string, email: string, password: string, newPassword: string, link: string,
                          resetLink: string, nowMs: nat)
    returns (late: Response)
    ensures late == Response(400, Error("Invalid or expired token"))
  {
    var app := new App(DefaultSecret);
    var _ := app.Register(name, email, password, link, false);
    var _ := app.ForgotPassword(email, resetLink, nowMs, false);
    late := app.ResetPassword(resetLink, newPassword, nowMs + ResetWindowMs, false);
  }

  /** Two users who signed up and followed their emailed links. */
  method Verified(env: Option<string>, alice: string, bob: string, pa: string, pb: string) returns (app: App)
    requires alice != bob
    ensures fresh(app) && app.Valid() && app.secret == SecretKey(env)
    ensures app.users == map[1 := NewUser("Alice", alice, pa, "va").(verified := true, verificationToken := None),
                             2 := NewUser("Bob", bob, pb, "vb").(verified := true, verificationToken := None)]
    ensures app.State() == Db(app.users, map[], map[], map[], 3, 1, 1, 1)
  {
    app := new App(SecretKey(env));
    var _ := app.Register("Alice", alice, pa, "va", false);
    assert app.users == map[1 := NewUser("Alice", alice, pa, "va")];
    var _ := app.Register("Bob", bob, pb, "vb", false);
    assert app.users == map[1 := NewUser("Alice", alice, pa, "va"), 2 := NewUser("Bob", bob, pb, "vb")];
    assert app.users[2].verificationToken != Some("va");
    var _ := app.VerifyEmail("va", false);
    assert app.users == map[1 := NewUser("Alice", alice, pa, "va").(verified := true, verificationToken := None),
                            2 := NewUser("Bob", bob, pb, "vb")];
    var _ := app.VerifyEmail("vb", false);
  }

  /** Two verified users who logged in; each header carries the token its own login returned. */
  method SignedIn(env: Option<string>, alice: string, bob: string, nowMs: nat)
    returns (app: App, asAlice: Option<string>, asBob: Option<string>)
    requires alice != bob
    ensures fresh(app) && app.Valid() && app.secret == SecretKey(env)
    ensures app.users.Keys == {1, 2} && app.users[1].role == "User"
    ensures app.State() == Db(app.users, map[], map[], map[], 3, 1, 1, 1)
    ensures app.Caller(asAlice, nowMs) == Authenticated(Issue(1, alice, nowMs))
    ensures app.Caller(asBob, nowMs) == Authenticated(Issue(2, bob, nowMs))
  {
    app := Verified(env, alice, bob, "a", "b");
    CompareHash("a", "a");
    CompareHash("b", "b");
    assert app.users[1].email == alice && app.users[1].verified && app.users[1].password == Hash("a");
    assert app.users[2].email == bob && app.users[2].verified && app.users[2].password == Hash("b");
    var a := app.Login(alice, "a", nowMs, false);
    var b := app.Login(bob, "b", nowMs, false);
    asAlice, asBob := Some("Bearer " + a.body.token), Some("Bearer " + b.body.token);
    SessionLifetime(1, alice, app.secret, nowMs, nowMs);
    SessionLifetime(2, bob, app.secret, nowMs, nowMs);
  }

  /** One user records an expense; the other's delete of it succeeds and affects no row. */
  method ForeignDelete(env: Option<string>, alice: string, bob: string, nowMs: nat,
                       title: string, amount: real, category: string, date: string)
    returns (app: App, asAlice: Option<string>, asBob: Option<string>, added: Response, foreignDelete: Response)
    requires alice != bob && IsReal4(amount)
    ensures fresh(app) && app.Valid()
    ensures app.Caller(asAlice, nowMs) == Authenticated(Issue(1, alice, nowMs))
    ensures app.Caller(asBob, nowMs) == Authenticated(Issue(2, bob, nowMs))
    ensures app.expenses == map[1 := Entry(1, title, amount, category, date, nowMs)]
    ensures added == Response(200, EntryCreated(1, title, amount, category, date))
    ensures foreignDelete == Response(200, RowCount("Deleted", 0))
  {
    app, asAlice, asBob := SignedIn(env, alice, bob, nowMs);
    added := app.AddEntry(Expenses, asAlice, nowMs, title, amount, category, date, false);
    foreignDelete := app.DeleteEntry(Expenses, asBob, nowMs, 1, false);
  }

  /**
   * One user records an expense; the other cannot delete it (success, no row
   * affected) and does not see it.
   */
  method Ownership(env: Option<string>, alice: string, bob: string, nowMs: nat,
                   title: string, amount: real, category: string, date: string)
    returns (added: Response, foreignDelete: Response, aliceSees: Response, bobSees: Response)
    requires alice != bob && IsReal4(amount)
    ensures added == Response(200, EntryCreated(1, title, amount, category, date))
    ensures foreignDelete == Response(200, RowCount("Deleted", 0))
    ensures aliceSees == Response(200, Entries([EntryRow(1, Entry(1, title, amount, category, date, nowMs))]))
    ensures bobSees == Response(200, Entries([]))
  {
    var app, asAlice, asBob;
    app, asAlice, asBob, added, foreignDelete := ForeignDelete(env, alice, bob, nowMs, title, amount, category, date);
    aliceSees := app.ListEntries(Expenses, asAlice, nowMs, false);
    OnlyRow(aliceSees.body.entries, app.expenses, 1);
    bobSees := app.ListEntries(Expenses, asBob, nowMs, false);
    NoRows(bobSees.body.entries, app.expenses, 2);
  }

  /** An amount `REAL` cannot hold (here 10^39) is refused before an id is drawn: the next expense still gets id 1. */
  method OutOfRangeAmount(env: Option<string>, alice: string, bob: string, nowMs: nat,
                          title: string, amount: real, category: string, date: string)
    returns (huge: Response, added: Response)
    requires alice != bob && IsReal4(amount)
    ensures huge == Response(500, StoreError)
    ensures added == Response(200, EntryCreated(1, title, amount, category, date))
  {
    var app, asAlice, _ := SignedIn(env, alice, bob, nowMs);
    var tooLarge := 1000000000000000000000000000000000000000.0;
    assert !IsReal4(tooLarge);
    huge := app.AddEntry(Expenses, asAlice, nowMs, title, tooLarge, category, date, false);
    added := app.AddEntry(Expenses, asAlice, nowMs, title, amount, category, date, false);
  }

  /** A logged-in user whose stored role is not Admin is turned away from the user list. */
  method AdminGate(env: Option<string>, alice: string, bob: string, nowMs: nat) returns (userList: Response)
    requires alice != bob
    ensures userList == Response(403, Error(AdminsOnlyMessage))
  {
    var app, asAlice, _ := SignedIn(env, alice, bob, nowMs);
    userList := app.ListUsers(asAlice, nowMs, false);
  }

  /**
   * On any store, an admin whose role an admin update sets to something else
   * is turned away by the very next gated request, with the same session token.
   */
  method DemotionTakesEffect(app: App, header: Option<string>, nowMs: nat, role: string, status: string)
    returns (update: Response, next: Response)
    requires app.Valid() && app.Caller(header, nowMs).Authenticated?
    requires app.IsAdmin(app.Caller(header, nowMs).user.id) && role != "Admin"
    modifies app
    ensures update == Response(200, RowCount("User updated", 1))
    ensures next == Response(403, Error(AdminsOnlyMessage))
  {
    var me: int := app.Caller(header, nowMs).user.id;
    update := app.UpdateUser(header, nowMs, me, role, status, false);
    next := app.ListUsers(header, nowMs, false);
  }

  lemma OnlyRow(rows: seq<EntryRow>, t: map<int, Entry>, owner: int)
    requires t.Keys == {1} && t[1].owner == owner
    requires ListsOwnedEntries(rows, t, owner)
    ensures rows == [EntryRow(1, t[1])]
  {
    FirstTwo(rows);
    assert |rows| == 1;
  }

  lemma NoRows(rows: seq<EntryRow>, t: map<int, Entry>, owner: int)
    requires forall id :: id in t ==> t[id].owner != owner
    requires ListsOwnedEntries(rows, t, owner)
    ensures rows == []
  {
    FirstTwo(rows);
  }

  /** Brings the first two rows of a listing into view. */
  lemma FirstTwo(rows: seq<EntryRow>)
    ensures |rows| >= 1 ==> rows[0] in rows
    ensures |rows| >= 2 ==> rows[1] in rows
  {
  }
}
