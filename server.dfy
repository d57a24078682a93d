/**
 * The Express server's routes over its PostgreSQL store: registration, email
 * verification, login, forgot/reset password, the per-user expense, income and
 * shopping-list tables, and the admin-only user table. Each route is one atomic
 * step on the store; `storeDown` stands for a failing database call, which the
 * route's `catch` turns into 500.
 */
module Server {
  import opened Wrappers
  import opened Bcrypt
  import opened Jwt
  import opened Session
  import opened Listing

  /** A row of `users`. `verified` is the `is_verified` integer read as a flag. */
  datatype User = User(
    name: string,
    email: string,
    password: Digest,
    role: string,
    status: string,
    verified: bool,
    verificationToken: Option<string>,
    resetToken: Option<string>,
    resetExpires: Option<int>)

  /** A row of `expenses` or of `income`: the two tables have the same columns. */
  datatype Entry = Entry(owner: int, title: string, amount: real, category: string, date: string, createdAt: int)

  /** A row of `shopping_items`. */
  datatype ShoppingItem = ShoppingItem(owner: int, name: string, price: real, purchased: bool, createdAt: int)

  datatype Ledger = Expenses | Income

  datatype EntryRow = EntryRow(id: int, entry: Entry)
  datatype ShoppingRow = ShoppingRow(id: int, item: ShoppingItem)
  datatype PublicUser = PublicUser(id: int, name: string, email: string, role: string)
  datatype UserSummary = UserSummary(id: int, name: string, email: string, role: string, status: string)

  /** The JSON bodies the routes send. */
  datatype Body =
    | StatusText                                  // res.sendStatus(code)
    | Message(message: string)
    | Error(error: string)
    | StoreError                                  // { error: err.message }
    | LoggedIn(token: string, user: PublicUser)
    | EntryCreated(id: int, title: string, amount: real, category: string, date: string)
    | ItemCreated(id: int, name: string, price: real)   // with purchased: 0
    | RowCount(message: string, rowCount: nat)
    | Entries(entries: seq<EntryRow>)
    | Items(items: seq<ShoppingRow>)
    | Users(users: seq<UserSummary>)

  datatype Response = Response(status: int, body: Body)

  /** The whole store: the four tables and the next value of each table's SERIAL id. */
  datatype Db = Db(
    users: map<int, User>,
    expenses: map<int, Entry>,
    income: map<int, Entry>,
    shopping: map<int, ShoppingItem>,
    userSeq: nat,
    expenseSeq: nat,
    incomeSeq: nat,
    shoppingSeq: nat)
  {
    function Table(k: Ledger): map<int, Entry> {
      match k
      case Expenses => expenses
      case Income => income
    }

    function NextId(k: Ledger): nat {
      match k
      case Expenses => expenseSeq
      case Income => incomeSeq
    }

    function WithTable(k: Ledger, t: map<int, Entry>, next: nat): (d: Db)
      ensures d.Table(k) == t && d.NextId(k) == next
      ensures d.users == users && d.shopping == shopping && d.userSeq == userSeq && d.shoppingSeq == shoppingSeq
      ensures d.Table(Other(k)) == Table(Other(k)) && d.NextId(Other(k)) == NextId(Other(k))
    {
      match k
      case Expenses => this.(expenses := t, expenseSeq := next)
      case Income => this.(income := t, incomeSeq := next)
    }
  }

  function Other(k: Ledger): Ledger {
    if k == Expenses then Income else Expenses
  }

  const RegisteredMessage: string := "Registration successful. Please check your email to verify your account."
  const VerifyFirstMessage: string := "Please verify your email before logging in."
  const AdminsOnlyMessage: string := "Access denied. Admins only."
  const DefaultSecret: string := "default-secret-key"

  /** `process.env.SECRET_KEY || 'default-secret-key'`: an unset or empty variable falls back, so the key is never empty. */
  function SecretKey(env: Option<string>): (key: string)
    ensures key != ""
    ensures env.Some? && env.value != "" ==> key == env.value
    ensures env.None? || env.value == "" ==> key == DefaultSecret
  {
    if env.Some? && env.value != "" then env.value else DefaultSecret
  }

  /** How long a reset token stays redeemable, in milliseconds. */
  const ResetWindowMs: int := 3600000

  /** PostgreSQL's `INTEGER`, the type of every id column. */
  const MinInt32: int := -0x8000_0000
  const MaxInt32: int := 0x7FFF_FFFF

  /** An id PostgreSQL accepts as an `INTEGER` parameter; any other makes the query fail. */
  predicate IsInt32(n: int) {
    MinInt32 <= n <= MaxInt32
  }

  /** A SERIAL sequence whose next value is `next` can still hand it out; past the `INTEGER` range `nextval` fails. */
  predicate CanDraw(next: nat) {
    next <= MaxInt32
  }

  /**
   * PostgreSQL's `REAL`, the type of `amount` and `price`. Reading a parameter
   * into it rounds to single precision, and float4in refuses a value that
   * rounds to infinity (from 2^128 - 2^103 on) or that rounds to zero without
   * being zero (2^-150 and below); subnormal values are accepted.
   */
  const Real4Overflow: real := 340282356779733661637539395458142568448.0
  const Real4Underflow: real := 1.0 / 1427247692705959881058285969449495136382746624.0

  function Abs(x: real): real {
    if x < 0.0 then -x else x
  }

  /** A number PostgreSQL accepts as a `REAL` parameter; any other makes the query fail before it runs. */
  predicate IsReal4(x: real) {
    x == 0.0 || (Real4Underflow < Abs(x) < Real4Overflow)
  }

  /** The row `/api/register` inserts; role, status and is_verified take the schema defaults of db.cjs. */
  function NewUser(name: string, email: string, password: string, token: string): (u: User)
    ensures u.name == name && u.email == email
    ensures forall p :: Compare(p, u.password) <==> Significant(p) == Significant(password)
    ensures !u.verified && u.verificationToken == Some(token)
    ensures u.role == "User" && u.status == "Active"
    ensures u.resetToken.None? && u.resetExpires.None?
  {
    User(name, email, Hash(password), "User", "Active", false, Some(token), None, None)
  }

  ghost predicate UniqueEmails(users: map<int, User>) {
    forall a, b :: a in users && b in users && a != b ==> users[a].email != users[b].email
  }

  ghost predicate EmailTaken(users: map<int, User>, email: string) {
    exists id :: id in users && users[id].email == email
  }

  ghost predicate HoldsVerificationToken(users: map<int, User>, token: string) {
    exists id :: id in users && users[id].verificationToken == Some(token)
  }

  /** `reset_password_token = $1 AND reset_password_expires > $2`: a NULL expiry never qualifies. */
  predicate Redeemable(u: User, token: string, nowMs: int) {
    u.resetToken == Some(token) && u.resetExpires.Some? && u.resetExpires.value > nowMs
  }

  /** A reset requested at `issuedMs` can be redeemed with its own token only, and only before the hour is up. */
  lemma ResetLinkWindow(u: User, token: string, presented: string, issuedMs: int, nowMs: int)
    requires u.resetToken == Some(token) && u.resetExpires == Some(issuedMs + ResetWindowMs)
    ensures Redeemable(u, presented, nowMs) <==> presented == token && nowMs < issuedMs + ResetWindowMs
  {
  }

  /** Once its token and expiry are cleared, an account redeems no reset token at any time. */
  lemma ClearedResetRedeemsNothing(u: User, presented: string, nowMs: int)
    requires u.resetToken.None? && u.resetExpires.None?
    ensures !Redeemable(u, presented, nowMs)
  {
  }

  /** `authorizeAdmin`'s test, made on the role stored for `id`. */
  predicate AdminIn(users: map<int, User>, id: int) {
    id in users && users[id].role == "Admin"
  }

  /**
   * An update of one user's role and status decides that user's next pass
   * through the admin gate and leaves everyone else's as it was.
   */
  lemma RoleChangeTakesEffect(users: map<int, User>, target: int, role: string, status: string, id: int)
    requires target in users
    ensures AdminIn(users[target := users[target].(role := role, status := status)], id)
            <==> if id == target then role == "Admin" else AdminIn(users, id)
  {
  }

  ghost predicate HoldsResetToken(users: map<int, User>, token: string, nowMs: int) {
    exists id :: id in users && Redeemable(users[id], token, nowMs)
  }

  /** The answer of `authenticateToken` when it stops the request. */
  function Deny(a: AuthOutcome): (r: Response)
    requires !a.Authenticated?
    ensures r.body == StatusText
    ensures r.status == 401 <==> a.MissingToken?
    ensures r.status == 403 <==> a.InvalidSession?
  {
    if a.MissingToken? then Response(401, StatusText) else Response(403, StatusText)
  }

  /** The rows of table `t` owned by `owner`, each once and nothing else. */
  ghost predicate ListsOwnedEntries(rows: seq<EntryRow>, t: map<int, Entry>, owner: int) {
    && (forall i :: 0 <= i < |rows| ==> rows[i].id in t && t[rows[i].id] == rows[i].entry && rows[i].entry.owner == owner)
    && (forall id :: id in t && t[id].owner == owner ==> exists i :: 0 <= i < |rows| && rows[i].id == id)
    && (forall i, j :: 0 <= i < j < |rows| ==> rows[i].id != rows[j].id)
  }

  predicate LatestDateFirst(rows: seq<EntryRow>) {
    forall i, j :: 0 <= i < j < |rows| ==> StrLe(rows[j].entry.date, rows[i].entry.date)
  }

  ghost predicate ListsOwnedItems(rows: seq<ShoppingRow>, t: map<int, ShoppingItem>, owner: int) {
    && (forall i :: 0 <= i < |rows| ==> rows[i].id in t && t[rows[i].id] == rows[i].item && rows[i].item.owner == owner)
    && (forall id :: id in t && t[id].owner == owner ==> exists i :: 0 <= i < |rows| && rows[i].id == id)
    && (forall i, j :: 0 <= i < j < |rows| ==> rows[i].id != rows[j].id)
  }

  predicate NewestFirst(rows: seq<ShoppingRow>) {
    forall i, j :: 0 <= i < j < |rows| ==> rows[j].item.createdAt <= rows[i].item.createdAt
  }

  function Summary(id: int, u: User): UserSummary {
    UserSummary(id, u.name, u.email, u.role, u.status)
  }

  /** Every user, as `SELECT id, name, email, role, status`, each once. */
  ghost predicate ListsAllUsers(rows: seq<UserSummary>, users: map<int, User>) {
    && (forall i :: 0 <= i < |rows| ==> rows[i].id in users && rows[i] == Summary(rows[i].id, users[rows[i].id]))
    && (forall id :: id in users ==> exists i :: 0 <= i < |rows| && rows[i].id == id)
    && (forall i, j :: 0 <= i < j < |rows| ==> rows[i].id != rows[j].id)
  }

  function OwnedEntryIds(t: map<int, Entry>, owner: int): (ids: set<int>)
    ensures forall id :: id in ids <==> id in t && t[id].owner == owner
  {
    set id | id in t && t[id].owner == owner
  }

  function DateKey(t: map<int, Entry>): (key: int -> string)
    ensures forall id :: id in t ==> key(id) == t[id].date
  {
    (id: int) => if id in t then t[id].date else ""
  }

  /** `SELECT * FROM expenses|income WHERE user_id = $1 ORDER BY date DESC` over ids below `next`. */
  function OwnedEntries(t: map<int, Entry>, owner: int, next: nat): (rows: seq<EntryRow>)
    requires forall id :: id in t ==> 0 <= id < next
    ensures ListsOwnedEntries(rows, t, owner)
    ensures LatestDateFirst(rows)
  {
    var key := DateKey(t);
    var ids := SortDesc(OwnedEntryIds(t, owner), next, key, StrLe);
    StrLeTotalPreorder();
    assert Descending(ids, key, StrLe);
    assert forall i :: 0 <= i < |ids| ==> ids[i] in OwnedEntryIds(t, owner);
    var rows := seq(|ids|, i requires 0 <= i < |ids| => EntryRow(ids[i], t[ids[i]]));
    assert forall id :: id in t && t[id].owner == owner ==> id in ids;
    assert forall i :: 0 <= i < |ids| ==> rows[i].id == ids[i];
    rows
  }

  // OwnedItemIds and CreatedKey repeat OwnedEntryIds and DateKey for shopping rows: a version
  // generic over the row type needs an owner projection passed as a function, which makes the
  // listing proofs too costly for the verifier.
  function OwnedItemIds(t: map<int, ShoppingItem>, owner: int): (ids: set<int>)
    ensures forall id :: id in ids <==> id in t && t[id].owner == owner
  {
    set id | id in t && t[id].owner == owner
  }

  function CreatedKey(t: map<int, ShoppingItem>): (key: int -> int)
    ensures forall id :: id in t ==> key(id) == t[id].createdAt
  {
    (id: int) => if id in t then t[id].createdAt else 0
  }

  /** `SELECT * FROM shopping_items WHERE user_id = $1 ORDER BY created_at DESC` over ids below `next`. */
  function OwnedItems(t: map<int, ShoppingItem>, owner: int, next: nat): (rows: seq<ShoppingRow>)
    requires forall id :: id in t ==> 0 <= id < next
    ensures ListsOwnedItems(rows, t, owner)
    ensures NewestFirst(rows)
  {
    var key := CreatedKey(t);
    IntLeTotalPreorder();
    var ids := SortDesc(OwnedItemIds(t, owner), next, key, IntLe);
    assert Descending(ids, key, IntLe);
    assert forall i :: 0 <= i < |ids| ==> ids[i] in OwnedItemIds(t, owner);
    var rows := seq(|ids|, i requires 0 <= i < |ids| => ShoppingRow(ids[i], t[ids[i]]));
    assert forall id :: id in t && t[id].owner == owner ==> id in ids;
    assert forall i :: 0 <= i < |ids| ==> rows[i].id == ids[i];
    rows
  }

  /** `SELECT id, name, email, role, status FROM users`: no ORDER BY, so only the contents are promised. */
  function AllUsers(users: map<int, User>, next: nat): (rows: seq<UserSummary>)
    requires forall id :: id in users ==> 0 <= id < next
    ensures ListsAllUsers(rows, users)
  {
    var ids := SortDesc(users.Keys, next, (id: int) => id, IntLe);
    assert forall i :: 0 <= i < |ids| ==> ids[i] in users.Keys;
    var rows := seq(|ids|, i requires 0 <= i < |ids| => Summary(ids[i], users[ids[i]]));
    assert forall id :: id in users ==> id in ids;
    assert forall i :: 0 <= i < |ids| ==> rows[i].id == ids[i];
    rows
  }

  class App {
    /** SECRET_KEY, fixed at start-up. */
    const secret: string
    var users: map<int, User>
    var expenses: map<int, Entry>
    var income: map<int, Entry>
    var shopping: map<int, ShoppingItem>
    var userSeq: nat
    var expenseSeq: nat
    var incomeSeq: nat
    var shoppingSeq: nat

    function State(): Db
      reads this
    {
      Db(users, expenses, income, shopping, userSeq, expenseSeq, incomeSeq, shoppingSeq)
    }

    /**
     * The store's invariant: unique emails (db.cjs declares `email TEXT UNIQUE`),
     * SERIAL ids from 1 below the next sequence value, owners that exist
     * (`REFERENCES users(id)`), a reset token exactly when a reset expiry, and a
     * pending verification token only on an unverified account.
     */
    ghost predicate Valid()
      reads this
    {
      && UniqueEmails(users)
      && userSeq >= 1 && expenseSeq >= 1 && incomeSeq >= 1 && shoppingSeq >= 1
      && userSeq <= MaxInt32 + 1 && expenseSeq <= MaxInt32 + 1 && incomeSeq <= MaxInt32 + 1 && shoppingSeq <= MaxInt32 + 1
      && (forall id :: id in users ==> 1 <= id < userSeq)
      && (forall id :: id in expenses ==> 1 <= id < expenseSeq && expenses[id].owner in users)
      && (forall id :: id in income ==> 1 <= id < incomeSeq && income[id].owner in users)
      && (forall id :: id in shopping ==> 1 <= id < shoppingSeq && shopping[id].owner in users)
      && (forall id :: id in users ==> (users[id].resetToken.Some? <==> users[id].resetExpires.Some?))
      && (forall id :: id in users ==> users[id].verificationToken.Some? ==> !users[id].verified)
    }

    constructor (secret: string)
      requires secret != ""
      ensures Valid() && this.secret == secret
      ensures State() == Db(map[], map[], map[], map[], 1, 1, 1, 1)
    {
      this.secret := secret;
      users, expenses, income, shopping := map[], map[], map[], map[];
      userSeq, expenseSeq, incomeSeq, shoppingSeq := 1, 1, 1, 1;
    }

    /** The identity `authenticateToken` resolves for a request. */
    function Caller(header: Option<string>, nowMs: nat): AuthOutcome {
      Authenticate(header, secret, nowMs)
    }

    /** `authorizeAdmin`: the caller's role as stored now, not as it was at login. */
    function IsAdmin(id: int): bool
      reads this
    {
      AdminIn(users, id)
    }

    // ---------------------------------------------------------------- auth routes

    /** POST /api/register */
    method Register(name: string, email: string, password: string, freshToken: string, storeDown: bool)
      returns (r: Response)
      requires Valid()
      modifies this
      ensures Valid()
      ensures storeDown || !CanDraw(old(userSeq)) ==> r == Response(500, StoreError) && State() == old(State())
      ensures !storeDown && CanDraw(old(userSeq)) && EmailTaken(old(users), email) ==>
        && r == Response(400, Error("Email already exists"))
        && State() == old(State()).(userSeq := old(userSeq) + 1)
      ensures !storeDown && CanDraw(old(userSeq)) && !EmailTaken(old(users), email) ==>
        && r == Response(200, Message(RegisteredMessage))
        && old(userSeq) !in old(users)
        && State() == old(State()).(users := old(users)[old(userSeq) := NewUser(name, email, password, freshToken)],
                                    userSeq := old(userSeq) + 1)
    {
      if storeDown || !CanDraw(userSeq) {
        return Response(500, StoreError);
      }
      // PostgreSQL draws the SERIAL value before it checks the unique constraint.
      var id := userSeq;
      userSeq := userSeq + 1;
      if exists other :: other in users && users[other].email == email {
        return Response(400, Error("Email already exists"));
      }
      users := users[id := NewUser(name, email, password, freshToken)];
      r := Response(200, Message(RegisteredMessage));
    }

    /** POST /api/verify */
    method VerifyEmail(token: string, storeDown: bool) returns (r: Response)
      requires Valid()
      modifies this
      ensures Valid()
      ensures storeDown ==> r == Response(500, StoreError) && State() == old(State())
      ensures !storeDown && !HoldsVerificationToken(old(users), token) ==>
        r == Response(400, Error("Invalid or expired token")) && State() == old(State())
      ensures !storeDown && HoldsVerificationToken(old(users), token) ==>
        && r == Response(200, Message("Email verified successfully"))
        && exists id :: id in old(users) && old(users)[id].verificationToken == Some(token)
             && State() == old(State()).(users := old(users)[id := old(users)[id].(verified := true, verificationToken := None)])
    {
      if storeDown {
        return Response(500, StoreError);
      }
      if !exists id :: id in users && users[id].verificationToken == Some(token) {
        return Response(400, Error("Invalid or expired token"));
      }
      var id :| id in users && users[id].verificationToken == Some(token);
      users := users[id := users[id].(verified := true, verificationToken := None)];
      r := Response(200, Message("Email verified successfully"));
    }

    /** POST /api/login: unknown email, then wrong password, then unverified account. */
    method Login(email: string, password: string, nowMs: nat, storeDown: bool) returns (r: Response)
      requires Valid()
      ensures storeDown ==> r == Response(500, StoreError)
      ensures !storeDown && !EmailTaken(users, email) ==> r == Response(400, Error("User not found"))
      ensures !storeDown ==> forall id :: id in users && users[id].email == email ==>
        && (!Compare(password, users[id].password) ==> r == Response(400, Error("Invalid password")))
        && (Compare(password, users[id].password) && !users[id].verified ==> r == Response(403, Error(VerifyFirstMessage)))
        && (Compare(password, users[id].password) && users[id].verified ==>
              r == Response(200, LoggedIn(Sign(Issue(id as nat, email, nowMs), secret),
                                          PublicUser(id, users[id].name, email, users[id].role))))
    {
      if storeDown {
        return Response(500, StoreError);
      }
      if !exists id :: id in users && users[id].email == email {
        return Response(400, Error("User not found"));
      }
      var id :| id in users && users[id].email == email;
      var u := users[id];
      if !Compare(password, u.password) {
        return Response(400, Error("Invalid password"));
      }
      if !u.verified {
        return Response(403, Error(VerifyFirstMessage));
      }
      var token := Sign(Issue(id as nat, u.email, nowMs), secret);
      r := Response(200, LoggedIn(token, PublicUser(id, u.name, u.email, u.role)));
    }

    /** POST /api/forgot-password */
    method ForgotPassword(email: string, freshToken: string, nowMs: int, storeDown: bool) returns (r: Response)
      requires Valid()
      modifies this
      ensures Valid()
      ensures storeDown ==> r == Response(500, StoreError) && State() == old(State())
      ensures !storeDown && !EmailTaken(old(users), email) ==>
        r == Response(400, Error("User not found")) && State() == old(State())
      ensures !storeDown ==> forall id :: id in old(users) && old(users)[id].email == email ==>
        && r == Response(200, Message("Password reset link sent to your email."))
        && State() == old(State()).(users := old(users)[id := old(users)[id].(resetToken := Some(freshToken),
                                                                             resetExpires := Some(nowMs + ResetWindowMs))])
    {
      if storeDown {
        return Response(500, StoreError);
      }
      if !exists id :: id in users && users[id].email == email {
        return Response(400, Error("User not found"));
      }
      var id :| id in users && users[id].email == email;
      users := users[id := users[id].(resetToken := Some(freshToken), resetExpires := Some(nowMs + ResetWindowMs))];
      r := Response(200, Message("Password reset link sent to your email."));
    }

    /** POST /api/reset-password */
    method ResetPassword(token: string, newPassword: string, nowMs: int, storeDown: bool) returns (r: Response)
      requires Valid()
      modifies this
      ensures Valid()
      ensures storeDown ==> r == Response(500, StoreError) && State() == old(State())
      ensures !storeDown && !HoldsResetToken(old(users), token, nowMs) ==>
        r == Response(400, Error("Invalid or expired token")) && State() == old(State())
      ensures !storeDown && HoldsResetToken(old(users), token, nowMs) ==>
        && r == Response(200, Message("Password reset successfully"))
        && exists id :: id in old(users) && Redeemable(old(users)[id], token, nowMs)
             && State() == old(State()).(users := old(users)[id := old(users)[id].(password := Hash(newPassword),
                                                                                  resetToken := None, resetExpires := None)])
    {
      if storeDown {
        return Response(500, StoreError);
      }
      if !exists id :: id in users && Redeemable(users[id], token, nowMs) {
        return Response(400, Error("Invalid or expired token"));
      }
      var id :| id in users && Redeemable(users[id], token, nowMs);
      users := users[id := users[id].(password := Hash(newPassword), resetToken := None, resetExpires := None)];
      r := Response(200, Message("Password reset successfully"));
    }

    // ------------------------------------------------------- expenses and income

    /** GET /api/expenses and GET /api/income: the caller's rows, latest date first. */
    method ListEntries(k: Ledger, header: Option<string>, nowMs: nat, storeDown: bool) returns (r: Response)
      requires Valid()
      ensures !Caller(header, nowMs).Authenticated? ==> r == Deny(Caller(header, nowMs))
      ensures Caller(header, nowMs).Authenticated? && storeDown ==> r == Response(500, StoreError)
      ensures Caller(header, nowMs).Authenticated? && !storeDown ==>
        && r.status == 200 && r.body.Entries?
        && ListsOwnedEntries(r.body.entries, State().Table(k), Caller(header, nowMs).user.id)
        && LatestDateFirst(r.body.entries)
    {
      var who := Caller(header, nowMs);
      if !who.Authenticated? {
        return Deny(who);
      }
      if storeDown {
        return Response(500, StoreError);
      }
      var t := State().Table(k);
      r := Response(200, Entries(OwnedEntries(t, who.user.id, State().NextId(k))));
    }

    /** POST /api/expenses and POST /api/income: a row owned by the caller. */
    method AddEntry(k: Ledger, header: Option<string>, nowMs: nat, title: string, amount: real,
                    category: string, date: string, storeDown: bool) returns (r: Response)
      requires Valid()
      modifies this
      ensures Valid()
      ensures !Caller(header, nowMs).Authenticated? ==> r == Deny(Caller(header, nowMs)) && State() == old(State())
      ensures Caller(header, nowMs).Authenticated? && (storeDown || !IsReal4(amount) || !CanDraw(old(State()).NextId(k))) ==>
        r == Response(500, StoreError) && State() == old(State())
      ensures Caller(header, nowMs).Authenticated? && !storeDown && IsReal4(amount) && CanDraw(old(State()).NextId(k))
              && Caller(header, nowMs).user.id !in old(users) ==>
        && r == Response(500, StoreError)
        && State() == old(State()).WithTable(k, old(State()).Table(k), old(State()).NextId(k) + 1)
      ensures Caller(header, nowMs).Authenticated? && !storeDown && IsReal4(amount) && CanDraw(old(State()).NextId(k))
              && Caller(header, nowMs).user.id in old(users) ==>
        && r == Response(200, EntryCreated(old(State()).NextId(k), title, amount, category, date))
        && old(State()).NextId(k) !in old(State()).Table(k)
        && State() == old(State()).WithTable(
             k,
             old(State()).Table(k)[old(State()).NextId(k) := Entry(Caller(header, nowMs).user.id, title, amount, category, date, nowMs)],
             old(State()).NextId(k) + 1)
    {
      var who := Caller(header, nowMs);
      if !who.Authenticated? {
        return Deny(who);
      }
      // The amount is bound before the INSERT draws its SERIAL value.
      if storeDown || !IsReal4(amount) || !CanDraw(State().NextId(k)) {
        return Response(500, StoreError);
      }
      var owner: int := who.user.id;
      var id := State().NextId(k);
      var t := State().Table(k);
      if owner in users {
        t := t[id := Entry(owner, title, amount, category, date, nowMs)];
        r := Response(200, EntryCreated(id, title, amount, category, date));
      } else {
        // The foreign key on user_id rejects the row; the sequence value is spent.
        r := Response(500, StoreError);
      }
      StoreTable(k, t, id + 1);
    }

    /** Writes ledger `k` and its sequence counter; rows that satisfy the invariant keep it. */
    method StoreTable(k: Ledger, t: map<int, Entry>, next: nat)
      requires Valid()
      requires 1 <= next <= MaxInt32 + 1
      requires forall id :: id in t ==> 1 <= id < next && t[id].owner in users
      modifies this
      ensures Valid()
      ensures State() == old(State()).WithTable(k, t, next)
    {
      match k {
        case Expenses => expenses, expenseSeq := t, next;
        case Income => income, incomeSeq := t, next;
      }
    }

    /** DELETE /api/expenses/:id and DELETE /api/income/:id: only a row the caller owns goes. */
    method DeleteEntry(k: Ledger, header: Option<string>, nowMs: nat, id: int, storeDown: bool) returns (r: Response)
      requires Valid()
      modifies this
      ensures Valid()
      ensures !Caller(header, nowMs).Authenticated? ==> r == Deny(Caller(header, nowMs)) && State() == old(State())
      ensures Caller(header, nowMs).Authenticated? && (storeDown || !IsInt32(id)) ==>
        r == Response(500, StoreError) && State() == old(State())
      ensures Caller(header, nowMs).Authenticated? && !storeDown && IsInt32(id) ==>
        var t := old(State()).Table(k);
        var owned := id in t && t[id].owner == Caller(header, nowMs).user.id;
        && r == Response(200, RowCount("Deleted", if owned then 1 else 0))
        && State() == old(State()).WithTable(k, if owned then t - {id} else t, old(State()).NextId(k))
    {
      var who := Caller(header, nowMs);
      if !who.Authenticated? {
        return Deny(who);
      }
      if storeDown || !IsInt32(id) {
        return Response(500, StoreError);
      }
      var t := State().Table(k);
      var owned := id in t && t[id].owner == who.user.id;
      if owned {
        t := t - {id};
      }
      match k {
        case Expenses => expenses := t;
        case Income => income := t;
      }
      r := Response(200, RowCount("Deleted", if owned then 1 else 0));
    }

    // ------------------------------------------------------------- shopping list

    /** GET /api/shopping: the caller's items, newest first. */
    method ListShopping(header: Option<string>, nowMs: nat, storeDown: bool) returns (r: Response)
      requires Valid()
      ensures !Caller(header, nowMs).Authenticated? ==> r == Deny(Caller(header, nowMs))
      ensures Caller(header, nowMs).Authenticated? && storeDown ==> r == Response(500, StoreError)
      ensures Caller(header, nowMs).Authenticated? && !storeDown ==>
        && r.status == 200 && r.body.Items?
        && ListsOwnedItems(r.body.items, shopping, Caller(header, nowMs).user.id)
        && NewestFirst(r.body.items)
    {
      var who := Caller(header, nowMs);
      if !who.Authenticated? {
        return Deny(who);
      }
      if storeDown {
        return Response(500, StoreError);
      }
      r := Response(200, Items(OwnedItems(shopping, who.user.id, shoppingSeq)));
    }

    /** POST /api/shopping: a new, unpurchased item owned by the caller. */
    method AddShopping(header: Option<string>, nowMs: nat, name: string, price: real, storeDown: bool)
      returns (r: Response)
      requires Valid()
      modifies this
      ensures Valid()
      ensures !Caller(header, nowMs).Authenticated? ==> r == Deny(Caller(header, nowMs)) && State() == old(State())
      ensures Caller(header, nowMs).Authenticated? && (storeDown || !IsReal4(price) || !CanDraw(old(shoppingSeq))) ==>
        r == Response(500, StoreError) && State() == old(State())
      ensures Caller(header, nowMs).Authenticated? && !storeDown && IsReal4(price) && CanDraw(old(shoppingSeq))
              && Caller(header, nowMs).user.id !in old(users) ==>
        r == Response(500, StoreError) && State() == old(State()).(shoppingSeq := old(shoppingSeq) + 1)
      ensures Caller(header, nowMs).Authenticated? && !storeDown && IsReal4(price) && CanDraw(old(shoppingSeq))
              && Caller(header, nowMs).user.id in old(users) ==>
        && r == Response(200, ItemCreated(old(shoppingSeq), name, price))
        && old(shoppingSeq) !in old(shopping)
        && State() == old(State()).(shopping := old(shopping)[old(shoppingSeq) := ShoppingItem(Caller(header, nowMs).user.id, name, price, false, nowMs)],
                                    shoppingSeq := old(shoppingSeq) + 1)
    {
      var who := Caller(header, nowMs);
      if !who.Authenticated? {
        return Deny(who);
      }
      if storeDown || !IsReal4(price) || !CanDraw(shoppingSeq) {
        return Response(500, StoreError);
      }
      var owner: int := who.user.id;
      var id := shoppingSeq;
      shoppingSeq := shoppingSeq + 1;
      if owner !in users {
        return Response(500, StoreError);
      }
      shopping := shopping[id := ShoppingItem(owner, name, price, false, nowMs)];
      r := Response(200, ItemCreated(id, name, price));
    }

    /** PUT /api/shopping/:id: sets the purchased flag of an item the caller owns. */
    method UpdateShopping(header: Option<string>, nowMs: nat, id: int, purchased: bool, storeDown: bool)
      returns (r: Response)
      requires Valid()
      modifies this
      ensures Valid()
      ensures !Caller(header, nowMs).Authenticated? ==> r == Deny(Caller(header, nowMs)) && State() == old(State())
      ensures Caller(header, nowMs).Authenticated? && (storeDown || !IsInt32(id)) ==>
        r == Response(500, StoreError) && State() == old(State())
      ensures Caller(header, nowMs).Authenticated? && !storeDown && IsInt32(id) ==>
        var owned := id in old(shopping) && old(shopping)[id].owner == Caller(header, nowMs).user.id;
        && r == Response(200, RowCount("Updated", if owned then 1 else 0))
        && State() == old(State()).(shopping := if owned then old(shopping)[id := old(shopping)[id].(purchased := purchased)]
                                                else old(shopping))
    {
      var who := Caller(header, nowMs);
      if !who.Authenticated? {
        return Deny(who);
      }
      if storeDown || !IsInt32(id) {
        return Response(500, StoreError);
      }
      var owned := id in shopping && shopping[id].owner == who.user.id;
      if owned {
        shopping := shopping[id := shopping[id].(purchased := purchased)];
      }
      r := Response(200, RowCount("Updated", if owned then 1 else 0));
    }

    /** DELETE /api/shopping/:id */
    method DeleteShopping(header: Option<string>, nowMs: nat, id: int, storeDown: bool) returns (r: Response)
      requires Valid()
      modifies this
      ensures Valid()
      ensures !Caller(header, nowMs).Authenticated? ==> r == Deny(Caller(header, nowMs)) && State() == old(State())
      ensures Caller(header, nowMs).Authenticated? && (storeDown || !IsInt32(id)) ==>
        r == Response(500, StoreError) && State() == old(State())
      ensures Caller(header, nowMs).Authenticated? && !storeDown && IsInt32(id) ==>
        var owned := id in old(shopping) && old(shopping)[id].owner == Caller(header, nowMs).user.id;
        && r == Response(200, RowCount("Deleted", if owned then 1 else 0))
        && State() == old(State()).(shopping := if owned then old(shopping) - {id} else old(shopping))
    {
      var who := Caller(header, nowMs);
      if !who.Authenticated? {
        return Deny(who);
      }
      if storeDown || !IsInt32(id) {
        return Response(500, StoreError);
      }
      var owned := id in shopping && shopping[id].owner == who.user.id;
      if owned {
        shopping := shopping - {id};
      }
      r := Response(200, RowCount("Deleted", if owned then 1 else 0));
    }

    // ---------------------------------------------------------- user management

    /** GET /api/users, behind `authenticateToken` and `authorizeAdmin`. */
    method ListUsers(header: Option<string>, nowMs: nat, storeDown: bool) returns (r: Response)
      requires Valid()
      ensures !Caller(header, nowMs).Authenticated? ==> r == Deny(Caller(header, nowMs))
      ensures Caller(header, nowMs).Authenticated? && storeDown ==> r == Response(500, StoreError)
      ensures Caller(header, nowMs).Authenticated? && !storeDown && !IsAdmin(Caller(header, nowMs).user.id) ==>
        r == Response(403, Error(AdminsOnlyMessage))
      ensures Caller(header, nowMs).Authenticated? && !storeDown && IsAdmin(Caller(header, nowMs).user.id) ==>
        r.status == 200 && r.body.Users? && ListsAllUsers(r.body.users, users)
    {
      var who := Caller(header, nowMs);
      if !who.Authenticated? {
        return Deny(who);
      }
      if storeDown {
        return Response(500, StoreError);
      }
      if !IsAdmin(who.user.id) {
        return Response(403, Error(AdminsOnlyMessage));
      }
      r := Response(200, Users(AllUsers(users, userSeq)));
    }

    /** PUT /api/users/:id, admin only: sets role and status of the target row and nothing else. */
    method UpdateUser(header: Option<string>, nowMs: nat, id: int, role: string, status: string, storeDown: bool)
      returns (r: Response)
      requires Valid()
      modifies this
      ensures Valid()
      ensures !Caller(header, nowMs).Authenticated? ==> r == Deny(Caller(header, nowMs)) && State() == old(State())
      ensures Caller(header, nowMs).Authenticated? && storeDown ==> r == Response(500, StoreError) && State() == old(State())
      ensures Caller(header, nowMs).Authenticated? && !storeDown && !old(IsAdmin(Caller(header, nowMs).user.id)) ==>
        r == Response(403, Error(AdminsOnlyMessage)) && State() == old(State())
      ensures Caller(header, nowMs).Authenticated? && !storeDown && old(IsAdmin(Caller(header, nowMs).user.id)) && !IsInt32(id) ==>
        r == Response(500, StoreError) && State() == old(State())
      ensures Caller(header, nowMs).Authenticated? && !storeDown && old(IsAdmin(Caller(header, nowMs).user.id)) && IsInt32(id) ==>
        && r == Response(200, RowCount("User updated", if id in old(users) then 1 else 0))
        && State() == old(State()).(users := if id in old(users) then old(users)[id := old(users)[id].(role := role, status := status)]
                                             else old(users))
    {
      var who := Caller(header, nowMs);
      if !who.Authenticated? {
        return Deny(who);
      }
      if storeDown {
        return Response(500, StoreError);
      }
      if !IsAdmin(who.user.id) {
        return Response(403, Error(AdminsOnlyMessage));
      }
      if !IsInt32(id) {
        return Response(500, StoreError);
      }
      var found := id in users;
      if found {
        users := users[id := users[id].(role := role, status := status)];
      }
      r := Response(200, RowCount("User updated", if found then 1 else 0));
    }
  }
}
