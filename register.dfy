/** `POST /api/auth/register` (app/api/auth/register/route.ts): the body is validated
    against the registration schema, an e-mail address can be registered once, the
    password is stored as a bcrypt hash, and every new account starts on an ACTIVE
    FREE subscription for the 30 days from now. */
module Register {
  import opened Common
  import opened Schema
  import UsageTracker

  /** The request body: not JSON at all, JSON that is not an object, or an object. */
  datatype Body = Malformed | NotObject(received: string) | Object(name: JsonField, email: JsonField, password: JsonField)

  /** `201 { message: '註冊成功', user: { id, name, email } }`, or an error reply. */
  datatype RegisterReply =
    | Registered(id: string, name: string, email: string)
    | Refused(status: int, error: string)

  const NameEmpty := "姓名不能為空"
  const EmailInvalid := "請輸入有效的電子郵件"
  const PasswordTooShort := "密碼至少需要 6 個字元"
  const EmailTaken := "此電子郵件已經註冊過了"
  const GenericError := "註冊過程中發生錯誤"
  const SuccessMessage := "註冊成功"

  const MinPasswordLength := 6
  const BcryptRounds := 12

  /** zod's own message when a member is not a string. */
  function TypeIssue(f: JsonField): (r: Option<string>)
    ensures r.None? <==> f.Text?
  {
    match f
    case Missing => Some("Required")
    case NotString(t) => Some("Expected string, received " + t)
    case Text(_) => None
  }

  /** The first issue of one member: its type, then its own refinement. */
  function MemberIssue(f: JsonField, ok: string -> bool, message: string): (r: Option<string>)
    ensures r.None? <==> f.Text? && ok(f.s)
    ensures f.Text? && !ok(f.s) ==> r == Some(message)
  {
    if !f.Text? then TypeIssue(f)
    else if ok(f.s) then None
    else Some(message)
  }

  predicate NameOk(s: string) { JsLength(s) >= 1 }

  predicate PasswordOk(s: string) { JsLength(s) >= MinPasswordLength }

  /** `error.issues[0].message` of `registerSchema.parse(body)`, or `None` when the body
      parses. zod reports the members in the schema's order (name, email, password);
      `isEmail` is its e-mail pattern. */
  function FirstIssue(body: Body, isEmail: string -> bool): (r: Option<string>)
    requires !body.Malformed?
    ensures r.None? <==>
      && body.Object? && body.name.Text? && body.email.Text? && body.password.Text?
      && NameOk(body.name.s) && isEmail(body.email.s) && PasswordOk(body.password.s)
    ensures body.Object? && body.name == Text("") ==> r == Some(NameEmpty)
    ensures (body.Object? && body.name.Text? && NameOk(body.name.s) && body.email.Text? && !isEmail(body.email.s))
            ==> r == Some(EmailInvalid)
    ensures (body.Object? && body.name.Text? && NameOk(body.name.s) && body.email.Text? && isEmail(body.email.s)
             && body.password.Text? && !PasswordOk(body.password.s)) ==> r == Some(PasswordTooShort)
  {
    match body
    case NotObject(t) => Some("Expected object, received " + t)
    case Object(name, email, password) =>
      var n := MemberIssue(name, NameOk, NameEmpty);
      if n.Some? then n
      else
        var e := MemberIssue(email, isEmail, EmailInvalid);
        if e.Some? then e
        else MemberIssue(password, PasswordOk, PasswordTooShort)
  }

  /** The account a successful registration creates. */
  function NewUser(body: Body, id: string, bcrypt: (string, int) -> string): User
    requires body.Object? && body.name.Text? && body.email.Text? && body.password.Text?
  {
    User(id, body.name.s, body.email.s, bcrypt(body.password.s, BcryptRounds))
  }

  /** The FREE subscription every new account receives. */
  function FreeSubscription(userId: string, now: Millis): (s: Subscription)
    ensures s.plan == Free && s.status == Active && s.userId == userId
    ensures s.periodEnd - s.periodStart == ThirtyDaysMs && s.tradeNo.None?
  {
    Subscription(userId, Free, Active, now, now + ThirtyDaysMs, None, now)
  }

  /** What one request does: the reply and the user and subscription tables after it.
      `newId` is the identifier the store generates for the new row and `bcrypt` the
      salted hash; a clash of `newId` with an existing key makes the insert throw, which
      the route answers with 500. */
  function RegisterEffect(users: seq<User>, subs: seq<Subscription>, body: Body,
                          isEmail: string -> bool, bcrypt: (string, int) -> string,
                          newId: string, now: Millis): (e: (RegisterReply, seq<User>, seq<Subscription>))
    ensures e.0.Refused? && e.0.status != 500 ==> e.1 == users && e.2 == subs
    ensures e.0.Refused? ==> e.2 == subs
    ensures e.0.Registered? <==>
      && !body.Malformed? && FirstIssue(body, isEmail).None?
      && UserByEmail(users, body.email.s).None?
      && UserById(users, newId).None?
      && SubscriptionOf(subs, newId).None?
    ensures e.0.Registered? ==>
      && e.0 == Registered(newId, body.name.s, body.email.s)
      && e.1 == users + [NewUser(body, newId, bcrypt)]
      && e.2 == subs + [FreeSubscription(newId, now)]
  {
    if body.Malformed? then (Refused(500, GenericError), users, subs)
    else
      var issue := FirstIssue(body, isEmail);
      if issue.Some? then (Refused(400, issue.value), users, subs)
      else if UserByEmail(users, body.email.s).Some? then (Refused(400, EmailTaken), users, subs)
      else if UserById(users, newId).Some? then (Refused(500, GenericError), users, subs)
      else
        var user := NewUser(body, newId, bcrypt);
        if SubscriptionOf(subs, newId).Some? then (Refused(500, GenericError), users + [user], subs)
        else (Registered(newId, user.name, user.email), users + [user], subs + [FreeSubscription(newId, now)])
  }

  /** The route handler over the tables. */
  method Post(db: Tables, body: Body, isEmail: string -> bool, bcrypt: (string, int) -> string,
              newId: string, now: Millis)
    returns (reply: RegisterReply)
    requires db.Valid()
    modifies db`users, db`subscriptions
    ensures db.Valid()
    ensures (reply, db.users, db.subscriptions)
         == RegisterEffect(old(db.users), old(db.subscriptions), body, isEmail, bcrypt, newId, now)
  {
    if body.Malformed? {
      return Refused(500, GenericError);
    }
    var issue := FirstIssue(body, isEmail);
    if issue.Some? {
      return Refused(400, issue.value);
    }
    var existingUser := UserByEmail(db.users, body.email.s);
    if existingUser.Some? {
      return Refused(400, EmailTaken);
    }
    if UserById(db.users, newId).Some? {
      return Refused(500, GenericError);
    }
    var hashedPassword := bcrypt(body.password.s, BcryptRounds);
    var user := User(newId, body.name.s, body.email.s, hashedPassword);
    NoSubscriptionForUnknownUser(db.users, db.subscriptions, db.usage, newId);
    AddUserKeepsInvariant(db.users, db.subscriptions, db.usage, user);
    db.users := db.users + [user];
    AddSubscriptionKeepsInvariant(db.users, db.subscriptions, db.usage, FreeSubscription(user.id, now));
    db.subscriptions := db.subscriptions + [FreeSubscription(user.id, now)];
    reply := Registered(user.id, user.name, user.email);
  }

  /** A row of the subscription table always belongs to an existing user. */
  lemma NoSubscriptionForUnknownUser(users: seq<User>, subs: seq<Subscription>, usage: UsageTable, id: string)
    requires TablesInvariant(users, subs, usage)
    requires UserById(users, id).None?
    ensures SubscriptionOf(subs, id).None?
  {
  }

  lemma {:induction false} UserByIdAppend(users: seq<User>, u: User, id: string)
    ensures UserById(users + [u], id).Some? <==> UserById(users, id).Some? || u.id == id
  {
    if users != [] {
      assert (users + [u])[1..] == users[1..] + [u];
      UserByIdAppend(users[1..], u, id);
    }
  }

  lemma AddUserKeepsInvariant(users: seq<User>, subs: seq<Subscription>, usage: UsageTable, u: User)
    requires TablesInvariant(users, subs, usage)
    requires UserById(users, u.id).None? && UserByEmail(users, u.email).None?
    ensures TablesInvariant(users + [u], subs, usage)
  {
    var us := users + [u];
    forall i, j | 0 <= i < j < |us| ensures us[i].id != us[j].id && us[i].email != us[j].email {
      if j == |users| {
        assert us[i] == users[i] && users[i] in users;
      }
    }
    forall s | s in subs ensures UserById(us, s.userId).Some? {
      UserByIdAppend(users, u, s.userId);
    }
  }

  lemma AddSubscriptionKeepsInvariant(users: seq<User>, subs: seq<Subscription>, usage: UsageTable, s: Subscription)
    requires TablesInvariant(users, subs, usage)
    requires UserById(users, s.userId).Some? && SubscriptionOf(subs, s.userId).None?
    ensures TablesInvariant(users, subs + [s], usage)
  {
    var ss := subs + [s];
    forall i, j | 0 <= i < j < |ss| ensures ss[i].userId != ss[j].userId {
      if j == |subs| {
        assert ss[i] == subs[i] && subs[i] in subs;
      }
    }
  }

  /** On the tables the schema allows, a request is refused only for a malformed body,
      a schema issue, a taken address, or a generated identifier that is already taken;
      the second of those is a refusal with status 400 carrying zod's first message. */
  lemma RegisteredUnlessRefused(users: seq<User>, subs: seq<Subscription>, usage: UsageTable, body: Body,
                                isEmail: string -> bool, bcrypt: (string, int) -> string,
                                newId: string, now: Millis)
    requires TablesInvariant(users, subs, usage)
    ensures var e := RegisterEffect(users, subs, body, isEmail, bcrypt, newId, now);
      e.0.Registered? <==>
        && !body.Malformed? && FirstIssue(body, isEmail).None?
        && UserByEmail(users, body.email.s).None? && UserById(users, newId).None?
    ensures var e := RegisterEffect(users, subs, body, isEmail, bcrypt, newId, now);
      e.0.Refused? ==> e.1 == users
  {
    if UserById(users, newId).None? {
      NoSubscriptionForUnknownUser(users, subs, usage, newId);
    }
  }

  /** The schema's constraints hold after every request. */
  lemma RegisterKeepsInvariant(users: seq<User>, subs: seq<Subscription>, usage: UsageTable, body: Body,
                               isEmail: string -> bool, bcrypt: (string, int) -> string,
                               newId: string, now: Millis)
    requires TablesInvariant(users, subs, usage)
    ensures var e := RegisterEffect(users, subs, body, isEmail, bcrypt, newId, now);
      TablesInvariant(e.1, e.2, usage)
  {
    var e := RegisterEffect(users, subs, body, isEmail, bcrypt, newId, now);
    RegisteredUnlessRefused(users, subs, usage, body, isEmail, bcrypt, newId, now);
    if e.0.Registered? {
      var u := NewUser(body, newId, bcrypt);
      AddUserKeepsInvariant(users, subs, usage, u);
      UserByIdAppend(users, u, newId);
      AddSubscriptionKeepsInvariant(users + [u], subs, usage, FreeSubscription(newId, now));
    }
  }

  lemma {:induction false} UserByEmailAppend(users: seq<User>, u: User)
    requires UserByEmail(users, u.email).None?
    ensures UserByEmail(users + [u], u.email) == Some(u)
  {
    if users != [] {
      assert (users + [u])[1..] == users[1..] + [u];
      UserByEmailAppend(users[1..], u);
    }
  }

  lemma {:induction false} SubscriptionOfAppend(subs: seq<Subscription>, s: Subscription)
    requires SubscriptionOf(subs, s.userId).None?
    ensures SubscriptionOf(subs + [s], s.userId) == Some(s)
  {
    if subs != [] {
      assert (subs + [s])[1..] == subs[1..] + [s];
      SubscriptionOfAppend(subs[1..], s);
    }
  }

  /** A new account is found by its address with the password stored only as its
      12-round hash; the reply names the account's id, name and address; and the
      account's subscription is FREE and ACTIVE for 30 days, so the usage gate grants it
      the FREE quota of 3. */
  lemma NewAccount(users: seq<User>, subs: seq<Subscription>, body: Body,
                   isEmail: string -> bool, bcrypt: (string, int) -> string, newId: string, now: Millis,
                   usage: UsageTable, kind: string, month: UsageTracker.Now)
    requires UsageTracker.ValidNow(month)
    requires RegisterEffect(users, subs, body, isEmail, bcrypt, newId, now).0.Registered?
    ensures var e := RegisterEffect(users, subs, body, isEmail, bcrypt, newId, now);
      && UserByEmail(e.1, e.0.email) == Some(User(e.0.id, e.0.name, e.0.email, bcrypt(body.password.s, 12)))
      && SubscriptionOf(e.2, e.0.id) == Some(Subscription(newId, Free, Active, now, now + ThirtyDaysMs, None, now))
      && var check := UsageTracker.CheckUsageLimit(e.2, usage, newId, kind, month, false, false);
         check.limit == 3 && check.plan == "FREE" && (check.canUse <==> check.currentUsage < 3)
  {
    var u := NewUser(body, newId, bcrypt);
    UserByEmailAppend(users, u);
    SubscriptionOfAppend(subs, FreeSubscription(newId, now));
  }

  /** Registering the same address a second time is refused with status 400 and leaves
      both tables as the first registration left them. */
  lemma SecondRegistrationRefused(users: seq<User>, subs: seq<Subscription>, body: Body, body2: Body,
                                  isEmail: string -> bool, bcrypt: (string, int) -> string,
                                  newId: string, newId2: string, now: Millis, now2: Millis)
    requires RegisterEffect(users, subs, body, isEmail, bcrypt, newId, now).0.Registered?
    requires body2.Object? && body2.email == body.email
    requires FirstIssue(body2, isEmail).None?
    ensures var e := RegisterEffect(users, subs, body, isEmail, bcrypt, newId, now);
      RegisterEffect(e.1, e.2, body2, isEmail, bcrypt, newId2, now2) == (Refused(400, EmailTaken), e.1, e.2)
  {
    UserByEmailAppend(users, NewUser(body, newId, bcrypt));
  }
}
