/**
 * The password-reset token and the three edge functions around it.  A token
 * row is issued unused with an expiry thirty minutes ahead, checked by a
 * read-only cascade (unknown, then used, then expired), and redeemed by
 * changing the password and only then marking the row used.  Times are
 * milliseconds since the epoch, passed in as `now`.
 */
module PasswordReset {
  import opened Wrappers
  import opened Json
  import opened Rows
  import Http
  import Seqs
  import Store
  import Text

  /** `1000 * 60 * 30`. */
  const Lifetime: int := 1000 * 60 * 30

  /** The recovery mail: its recipient and the link it carries. */
  datatype RecoveryMail = RecoveryMail(to: string, link: string)

  /** Where a looked-up token stands; the order of the checks is Unknown, Spent, Expired. */
  datatype TokenState = Unknown | Spent | Expired | Live(row: TokenRow)

  /** The shared check cascade of verification and redemption: `now > expires_at` is expiry,
      so a token is still good at exactly its expiry time, and `used` wins over expiry. */
  function StateOf(found: Option<TokenRow>, now: int): (s: TokenState)
    ensures s == Unknown <==> found.None?
    ensures s == Spent <==> found.Some? && found.value.used
    ensures s == Expired <==> found.Some? && !found.value.used && now > found.value.expiresAt
    ensures s.Live? <==> found.Some? && !found.value.used && now <= found.value.expiresAt
    ensures s.Live? ==> s.row == found.value
  {
    match found
    case None => Unknown
    case Some(row) =>
      if row.used then Spent
      else if now > row.expiresAt then Expired
      else Live(row)
  }

  /** The row `send-password-recovery-link` stores for a token issued at `now`. */
  function IssuedRow(token: string, email: string, now: int): TokenRow {
    TokenRow(token, email, false, now + Lifetime)
  }

  /** A row matches the token it was issued for. */
  function HasToken(key: string): TokenRow -> bool {
    (r: TokenRow) => r.token == key
  }

  /** `update({ used: true }).eq('token', token)`. */
  function MarkUsed(rows: map<int, TokenRow>, key: string): (r: map<int, TokenRow>)
    ensures r.Keys == rows.Keys
    ensures forall k :: k in rows ==> r[k] == if rows[k].token == key then rows[k].(used := true) else rows[k]
  {
    Store.UpdatedRows(rows, HasToken(key), (t: TokenRow) => t.(used := true))
  }

  /** The lifecycle of an issued token: live from its issue until thirty minutes later,
      expired afterwards, and spent once it is marked used, whatever the time. */
  lemma IssuedTokenLifecycle(token: string, email: string, issuedAt: int, now: int)
    ensures StateOf(Some(IssuedRow(token, email, issuedAt)), now).Live?
      <==> now <= issuedAt + Lifetime
    ensures now > issuedAt + Lifetime ==> StateOf(Some(IssuedRow(token, email, issuedAt)), now) == Expired
    ensures StateOf(Some(IssuedRow(token, email, issuedAt).(used := true)), now) == Spent
  {
  }

  /** After marking, every row with the token is spent: no lookup of it is live again. */
  lemma MarkedTokenIsSpent(rows: map<int, TokenRow>, key: string, now: int)
    ensures forall k :: k in MarkUsed(rows, key) && MarkUsed(rows, key)[k].token == key ==>
      StateOf(Some(MarkUsed(rows, key)[k]), now) == Spent
  {
  }

  const InternalError: Http.Response := Http.Error(500, "Error interno")

  // ---------------------------------------------------------------------------
  // send-password-recovery-link

  /** What the issuing function decides before it writes: an answer, or the token to store. */
  datatype IssuePlan = Answer(resp: Http.Response) | StoreToken(token: string, email: string, link: string)

  /** The checks of `send-password-recovery-link` up to the insert.  `generated` is the action
      link the auth service returned for the e-mail, `None` when link generation failed. */
  function PlanIssue(rt: Runtime, body: Option<Json>, generated: Option<string>): (plan: IssuePlan)
    ensures Http.BodyField(body, "email").Threw? ==> plan == Answer(InternalError)
    ensures Http.BodyField(body, "email").Returned? && !TruthyField(Http.BodyField(body, "email").value) ==>
      plan == Answer(Http.Error(400, "Falta email"))
    ensures Http.BodyField(body, "email").Returned? && TruthyField(Http.BodyField(body, "email").value) && (generated.None? || generated.value == "") ==>
      plan == Answer(Http.Error(500, "No se pudo generar el enlace"))
    ensures plan.StoreToken? <==>
      Http.BodyField(body, "email").Returned? && TruthyField(Http.BodyField(body, "email").value)
      && generated.Some? && generated.value != ""
      && rt.parseUrl(generated.value).Some? && "token" in rt.parseUrl(generated.value).value.params
      && rt.parseUrl(generated.value).value.params["token"] != ""
    ensures plan.StoreToken? ==>
      (plan.link == generated.value
       && plan.token == rt.parseUrl(generated.value).value.params["token"]
       && plan.email == RenderValue(Http.BodyField(body, "email").value.value))
  {
    match Http.BodyField(body, "email")
    case Threw => Answer(InternalError)
    case Returned(email) =>
      if !TruthyField(email) then Answer(Http.Error(400, "Falta email"))
      else if generated.None? || generated.value == "" then Answer(Http.Error(500, "No se pudo generar el enlace"))
      else match rt.parseUrl(generated.value)
        case None => Answer(InternalError)
        case Some(url) =>
          if "token" !in url.params || url.params["token"] == "" then
            Answer(Http.Error(500, "Token no encontrado en el enlace"))
          else StoreToken(url.params["token"], RenderValue(email.value), generated.value)
  }

  /** `send-password-recovery-link`: store the token row, then mail the link. */
  method Issue(rt: Runtime, req: Http.Request<Json>, generated: Option<string>, now: int,
               tokens: Store.Table<TokenRow>, mailer: Store.Outbox<RecoveryMail>)
    returns (resp: Http.Response)
    requires tokens.Valid()
    modifies tokens, mailer
    ensures tokens.Valid()
    ensures req.verb == "OPTIONS" ==>
      resp == Http.PreflightOk && tokens.rows == old(tokens.rows) && mailer.sent == old(mailer.sent)
    ensures req.verb != "OPTIONS" && PlanIssue(rt, req.body, generated).Answer? ==>
      resp == PlanIssue(rt, req.body, generated).resp
      && tokens.rows == old(tokens.rows) && mailer.sent == old(mailer.sent)
    ensures req.verb != "OPTIONS" && PlanIssue(rt, req.body, generated).StoreToken? ==>
      var plan := PlanIssue(rt, req.body, generated);
      (resp == Http.Error(500, "No se pudo guardar el token")
        && tokens.rows == old(tokens.rows) && mailer.sent == old(mailer.sent))
      || (tokens.rows == old(tokens.rows)[old(tokens.next) := IssuedRow(plan.token, plan.email, now)]
        && ((resp == Http.Success(200, true) && mailer.sent == old(mailer.sent) + [RecoveryMail(plan.email, plan.link)])
          || (resp == InternalError && mailer.sent == old(mailer.sent))))
  {
    if req.verb == "OPTIONS" {
      return Http.PreflightOk;
    }
    var plan := PlanIssue(rt, req.body, generated);
    if plan.Answer? {
      return plan.resp;
    }
    var inserted, _ := tokens.Insert(IssuedRow(plan.token, plan.email, now));
    if !inserted {
      return Http.Error(500, "No se pudo guardar el token");
    }
    var delivered := mailer.Send(RecoveryMail(plan.email, plan.link));
    resp := if delivered then Http.Success(200, true) else InternalError;
  }

  // ---------------------------------------------------------------------------
  // verify-reset-token

  /** The token a verification request names: a non-empty string, else the request is refused. */
  function VerifyKey(body: Option<Json>): (r: Attempt<Option<string>>)
    ensures r.Threw? <==> Http.BodyField(body, "token").Threw?
    ensures r.Returned? && r.value.Some? <==>
      Http.BodyField(body, "token").Returned? && Http.BodyField(body, "token").value.Some?
      && Http.BodyField(body, "token").value.value.JStr? && Http.BodyField(body, "token").value.value.s != ""
    ensures r.Returned? && r.value.Some? ==> Http.BodyField(body, "token").value == Some(JStr(r.value.value))
  {
    match Http.BodyField(body, "token")
    case Threw => Threw
    case Returned(token) =>
      if token.Some? && token.value.JStr? && token.value.s != "" then Returned(Some(token.value.s))
      else Returned(None)
  }

  /** The answer for a looked-up token. */
  function VerifyReply(state: TokenState): (resp: Http.Response)
    ensures Http.Status(resp) == 200 <==> state.Live?
    ensures state.Live? ==> resp == Http.JsonReply(200, map["valid" := JBool(true), "email" := JStr(state.row.email)])
  {
    match state
    case Unknown => Http.Error(400, "Token no encontrado")
    case Spent => Http.Error(400, "Este enlace ya fue usado")
    case Expired => Http.Error(400, "El enlace ha caducado")
    case Live(row) => Http.JsonReply(200, map["valid" := JBool(true), "email" := JStr(row.email)])
  }

  /** The looked-up token is `rows[k]`, the only row with that token. */
  predicate FoundAt(rows: map<int, TokenRow>, key: string, k: int) {
    Store.IsOnlyMatch(rows, HasToken(key), k)
  }

  /** `verify-reset-token`: it only reads.  A valid answer names the e-mail of the one
      unused, unexpired row with that token. */
  method Verify(req: Http.Request<Json>, tokens: Store.Table<TokenRow>, now: int) returns (resp: Http.Response)
    requires tokens.Valid()
    ensures req.verb == "OPTIONS" ==> resp == Http.PreflightOk
    ensures req.verb != "OPTIONS" && VerifyKey(req.body).Threw? ==> resp == InternalError
    ensures req.verb != "OPTIONS" && VerifyKey(req.body) == Returned(None) ==> resp == Http.Error(400, "Token inválido")
    ensures req.verb != "OPTIONS" && VerifyKey(req.body).Returned? && VerifyKey(req.body).value.Some? ==>
      var key := VerifyKey(req.body).value.value;
      resp == VerifyReply(Unknown)
      || exists k :: FoundAt(tokens.rows, key, k) && resp == VerifyReply(StateOf(Some(tokens.rows[k]), now))
    ensures req.verb != "OPTIONS" && Http.Status(resp) == 200 ==>
      exists k :: k in tokens.rows && !tokens.rows[k].used && now <= tokens.rows[k].expiresAt
        && resp == Http.JsonReply(200, map["valid" := JBool(true), "email" := JStr(tokens.rows[k].email)])
  {
    if req.verb == "OPTIONS" {
      return Http.PreflightOk;
    }
    var key := VerifyKey(req.body);
    if key.Threw? {
      return InternalError;
    }
    if key.value.None? {
      return Http.Error(400, "Token inválido");
    }
    var found := tokens.Single(HasToken(key.value.value));
    if found.None? {
      return VerifyReply(Unknown);
    }
    var k := found.value.0;
    assert FoundAt(tokens.rows, key.value.value, k);
    resp := VerifyReply(StateOf(Some(found.value.1), now));
  }

  // ---------------------------------------------------------------------------
  // reset-password-from-token

  /** The token (as the text the lookup compares) and the new password of a redemption. */
  datatype ResetArgs = ResetArgs(key: string, password: string)

  /** `newPassword.length`: defined for texts (in UTF-16 code units) and arrays only. */
  function Length(v: Json): Option<int> {
    match v
    case JStr(s) => Some(Text.Utf16Length(s))
    case JArr(items) => Some(|items|)
    case _ => None
  }

  /** `!token || !newPassword || newPassword.length < 6` refuses the request (`None`). */
  function ResetArgsOf(body: Option<Json>): (r: Attempt<Option<ResetArgs>>)
    ensures r.Threw? <==> body.None? || body.value.JNull?
    ensures r.Returned? && r.value.Some? ==>
      TruthyField(Get(body, "token")) && TruthyField(Get(body, "newPassword"))
      && r.value.value == ResetArgs(RenderValue(Get(body, "token").value), RenderValue(Get(body, "newPassword").value))
    ensures r.Returned? && r.value.Some? && Get(body, "newPassword").value.JStr? ==>
      Text.Utf16Length(r.value.value.password) >= 6
    ensures (r.Returned? && TruthyField(Get(body, "token")) && Get(body, "newPassword").Some?
             && Get(body, "newPassword").value.JStr?
             && Text.Utf16Length(Get(body, "newPassword").value.s) >= 6) ==>
      r.value.Some?
  {
    match Http.BodyField(body, "token")
    case Threw => Threw
    case Returned(token) =>
      var password := Get(body, "newPassword");
      if !TruthyField(token) || !TruthyField(password)
        || (Length(password.value).Some? && Length(password.value).value < 6)
      then Returned(None)
      else Returned(Some(ResetArgs(RenderValue(token.value), RenderValue(password.value))))
  }

  /** The answer to a looked-up token that cannot be redeemed. */
  function ResetRefusal(state: TokenState): Http.Response
    requires !state.Live?
  {
    match state
    case Unknown => Http.Error(400, "Token inválido")
    case Spent => Http.Error(400, "Token ya usado")
    case Expired => Http.Error(400, "Token expirado")
  }

  /** The first directory user with the token's e-mail. */
  function Owner(users: seq<Store.AuthUser>, email: string): (i: int)
    ensures -1 <= i < |users|
    ensures i >= 0 ==> users[i].email == email && forall j :: 0 <= j < i ==> users[j].email != email
    ensures i == -1 <==> forall j :: 0 <= j < |users| ==> users[j].email != email
  {
    Seqs.FindIndex(users, (u: Store.AuthUser) => u.email == email)
  }

  /** A successful redemption: the only row with the token was live, and exactly its owner's
      password changed. */
  ghost predicate Redeemed(rows: map<int, TokenRow>, before: seq<Store.AuthUser>, after: seq<Store.AuthUser>,
                     args: ResetArgs, now: int)
  {
    exists k :: FoundAt(rows, args.key, k) && StateOf(Some(rows[k]), now).Live?
      && Owner(before, rows[k].email) >= 0
      && after == Store.WithPassword(before, before[Owner(before, rows[k].email)].id, args.password)
  }

  /** Every row with the token is already used. */
  predicate AllSpent(rows: map<int, TokenRow>, key: string) {
    forall k :: k in rows && rows[k].token == key ==> rows[k].used
  }

  const UnexpectedError: Http.Response := Http.Error(500, "Error inesperado")
  const BadData: Http.Response := Http.Error(400, "Datos inválidos")

  /** What the checks before the user lookup decide: a reply, or the arguments and the key of
      the only row with the token, which is live. */
  datatype Checked = Reply(resp: Http.Response) | Proceed(args: ResetArgs, k: int)

  /** `reset-password-from-token` up to the token's expiry check: the preflight, the body, the
      lookup of the token and its state.  It only reads. */
  method CheckRequest(req: Http.Request<Json>, tokens: Store.Table<TokenRow>, now: int) returns (c: Checked)
    requires tokens.Valid()
    ensures req.verb == "OPTIONS" ==> c == Reply(Http.PreflightOk)
    ensures req.verb != "OPTIONS" && ResetArgsOf(req.body).Threw? ==> c == Reply(UnexpectedError)
    ensures req.verb != "OPTIONS" && ResetArgsOf(req.body) == Returned(None) ==> c == Reply(BadData)
    ensures req.verb != "OPTIONS" && ResetArgsOf(req.body).Returned? && ResetArgsOf(req.body).value.Some? && c.Reply? ==>
      Http.Status(c.resp) == 400
    ensures c.Proceed? ==>
      req.verb != "OPTIONS" && ResetArgsOf(req.body) == Returned(Some(c.args))
      && FoundAt(tokens.rows, c.args.key, c.k) && StateOf(Some(tokens.rows[c.k]), now).Live?
    ensures c.Proceed? ==> !AllSpent(tokens.rows, c.args.key)
  {
    if req.verb == "OPTIONS" {
      c := Reply(Http.PreflightOk);
    } else {
      var parsed := ResetArgsOf(req.body);
      if parsed.Threw? {
        c := Reply(UnexpectedError);
      } else if parsed.value.None? {
        c := Reply(BadData);
      } else {
        var args := parsed.value.value;
        var found := tokens.Single(HasToken(args.key));
        if found.None? {
          c := Reply(ResetRefusal(Unknown));
        } else {
          var state := StateOf(Some(found.value.1), now);
          if state.Live? {
            assert FoundAt(tokens.rows, args.key, found.value.0);
            c := Proceed(args, found.value.0);
          } else {
            c := Reply(ResetRefusal(state));
          }
        }
      }
    }
  }

  /** The value the owner lookup calls `.find` on: the listing's page object, or its array
      of users. */
  datatype Listed = PageObject(page: Store.UserPage) | UserArray(users: seq<Store.AuthUser>)

  /** `listed.find(u => u.email === email)`: the index of the first match on an array; an
      object has no `find` method, so calling it throws a TypeError. */
  function FindUser(listed: Listed, email: string): (r: Attempt<int>)
    ensures r.Threw? <==> listed.PageObject?
    ensures listed.UserArray? ==> r == Returned(Owner(listed.users, email))
  {
    match listed
    case PageObject(_) => Threw
    case UserArray(users) => Returned(Owner(users, email))
  }

  /** The page a user listing gives has no `find` of its own: looking the owner up in it
      throws, where the same lookup in its `users` array finds the owner. */
  lemma PageHasNoFind(email: string)
    ensures var page := Store.UserPage([Store.AuthUser(1, email, "")]);
      FindUser(PageObject(page), email).Threw?
      && FindUser(UserArray(page.users), email) == Returned(0)
  {
  }

  /** The rest of `reset-password-from-token`: the owner lookup in what the listing gave, the
      password update, and the unchecked marking of the token. */
  method Redeem(listed: Listed, args: ResetArgs, email: string, tokens: Store.Table<TokenRow>,
                auth: Store.AuthDirectory)
    returns (resp: Http.Response)
    requires tokens.Valid()
    modifies tokens, auth
    ensures tokens.Valid()
    ensures listed.PageObject? ==> resp == UnexpectedError
    ensures listed.UserArray? && Owner(listed.users, email) < 0 ==> resp == Http.Error(404, "Usuario no encontrado")
    ensures resp == Http.Success(200, true) ==>
      listed.UserArray? && Owner(listed.users, email) >= 0
      && auth.users == Store.WithPassword(old(auth.users), listed.users[Owner(listed.users, email)].id, args.password)
      && (tokens.rows == old(tokens.rows) || tokens.rows == MarkUsed(old(tokens.rows), args.key))
    ensures resp != Http.Success(200, true) ==> tokens.rows == old(tokens.rows) && auth.users == old(auth.users)
  {
    var found := FindUser(listed, email);
    if found.Threw? {
      resp := UnexpectedError;
    } else if found.value < 0 {
      resp := Http.Error(404, "Usuario no encontrado");
    } else {
      var updated := auth.UpdatePassword(listed.users[found.value].id, args.password);
      if updated {
        var _ := tokens.UpdateWhere(HasToken(args.key), (t: TokenRow) => t.(used := true));
        resp := Http.Success(200, true);
      } else {
        resp := Http.Error(500, "No se pudo actualizar la contraseña");
      }
    }
  }

  /** `reset-password-from-token` as written: it calls `find` on the listing's `data`, which is
      the page object, so once the token passed its checks the call throws and the function
      answers 500.  No request ever redeems a token or changes a password. */
  method ResetAsWritten(req: Http.Request<Json>, tokens: Store.Table<TokenRow>, auth: Store.AuthDirectory, now: int)
    returns (resp: Http.Response)
    requires tokens.Valid()
    modifies tokens, auth
    ensures tokens.Valid()
    ensures resp != Http.Success(200, true)
    ensures tokens.rows == old(tokens.rows) && auth.users == old(auth.users)
    ensures req.verb != "OPTIONS" && ResetArgsOf(req.body).Returned? && ResetArgsOf(req.body).value.Some? ==>
      Http.Status(resp) == 400 || resp == UnexpectedError
  {
    var c := CheckRequest(req, tokens, now);
    if c.Reply? {
      resp := c.resp;
    } else {
      var data, _ := auth.List();
      resp := Redeem(PageObject(data), c.args, tokens.rows[c.k].email, tokens, auth);
    }
  }

  /** `reset-password-from-token` with the owner looked up in the listing's `users` array.  The
      token row is marked used only after the password changed, and its marking is not
      checked; any other outcome leaves the token unused. */
  method Reset(req: Http.Request<Json>, tokens: Store.Table<TokenRow>, auth: Store.AuthDirectory, now: int)
    returns (resp: Http.Response)
    requires tokens.Valid()
    modifies tokens, auth
    ensures tokens.Valid()
    ensures req.verb == "OPTIONS" ==>
      resp == Http.PreflightOk && tokens.rows == old(tokens.rows) && auth.users == old(auth.users)
    ensures req.verb != "OPTIONS" && ResetArgsOf(req.body).Threw? ==>
      resp == UnexpectedError && tokens.rows == old(tokens.rows) && auth.users == old(auth.users)
    ensures req.verb != "OPTIONS" && ResetArgsOf(req.body) == Returned(None) ==>
      resp == BadData && tokens.rows == old(tokens.rows) && auth.users == old(auth.users)
    ensures resp != Http.Success(200, true) ==> tokens.rows == old(tokens.rows)
    ensures req.verb != "OPTIONS" && ResetArgsOf(req.body).Returned? && ResetArgsOf(req.body).value.Some? ==>
      var args := ResetArgsOf(req.body).value.value;
      (resp == Http.Success(200, true)
        && Redeemed(old(tokens.rows), old(auth.users), auth.users, args, now)
        && (tokens.rows == old(tokens.rows) || tokens.rows == MarkUsed(old(tokens.rows), args.key)))
      || (resp != Http.Success(200, true) && auth.users == old(auth.users))
    ensures (req.verb != "OPTIONS" && ResetArgsOf(req.body).Returned? && ResetArgsOf(req.body).value.Some?
             && AllSpent(old(tokens.rows), ResetArgsOf(req.body).value.value.key)) ==>
      Http.Status(resp) == 400 && auth.users == old(auth.users)
  {
    var c := CheckRequest(req, tokens, now);
    if c.Reply? {
      resp := c.resp;
    } else {
      var data, _ := auth.List();
      var email := tokens.rows[c.k].email;
      resp := Redeem(UserArray(data.users), c.args, email, tokens, auth);
      if resp == Http.Success(200, true) {
        assert data.users == old(auth.users);
        assert FoundAt(old(tokens.rows), c.args.key, c.k) && StateOf(Some(old(tokens.rows)[c.k]), now).Live?;
      }
    }
  }
}
