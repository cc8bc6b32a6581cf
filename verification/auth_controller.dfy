/** The sign-in handlers (src/controller/auth.controller.js): the session token, e-mail
    sign-up and login, the find-or-create callbacks of HubSpot and Zoho, and the LinkedIn
    and Slack callbacks that attach provider ids and tokens to an existing account. The
    provider exchanges are inputs: each handler receives what the provider's replies
    carry, or None when one of those requests failed. */
module AuthController {
  import opened Prelude
  import opened Accounts
  import opened UserModel

  /** "7d", in seconds. */
  const TokenLifetime: nat := 7 * 24 * 60 * 60

  /** The signed payload of a session token. */
  datatype Claims = Claims(id: UserId, email: Option<string>, role: string)

  /** A session token: its payload and its lifetime. The signature is not modelled. */
  datatype Token = Token(claims: Claims, expiresIn: nat)

  /** generateToken: the account's id, email and role name, valid for seven days. */
  function GenerateToken(s: Stored): (t: Token)
    ensures t.claims.id == s.id && t.claims.email == s.doc.email
    ensures ParseRole(t.claims.role) == Some(s.doc.role)
    ensures t.expiresIn == 604800
  {
    RoleNameParses(s.doc.role);
    Token(Claims(s.id, s.doc.email, RoleName(s.doc.role)), TokenLifetime)
  }

  /** The `{ user, token }` body of a successful sign-in. */
  datatype SignedIn = SignedIn(user: Stored, token: Token)

  function SignIn(s: Stored): SignedIn {
    SignedIn(s, GenerateToken(s))
  }

  const InvalidCredentials: string := "Invalid email or password"

  /** What bcrypt's compare throws when the stored password is `undefined`. */
  const CompareFailure: string := "Illegal arguments: string, undefined"

  /** emailLogin: both fields are required; an unknown e-mail and a wrong password give
      the same 400 reply; an account without a password makes the comparison throw. */
  function Login(docs: seq<Stored>, email: Option<string>, password: Option<string>): Reply<SignedIn> {
    if !Truthy(email) || !Truthy(password) then Err(400, "Email & password required")
    else match FindFirst(docs, Email, email)
      case None => Err(400, InvalidCredentials)
      case Some(k) =>
        match docs[k].doc.password
        case None => Err(500, CompareFailure)
        case Some(stored) =>
          if !Compare(password.value, stored) then Err(400, InvalidCredentials)
          else Ok(200, SignIn(docs[k]))
  }

  /** Both fields are required; a login that succeeds signs in a stored account holding
      the e-mail whose hash accepts the password. */
  lemma LoginOutcomes(docs: seq<Stored>, email: Option<string>, password: Option<string>)
    ensures !Truthy(email) || !Truthy(password) ==>
      Login(docs, email, password) == Err(400, "Email & password required")
    ensures var r := Login(docs, email, password);
      r.Ok? ==>
        && r.status == 200 && r.value.user in docs && r.value.user.doc.email == email
        && r.value.user.doc.password.Some? && Compare(password.value, r.value.user.doc.password.value)
        && r.value == SignIn(r.value.user)
  {
  }

  /** A failed login does not tell an unknown e-mail from a wrong password: both give
      the identical reply. */
  lemma LoginFailuresLookAlike(docs: seq<Stored>, e: string, p: string, i: nat)
    requires e != "" && p != ""
    requires FindFirst(docs, Email, Some(e)).None? ||
             (FindFirst(docs, Email, Some(e)) == Some(i) && i < |docs|
              && docs[i].doc.password.Some? && !Compare(p, docs[i].doc.password.value))
    ensures Login(docs, Some(e), Some(p)) == Err(400, InvalidCredentials)
  {
  }

  /** With the unique e-mail index, login succeeds for the account holding the e-mail
      exactly when its stored hash accepts the password. */
  lemma LoginAcceptsExactlyTheOwner(docs: seq<Stored>, i: nat, p: string)
    requires Unique(IndexKeys(docs)) && i < |docs|
    requires docs[i].doc.email.Some? && docs[i].doc.email.value != "" && p != ""
    requires docs[i].doc.password.Some?
    ensures Login(docs, docs[i].doc.email, Some(p)).Ok? <==> Compare(p, docs[i].doc.password.value)
    ensures Compare(p, docs[i].doc.password.value) ==>
      Login(docs, docs[i].doc.email, Some(p)) == Ok(200, SignIn(docs[i]))
  {
    FindFirstIsTheOnlyMatch(docs, Email, docs[i].doc.email.value, i);
  }

  /** emailSignUp: both fields are required and the e-mail must be unregistered; nothing
      is created otherwise. An unknown role fails validation (500). The account is saved
      with the hash of its password and can log in with that password at once. */
  method EmailSignUp(users: UserCollection, email: Option<string>, password: Option<string>,
                     name: Option<string>, role: Option<string>, salt: nat)
    returns (r: Reply<SignedIn>)
    requires users.Valid()
    modifies users
    ensures users.Valid()
    ensures !Truthy(email) || !Truthy(password) ==>
      r == Err(400, "Email & password required") && users.docs == old(users.docs)
    ensures Truthy(email) && Truthy(password) && FindFirst(old(users.docs), Email, email).Some? ==>
      r == Err(400, "Email already exists") && users.docs == old(users.docs)
    ensures Truthy(email) && Truthy(password) && FindFirst(old(users.docs), Email, email).None?
            && RoleOnCreate(role).None? ==>
      r.Status() == 500 && users.docs == old(users.docs)
    ensures Truthy(email) && Truthy(password) && FindFirst(old(users.docs), Email, email).None?
            && RoleOnCreate(role).Some? ==>
      var s := Stored(old(users.nextId),
                      NewUser(email, name, Some(Hashed(Plain(password.value), salt)), RoleOnCreate(role).value));
      r == Ok(201, SignIn(s)) && users.docs == old(users.docs) + [s]
    ensures r.Ok? ==> Login(users.docs, email, password) == Ok(200, r.value)
  {
    if !Truthy(email) || !Truthy(password) {
      return Err(400, "Email & password required");
    }
    if FindFirst(users.docs, Email, email).Some? {
      return Err(400, "Email already exists");
    }
    var parsed := RoleOnCreate(role);
    if parsed.None? {
      return Err(500, "User validation failed: role is not a valid enum value");
    }
    ghost var before := users.docs;
    var created := users.Create(NewUser(email, name, Some(Plain(password.value)), parsed.value), salt);
    assert created.Some?;
    FindFirstAppend(before, created.value, Email, email);
    r := Ok(201, SignIn(created.value));
  }

  /** What the HubSpot exchange yields: the account's user id and its owner e-mail. */
  datatype HubspotIdentity = HubspotIdentity(userId: Option<string>, email: Option<string>)

  /** The account a HubSpot sign-in creates: hubspotId and email only. */
  function HubspotUser(i: HubspotIdentity): (u: UserDoc)
    ensures KeysOf(u) == Keys(i.email, i.userId, None, None)
    ensures u.password.None? && u.role == Salesperson
    ensures forall path :: UserField(u, path) ==
                            if path == "hubspotId" then i.userId else if path == "email" then i.email else None
  {
    NewUser(i.email, None, None, Salesperson).(hubspotId := i.userId)
  }

  /** hubspotcallback: the account with this hubspotId is returned unchanged; only when
      there is none is one created with hubspotId and email, which the indexes refuse when
      another account already holds that e-mail. A successful call leaves the returned
      account findable by its hubspotId, so a repeated call finds it and creates
      nothing. */
  method HubspotCallback(users: UserCollection, identity: Option<HubspotIdentity>, salt: nat)
    returns (r: Reply<SignedIn>)
    requires users.Valid()
    modifies users
    ensures users.Valid()
    ensures identity.None? ==> r.Status() == 500 && users.docs == old(users.docs)
    ensures identity.Some? ==>
      var k := FindFirst(old(users.docs), HubspotId, identity.value.userId);
      && (k.Some? ==> r == Ok(200, SignIn(old(users.docs)[k.value])) && users.docs == old(users.docs))
      && (k.None? && Admits(old(users.docs), HubspotUser(identity.value), -1) ==>
            var s := Stored(old(users.nextId), HubspotUser(identity.value));
            r == Ok(200, SignIn(s)) && users.docs == old(users.docs) + [s])
      && (k.None? && !Admits(old(users.docs), HubspotUser(identity.value), -1) ==>
            r.Status() == 500 && users.docs == old(users.docs))
    ensures r.Ok? ==>
      && identity.Some?
      && var k := FindFirst(users.docs, HubspotId, identity.value.userId);
         k.Some? && users.docs[k.value] == r.value.user
  {
    if identity.None? {
      return Err(500, "Request failed");
    }
    var k := FindFirst(users.docs, HubspotId, identity.value.userId);
    if k.Some? {
      return Ok(200, SignIn(users.docs[k.value]));
    }
    ghost var before := users.docs;
    var created := users.Create(HubspotUser(identity.value), salt);
    if created.None? {
      return Err(500, "E11000 duplicate key error");
    }
    FindFirstAppend(before, created.value, HubspotId, identity.value.userId);
    r := Ok(200, SignIn(created.value));
  }

  /** The account a Zoho sign-in creates: zohoId only. */
  function ZohoUser(id: string): (u: UserDoc)
    ensures KeysOf(u) == Keys(None, None, Some(id), None)
    ensures u.password.None? && u.role == Salesperson
    ensures forall path :: UserField(u, path) == if path == "zohoId" then Some(id) else None
  {
    NewUser(None, None, None, Salesperson).(zohoId := Some(id))
  }

  /** zohoCallback: keyed on the id of the first user the Zoho API lists (no user listed
      makes the handler throw); the account with that zohoId is returned unchanged, or one
      holding only that zohoId is created. A repeated call finds the same account. */
  method ZohoCallback(users: UserCollection, ids: Option<seq<string>>, salt: nat)
    returns (r: Reply<SignedIn>)
    requires users.Valid()
    modifies users
    ensures users.Valid()
    ensures ids.None? || ids.value == [] ==> r.Status() == 500 && users.docs == old(users.docs)
    ensures ids.Some? && ids.value != [] ==>
      var k := FindFirst(old(users.docs), ZohoId, Some(ids.value[0]));
      && (k.Some? ==> r == Ok(200, SignIn(old(users.docs)[k.value])) && users.docs == old(users.docs))
      && (k.None? ==>
            var s := Stored(old(users.nextId), ZohoUser(ids.value[0]));
            r == Ok(200, SignIn(s)) && users.docs == old(users.docs) + [s])
    ensures r.Ok? ==>
      && ids.Some? && ids.value != []
      && var k := FindFirst(users.docs, ZohoId, Some(ids.value[0]));
         k.Some? && users.docs[k.value] == r.value.user
  {
    if ids.None? {
      return Err(500, "Request failed");
    }
    if |ids.value| == 0 {
      return Err(500, "Cannot read properties of undefined (reading 'id')");
    }
    var id := Some(ids.value[0]);
    var k := FindFirst(users.docs, ZohoId, id);
    if k.Some? {
      return Ok(200, SignIn(users.docs[k.value]));
    }
    ghost var before := users.docs;
    var created := users.Create(ZohoUser(ids.value[0]), salt);
    assert created.Some?;
    FindFirstAppend(before, created.value, ZohoId, id);
    r := Ok(200, SignIn(created.value));
  }

  /** What the LinkedIn exchange yields: the access and refresh tokens and the member id
      (`sub` of the userinfo reply). */
  datatype LinkedinGrant = LinkedinGrant(accessToken: Option<string>, refreshToken: Option<string>,
                                         sub: Option<string>)

  /** The account with the LinkedIn grant attached: exactly linkedinId, linkedinToken
      and linkedinRefreshToken are overwritten. */
  function WithLinkedin(u: UserDoc, g: LinkedinGrant): (v: UserDoc)
    ensures v.linkedinId == g.sub && v.linkedinToken == g.accessToken
    ensures v.linkedinRefreshToken == g.refreshToken
    ensures v.(linkedinId := u.linkedinId, linkedinToken := u.linkedinToken,
               linkedinRefreshToken := u.linkedinRefreshToken) == u
  {
    u.(linkedinId := g.sub, linkedinToken := g.accessToken, linkedinRefreshToken := g.refreshToken)
  }

  /** linkedinCallback. `session` is the account the request was authenticated as,
      loaded when the request arrived (absent when there is none). A failed exchange
      answers 500 before the session is looked at; without a session it answers 401.
      Otherwise the three fields are written to that account as it is stored now; the
      save fails (500) when the account is gone or the linkedinId index refuses it. The
      reply carries the account without its password. */
  method LinkedinCallback(users: UserCollection, session: Option<Stored>,
                          grant: Option<LinkedinGrant>, salt: nat)
    returns (r: Reply<UserDoc>)
    requires users.Valid()
    modifies users
    ensures users.Valid()
    ensures grant.None? ==> r == Err(500, "LinkedIn auth failed") && users.docs == old(users.docs)
    ensures grant.Some? && session.None? ==> r == Err(401, "No logged-in user") && users.docs == old(users.docs)
    ensures grant.Some? && session.Some? && FindById(old(users.docs), session.value.id).None? ==>
      r == Err(500, "LinkedIn auth failed") && users.docs == old(users.docs)
    ensures grant.Some? && session.Some? && FindById(old(users.docs), session.value.id).Some? ==>
      var k := FindById(old(users.docs), session.value.id).value;
      var v := WithLinkedin(old(users.docs)[k].doc, grant.value);
      && (Admits(old(users.docs), v, k) ==>
            r == Ok(200, v.(password := None)) && users.docs == old(users.docs)[k := Stored(session.value.id, v)])
      && (!Admits(old(users.docs), v, k) ==>
            r == Err(500, "LinkedIn auth failed") && users.docs == old(users.docs))
  {
    if grant.None? {
      return Err(500, "LinkedIn auth failed");
    }
    if session.None? {
      return Err(401, "No logged-in user");
    }
    var k := FindById(users.docs, session.value.id);
    if k.None? {
      return Err(500, "LinkedIn auth failed");
    }
    var v := WithLinkedin(users.docs[k.value].doc, grant.value);
    var ok := users.Save(session.value.id, v, salt);
    if !ok {
      return Err(500, "LinkedIn auth failed");
    }
    r := Ok(200, v.(password := None));
  }

  datatype SlackAuthedUser = SlackAuthedUser(id: Option<string>, accessToken: Option<string>)

  /** What the Slack exchange yields: its `authed_user`, if the reply has one. */
  datatype SlackGrant = SlackGrant(authedUser: Option<SlackAuthedUser>)

  /** The account with the Slack identity attached: exactly slackId and slackAccessToken
      are overwritten. */
  function WithSlack(u: UserDoc, a: SlackAuthedUser): (v: UserDoc)
    ensures v.slackId == a.id && v.slackAccessToken == a.accessToken
    ensures v.(slackId := u.slackId, slackAccessToken := u.slackAccessToken) == u
    ensures KeysOf(v) == KeysOf(u)
  {
    u.(slackId := a.id, slackAccessToken := a.accessToken)
  }

  /** slackCallback. `session` is the account the request was authenticated as, loaded
      when the request arrived. 400 without a code; 500 when the exchange fails; 400
      without `authed_user`; 500 without a session (reading its e-mail throws); 404 when
      no stored account has the session's e-mail. Otherwise the first account with that
      e-mail gets the Slack id and token, which the indexes never refuse since slackId is
      not indexed. A session without an e-mail matches the first account lacking one. */
  method SlackCallback(users: UserCollection, code: Option<string>, grant: Option<SlackGrant>,
                       session: Option<Stored>, salt: nat)
    returns (r: Reply<string>)
    requires users.Valid()
    modifies users
    ensures users.Valid()
    ensures !Truthy(code) ==> r == Err(400, "No code provided") && users.docs == old(users.docs)
    ensures Truthy(code) && grant.None? ==> r == Err(500, "Slack auth error") && users.docs == old(users.docs)
    ensures Truthy(code) && grant.Some? && grant.value.authedUser.None? ==>
      r == Err(400, "Slack auth failed") && users.docs == old(users.docs)
    ensures Truthy(code) && grant.Some? && grant.value.authedUser.Some? && session.None? ==>
      r == Err(500, "Slack auth error") && users.docs == old(users.docs)
    ensures Truthy(code) && grant.Some? && grant.value.authedUser.Some? && session.Some? ==>
      var k := FindFirst(old(users.docs), Email, session.value.doc.email);
      && (k.None? ==> r == Err(404, "User not found") && users.docs == old(users.docs))
      && (k.Some? ==>
            && r == Ok(200, "Slack account connected successfully!")
            && users.docs == old(users.docs)[k.value := Stored(old(users.docs)[k.value].id,
                                                               WithSlack(old(users.docs)[k.value].doc, grant.value.authedUser.value))])
  {
    if !Truthy(code) {
      return Err(400, "No code provided");
    }
    if grant.None? {
      return Err(500, "Slack auth error");
    }
    if grant.value.authedUser.None? {
      return Err(400, "Slack auth failed");
    }
    if session.None? {
      return Err(500, "Slack auth error");
    }
    var k := FindFirst(users.docs, Email, session.value.doc.email);
    if k.None? {
      return Err(404, "User not found");
    }
    var target := users.docs[k.value];
    var v := WithSlack(target.doc, grant.value.authedUser.value);
    SameKeysAdmitted(users.docs, k.value, v);
    DistinctIdsFind(users.docs, k.value);
    var ok := users.Save(target.id, v, salt);
    assert ok;
    r := Ok(200, "Slack account connected successfully!");
  }
}
