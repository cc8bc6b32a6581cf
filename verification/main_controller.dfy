/** The account-administration and sharing handlers (src/controller/main.controller.js):
    shareOnLinkedIn's payload and share-add, editUserRole, deleteUser and inviteUser. */
module MainController {
  import opened Prelude
  import opened Accounts
  import opened UserModel
  import opened PostModel
  import opened PostController
  import opened AuthController

  // ---------------------------------------------------------------------------------
  // shareOnLinkedIn

  /** The picture entry of a share. */
  datatype PictureEntry = PictureEntry(status: string, description: string, originalUrl: string, title: string)

  /** The ugcPosts payload shareOnLinkedIn sends. */
  datatype SharePayload = SharePayload(author: string, lifecycleState: string, visibility: string,
                                       text: string, category: ShareCategory, media: seq<PictureEntry>)

  /** The payload for a post's title, content, url and picture: the commentary joins
      title, content (printed as "undefined" when absent) and url (or nothing); a truthy
      picture makes it an IMAGE share with exactly one entry, otherwise a NONE share
      with no media. */
  function SharePayloadOf(title: string, content: Option<string>, url: Option<string>,
                          picture: Option<string>, personId: Option<string>): (p: SharePayload)
    ensures p.text == title + "\n\n" + Interpolate(content) + "\n" + OrElse(url, "")
    ensures p.author == PersonUrn(Interpolate(personId))
    ensures p.category == IMAGE <==> Truthy(picture)
    ensures p.category == NONE <==> !Truthy(picture)
    ensures |p.media| == 1 <==> Truthy(picture)
    ensures p.media == [] <==> !Truthy(picture)
    ensures Truthy(picture) ==> p.media[0].originalUrl == picture.value && p.media[0].title == title
  {
    var base := SharePayload(PersonUrn(Interpolate(personId)), "PUBLISHED", "PUBLIC",
                             title + "\n\n" + Interpolate(content) + "\n" + OrElse(url, ""),
                             if Truthy(picture) then IMAGE else NONE, []);
    if Truthy(picture) then base.(media := [PictureEntry("READY", title, picture.value, title)])
    else base
  }

  /** The payload for a stored post: `content` and `picture` are not Post paths, so they
      read as absent. */
  function StoredPostPayload(p: Post, personId: Option<string>): SharePayload {
    SharePayloadOf(p.title, PostField(p, "content"), p.url, PostField(p, "picture"), personId)
  }

  /** Every stored post is shared as a NONE share without media, and its commentary
      prints "undefined" where the content would go. */
  lemma StoredPostSharesTextOnly(p: Post, personId: Option<string>)
    ensures StoredPostPayload(p, personId).category == NONE
    ensures StoredPostPayload(p, personId).media == []
    ensures StoredPostPayload(p, personId).text == p.title + "\n\nundefined\n" + OrElse(p.url, "")
  {
    assert p.title + "\n\n" + "undefined" + "\n" + OrElse(p.url, "") == p.title + "\n\nundefined\n" + OrElse(p.url, "");
  }

  /** The LinkedIn connection a handler reads off an account: its token and its member
      id, read by path. No connection when the token path is not truthy. */
  datatype LinkedinConnection = LinkedinConnection(token: string, personId: Option<string>)

  function ReadConnection(u: UserDoc, tokenPath: string, idPath: string): (c: Option<LinkedinConnection>)
    ensures c.Some? <==> Truthy(UserField(u, tokenPath))
    ensures c.Some? ==> c.value.token == UserField(u, tokenPath).value && c.value.personId == UserField(u, idPath)
  {
    if Truthy(UserField(u, tokenPath)) then Some(LinkedinConnection(UserField(u, tokenPath).value, UserField(u, idPath)))
    else None
  }

  /** The paths shareOnLinkedIn reads, as written: they differ from the schema's
      linkedinToken and linkedinId in the case of one letter. */
  const TokenPathAsWritten: string := "linkedInToken"
  const IdPathAsWritten: string := "linkedInId"

  /** As written, no account is ever connected: the token path is not a User path, so
      every share of an existing post is refused with 400, whatever the account holds. */
  lemma AsWrittenNoAccountIsConnected(u: UserDoc)
    ensures ReadConnection(u, TokenPathAsWritten, IdPathAsWritten).None?
  {
  }

  /** The paths the schema declares. Read through them, an account is connected exactly
      when its stored LinkedIn token is truthy, and the share is authored by its stored
      member id. */
  function ShareConnection(u: UserDoc): (c: Option<LinkedinConnection>)
    ensures c.Some? <==> Truthy(u.linkedinToken)
    ensures c.Some? ==> c.value == LinkedinConnection(u.linkedinToken.value, u.linkedinId)
  {
    ReadConnection(u, "linkedinToken", "linkedinId")
  }

  /** shareOnLinkedIn: 404 for a missing post, 500 without an account, 400 when the
      account has no LinkedIn connection, all before anything is posted; 500 when
      LinkedIn refuses the share; otherwise the account is added to the post's shares if
      absent. The reply carries the payload that was posted. */
  method ShareOnLinkedIn(posts: PostCollection, postId: Option<PostId>, user: Option<Stored>, published: bool)
    returns (r: Reply<SharePayload>)
    requires posts.Valid()
    modifies posts
    ensures posts.Valid() && posts.nextId == old(posts.nextId)
    ensures postId.None? || postId.value !in old(posts.posts) ==>
      r == Err(404, "Post not found") && posts.posts == old(posts.posts)
    ensures postId.Some? && postId.value in old(posts.posts) && user.None? ==>
      r == Err(500, "Failed to share post on LinkedIn") && posts.posts == old(posts.posts)
    ensures postId.Some? && postId.value in old(posts.posts) && user.Some? && ShareConnection(user.value.doc).None? ==>
      r == Err(400, "LinkedIn not connected") && posts.posts == old(posts.posts)
    ensures postId.Some? && postId.value in old(posts.posts) && user.Some? && ShareConnection(user.value.doc).Some? ==>
      var p := old(posts.posts)[postId.value];
      && (!published ==> r == Err(500, "Failed to share post on LinkedIn") && posts.posts == old(posts.posts))
      && (published ==>
            && r == Ok(200, StoredPostPayload(p, ShareConnection(user.value.doc).value.personId))
            && posts.posts == old(posts.posts)[postId.value := EngagedBy(p, Share, user.value.id)])
  {
    if postId.None? || postId.value !in posts.posts {
      return Err(404, "Post not found");
    }
    var p := posts.posts[postId.value];
    if user.None? {
      return Err(500, "Failed to share post on LinkedIn");
    }
    var connection := ShareConnection(user.value.doc);
    if connection.None? {
      return Err(400, "LinkedIn not connected");
    }
    var payload := StoredPostPayload(p, connection.value.personId);
    if !published {
      return Err(500, "Failed to share post on LinkedIn");
    }
    if user.value.id !in p.shares {
      posts.Replace(postId.value, p.(shares := p.shares + [user.value.id]));
    } else {
      assert EngagedBy(p, Share, user.value.id) == p;
      assert old(posts.posts)[postId.value := p] == old(posts.posts);
    }
    r := Ok(200, payload);
  }

  // ---------------------------------------------------------------------------------
  // editUserRole and deleteUser

  /** editUserRole: an unknown id makes the handler throw (500); the role is validated as
      on creation (an absent role leaves the default); nothing but the role changes. */
  method EditUserRole(users: UserCollection, id: Option<UserId>, role: Option<string>, salt: nat)
    returns (r: Reply<Stored>)
    requires users.Valid()
    modifies users
    ensures users.Valid()
    ensures id.None? || FindById(old(users.docs), id.value).None? ==>
      r.Status() == 500 && users.docs == old(users.docs)
    ensures id.Some? && FindById(old(users.docs), id.value).Some? && RoleOnCreate(role).None? ==>
      r.Status() == 500 && users.docs == old(users.docs)
    ensures id.Some? && FindById(old(users.docs), id.value).Some? && RoleOnCreate(role).Some? ==>
      var k := FindById(old(users.docs), id.value).value;
      var s := Stored(id.value, old(users.docs)[k].doc.(role := RoleOnCreate(role).value));
      r == Ok(201, s) && users.docs == old(users.docs)[k := s]
  {
    var k := if id.Some? then FindById(users.docs, id.value) else None;
    if k.None? {
      return Err(500, "Cannot set properties of null (setting 'role')");
    }
    var parsed := RoleOnCreate(role);
    if parsed.None? {
      return Err(500, "Validation failed: role is not a valid enum value");
    }
    var s := Stored(id.value, users.docs[k.value].doc.(role := parsed.value));
    SameKeysAdmitted(users.docs, k.value, s.doc);
    var ok := users.Save(id.value, s.doc, salt);
    assert ok;
    r := Ok(201, s);
  }

  /** deleteUser: 400 without an id, 404 when no account has it, otherwise the removed
      account is returned. */
  method DeleteUser(users: UserCollection, id: Option<UserId>) returns (r: Reply<Stored>)
    requires users.Valid()
    modifies users
    ensures users.Valid()
    ensures id.None? ==> r == Err(400, "User ID is required") && users.docs == old(users.docs)
    ensures id.Some? && FindById(old(users.docs), id.value).None? ==>
      r == Err(404, "User not found") && users.docs == old(users.docs)
    ensures id.Some? && FindById(old(users.docs), id.value).Some? ==>
      var k := FindById(old(users.docs), id.value).value;
      && r == Ok(200, old(users.docs)[k])
      && users.docs == old(users.docs)[..k] + old(users.docs)[k + 1..]
    ensures id.Some? ==> forall i :: 0 <= i < |users.docs| ==> users.docs[i].id != id.value
  {
    if id.None? {
      return Err(400, "User ID is required");
    }
    var removed := users.Delete(id.value);
    if removed.None? {
      return Err(404, "User not found");
    }
    r := Ok(200, removed.value);
  }

  // ---------------------------------------------------------------------------------
  // inviteUser

  predicate IsHexDigit(c: char) {
    '0' <= c <= '9' || 'a' <= c <= 'f'
  }

  /** `crypto.randomBytes(6).toString("hex")`: twelve lower-case hex digits. */
  predicate GeneratedPassword(p: string) {
    |p| == 12 && forall i :: 0 <= i < |p| ==> IsHexDigit(p[i])
  }

  /** The account inviteUser creates as written: the handler hashes the generated
      password itself and hands the hash to User.create, whose pre-save hook hashes it a
      second time. */
  function InvitedAccountAsWritten(name: string, email: string, role: UserRole, plain: string,
                                   handlerSalt: nat, hookSalt: nat): (u: UserDoc)
    ensures u.password == Some(Hashed(Hashed(Plain(plain), handlerSalt), hookSalt))
  {
    PreSave(NewUser(Some(email), Some(name), Some(Hashed(Plain(plain), handlerSalt)), role), true, hookSalt).value
  }

  /** As written, the password e-mailed to an invited user never logs in: once the
      invited account is stored, login with that password is refused as a wrong
      password. */
  lemma AsWrittenInvitedPasswordNeverLogsIn(docs: seq<Stored>, i: nat, name: string, email: string,
                                            role: UserRole, plain: string, s1: nat, s2: nat)
    requires Unique(IndexKeys(docs)) && i < |docs| && email != "" && GeneratedPassword(plain)
    requires docs[i].doc == InvitedAccountAsWritten(name, email, role, plain, s1, s2)
    ensures Login(docs, Some(email), Some(plain)) == Err(400, InvalidCredentials)
  {
    FindFirstIsTheOnlyMatch(docs, Email, email, i);
    DoubleHashRejects(plain, s1, s2);
  }

  /** The account inviteUser creates once the password is hashed only by the hook. */
  function InvitedAccount(name: string, email: string, role: UserRole, plain: string, hookSalt: nat): (u: UserDoc)
    ensures u.password == Some(Hashed(Plain(plain), hookSalt))
    ensures Compare(plain, u.password.value)
  {
    PreSave(NewUser(Some(email), Some(name), Some(Plain(plain)), role), true, hookSalt).value
  }

  /** The summary inviteUser answers with. Its `type` reads the account's `type` path,
      which the User schema does not declare, so it is always absent. */
  datatype InviteSummary = InviteSummary(id: UserId, name: Option<string>, email: Option<string>,
                                         kind: Option<string>)

  /** inviteUser: name, e-mail and type are required, and the e-mail must be
      unregistered; an unknown type fails validation (500). The account is created with
      role = type and the generated password, hashed once, so the e-mailed password logs
      in. A failed e-mail answers 500 but the account stays. */
  method InviteUser(users: UserCollection, name: Option<string>, email: Option<string>, kind: Option<string>,
                    plain: string, salt: nat, mailed: bool)
    returns (r: Reply<InviteSummary>)
    requires users.Valid()
    requires GeneratedPassword(plain)
    modifies users
    ensures users.Valid()
    ensures !Truthy(name) || !Truthy(email) || !Truthy(kind) ==>
      r == Err(400, "All fields are required") && users.docs == old(users.docs)
    ensures Truthy(name) && Truthy(email) && Truthy(kind) && FindFirst(old(users.docs), Email, email).Some? ==>
      r == Err(400, "User already exists") && users.docs == old(users.docs)
    ensures Truthy(name) && Truthy(email) && Truthy(kind) && FindFirst(old(users.docs), Email, email).None?
            && ParseRole(kind.value).None? ==>
      r.Status() == 500 && users.docs == old(users.docs)
    ensures Truthy(name) && Truthy(email) && Truthy(kind) && FindFirst(old(users.docs), Email, email).None?
            && ParseRole(kind.value).Some? ==>
      var s := Stored(old(users.nextId), InvitedAccount(name.value, email.value, ParseRole(kind.value).value, plain, salt));
      && users.docs == old(users.docs) + [s]
      && (mailed ==> r == Ok(201, InviteSummary(s.id, name, email, None)))
      && (!mailed ==> r.Status() == 500)
      && Login(users.docs, email, Some(plain)) == Ok(200, SignIn(s))
  {
    if !Truthy(name) || !Truthy(email) || !Truthy(kind) {
      return Err(400, "All fields are required");
    }
    if FindFirst(users.docs, Email, email).Some? {
      return Err(400, "User already exists");
    }
    var role := ParseRole(kind.value);
    if role.None? {
      return Err(500, "User validation failed: role is not a valid enum value");
    }
    ghost var before := users.docs;
    var created := users.Create(NewUser(email, name, Some(Plain(plain)), role.value), salt);
    assert created.Some?;
    FindFirstAppend(before, created.value, Email, email);
    if !mailed {
      return Err(500, "Failed to send e-mail");
    }
    r := Ok(201, InviteSummary(created.value.id, name, email, UserField(created.value.doc, "type")));
  }
}
