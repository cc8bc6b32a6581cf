# rep-content-backend: the record rules of a content-distribution backend

The backend lets an organisation's admins publish posts with uploaded media and lets
salespeople sign in, connect LinkedIn, Slack, HubSpot and Zoho accounts, engage with
posts and share them on LinkedIn. Beneath the Express, Mongoose and HTTP plumbing sit
the rules this Dafny project models and proves:

- **Accounts** (`user_model.dfy`, `admin_model.dfy`, `accounts.dfy`). The User and Admin
  records, with their role enums and defaults and the four sparse unique indexes on
  email, hubspotId, zohoId and linkedinId. The pre-save hooks hash a modified password.
  bcrypt is modelled symbolically: a hash is the term `Hashed(p, salt)`, and `Compare`
  accepts exactly the plain text it was made from. The User collection is a class. Its
  documents are a sequence in insertion order, which is the order `findOne` scans them
  in. `Create`, `Save` and `Delete` keep the ids distinct, the indexes unique and every
  stored password hashed.
- **Sign-in** (`auth_controller.dfy`). Token claims; e-mail sign-up and login; the
  find-or-create callbacks of HubSpot and Zoho; and the LinkedIn and Slack callbacks,
  which overwrite exactly their provider's fields.
- **The request gate** (`auth_middleware.dfy`). The bearer token read from the
  Authorization header, `protect`, and the two exact-match role gates.
- **Posts** (`post_model.dfy`, `post_controller.dfy`). Mimetype classification; the
  upload loop and the removal loop against the storage bucket; createPost; updatePost's
  media reconciliation; deletePost; likes and shares as add-if-absent lists; and the
  LinkedIn body postToLinkedIn builds.
- **Administration** (`main_controller.dfy`). shareOnLinkedIn's payload and share-add,
  editUserRole, deleteUser and inviteUser.
- **Slack broadcast** (`slack_controller.dfy`). The recipient filter, the send that
  swallows every failure, and the loop that sends once per recipient.

Everything outside the process is an input:

- Provider replies (HubSpot, Zoho, LinkedIn, Slack) are datatypes, or `None` for a
  failed request.
- JWT verification is a function `string -> Option<Claims>`.
- The uuid generator is `nat -> string`.
- The storage bucket's verdict on an upload is `string -> bool`.
- Sending the invitation e-mail is a `bool`.
- Salts and the generated invitation password are parameters.

A handler is a method over the collections it touches. It returns a `Reply`: `Ok` with a
status and a body, or `Err` with a status and a message.

How the account callbacks behave, in the code:

- In `hubspotcallback` and `zohoCallback`, an existing account is returned unchanged. A
  new one is created with only its provider id (and the e-mail for HubSpot). No provider
  token is stored, and the Admin collection is never consulted.
- `linkedinCallback` overwrites linkedinId even when one is set.
- `slackCallback` finds its account by the e-mail of the authenticated session.

## Model

| member | source | states |
|---|---|---|
| Prelude.OrElse | src/controller/main.controller.js:24 | `a \|\| b` on an optional string gives a when it is truthy and b otherwise |
| Prelude.Interpolate | src/controller/main.controller.js:19-24 | a template literal prints an absent value as "undefined" and a present one as itself |
| Text.IndexFromFinds | src/controller/post.controller.js:155 | the result is the first occurrence at or after the start, and absent only when there is none |
| Text.IndexOfFinds | src/controller/post.controller.js:155 | absent exactly when the pattern occurs nowhere; otherwise the first occurrence |
| Text.SecondFieldSpec | src/controller/post.controller.js:155 | `split(sep)[1]` is undefined exactly when sep does not occur, and never contains sep |
| Text.SecondFieldOfJoin | src/controller/post.controller.js:155 | splitting `pre + sep + field` returns field when pre hides no sep and field holds none: split inverts join |
| Text.LastField | src/controller/post.controller.js:31 | `split(c).pop()` contains no c and is no longer than the input |
| Text.LastFieldIsSuffix | src/controller/post.controller.js:31 | that field is the suffix after the last c, and the whole string when c does not occur |
| Text.LastFieldAfter | src/controller/post.controller.js:31-32 | whatever precedes the last c, `split(c).pop()` of the joined string is the text after it |
| Accounts.DoubleHashRejects | src/models/User.js:29-38 | a hash of a hash never accepts the original password |
| Accounts.SingleHashAccepts | src/models/User.js:36-38 | a single hash accepts a candidate exactly when it is the hashed password |
| Accounts.ClashMeansSharedPresentKey | src/models/User.js:6-13 | two accounts clash exactly when one indexed field is present in both with one value; clashing is symmetric |
| Accounts.AbsentKeysNeverClash | src/models/User.js:6-13 | an account with no indexed value never clashes (sparse indexes) |
| Accounts.UniqueUpdate | src/models/User.js:6-13 | an update that clashes with no other account keeps the indexes unique |
| Accounts.UniqueRemove | src/models/User.js:6-13 | removing an account keeps the indexes unique |
| Accounts.UniqueAppend | src/models/User.js:6-13 | an insert that clashes with nothing keeps the indexes unique |
| UserModel.ParseRole | src/models/User.js:9 | the enum admits exactly "admin" and "salesperson", and the parsed role's name is the input |
| UserModel.RoleNameParses | src/models/User.js:9 | every role's name is admitted back as that role |
| UserModel.RoleOnCreate | src/models/User.js:9 | an absent role defaults to salesperson; a given one must pass the enum |
| UserModel.SlackIdNotIndexed | src/models/User.js:23 | changing slackId or its token never changes what the unique indexes see |
| UserModel.PreSave | src/models/User.js:29-34 | an unmodified password is kept; a modified one is replaced by its hash; a modified absent one fails the save; nothing else changes |
| UserModel.PreSaveHashesOnce | src/models/User.js:29-38 | a plain password set by a save is stored hashed, and that plain text still compares true |
| UserModel.IndexKeys | src/models/User.js:6-13 | each document contributes its email, hubspotId, zohoId and linkedinId, in collection order |
| UserModel.FindFirst | src/controller/auth.controller.js:22 | `findOne`: the earliest document whose field equals the value; none when no document has it |
| UserModel.FindById | src/controller/main.controller.js:92 | `findById`: the first document with that id, or none when no document has it |
| UserModel.FindFirstIsTheOnlyMatch | src/models/User.js:6 | under the unique indexes, `findOne` on a present value finds the one holder of it |
| UserModel.FindFirstAppend | src/controller/auth.controller.js:98-104 | after a create, an earlier match stays first; otherwise the new document is found exactly when it matches |
| UserModel.FindByIdAppend | src/controller/auth.controller.js:26 | a create never changes what an older id finds |
| UserModel.SameKeysAdmitted | src/controller/auth.controller.js:260-262 | a save that leaves the indexed values alone is never refused by the indexes |
| UserModel.DistinctIdsFind | src/controller/auth.controller.js:257-262 | with distinct ids, looking up a document's id finds that document |
| UserModel.UserCollection.Create | src/controller/auth.controller.js:26 | `User.create`: hook, then index check; the hashed document is appended under a fresh id, or nothing changes |
| UserModel.UserCollection.Save | src/controller/auth.controller.js:262 | `doc.save()`: re-hash only a changed password, refuse on a missing document or an index clash, change only that document |
| UserModel.UserCollection.Delete | src/controller/main.controller.js:109 | `findByIdAndDelete`: the removed document, or none and no change |
| AdminModel.AdminRoleOnCreate | src/models/Admin.js:9-13 | the enum admits exactly "superadmin" and "admin"; absent defaults to admin |
| AdminModel.NewAdmin | src/models/Admin.js:14-15 | company and invite are optional and unset on a new admin; its indexed values are its e-mail alone |
| AdminModel.AdminPreSave | src/models/Admin.js:31-36 | hash only a set, non-empty, modified password; otherwise save unchanged; only the password changes |
| AdminModel.AdminPreSaveKeepsAtRest | src/models/Admin.js:31-40 | the hook leaves passwords hashed, and a hashed new password accepts its plain text |
| AdminModel.AdminHookSkipsMissingPassword | src/models/Admin.js:32 | a missing or empty admin password is saved unchanged even when modified |
| PostModel.NewPost | src/controller/post.controller.js:63-68 | a new post starts with no likes, shares or reposts |
| PostModel.AddToSet | src/controller/post.controller.js:262 | add-if-absent: the member is present afterwards, nothing else is added, order is kept, and the list stays duplicate-free |
| PostModel.AddToSetIdempotent | src/controller/post.controller.js:262 | adding the same user twice equals adding once |
| PostModel.AddToSetSameMembers | src/controller/post.controller.js:290-294 | the order of two adds does not change the membership |
| PostModel.PostCollection.Insert | src/controller/post.controller.js:63-70 | a valid post is stored under a fresh id |
| PostModel.PostCollection.Replace | src/controller/post.controller.js:263 | the stored post at that id becomes the given one, nothing else changes |
| PostModel.PostCollection.Remove | src/controller/post.controller.js:245 | only that post is removed |
| PostController.Classify | src/controller/post.controller.js:53-60 | Image exactly when the mimetype starts with "image", Video exactly when it starts with "video" but not "image", Document otherwise |
| PostController.ClassifyExamples | src/controller/post.controller.js:192-199 | the test has no slash: "imagery/x" is an Image and "" a Document |
| PostController.UploadPath | src/controller/post.controller.js:31-33 | the object path starts with `posts/` followed by the uuid, and its extension is the uploaded file name's |
| PostController.StoragePathSpec | src/controller/post.controller.js:155-156 | a path is attempted only when the url holds the marker; it is non-empty and holds no marker |
| PostController.StoragePathOfPublicUrl | src/controller/post.controller.js:49-51 | the path extracted from an object's public url is the path it was stored under |
| PostController.UploadedItems | src/controller/post.controller.js:30-60 | one entry per file, in file order, typed by `Classify` and pointing at the public url of its path |
| PostController.UploadedPaths | src/controller/post.controller.js:30-40 | one storage path per file, in file order |
| PostController.AcceptedPrefix | src/controller/post.controller.js:35-47 | the files before the count were all accepted and the one at the count was refused |
| PostController.MediaToDelete | src/controller/post.controller.js:150-152 | an old entry is deleted exactly when no kept entry has its url |
| PostController.MediaRetained | src/controller/post.controller.js:150-152 | an old entry is retained exactly when some kept entry has its url |
| PostController.MediaPartition | src/controller/post.controller.js:150-152 | every old entry is either retained or deleted, never both: the two split the old list as a multiset |
| PostController.MediaToDeleteAppend | src/controller/post.controller.js:150-152 | deletion keeps the old order |
| PostController.MediaToDeleteAllKept | src/controller/post.controller.js:150-152 | keeping every old url deletes nothing |
| PostController.MediaToDeleteNoneKept | src/controller/post.controller.js:138-152 | keeping nothing deletes every old entry, in order |
| PostController.RemovalPaths | src/controller/post.controller.js:154-162 | removal is requested for at most one path per entry |
| PostController.RemovalPathsMembers | src/controller/post.controller.js:154-162 | removal is requested for a path exactly when some entry's url yields it |
| PostController.PresentMembers | src/controller/post.controller.js:155-158 | the paths attempted are exactly the extracted ones that are present |
| PostController.PresentAppend | src/controller/post.controller.js:154-162 | the attempted paths of a concatenation are those of each part, in order |
| PostController.PresentAllSome | src/controller/post.controller.js:154-162 | when every entry yields a path, all of them are attempted, in order |
| PostController.RemovalPathsAppend | src/controller/post.controller.js:154-162 | the removal requests of a concatenation are those of each part, in order |
| PostController.RemovalPathsOfPublicUrls | src/controller/post.controller.js:154-162 | entries pointing at public urls request removal of exactly their paths, in order |
| PostController.RemovalPathsOfUploads | src/controller/post.controller.js:235-243 | deleting a post's uploaded media requests removal of exactly the objects the upload stored |
| PostController.Storage.Upload | src/controller/post.controller.js:30-61 | uploads files in order up to the first refused one; ok exactly when all were stored; the entries and stored paths are that prefix |
| PostController.Storage.RemoveEach | src/controller/post.controller.js:154-162 | a removal is requested for each entry with a storage path, and a failure never stops the loop |
| PostController.UploadStep | src/controller/post.controller.js:30-61 | one turn of the upload loop extends both prefixes by that file's path and entry |
| PostController.AcceptedPrefixAt | src/controller/post.controller.js:42-47 | the first refusal fixes the accepted count |
| PostController.CreatePost | src/controller/post.controller.js:8-81 | 400 without a title or files before any upload; 500 and no post on a refused upload; otherwise the post is saved with the uploaded media in order |
| PostController.Revised | src/controller/post.controller.js:135-136 | title and description are overwritten only by truthy values; media is replaced; engagement, creator and links are untouched |
| PostController.UpdatePost | src/controller/post.controller.js:119-216 | 400 without an id or for malformed existingMedia, and 404 for an unknown post, each changing nothing; otherwise unkept old media are removed and media becomes kept followed by uploads |
| PostController.DeletePost | src/controller/post.controller.js:218-255 | 400 or 404 changes nothing; otherwise removal of every media object is requested and the post is deleted |
| PostController.EngagedBy | src/controller/post.controller.js:262-276 | only the chosen list grows, by add-if-absent; the rest of the post is untouched |
| PostController.Engage | src/controller/post.controller.js:257-283 | likePost/sharePost: 404 for an unknown post; otherwise the caller is added if absent and the reported count is the list's length |
| PostController.EngageIdempotent | src/controller/post.controller.js:262-276 | liking or sharing twice leaves the post as once did |
| PostController.PushShare | src/controller/post.controller.js:285-302 | `$addToSet` on shares for a known post; null and no change for an unknown one |
| PostController.LinkedInBody | src/controller/post.controller.js:379-415 | commentary is the description or "Check out this post!"; at most one media entry; public and published |
| PostController.PostToLinkedIn | src/controller/post.controller.js:305-441 | succeeds exactly when a person id is returned, a first Image uploads, and the share is accepted |
| PostController.LinkedInBodyShape | src/controller/post.controller.js:326-414 | an asset entry exactly for an uploaded first Image; otherwise an ARTICLE entry exactly for a truthy url; the category is never NONE |
| PostController.NonImageFirstMediaGivesEmptyImageShare | src/controller/post.controller.js:326-414 | a post whose first media is not an Image and that has no url is shared as IMAGE with no media |
| PostController.CreateLinkedInPost | src/controller/post.controller.js:443-463 | 400 without a token or post, 500 on failure, each with no change; otherwise the body is posted and the stored post gets the share |
| AuthController.GenerateToken | src/controller/auth.controller.js:8-14 | claims are the account's id, e-mail and role name; expiry is 604800 seconds |
| AuthController.LoginOutcomes | src/controller/auth.controller.js:34-53 | a missing or empty field answers 400; success only for the stored holder of the e-mail whose hash accepts the password; the reply is its sign-in |
| AuthController.LoginFailuresLookAlike | src/controller/auth.controller.js:40-46 | an unknown e-mail and a wrong password give the identical 400 reply |
| AuthController.LoginAcceptsExactlyTheOwner | src/controller/auth.controller.js:40-49 | under the unique indexes, login for an account's e-mail succeeds exactly when its hash accepts the password |
| AuthController.EmailSignUp | src/controller/auth.controller.js:16-32 | 400 for missing fields or a registered e-mail, with nothing created; otherwise the hashed account is appended and can log in with that password at once |
| AuthController.HubspotUser | src/controller/auth.controller.js:100-103 | a created HubSpot account has no password, the default role, and every path unset except hubspotId and e-mail |
| AuthController.HubspotCallback | src/controller/auth.controller.js:64-111 | an existing holder of the hubspotId is returned unchanged; otherwise one account is created, or 500 on an index clash; afterwards `findOne` on the id finds the returned account |
| AuthController.ZohoUser | src/controller/auth.controller.js:149 | a created Zoho account has no password, the default role, and every path unset except zohoId |
| AuthController.ZohoCallback | src/controller/auth.controller.js:122-156 | find-or-create on the first listed user's id; afterwards `findOne` finds the returned account |
| AuthController.WithLinkedin | src/controller/auth.controller.js:206-208 | exactly linkedinId, linkedinToken and linkedinRefreshToken are overwritten |
| AuthController.LinkedinCallback | src/controller/auth.controller.js:171-220 | 401 without a session; otherwise the three fields are written to that account only, or 500 with no change |
| AuthController.WithSlack | src/controller/auth.controller.js:260-261 | exactly slackId and slackAccessToken are overwritten, and the indexed values are unchanged |
| AuthController.SlackCallback | src/controller/auth.controller.js:233-269 | 400 without a code or authed_user; 404 when no account has the session's e-mail; otherwise only that account changes, and the save cannot fail |
| AuthMiddleware.BearerToken | src/middleware/auth.middleware.js:8-10 | a token is read only from a header starting with "Bearer", as its second space-separated word |
| AuthMiddleware.NoSpaceIsFree | src/middleware/auth.middleware.js:9 | a string without a space holds no separator |
| AuthMiddleware.BearerTokenOfHeader | src/middleware/auth.middleware.js:8-10 | the header "Bearer " + token is read back as that token |
| AuthMiddleware.Stripped | src/middleware/auth.middleware.js:15 | `select("-password")` drops the password and nothing else |
| AuthMiddleware.Protect | src/middleware/auth.middleware.js:6-20 | no truthy token answers 401 "Not authorized" and a refused token 401 "Token invalid"; every token verify accepts lets the request go on, with the account its claims name, or with none exactly when no account has that id |
| AuthMiddleware.IssuedTokenAdmitsItsAccount | src/middleware/auth.middleware.js:8-16 | a token issued at sign-in lets its own account through |
| AuthMiddleware.RoleOf | src/middleware/auth.middleware.js:23 | the gates read the loaded account's role name, and nothing without an account |
| AuthMiddleware.AdminOnly | src/middleware/auth.middleware.js:22-27 | passes exactly an account whose role is admin; otherwise 403 "Admins only" |
| AuthMiddleware.SalespersonOnly | src/middleware/auth.middleware.js:29-34 | passes exactly an account whose role is salesperson; otherwise 403 "Salespersons only" |
| AuthMiddleware.GatesDisjoint | src/middleware/auth.middleware.js:22-34 | no role string passes both gates, and "superadmin" passes neither |
| AuthMiddleware.EachAccountPassesOneGate | src/middleware/auth.middleware.js:22-34 | each loaded account passes exactly one gate; a request without one passes neither |
| MainController.SharePayloadOf | src/controller/main.controller.js:18-39 | commentary is title, content and url joined; IMAGE with exactly one entry iff the picture is truthy, otherwise NONE with none |
| MainController.StoredPostSharesTextOnly | src/controller/main.controller.js:24-30 | a stored post has no content or picture path, so it is shared as NONE with "undefined" for the content |
| MainController.ReadConnection | src/controller/main.controller.js:16-19 | an account is connected exactly when the token path is truthy; the connection carries that token and id |
| MainController.AsWrittenNoAccountIsConnected | src/controller/main.controller.js:16 | as written, the token path names no User path, so every account reads as not connected |
| MainController.ShareConnection | src/models/User.js:13-19 | read through the schema's paths, an account is connected exactly when its linkedinToken is truthy |
| MainController.ShareOnLinkedIn | src/controller/main.controller.js:9-60 | 404, 500 without an account and 400 when not connected, each before posting and with no change; 500 on a refused share; otherwise the payload is posted and the account is added to shares if absent |
| MainController.EditUserRole | src/controller/main.controller.js:88-99 | 500 for an unknown user or an invalid role with no change; otherwise only the role changes and 201 returns the account |
| MainController.DeleteUser | src/controller/main.controller.js:101-120 | 400 without an id, 404 for an unknown one; otherwise the account is removed and returned, and no account keeps the id |
| MainController.InvitedAccountAsWritten | src/controller/main.controller.js:136-144 | as written, the stored password is a hash of a hash of the generated password |
| MainController.AsWrittenInvitedPasswordNeverLogsIn | src/controller/main.controller.js:136-146 | as written, logging in with the e-mailed password is always refused |
| MainController.InvitedAccount | src/controller/main.controller.js:139-144 | hashed once by the hook, the stored password accepts the generated one |
| MainController.InviteUser | src/controller/main.controller.js:122-163 | 400 for missing fields or a registered e-mail and 500 for an invalid type, each with no change; otherwise the account is appended, kept even if the mail fails, and logs in with the e-mailed password |
| SlackController.FilterMembers | src/controller/slack.controller.js:19-21 | fails exactly when a member reaching the e-mail test has no profile; otherwise keeps exactly the recipients |
| SlackController.FilterMembersConcat | src/controller/slack.controller.js:19-25 | the filter distributes over any split of the list: it keeps each part's members in order and throws when either part throws |
| SlackController.FilterMembersOne | src/controller/slack.controller.js:19-25 | one member throws when it reaches the e-mail test without a profile, is kept when it is a recipient, and is dropped otherwise |
| SlackController.FilterMembersKeepsRecipients | src/controller/slack.controller.js:19-21 | a list of recipients only is kept whole, in order |
| SlackController.GetSlackUsers | src/controller/slack.controller.js:6-26 | an empty list without an ok reply or when the filter throws on some member; otherwise exactly the filtered list, in order, holding every recipient and only recipients |
| SlackController.MessageTo | src/controller/slack.controller.js:31-45 | the channel is the recipient's user id, with the text and the bearer token |
| SlackController.SendSlackMessage | src/controller/slack.controller.js:47-54 | the reply data exactly for an ok reply, otherwise undefined; never an error |
| SlackController.Outbox | src/controller/slack.controller.js:60-62 | one request per recipient |
| SlackController.OutboxAddresses | src/controller/slack.controller.js:60-62 | the i-th request goes to the i-th recipient |
| SlackController.BroadcastMessageToWorkspace | src/controller/slack.controller.js:57-65 | every recipient is sent the message once, in order, whatever each send returned; the count is the number of recipients |

## Left out

- Accounts.SingleHashAccepts: bcrypt's 72-byte truncation of the password and hash
  collisions are not modelled. `Compare` is exact equality of plain texts, so a candidate
  that shares only the first 72 bytes of a longer password is refused here, while bcrypt
  accepts it.
- HTTP: the network exchanges with HubSpot, Zoho, LinkedIn and Slack, the JSON bodies,
  redirects and response framing. Each handler receives what the replies carry. The
  exact messages of caught exceptions are modelled only as a 500 status.
- Cryptography: JWT signing and expiry checking (`verify` is an input), bcrypt's salt
  generation (salts are parameters), uuid and random-byte generation (inputs).
- Storage: the storage service's object contents and public-url computation beyond
  `base + marker + path`. The outcome of a removal is only logged, so it is not modelled.
- E-mail sending (src/utils/send-mail.js) is a boolean outcome. The Slack client wrapper
  (src/utils/slack.js), the browser launcher and the refresh-token helper are not part of
  this model.
- Route wiring: which middleware guards which route is not modelled. The like-post route
  carries no `:id` parameter, so likePost called through it always answers 404; the
  model takes the post id as an input. `/linkedin/callback` and `/slack/callback` are
  mounted without `protect` (src/routes/auth.routes.js:64,69), so as wired no session
  reaches them. linkedinCallback then answers 401 after a successful exchange, and
  slackCallback answers 500 when it reads the session's e-mail.
  `AuthController.LinkedinCallback` and `AuthController.SlackCallback` take the session
  as an input, and so also cover a session the routes never supply.
- ShareL renders HTML from a post and is not modelled. getAllPosts, getAllUsers and
  getPostById only read and are not modelled. The hubspotAuth, zohoAuth, linkedinAuth
  and slackRedirect redirects are not modelled.
- Handlers that routes import but the shown controllers do not define (invites,
  promotion, super-admin, auto-broadcast scheduling) are not part of this model. Neither
  are the schema-only models Company, Invite, SlackWorkspace, AutoBroadcast,
  Slackuserslist and UserPosts.
- The Admin collection has no handler in the shown code. Only its record, role enum and
  hook are modelled. Its four indexes use the same `Keys`/`Unique` definitions as users.
- Timestamps (`createdAt`/`updatedAt`) are not modelled.
- Concurrency: each handler is one sequential step. The read-modify-save races on likes
  and shares are not modelled.
- ObjectId casting: ids are naturals. A malformed id string makes Mongoose throw a
  CastError. In the handlers this gives 500. Inside `protect` it is caught and answers 401
  "Token invalid". The model treats a malformed id as an absent id.
- MainController.EditUserRole: an absent role is modelled as the schema default
  "salesperson", as a later load of the account shows it. The reply sent right after the
  save shows no role at all.
- PostController.UpdatePost: `existingMedia` that parses to something other than an
  array of media entries is not modelled. Parsing is an input: malformed, or a list of
  entries.
- PostController.PostToLinkedIn: the image bytes and the register-upload exchange are
  folded into one optional asset. A reply without a person id is modelled as refusal.
- SlackController.BroadcastMessageToWorkspace: the final console count is returned as
  `count`, and logging is not modelled.

## Findings

| source | as written | input that shows it | evidently intended | confidence | as-written member | corrected member |
|---|---|---|---|---|---|---|
| src/controller/main.controller.js:136-144 | inviteUser hashes the generated password with bcrypt and passes the hash to `User.create`, whose pre-save hook hashes it again | any invitation: password "a1b2c3d4e5f6" is stored as hash(hash("a1b2c3d4e5f6")), and login with "a1b2c3d4e5f6" answers 400 "Invalid email or password" | store one hash, so the e-mailed password logs in | not executed | MainController.AsWrittenInvitedPasswordNeverLogsIn | MainController.InviteUser |
| src/controller/main.controller.js:16-19 | shareOnLinkedIn reads `user.linkedInToken` and `user.linkedInId`; the User schema declares `linkedinToken` and `linkedinId` | an account whose linkedinToken is "tok" sharing an existing post gets 400 "LinkedIn not connected" | read the schema's linkedinToken and linkedinId, so a connected account can share | not executed | MainController.AsWrittenNoAccountIsConnected | MainController.ShareOnLinkedIn |
