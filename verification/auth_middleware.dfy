/** The request gate (src/middleware/auth.middleware.js): `protect` reads the bearer token
    of the Authorization header, verifies it and loads the account it names; `adminOnly`
    and `salespersonOnly` compare the loaded account's role with one exact string. Token
    verification is an input: `verify` gives the signed claims of a token it accepts
    and None for one it refuses (a bad signature or an expired token). */
module AuthMiddleware {
  import opened Prelude
  import opened Text
  import opened UserModel
  import opened AuthController

  /** What a middleware does with a request: hand it on with `req.user` set, or answer
      it without calling the next handler. */
  datatype Outcome = Next(user: Option<Stored>) | Deny(status: int, message: string)

  /** The header's token: the second space-separated word, read only when the header
      starts with "Bearer". */
  function BearerToken(header: Option<string>): (t: Option<string>)
    ensures header.None? || !StartsWith(header.value, "Bearer") ==> t.None?
    ensures header.Some? && StartsWith(header.value, "Bearer") ==> t == SecondField(header.value, " ")
    ensures t.Some? ==> Free(t.value, " ")
  {
    if header.Some? && StartsWith(header.value, "Bearer") then
      SecondFieldSpec(header.value, " ");
      SecondField(header.value, " ")
    else None
  }

  /** A string without a space holds no occurrence of " ". */
  lemma NoSpaceIsFree(s: string)
    requires ' ' !in s
    ensures Free(s, " ")
  {
    forall k | 0 <= k < |s| ensures !OccursAt(s, " ", k) {
      assert s[k..k + 1] == [s[k]];
    }
  }

  /** The header a client sends for a token is read back as that token. */
  lemma {:induction false} BearerTokenOfHeader(tok: string)
    requires ' ' !in tok
    ensures BearerToken(Some("Bearer " + tok)) == Some(tok)
  {
    var pre := "Bearer";
    assert "Bearer " + tok == pre + " " + tok;
    assert StartsWith(pre + " " + tok, "Bearer") by {
      assert (pre + " " + tok)[..6] == pre;
    }
    assert CleanBefore(pre, " ") by {
      forall k | 0 <= k < |pre| ensures !OccursAt(pre + " ", " ", k) {
        assert (pre + " ")[k] == pre[k];
        assert (pre + " ")[k..k + 1][0] == pre[k];
      }
    }
    NoSpaceIsFree(tok);
    SecondFieldOfJoin(pre, " ", tok);
  }

  /** The account as `req.user` holds it: loaded without its password. */
  function Stripped(s: Stored): (t: Stored)
    ensures t.id == s.id && t.doc.password.None?
    ensures t.doc.(password := s.doc.password) == s.doc
  {
    Stored(s.id, s.doc.(password := None))
  }

  /** protect: no truthy token answers 401 "Not authorized"; a token `verify` refuses
      answers 401 "Token invalid"; otherwise the request goes on with the account named
      by the claims' id, or with no account when that id names none. */
  function Protect(header: Option<string>, verify: string -> Option<Claims>, docs: seq<Stored>): (r: Outcome)
    ensures !Truthy(BearerToken(header)) ==> r == Deny(401, "Not authorized")
    ensures Truthy(BearerToken(header)) && verify(BearerToken(header).value).None? ==>
      r == Deny(401, "Token invalid")
    ensures Truthy(BearerToken(header)) && verify(BearerToken(header).value).Some? ==>
      r.Next? && (r.user.None? <==> FindById(docs, verify(BearerToken(header).value).value.id).None?)
    ensures r.Next? ==>
      && Truthy(BearerToken(header)) && verify(BearerToken(header).value).Some?
      && var id := verify(BearerToken(header).value).value.id;
         && (r.user.Some? ==> exists i :: 0 <= i < |docs| && docs[i].id == id && r.user.value == Stripped(docs[i]))
         && (r.user.None? ==> forall i :: 0 <= i < |docs| ==> docs[i].id != id)
  {
    var token := BearerToken(header);
    if !Truthy(token) then Deny(401, "Not authorized")
    else match verify(token.value)
      case None => Deny(401, "Token invalid")
      case Some(claims) =>
        match FindById(docs, claims.id)
        case None => Next(None)
        case Some(k) => Next(Some(Stripped(docs[k])))
  }

  /** A token issued at sign-in and accepted by `verify` lets its own account through. */
  lemma IssuedTokenAdmitsItsAccount(docs: seq<Stored>, k: nat, tok: string, verify: string -> Option<Claims>)
    requires k < |docs|
    requires forall i, j :: 0 <= i < j < |docs| ==> docs[i].id != docs[j].id
    requires tok != "" && ' ' !in tok
    requires verify(tok) == Some(GenerateToken(docs[k]).claims)
    ensures Protect(Some("Bearer " + tok), verify, docs) == Next(Some(Stripped(docs[k])))
  {
    BearerTokenOfHeader(tok);
    DistinctIdsFind(docs, k);
  }

  /** `req.user?.role !== "admin"` refuses: only the exact string passes. */
  predicate AdminGate(role: Option<string>) {
    role == Some("admin")
  }

  /** `req.user?.role !== "salesperson"` refuses: only the exact string passes. */
  predicate SalespersonGate(role: Option<string>) {
    role == Some("salesperson")
  }

  /** The role a gate reads from `req.user`; absent when the request carries no account. */
  function RoleOf(user: Option<Stored>): (r: Option<string>)
    ensures r.Some? <==> user.Some?
    ensures r.Some? ==> ParseRole(r.value) == Some(user.value.doc.role)
  {
    match user
    case None => None
    case Some(s) =>
      RoleNameParses(s.doc.role);
      Some(RoleName(s.doc.role))
  }

  /** adminOnly. */
  function AdminOnly(user: Option<Stored>): (r: Outcome)
    ensures r.Next? <==> user.Some? && user.value.doc.role == Admin
    ensures r.Next? ==> r.user == user
    ensures r.Deny? ==> r == Deny(403, "Admins only")
  {
    if !AdminGate(RoleOf(user)) then Deny(403, "Admins only") else Next(user)
  }

  /** salespersonOnly. */
  function SalespersonOnly(user: Option<Stored>): (r: Outcome)
    ensures r.Next? <==> user.Some? && user.value.doc.role == Salesperson
    ensures r.Next? ==> r.user == user
    ensures r.Deny? ==> r == Deny(403, "Salespersons only")
  {
    if !SalespersonGate(RoleOf(user)) then Deny(403, "Salespersons only") else Next(user)
  }

  /** No role passes both gates; "superadmin", a role of the Admin collection, passes
      neither. */
  lemma GatesDisjoint(role: Option<string>)
    ensures !(AdminGate(role) && SalespersonGate(role))
    ensures !AdminGate(Some("superadmin")) && !SalespersonGate(Some("superadmin"))
  {
  }

  /** Every loaded account passes exactly one of the two gates; a request without an
      account passes neither. */
  lemma EachAccountPassesOneGate(user: Option<Stored>)
    ensures user.Some? ==> (AdminOnly(user).Next? <==> !SalespersonOnly(user).Next?)
    ensures user.None? ==> AdminOnly(user).Deny? && SalespersonOnly(user).Deny?
  {
  }
}
