/** The User collection (src/models/User.js): the account record, its role enum with its
    default, the four sparse unique indexes, and the pre-save hook that hashes a modified
    password. The collection is a class whose documents are kept in insertion order,
    which is the order `findOne` scans them in. */
module UserModel {
  import opened Prelude
  import opened Accounts

  type UserId = nat

  datatype UserRole = Admin | Salesperson

  function RoleName(r: UserRole): string {
    match r
    case Admin => "admin"
    case Salesperson => "salesperson"
  }

  /** The schema's enum validator on a supplied role string. */
  function ParseRole(s: string): (r: Option<UserRole>)
    ensures r.Some? <==> s == "admin" || s == "salesperson"
    ensures r.Some? ==> RoleName(r.value) == s
  {
    if s == "admin" then Some(Admin)
    else if s == "salesperson" then Some(Salesperson)
    else None
  }

  /** Every role name the schema produces is accepted back by its validator. */
  lemma RoleNameParses(r: UserRole)
    ensures ParseRole(RoleName(r)) == Some(r)
  {
  }

  /** The role a created document gets from the supplied value: the default
      "salesperson" when none is given, otherwise the value if the enum admits it; None
      when validation rejects the document. */
  function RoleOnCreate(role: Option<string>): (r: Option<UserRole>)
    ensures role.None? ==> r == Some(Salesperson)
    ensures role.Some? ==> r == ParseRole(role.value)
  {
    match role
    case None => Some(Salesperson)
    case Some(s) => ParseRole(s)
  }

  datatype UserDoc = UserDoc(
    email: Option<string>,
    name: Option<string>,
    password: Option<Secret>,
    role: UserRole,
    hubspotId: Option<string>,
    zohoId: Option<string>,
    linkedinId: Option<string>,
    hubspotToken: Option<string>,
    zohoToken: Option<string>,
    linkedinName: Option<string>,
    linkedinToken: Option<string>,
    linkedinRefreshToken: Option<string>,
    linkedinProfilePic: Option<string>,
    slackId: Option<string>,
    slackAccessToken: Option<string>)

  /** A new document with the given fields and every other path unset. */
  function NewUser(email: Option<string>, name: Option<string>, password: Option<Secret>,
                   role: UserRole): UserDoc
  {
    UserDoc(email, name, password, role, None, None, None, None, None, None, None, None,
            None, None, None)
  }

  /** The values the document presents to the unique indexes; slackId is not among them. */
  function KeysOf(u: UserDoc): Keys {
    Keys(u.email, u.hubspotId, u.zohoId, u.linkedinId)
  }

  /** slackId carries no index: changing it never changes what the indexes see. */
  lemma SlackIdNotIndexed(u: UserDoc, slackId: Option<string>, token: Option<string>)
    ensures KeysOf(u.(slackId := slackId, slackAccessToken := token)) == KeysOf(u)
  {
  }

  /** Reading `doc[path]` for a string path: the paths the schema declares give their
      value; any other path reads as `undefined`. */
  function UserField(u: UserDoc, path: string): Option<string> {
    if path == "email" then u.email
    else if path == "name" then u.name
    else if path == "hubspotId" then u.hubspotId
    else if path == "zohoId" then u.zohoId
    else if path == "linkedinId" then u.linkedinId
    else if path == "hubspotToken" then u.hubspotToken
    else if path == "zohoToken" then u.zohoToken
    else if path == "linkedinName" then u.linkedinName
    else if path == "linkedinToken" then u.linkedinToken
    else if path == "linkedinRefreshToken" then u.linkedinRefreshToken
    else if path == "linkedinProfilePic" then u.linkedinProfilePic
    else if path == "slackId" then u.slackId
    else if path == "slackAccessToken" then u.slackAccessToken
    else None
  }

  /** The pre-save hook: when the password path was modified it is replaced by its bcrypt
      hash with a fresh salt; an unmodified password is left as it is. A password
      modified to `undefined` makes bcrypt reject the call and the save fails (None). */
  function PreSave(u: UserDoc, modified: bool, salt: nat): (r: Option<UserDoc>)
    ensures r.Some? ==> r.value.(password := u.password) == u
    ensures !modified ==> r == Some(u)
    ensures modified ==> (r.Some? <==> u.password.Some?)
    ensures modified && r.Some? ==> r.value.password == Some(Hashed(u.password.value, salt))
  {
    if !modified then Some(u)
    else match u.password
      case None => None
      case Some(p) => Some(u.(password := Some(Hashed(p, salt))))
  }

  /** A password set by a save is stored hashed, and its plain text still logs in. */
  lemma PreSaveHashesOnce(u: UserDoc, p: string, salt: nat)
    requires u.password == Some(Plain(p))
    ensures PreSave(u, true, salt).Some?
    ensures AtRest(PreSave(u, true, salt).value.password)
    ensures Compare(p, PreSave(u, true, salt).value.password.value)
  {
  }

  datatype Stored = Stored(id: UserId, doc: UserDoc)

  function IndexKeys(docs: seq<Stored>): (ks: seq<Keys>)
    ensures |ks| == |docs|
    ensures forall i :: 0 <= i < |docs| ==> ks[i] == KeysOf(docs[i].doc)
  {
    seq(|docs|, i requires 0 <= i < |docs| => KeysOf(docs[i].doc))
  }

  /** The indexes accept `u` beside every stored document except the one at `skip`. */
  predicate Admits(docs: seq<Stored>, u: UserDoc, skip: int) {
    forall i :: 0 <= i < |docs| && i != skip ==> !Clash(KeysOf(docs[i].doc), KeysOf(u))
  }

  /** The scan behind `findOne({ field: v })`: the first position at or after `from`
      whose document has v in field f. */
  function FindFrom(docs: seq<Stored>, f: KeyField, v: Option<string>, from: nat): (r: Option<nat>)
    decreases |docs| - from
    ensures r.Some? ==> from <= r.value < |docs| && KeyOf(KeysOf(docs[r.value].doc), f) == v
    ensures r.Some? ==> forall j :: from <= j < r.value ==> KeyOf(KeysOf(docs[j].doc), f) != v
    ensures r.None? ==> forall j :: from <= j < |docs| ==> KeyOf(KeysOf(docs[j].doc), f) != v
  {
    if from >= |docs| then None
    else if KeyOf(KeysOf(docs[from].doc), f) == v then Some(from)
    else FindFrom(docs, f, v, from + 1)
  }

  /** `findOne({ field: v })`: the first document in collection order whose field equals
      v. An absent v matches the first document lacking the field. */
  function FindFirst(docs: seq<Stored>, f: KeyField, v: Option<string>): (r: Option<nat>)
    ensures r.Some? ==> r.value < |docs| && KeyOf(KeysOf(docs[r.value].doc), f) == v
    ensures r.Some? ==> forall j :: 0 <= j < r.value ==> KeyOf(KeysOf(docs[j].doc), f) != v
    ensures r.None? ==> forall j :: 0 <= j < |docs| ==> KeyOf(KeysOf(docs[j].doc), f) != v
  {
    FindFrom(docs, f, v, 0)
  }

  /** The scan behind `findById(id)`. */
  function FindIdFrom(docs: seq<Stored>, id: UserId, from: nat): (r: Option<nat>)
    decreases |docs| - from
    ensures r.Some? ==> from <= r.value < |docs| && docs[r.value].id == id
    ensures r.Some? ==> forall j :: from <= j < r.value ==> docs[j].id != id
    ensures r.None? ==> forall j :: from <= j < |docs| ==> docs[j].id != id
  {
    if from >= |docs| then None
    else if docs[from].id == id then Some(from)
    else FindIdFrom(docs, id, from + 1)
  }

  /** `findById(id)`. */
  function FindById(docs: seq<Stored>, id: UserId): (r: Option<nat>)
    ensures r.Some? ==> r.value < |docs| && docs[r.value].id == id
    ensures r.Some? ==> forall j :: 0 <= j < r.value ==> docs[j].id != id
    ensures r.None? ==> forall j :: 0 <= j < |docs| ==> docs[j].id != id
  {
    FindIdFrom(docs, id, 0)
  }

  /** With unique indexes, a present value is held by at most one document, so
      `findOne` on it returns that document whichever order the collection is in. */
  lemma FindFirstIsTheOnlyMatch(docs: seq<Stored>, f: KeyField, v: string, i: nat)
    requires Unique(IndexKeys(docs))
    requires i < |docs| && KeyOf(KeysOf(docs[i].doc), f) == Some(v)
    ensures FindFirst(docs, f, Some(v)) == Some(i)
  {
    var r := FindFirst(docs, f, Some(v));
    var ks := IndexKeys(docs);
    assert r.Some? && r.value <= i;
    forall j | 0 <= j < i
      ensures KeyOf(KeysOf(docs[j].doc), f) != Some(v)
    {
      assert ks[j] == KeysOf(docs[j].doc) && ks[i] == KeysOf(docs[i].doc);
      assert !Clash(ks[j], ks[i]);
    }
  }

  /** Appending a document leaves an earlier first match where it was; otherwise the
      new document is the first match exactly when it matches. */
  lemma FindFirstAppend(docs: seq<Stored>, s: Stored, f: KeyField, v: Option<string>)
    ensures FindFirst(docs, f, v).Some? ==> FindFirst(docs + [s], f, v) == FindFirst(docs, f, v)
    ensures FindFirst(docs, f, v).None? && KeyOf(KeysOf(s.doc), f) == v ==>
      FindFirst(docs + [s], f, v) == Some(|docs|)
    ensures FindFirst(docs, f, v).None? && KeyOf(KeysOf(s.doc), f) != v ==>
      FindFirst(docs + [s], f, v).None?
  {
    var t := docs + [s];
    var r := FindFirst(docs, f, v);
    var k := if r.Some? then r.value else |docs|;
    forall j | 0 <= j < k
      ensures KeyOf(KeysOf(t[j].doc), f) != v
    {
      assert t[j] == docs[j];
    }
    if r.Some? {
      assert t[k] == docs[k];
    } else {
      assert t[k] == s;
    }
  }

  /** Appending a document with a new id leaves every lookup by an older id as it was. */
  lemma FindByIdAppend(docs: seq<Stored>, s: Stored, id: UserId)
    requires id != s.id
    ensures FindById(docs + [s], id) == FindById(docs, id)
  {
    var t := docs + [s];
    assert forall j :: 0 <= j < |docs| ==> t[j] == docs[j];
    assert t[|docs|] == s;
  }

  /** A document whose indexed values are unchanged is always admitted back in its own
      place. */
  lemma SameKeysAdmitted(docs: seq<Stored>, k: nat, u: UserDoc)
    requires Unique(IndexKeys(docs)) && k < |docs|
    requires KeysOf(u) == KeysOf(docs[k].doc)
    ensures Admits(docs, u, k)
  {
    var ks := IndexKeys(docs);
    forall i | 0 <= i < |docs| && i != k
      ensures !Clash(KeysOf(docs[i].doc), KeysOf(u))
    {
      if i < k {
        assert !Clash(ks[i], ks[k]);
      } else {
        assert !Clash(ks[k], ks[i]);
        ClashMeansSharedPresentKey(ks[k], ks[i]);
      }
    }
  }

  /** With distinct ids, looking up the id of the document at `k` finds `k`. */
  lemma DistinctIdsFind(docs: seq<Stored>, k: nat)
    requires k < |docs|
    requires forall i, j :: 0 <= i < j < |docs| ==> docs[i].id != docs[j].id
    ensures FindById(docs, docs[k].id) == Some(k)
  {
    var r := FindById(docs, docs[k].id);
    assert r.Some?;
  }

  /** The User collection with its unique indexes and its pre-save hook. */
  class UserCollection {
    var docs: seq<Stored>
    var nextId: nat

    ghost predicate Valid()
      reads this
    {
      && (forall i :: 0 <= i < |docs| ==> docs[i].id < nextId)
      && (forall i, j :: 0 <= i < j < |docs| ==> docs[i].id != docs[j].id)
      && Unique(IndexKeys(docs))
      && (forall i :: 0 <= i < |docs| ==> AtRest(docs[i].doc.password))
    }

    constructor ()
      ensures Valid() && docs == [] && nextId == 0
    {
      docs := [];
      nextId := 0;
    }

    /** `User.create(u)`: the hook runs with the password counted as modified when one
        is given, then the indexes decide; the new document gets a fresh id and goes
        last. */
    method Create(u: UserDoc, salt: nat) returns (r: Option<Stored>)
      requires Valid()
      modifies this
      ensures Valid()
      ensures var saved := PreSave(u, u.password.Some?, salt);
        if saved.Some? && Admits(old(docs), saved.value, -1) then
          && r == Some(Stored(old(nextId), saved.value))
          && docs == old(docs) + [r.value] && nextId == old(nextId) + 1
        else
          r.None? && docs == old(docs) && nextId == old(nextId)
    {
      var saved := PreSave(u, u.password.Some?, salt);
      if saved.None? || !Admits(docs, saved.value, -1) {
        r := None;
        return;
      }
      var s := Stored(nextId, saved.value);
      assert IndexKeys(docs + [s]) == IndexKeys(docs) + [KeysOf(s.doc)];
      UniqueAppend(IndexKeys(docs), KeysOf(s.doc));
      docs := docs + [s];
      nextId := nextId + 1;
      r := Some(s);
    }

    /** `doc.save()` on the document with this id, now holding `u`: the password counts
        as modified when it differs from the stored one. Fails when the document is gone,
        when the hook fails, or when the indexes reject `u`. */
    method Save(id: UserId, u: UserDoc, salt: nat) returns (ok: bool)
      requires Valid()
      modifies this
      ensures Valid() && nextId == old(nextId)
      ensures var k := FindById(old(docs), id);
        if k.None? then !ok && docs == old(docs)
        else
          var saved := PreSave(u, u.password != old(docs)[k.value].doc.password, salt);
          if saved.Some? && Admits(old(docs), saved.value, k.value) then
            ok && docs == old(docs)[k.value := Stored(id, saved.value)]
          else
            !ok && docs == old(docs)
    {
      var k := FindById(docs, id);
      if k.None? {
        return false;
      }
      var n := k.value;
      var saved := PreSave(u, u.password != docs[n].doc.password, salt);
      if saved.None? || !Admits(docs, saved.value, n) {
        return false;
      }
      var s := Stored(id, saved.value);
      assert IndexKeys(docs[n := s]) == IndexKeys(docs)[n := KeysOf(s.doc)];
      UniqueUpdate(IndexKeys(docs), n, KeysOf(s.doc));
      docs := docs[n := s];
      ok := true;
    }

    /** `findByIdAndDelete(id)`: the removed document, or None when there is none. */
    method Delete(id: UserId) returns (r: Option<Stored>)
      requires Valid()
      modifies this
      ensures Valid() && nextId == old(nextId)
      ensures var k := FindById(old(docs), id);
        if k.None? then r.None? && docs == old(docs)
        else r == Some(old(docs)[k.value]) && docs == old(docs)[..k.value] + old(docs)[k.value + 1..]
    {
      var k := FindById(docs, id);
      if k.None? {
        return None;
      }
      var n := k.value;
      r := Some(docs[n]);
      assert IndexKeys(docs[..n] + docs[n + 1..]) == IndexKeys(docs)[..n] + IndexKeys(docs)[n + 1..];
      UniqueRemove(IndexKeys(docs), n);
      docs := docs[..n] + docs[n + 1..];
    }
  }
}
