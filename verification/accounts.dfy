/** What the User and Admin collections share: bcrypt password hashing, stated
    symbolically, and the sparse unique indexes on email, hubspotId, zohoId and
    linkedinId. */
module Accounts {
  import opened Prelude

  /** A password value as a collection stores it. bcrypt is a foreign library, so a hash
      is kept as the term it was computed from: `Hashed(p, salt)` is what
      `bcrypt.hash(p, salt)` returns. A hash is itself a string and can be hashed again. */
  datatype Secret = Plain(text: string) | Hashed(of: Secret, salt: nat)

  /** `bcrypt.compare(candidate, stored)`: true exactly when `stored` is a hash of the
      plain candidate. */
  predicate Compare(candidate: string, stored: Secret) {
    stored.Hashed? && stored.of == Plain(candidate)
  }

  /** The password, if set, is a bcrypt hash (what every pre-save hook leaves behind). */
  predicate AtRest(password: Option<Secret>) {
    password.None? || password.value.Hashed?
  }

  /** A hash of a hash never accepts the original plain password. */
  lemma DoubleHashRejects(p: string, s1: nat, s2: nat)
    ensures !Compare(p, Hashed(Hashed(Plain(p), s1), s2))
  {
  }

  /** A single hash accepts exactly the password it was made from. */
  lemma SingleHashAccepts(p: string, q: string, s: nat)
    ensures Compare(q, Hashed(Plain(p), s)) <==> q == p
  {
  }

  /** The values an account's unique sparse indexes see. */
  datatype Keys = Keys(email: Option<string>, hubspotId: Option<string>,
                       zohoId: Option<string>, linkedinId: Option<string>)

  datatype KeyField = Email | HubspotId | ZohoId | LinkedinId

  function KeyOf(k: Keys, f: KeyField): Option<string> {
    match f
    case Email => k.email
    case HubspotId => k.hubspotId
    case ZohoId => k.zohoId
    case LinkedinId => k.linkedinId
  }

  /** Two accounts violate a `unique: true, sparse: true` index: some field is present in
      both with the same value. An absent field never collides. */
  predicate Clash(a: Keys, b: Keys) {
    || (a.email.Some? && a.email == b.email)
    || (a.hubspotId.Some? && a.hubspotId == b.hubspotId)
    || (a.zohoId.Some? && a.zohoId == b.zohoId)
    || (a.linkedinId.Some? && a.linkedinId == b.linkedinId)
  }

  /** A clash is a shared present value on one of the four indexed fields, and it is
      symmetric. */
  lemma ClashMeansSharedPresentKey(a: Keys, b: Keys)
    ensures Clash(a, b) <==> exists f :: KeyOf(a, f).Some? && KeyOf(a, f) == KeyOf(b, f)
    ensures Clash(a, b) <==> Clash(b, a)
  {
    if Clash(a, b) {
      if a.email.Some? && a.email == b.email {
        assert KeyOf(a, Email).Some? && KeyOf(a, Email) == KeyOf(b, Email);
      } else if a.hubspotId.Some? && a.hubspotId == b.hubspotId {
        assert KeyOf(a, HubspotId).Some? && KeyOf(a, HubspotId) == KeyOf(b, HubspotId);
      } else if a.zohoId.Some? && a.zohoId == b.zohoId {
        assert KeyOf(a, ZohoId).Some? && KeyOf(a, ZohoId) == KeyOf(b, ZohoId);
      } else {
        assert KeyOf(a, LinkedinId).Some? && KeyOf(a, LinkedinId) == KeyOf(b, LinkedinId);
      }
    }
  }

  /** Accounts with no indexed field set never clash with anything. */
  lemma AbsentKeysNeverClash(a: Keys, b: Keys)
    requires a == Keys(None, None, None, None) || b == Keys(None, None, None, None)
    ensures !Clash(a, b)
  {
  }

  /** The sparse unique indexes hold over a whole collection. */
  predicate Unique(ks: seq<Keys>) {
    forall i, j :: 0 <= i < j < |ks| ==> !Clash(ks[i], ks[j])
  }

  /** An update the indexes accept keeps the collection unique. */
  lemma {:induction false} UniqueUpdate(ks: seq<Keys>, n: nat, k: Keys)
    requires Unique(ks) && n < |ks|
    requires forall i :: 0 <= i < |ks| && i != n ==> !Clash(ks[i], k)
    ensures Unique(ks[n := k])
  {
    var updated := ks[n := k];
    forall i, j | 0 <= i < j < |updated|
      ensures !Clash(updated[i], updated[j])
    {
      if j == n {
        assert !Clash(ks[i], k);
      } else if i == n {
        assert !Clash(ks[j], k);
        ClashMeansSharedPresentKey(ks[j], k);
      }
    }
  }

  /** Removing an account keeps the collection unique. */
  lemma UniqueRemove(ks: seq<Keys>, n: nat)
    requires Unique(ks) && n < |ks|
    ensures Unique(ks[..n] + ks[n + 1..])
  {
    var r := ks[..n] + ks[n + 1..];
    forall i, j | 0 <= i < j < |r|
      ensures !Clash(r[i], r[j])
    {
      var i' := if i < n then i else i + 1;
      var j' := if j < n then j else j + 1;
      assert r[i] == ks[i'] && r[j] == ks[j'];
    }
  }

  /** An insert the indexes accept keeps the collection unique. */
  lemma {:induction false} UniqueAppend(ks: seq<Keys>, k: Keys)
    requires Unique(ks)
    requires forall i :: 0 <= i < |ks| ==> !Clash(ks[i], k)
    ensures Unique(ks + [k])
  {
    forall i, j | 0 <= i < j < |ks + [k]|
      ensures !Clash((ks + [k])[i], (ks + [k])[j])
    {
      if j == |ks| {
        assert (ks + [k])[j] == k;
        assert (ks + [k])[i] == ks[i];
      } else {
        assert (ks + [k])[i] == ks[i] && (ks + [k])[j] == ks[j];
      }
    }
  }
}
