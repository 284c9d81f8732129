/**
 * The `User` schema: normalisation (trim, lower-case), defaults, required
 * fields (password and NID only for accounts without a Google id), enums,
 * and the pre-save hook that hashes the password only when it changed. The
 * hash is a parameter; bcrypt itself is not part of this model.
 */
module UserModel {
  import opened Wrappers
  import opened Text

  datatype UserDoc = UserDoc(
    name: Option<string>, email: Option<string>, password: Option<string>,
    nid: Option<string>, contact: Option<string>, googleId: Option<string>,
    role: Option<string>, emailVerified: Option<bool>, phoneVerified: Option<bool>,
    nidVerified: Option<bool>, status: Option<string>)

  const Roles: set<string> := {"user", "admin"}
  const AccountStatuses: set<string> := {"active", "suspended", "deleted"}

  /** The `trim` setter: applied to a value that is present. */
  function TrimmedOpt(s: Option<string>): Option<string> {
    if s.Some? then Some(Trim(s.value)) else None
  }

  /** The `lowercase` and `trim` setters of the email path. The two commute
      (see `Text.TrimToLowerCommute`), so their order does not matter. */
  function EmailSetters(s: Option<string>): Option<string> {
    if s.Some? then Some(ToLower(Trim(s.value))) else None
  }

  /** `!this.googleId` is false: the account has a non-empty Google id. */
  predicate HasGoogleId(u: UserDoc) {
    u.googleId.Some? && u.googleId.value != ""
  }

  /** What casting a document through the schema does: the `trim` and
      `lowercase` setters, then the defaults for absent fields. */
  function Normalize(u: UserDoc): (r: UserDoc)
    ensures r.password == u.password && r.googleId == u.googleId
    ensures r.name.Some? == u.name.Some? && r.email.Some? == u.email.Some?
    ensures r.nid.Some? == u.nid.Some? && r.contact.Some? == u.contact.Some?
    ensures u.name.Some? ==> r.name == Some(Trim(u.name.value))
    ensures u.email.Some? ==> r.email == Some(ToLower(Trim(u.email.value)))
    ensures u.nid.Some? ==> r.nid == Some(Trim(u.nid.value))
    ensures u.contact.Some? ==> r.contact == Some(Trim(u.contact.value))
    ensures r.role.Some? && r.status.Some?
    ensures r.emailVerified.Some? && r.phoneVerified.Some? && r.nidVerified.Some?
    ensures u.role.Some? ==> r.role == u.role
    ensures u.status.Some? ==> r.status == u.status
    ensures u.emailVerified.Some? ==> r.emailVerified == u.emailVerified
    ensures u.phoneVerified.Some? ==> r.phoneVerified == u.phoneVerified
    ensures u.nidVerified.Some? ==> r.nidVerified == u.nidVerified
    ensures u.role.None? ==> r.role == Some("user")
    ensures u.status.None? ==> r.status == Some("active")
    ensures u.emailVerified.None? ==> r.emailVerified == Some(false)
    ensures u.phoneVerified.None? ==> r.phoneVerified == Some(false)
    ensures u.nidVerified.None? ==> r.nidVerified == Some(false)
  {
    UserDoc(
      TrimmedOpt(u.name), EmailSetters(u.email), u.password,
      TrimmedOpt(u.nid), TrimmedOpt(u.contact), u.googleId,
      Some(u.role.GetOr("user")), Some(u.emailVerified.GetOr(false)),
      Some(u.phoneVerified.GetOr(false)), Some(u.nidVerified.GetOr(false)),
      Some(u.status.GetOr("active")))
  }

  /** The stored email has no upper-case letter and no surrounding whitespace. */
  lemma EmailNormalized(u: UserDoc)
    requires u.email.Some?
    ensures var e := Normalize(u).email.value;
      (forall i :: 0 <= i < |e| ==> !('A' <= e[i] <= 'Z')) && Trim(e) == e
  {
    var t := Trim(u.email.value);
    assert Normalize(u).email == Some(ToLower(t));
    TrimToLowerCommute(t);
    TrimIdempotent(u.email.value);
  }

  /** Normalising a normalised document changes nothing. */
  lemma NormalizeIdempotent(u: UserDoc)
    ensures Normalize(Normalize(u)) == Normalize(u)
  {
    if u.name.Some? { TrimIdempotent(u.name.value); }
    if u.nid.Some? { TrimIdempotent(u.nid.value); }
    if u.contact.Some? { TrimIdempotent(u.contact.value); }
    if u.email.Some? {
      var t := Trim(u.email.value);
      TrimToLowerCommute(t);
      TrimIdempotent(u.email.value);
      ToLowerIdempotent(t);
    }
  }

  /** The schema's paths whose validator rejects `u` (the unique index on
      email is the database's concern, not the validator's). */
  function ValidationErrors(u: UserDoc): (e: set<string>)
    ensures HasGoogleId(u) ==> "password" !in e && "nid" !in e
    ensures u.role.None? ==> "role" !in e
    ensures u.status.None? ==> "status" !in e
    ensures !RequiredString(u.name) ==> "name" in e
    ensures !RequiredString(u.email) ==> "email" in e
    ensures u.role.Some? && u.role.value !in Roles ==> "role" in e
    ensures u.status.Some? && u.status.value !in AccountStatuses ==> "status" in e
  {
    (if !RequiredString(u.name) then {"name"} else {})
    + (if !RequiredString(u.email) then {"email"} else {})
    + (if !HasGoogleId(u) && !RequiredString(u.password) then {"password"} else {})
    + (if !HasGoogleId(u) && !RequiredString(u.nid) then {"nid"} else {})
    + (if u.role.Some? && u.role.value !in Roles then {"role"} else {})
    + (if u.status.Some? && u.status.value !in AccountStatuses then {"status"} else {})
  }

  /** A document the schema accepts. */
  predicate Valid(u: UserDoc) {
    ValidationErrors(u) == {}
  }

  /** The schema accepts a user exactly when name and email are non-empty,
      an account without a Google id has a password and an NID, and a role
      or status, if set, is from its enum. */
  lemma ValidIff(u: UserDoc)
    ensures Valid(u) <==>
      && RequiredString(u.name) && RequiredString(u.email)
      && (HasGoogleId(u) || (RequiredString(u.password) && RequiredString(u.nid)))
      && (u.role.None? || u.role.value in Roles)
      && (u.status.None? || u.status.value in AccountStatuses)
  {
    if Valid(u) {
      assert "name" !in ValidationErrors(u);
      assert "email" !in ValidationErrors(u);
      assert "password" !in ValidationErrors(u);
      assert "nid" !in ValidationErrors(u);
      assert "role" !in ValidationErrors(u);
      assert "status" !in ValidationErrors(u);
    }
  }

  /** Password and NID are required exactly for accounts without a Google id. */
  lemma PasswordRequiredWithoutGoogle(u: UserDoc)
    ensures "password" in ValidationErrors(Normalize(u)) <==> !HasGoogleId(u) && !RequiredString(u.password)
  {
  }

  lemma NidRequiredWithoutGoogle(u: UserDoc)
    ensures "nid" in ValidationErrors(Normalize(u)) <==>
      !HasGoogleId(u) && (u.nid.None? || Trim(u.nid.value) == "")
  {
  }

  /** A name of only whitespace is trimmed to "" and then fails `required`. */
  lemma BlankNameRejected(u: UserDoc)
    requires u.name.Some? && IsBlank(u.name.value)
    ensures "name" in ValidationErrors(Normalize(u))
  {
  }

  /** The defaults pass their enums: a role or status left for Mongoose to
      fill is never reported, whatever the other fields hold. */
  lemma DefaultsHold(u: UserDoc)
    ensures u.role.None? ==> "role" !in ValidationErrors(Normalize(u))
    ensures u.status.None? ==> "status" !in ValidationErrors(Normalize(u))
  {
  }

  /** A saved user document, as far as the pre-save hook sees it. */
  class UserRecord {
    var password: Option<string>
    /** `this.isModified("password")` */
    var passwordModified: bool

    /** A new document: its password, if given, counts as modified. */
    constructor (password: Option<string>)
      ensures this.password == password && passwordModified == password.Some?
    {
      this.password := password;
      passwordModified := password.Some?;
    }

    /** Assigning a password: Mongoose marks the path modified only when the
        value differs from the current one. */
    method SetPassword(p: string)
      modifies this
      ensures password == Some(p)
      ensures passwordModified == (old(passwordModified) || old(password) != Some(p))
    {
      passwordModified := passwordModified || password != Some(p);
      password := Some(p);
    }

    /** The pre-save hook: unless the password was modified it is left alone;
        otherwise it is replaced by its hash. Hashing an absent password
        throws, which fails the save. */
    method PreSave(hash: (string, string) -> string, salt: string) returns (ok: bool)
      modifies this`password
      ensures !old(passwordModified) ==> ok && password == old(password)
      ensures old(passwordModified) && old(password).Some? ==>
        ok && password == Some(hash(old(password).value, salt))
      ensures old(passwordModified) && old(password).None? ==> !ok && password == old(password)
    {
      if !passwordModified {
        return true;
      }
      if password.None? {
        return false;
      }
      password := Some(hash(password.value, salt));
      ok := true;
    }

    /** `save()`: Mongoose first validates the document (`passesValidation`
        says whether `ValidationErrors` of the cast document is empty); a
        document that fails is not saved and nothing changes. Otherwise the
        hook runs and, when it succeeds, the document is stored and no path
        counts as modified any more. */
    method Save(passesValidation: bool, hash: (string, string) -> string, salt: string) returns (ok: bool)
      modifies this
      ensures !passesValidation ==>
        !ok && password == old(password) && passwordModified == old(passwordModified)
      ensures passesValidation && !old(passwordModified) ==> ok && password == old(password)
      ensures passesValidation && old(passwordModified) && old(password).Some? ==>
        ok && password == Some(hash(old(password).value, salt))
      ensures passesValidation && old(passwordModified) && old(password).None? ==>
        !ok && password == old(password) && passwordModified
      ensures ok ==> !passwordModified
    {
      if !passesValidation {
        return false;
      }
      ok := PreSave(hash, salt);
      if ok {
        passwordModified := false;
      }
    }
  }

  /** Assigning the stored hash back to a saved document does not mark the
      password modified, so the next save keeps the hash rather than hashing
      it again. */
  method ReassignKeepsHash(hash: (string, string) -> string, p: string, salt1: string, salt2: string)
    returns (stored: Option<string>)
    ensures stored == Some(hash(p, salt1))
  {
    var u := new UserRecord(Some(p));
    var ok1 := u.Save(true, hash, salt1);
    u.SetPassword(hash(p, salt1));
    var ok2 := u.Save(true, hash, salt2);
    stored := u.password;
  }

  /** Saving a document twice hashes its password once: the second save sees
      an unmodified password and keeps the stored hash. */
  method SaveTwiceHashesOnce(hash: (string, string) -> string, p: string, salt1: string, salt2: string)
    returns (stored: Option<string>)
    ensures stored == Some(hash(p, salt1))
  {
    var u := new UserRecord(Some(p));
    var ok1 := u.Save(true, hash, salt1);
    var ok2 := u.Save(true, hash, salt2);
    stored := u.password;
  }
}
