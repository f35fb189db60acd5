/**
 * The account registry (app/services.py, `AuthService`): one hash per
 * account under `account:<user_id>` and a string index
 * `email:<normalised email>` holding the account's id.
 *
 * The identifier generator, the password hashing function and its salt
 * are parameters: the registry only stores and compares what they produce.
 */
module Auth {
  import opened Wrappers
  import opened Text
  import opened Keys
  import opened MockStore

  /** `email.lower().strip()`: the form every lookup and every stored account uses. */
  function NormalizeEmail(email: string): (r: string)
    ensures Lower(r) == r && Strip(r) == r
  {
    LowerStrip(Lower(email));
    LowerIdempotent(email);
    StripIdempotent(Lower(email));
    Strip(Lower(email))
  }

  /** Normalising an already normalised address changes nothing. */
  lemma NormalizeIdempotent(email: string)
    ensures NormalizeEmail(NormalizeEmail(email)) == NormalizeEmail(email)
  {
    var n := NormalizeEmail(email);
    LowerStrip(Lower(email));
    LowerIdempotent(email);
    StripIdempotent(Lower(email));
    calc {
      Strip(Lower(n));
      Strip(Strip(Lower(Lower(email))));
      Strip(Strip(Lower(email)));
      n;
    }
  }

  /**
   * The index key of an address: its prefix followed by the normalised
   * address itself (the second `lower()` in `email_index_key` changes nothing).
   */
  lemma IndexKeyOfNormalized(email: string)
    ensures EmailIndexKey(NormalizeEmail(email)) == EmailIndexPrefix + NormalizeEmail(email)
  {
    LowerStrip(Lower(email));
    LowerIdempotent(email);
  }

  /**
   * Two addresses share an account exactly when they normalise alike:
   * case and surrounding white space do not matter, anything else does.
   */
  lemma SameIndexKey(e1: string, e2: string)
    ensures EmailIndexKey(NormalizeEmail(e1)) == EmailIndexKey(NormalizeEmail(e2))
            <==> NormalizeEmail(e1) == NormalizeEmail(e2)
  {
    IndexKeyOfNormalized(e1);
    IndexKeyOfNormalized(e2);
    if EmailIndexKey(NormalizeEmail(e1)) == EmailIndexKey(NormalizeEmail(e2)) {
      var p := EmailIndexPrefix;
      assert (p + NormalizeEmail(e1))[|p|..] == NormalizeEmail(e1);
      assert (p + NormalizeEmail(e2))[|p|..] == NormalizeEmail(e2);
    }
  }

  /** The account hash `create_user` writes. */
  function AccountRecord(userId: string, email: string, passwordHash: string, now: int): (r: Fields) {
    map["user_id" := userId, "email" := email, "password_hash" := passwordHash, "created_at" := ShowInt(now)]
  }

  /**
   * What `get_user_by_id` gives back for an account `create_user` wrote:
   * every stored field except the hash.
   */
  lemma AccountViewOfCreated(hashes: map<string, Fields>, userId: string, email: string, passwordHash: string, now: int)
    requires HashOf(hashes, UserAccountKey(userId)) == AccountRecord(userId, email, passwordHash, now)
    ensures AccountView(hashes, userId) == Some(map["user_id" := userId, "email" := email, "created_at" := ShowInt(now)])
  {
    var view := map["user_id" := userId, "email" := email, "created_at" := ShowInt(now)];
    assert "user_id" in AccountRecord(userId, email, passwordHash, now);
    assert AccountRecord(userId, email, passwordHash, now) - {"password_hash"} == view;
  }

  /**
   * The registry's invariant: every index entry names an existing account
   * that stores the normalised address the entry is filed under.
   */
  ghost predicate IndexConsistent(data: map<string, string>, hashes: map<string, Fields>) {
    forall email :: EmailIndexKey(NormalizeEmail(email)) in data ==>
      && UserAccountKey(data[EmailIndexKey(NormalizeEmail(email))]) in hashes
      && Field(hashes[UserAccountKey(data[EmailIndexKey(NormalizeEmail(email))])], "email", "") == NormalizeEmail(email)
  }

  /**
   * `create_user` keeps the invariant when it registers a new address
   * under an identifier that has no account yet (a fresh `uuid4`).
   */
  lemma CreateUserKeepsIndex(data: map<string, string>, hashes: map<string, Fields>, email: string,
                             userId: string, passwordHash: string, now: int)
    requires IndexConsistent(data, hashes)
    requires EmailIndexKey(NormalizeEmail(email)) !in data
    requires UserAccountKey(userId) !in hashes
    ensures IndexConsistent(
      data[EmailIndexKey(NormalizeEmail(email)) := userId],
      hashes[UserAccountKey(userId) := HashOf(hashes, UserAccountKey(userId)) + AccountRecord(userId, NormalizeEmail(email), passwordHash, now)])
  {
    var emailKey := EmailIndexKey(NormalizeEmail(email));
    var accountKey := UserAccountKey(userId);
    var data' := data[emailKey := userId];
    var hashes' := hashes[accountKey := HashOf(hashes, accountKey) + AccountRecord(userId, NormalizeEmail(email), passwordHash, now)];
    forall other | EmailIndexKey(NormalizeEmail(other)) in data'
      ensures UserAccountKey(data'[EmailIndexKey(NormalizeEmail(other))]) in hashes'
      ensures Field(hashes'[UserAccountKey(data'[EmailIndexKey(NormalizeEmail(other))])], "email", "") == NormalizeEmail(other)
    {
      var otherKey := EmailIndexKey(NormalizeEmail(other));
      SameIndexKey(email, other);
      if otherKey != emailKey {
        var otherId := data[otherKey];
        assert UserAccountKey(otherId) in hashes;
        assert UserAccountKey(otherId) != accountKey;
      }
    }
  }

  /**
   * Writing or deleting a link record never touches the index or an
   * account, so the invariant survives every `LinkService` operation.
   */
  lemma LinkWritesKeepIndex(data: map<string, string>, hashes: map<string, Fields>, userId: string, code: string, record: Fields)
    requires IndexConsistent(data, hashes)
    ensures IndexConsistent(data, hashes[LinkKey(userId, code) := record])
    ensures IndexConsistent(data - {LinkKey(userId, code)}, hashes - {LinkKey(userId, code)})
  {
    var key := LinkKey(userId, code);
    forall email | EmailIndexKey(NormalizeEmail(email)) in data
      ensures UserAccountKey(data[EmailIndexKey(NormalizeEmail(email))]) != key
      ensures EmailIndexKey(NormalizeEmail(email)) != key
    {
      KeyFamiliesDisjoint(userId, code, data[EmailIndexKey(NormalizeEmail(email))], "", NormalizeEmail(email));
    }
  }

  /** The user dictionaries `create_user` and `verify_user` return; they never carry the hash. */
  datatype UserView = UserView(userId: string, email: Option<string>, createdAt: Option<string>)

  /**
   * `get_user_by_id` on a value: the stored account without its
   * `password_hash`, None when there is no account (an empty hash).
   */
  function AccountView(hashes: map<string, Fields>, userId: string): (r: Option<Fields>)
    ensures r.None? <==> HashOf(hashes, UserAccountKey(userId)) == map[]
    ensures r.Some? ==> "password_hash" !in r.value
    ensures r.Some? ==> forall f :: f in r.value <==> f in HashOf(hashes, UserAccountKey(userId)) && f != "password_hash"
    ensures r.Some? ==> forall f :: f in r.value ==> r.value[f] == HashOf(hashes, UserAccountKey(userId))[f]
  {
    var record := HashOf(hashes, UserAccountKey(userId));
    if record == map[] then None else Some(record - {"password_hash"})
  }

  /**
   * The id the index holds for an address, None when the index has no
   * entry or an empty one (`if not user_id`).
   */
  function IndexedId(data: map<string, string>, email: string): (r: Option<string>)
    ensures r.Some? <==> EmailIndexKey(NormalizeEmail(email)) in data && data[EmailIndexKey(NormalizeEmail(email))] != ""
    ensures r.Some? ==> r.value == data[EmailIndexKey(NormalizeEmail(email))]
  {
    var emailKey := EmailIndexKey(NormalizeEmail(email));
    if emailKey in data && data[emailKey] != "" then Some(data[emailKey]) else None
  }

  class AuthService {
    const db: Store

    constructor (db: Store)
      ensures this.db == db
    {
      this.db := db;
    }

    /**
     * `create_user`: refuses an address whose index key exists, changing
     * nothing; otherwise writes the account hash, then the index entry.
     * `userId` is the fresh identifier and `hashpw(password, salt)` the
     * stored password hash.
     */
    method CreateUser(email: string, password: string, userId: string,
                      hashpw: (string, string) -> string, salt: string, now: int)
      returns (r: Option<UserView>)
      modifies db
      ensures r.None? <==> old(db.Exists(EmailIndexKey(NormalizeEmail(email))))
      ensures r.None? ==> unchanged(db)
      ensures r.Some? ==> r.value == UserView(userId, Some(NormalizeEmail(email)), Some(ShowInt(now)))
      ensures r.Some? ==> db.hashes == old(db.hashes)[UserAccountKey(userId) :=
                old(HashOf(db.hashes, UserAccountKey(userId))) + AccountRecord(userId, NormalizeEmail(email), hashpw(password, salt), now)]
      ensures r.Some? ==> db.data == old(db.data)[EmailIndexKey(NormalizeEmail(email)) := userId]
      ensures db.sets == old(db.sets)
    {
      var normalized := NormalizeEmail(email);
      var emailKey := EmailIndexKey(normalized);
      if db.Exists(emailKey) {
        return None;
      }
      var passwordHash := hashpw(password, salt);
      var accountKey := UserAccountKey(userId);
      var _ := db.HashSetMapping(accountKey, AccountRecord(userId, normalized, passwordHash, now));
      db.SetValue(emailKey, userId);
      r := Some(UserView(userId, Some(normalized), Some(ShowInt(now))));
    }

    /**
     * `verify_user`: the account's view when the index names an account
     * whose hash is non-empty, holds a non-empty `password_hash`, and
     * `checkpw` accepts the password against it; None otherwise.
     */
    method VerifyUser(email: string, password: string, checkpw: (string, string) -> bool)
      returns (r: Option<UserView>)
      ensures IndexedId(db.data, email).None? ==> r.None?
      ensures IndexedId(db.data, email).Some? ==>
        var record := HashOf(db.hashes, UserAccountKey(IndexedId(db.data, email).value));
        var stored := Field(record, "password_hash", "");
        && (r.Some? <==> record != map[] && stored != "" && checkpw(password, stored))
        && (r.Some? ==> r.value == UserView(IndexedId(db.data, email).value, FieldOpt(record, "email"), FieldOpt(record, "created_at")))
    {
      var emailKey := EmailIndexKey(NormalizeEmail(email));
      var userId := db.Get(emailKey);
      if userId.None? || userId.value == "" {
        return None;
      }
      var userData := db.HashGetAll(UserAccountKey(userId.value));
      if userData == map[] {
        return None;
      }
      var storedHash := Field(userData, "password_hash", "");
      if storedHash == "" {
        return None;
      }
      if !checkpw(password, storedHash) {
        return None;
      }
      r := Some(UserView(userId.value, FieldOpt(userData, "email"), FieldOpt(userData, "created_at")));
    }

    /** `get_user_by_id`: the stored account minus its password hash. */
    method GetUserById(userId: string) returns (r: Option<Fields>)
      ensures r == AccountView(db.hashes, userId)
    {
      var userData := db.HashGetAll(UserAccountKey(userId));
      if userData == map[] {
        return None;
      }
      r := Some(userData - {"password_hash"});
    }

    /** `get_user_by_email`: follows the index, then reads the account as `get_user_by_id`. */
    method GetUserByEmail(email: string) returns (r: Option<Fields>)
      ensures IndexedId(db.data, email).None? ==> r.None?
      ensures IndexedId(db.data, email).Some? ==> r == AccountView(db.hashes, IndexedId(db.data, email).value)
    {
      var userId := db.Get(EmailIndexKey(NormalizeEmail(email)));
      if userId.None? || userId.value == "" {
        return None;
      }
      r := GetUserById(userId.value);
    }

    /** `email_exists`: whether the normalised address has an index key. */
    method EmailExists(email: string) returns (b: bool)
      ensures b <==> db.Exists(EmailIndexKey(NormalizeEmail(email)))
    {
      b := db.Exists(EmailIndexKey(NormalizeEmail(email)));
    }
  }
}
