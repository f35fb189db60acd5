/**
 * The link registry (app/services.py, `LinkService`): per-owner link records
 * stored as hashes under `link:<owner>:<code>`, a per-owner set of codes under
 * `user:<owner>:links`, and lookups by code that scan `link:*:<code>`.
 *
 * The value-level definitions come first; `LinkService` then runs them as
 * sequences of single-key store operations.
 */
module Links {
  import opened Wrappers
  import opened Text
  import opened Keys
  import opened Expiry
  import opened MockStore

  /** `max_attempts` of `_generate_short_code`. */
  const MaxAttempts: nat := 1000
  /** The default `length` of a generated code. */
  const CodeLength: nat := 6

  /** `string.ascii_letters + string.digits`. */
  predicate IsCodeChar(c: char) {
    'a' <= c <= 'z' || 'A' <= c <= 'Z' || '0' <= c <= '9'
  }

  /** What `random.choice` can produce: six characters of the alphabet. */
  predicate GeneratedShape(code: string) {
    |code| == CodeLength && forall i :: 0 <= i < |code| ==> IsCodeChar(code[i])
  }

  /** A draw of the generator for every attempt, as `random.choice` would give them. */
  predicate ValidDraws(candidates: seq<string>) {
    |candidates| >= MaxAttempts && forall i :: 0 <= i < |candidates| ==> GeneratedShape(candidates[i])
  }

  /** `is_expired(link_data.get("expires_at", ""))`. */
  predicate RecordExpired(record: Fields, now: int) {
    IsExpired(Some(Field(record, "expires_at", "")), now)
  }

  /** The record under `key` exists (is a non-empty hash) and has not expired. */
  predicate Live(hashes: map<string, Fields>, key: string, now: int) {
    HashOf(hashes, key) != map[] && !RecordExpired(HashOf(hashes, key), now)
  }

  /** `_link_exists(code)`: some record the scan for `code` finds is live. */
  ghost predicate CodeTaken(hashes: map<string, Fields>, code: string, now: int) {
    exists k :: MatchesLinkPattern(k, code) && Live(hashes, k, now)
  }

  /** Global uniqueness: no plain code has two live records, whatever their owners. */
  ghost predicate CodesUnique(hashes: map<string, Fields>, now: int) {
    forall code, k1, k2 ::
      (PlainCode(code) && MatchesLinkPattern(k1, code) && MatchesLinkPattern(k2, code)
       && Live(hashes, k1, now) && Live(hashes, k2, now)) ==> k1 == k2
  }

  /** `keys` is a `list_keys` answer for `code` over the keys `present`: the right keys, in any order. */
  ghost predicate IsListing(keys: seq<string>, present: set<string>, code: string) {
    forall k :: k in keys <==> k in present && MatchesLinkPattern(k, code)
  }

  /** `get_link` once the scan has answered `keys`: only the first key is looked at. */
  function LookupFirst(hashes: map<string, Fields>, keys: seq<string>, now: int): (r: Option<Fields>)
    ensures r.Some? <==> keys != [] && Live(hashes, keys[0], now)
    ensures r.Some? ==> r.value == HashOf(hashes, keys[0]) && r.value != map[]
  {
    if keys == [] then None
    else
      var record := HashOf(hashes, keys[0]);
      if record == map[] || RecordExpired(record, now) then None else Some(record)
  }

  /** `get_link_owner` once the scan has answered `keys`: the first key's `user_id`, expired or not. */
  function OwnerOfFirst(hashes: map<string, Fields>, keys: seq<string>): (r: Option<string>)
    ensures r.Some? <==> keys != [] && "user_id" in HashOf(hashes, keys[0])
    ensures r.Some? ==> r.value == HashOf(hashes, keys[0])["user_id"]
    ensures forall now :: LookupFirst(hashes, keys, now).Some? ==> r == FieldOpt(LookupFirst(hashes, keys, now).value, "user_id")
  {
    if keys == [] then None
    else
      var record := HashOf(hashes, keys[0]);
      if record == map[] then None else FieldOpt(record, "user_id")
  }

  /** The mapping `create_link` writes. */
  function NewRecord(userId: string, url: string, now: int, expiresAt: Option<int>): (r: Fields) {
    map["url" := url, "created_at" := ShowInt(now), "expires_at" := StoredExpiry(expiresAt), "user_id" := userId]
  }

  /** `if custom_code:` — an absent or empty custom code asks for a generated one. */
  predicate CustomGiven(customCode: Option<string>) {
    customCode.Some? && customCode.value != ""
  }

  /** The set of codes `get_user_links` reports: listed for the owner and backed by a record. */
  function BackedCodes(hashes: map<string, Fields>, userId: string, codes: set<string>): (r: set<string>) {
    set c | c in codes && HashOf(hashes, LinkKey(userId, c)) != map[]
  }

  /** The dictionary `create_link` returns. */
  datatype CreatedLink = CreatedLink(shortCode: string, url: string, createdAt: int, expiresAt: Option<int>)

  /** The three ways `create_link` raises. */
  datatype LinkError =
    | UrlRequired      // ValueError("URL is required")
    | CodeExists       // ValueError("Short code already exists")
    | CodesExhausted   // Exception("Failed to generate unique short code")

  /** One entry of `get_user_links`: the stored fields tagged with `short_code` and `is_expired`. */
  datatype ListedLink = ListedLink(fields: Fields, shortCode: string, isExpired: bool)

  // ------------------------------------------------------------------ lemmas

  /** Every generated code is safe to scan with. */
  lemma GeneratedIsPlain(code: string)
    requires GeneratedShape(code)
    ensures PlainCode(code)
  {
  }

  /**
   * Creating a record for a code that is not taken keeps codes unique,
   * whatever the new record holds.
   */
  lemma CreatePreservesUniqueness(hashes: map<string, Fields>, userId: string, code: string, record: Fields, now: int)
    requires CodesUnique(hashes, now)
    requires PlainCode(code) && !CodeTaken(hashes, code, now)
    ensures CodesUnique(hashes[LinkKey(userId, code) := record], now)
  {
    var key := LinkKey(userId, code);
    var after := hashes[key := record];
    forall c, k1, k2 |
      PlainCode(c) && MatchesLinkPattern(k1, c) && MatchesLinkPattern(k2, c)
      && Live(after, k1, now) && Live(after, k2, now)
      ensures k1 == k2
    {
      if k1 != key && k2 != key {
        assert Live(hashes, k1, now) && Live(hashes, k2, now);
      } else if k1 != k2 {
        var other := if k1 == key then k2 else k1;
        PlainPatternsSeparate(userId, code, c);
        assert Live(hashes, other, now) && MatchesLinkPattern(other, code);
        assert false;
      }
    }
  }

  /** Removing a record keeps codes unique. */
  lemma DeletePreservesUniqueness(hashes: map<string, Fields>, key: string, now: int)
    requires CodesUnique(hashes, now)
    ensures CodesUnique(hashes - {key}, now)
  {
    forall c, k1, k2 |
      PlainCode(c) && MatchesLinkPattern(k1, c) && MatchesLinkPattern(k2, c)
      && Live(hashes - {key}, k1, now) && Live(hashes - {key}, k2, now)
      ensures k1 == k2
    {
      assert Live(hashes, k1, now) && Live(hashes, k2, now);
    }
  }
  /**
   * `create_user`'s account write never touches a link key, so code
   * uniqueness survives it: no live record appears or disappears.
   */
  lemma AccountWriteKeepsUniqueness(hashes: map<string, Fields>, userId: string, record: Fields, now: int)
    requires CodesUnique(hashes, now)
    ensures CodesUnique(hashes[UserAccountKey(userId) := record], now)
  {
    var accountKey := UserAccountKey(userId);
    var after := hashes[accountKey := record];
    assert accountKey[0] == UserAccountPrefix[0] == 'a';
    forall c, k1, k2 |
      PlainCode(c) && MatchesLinkPattern(k1, c) && MatchesLinkPattern(k2, c)
      && Live(after, k1, now) && Live(after, k2, now)
      ensures k1 == k2
    {
      assert k1[0] == LinkKeyPrefix[0] == 'l' && k2[0] == LinkKeyPrefix[0] == 'l';
      assert HashOf(after, k1) == HashOf(hashes, k1) && HashOf(after, k2) == HashOf(hashes, k2);
      assert Live(hashes, k1, now) && Live(hashes, k2, now);
    }
  }


  /** As the clock advances records only expire, so uniqueness survives. */
  lemma UniquenessPersists(hashes: map<string, Fields>, now: int, later: int)
    requires now <= later && CodesUnique(hashes, now)
    ensures CodesUnique(hashes, later)
  {
    forall c, k1, k2 |
      PlainCode(c) && MatchesLinkPattern(k1, c) && MatchesLinkPattern(k2, c)
      && Live(hashes, k1, later) && Live(hashes, k2, later)
      ensures k1 == k2
    {
      LiveEarlier(hashes, k1, now, later);
      LiveEarlier(hashes, k2, now, later);
    }
  }

  /** A record live at some instant was live at every earlier one. */
  lemma LiveEarlier(hashes: map<string, Fields>, key: string, now: int, later: int)
    requires now <= later && Live(hashes, key, later)
    ensures Live(hashes, key, now)
  {
    ExpiredStaysExpired(Some(Field(HashOf(hashes, key), "expires_at", "")), now, later);
  }

  /**
   * The record `create_link` writes is live, and so holds its code, until
   * the stored expiry passes; an expiry of None or 0 never passes.
   */
  lemma CreatedRecordLive(hashes: map<string, Fields>, userId: string, code: string, url: string,
                          createdAt: int, expiresAt: Option<int>, now: int)
    ensures var key := LinkKey(userId, code);
            var after := hashes[key := HashOf(hashes, key) + NewRecord(userId, url, createdAt, expiresAt)];
            && (Live(after, key, now) <==> !(expiresAt.Some? && expiresAt.value != 0 && now > expiresAt.value))
            && (Live(after, key, now) ==> CodeTaken(after, code, now))
            && OwnerOfFirst(after, [key]) == Some(userId)
            && "url" in HashOf(after, key) && HashOf(after, key)["url"] == url
  {
    var key := LinkKey(userId, code);
    var record := HashOf(hashes, key) + NewRecord(userId, url, createdAt, expiresAt);
    var after := hashes[key := record];
    assert HashOf(after, key) == record;
    assert "url" in record && record["expires_at"] == StoredExpiry(expiresAt) && record["user_id"] == userId;
    StoredExpiryReadsBack(expiresAt, now);
  }

  /**
   * A code whose only record has expired is free again: the expired record
   * does not block a new `create_link` with that code.
   */
  lemma ExpiredCodeIsFree(hashes: map<string, Fields>, key: string, code: string, now: int)
    requires MatchesLinkPattern(key, code) && HashOf(hashes, key) != map[] && RecordExpired(HashOf(hashes, key), now)
    requires forall k :: MatchesLinkPattern(k, code) && k in hashes ==> k == key
    ensures !CodeTaken(hashes, code, now)
  {
  }

  /**
   * When the scan finds a single key, both lookups are determined: `get_link`
   * returns its record exactly when it is live, `get_link_owner` its owner.
   */
  lemma SoleRecordLookup(hashes: map<string, Fields>, present: set<string>, keys: seq<string>, code: string, key: string, now: int)
    requires IsListing(keys, present, code)
    requires key in present && MatchesLinkPattern(key, code)
    requires forall k :: k in present && MatchesLinkPattern(k, code) ==> k == key
    ensures keys != [] && keys[0] == key
    ensures LookupFirst(hashes, keys, now) == (if Live(hashes, key, now) then Some(HashOf(hashes, key)) else None)
    ensures OwnerOfFirst(hashes, keys) == (if HashOf(hashes, key) == map[] then None else FieldOpt(HashOf(hashes, key), "user_id"))
  {
    assert key in keys;
    assert keys[0] in keys;
  }

  /** With nothing under the code, both lookups answer None: the code is "not found". */
  lemma NoRecordLookup(hashes: map<string, Fields>, present: set<string>, keys: seq<string>, code: string, now: int)
    requires IsListing(keys, present, code)
    ensures (forall k :: k in present ==> !MatchesLinkPattern(k, code)) ==>
      keys == [] && LookupFirst(hashes, keys, now).None? && OwnerOfFirst(hashes, keys).None?
  {
    if keys != [] {
      assert keys[0] in keys;
    }
  }

  /** A record `get_link` returns is a live record stored under a key with that code. */
  lemma LookupFirstSound(hashes: map<string, Fields>, present: set<string>, keys: seq<string>, code: string, now: int)
    requires IsListing(keys, present, code)
    requires LookupFirst(hashes, keys, now).Some?
    ensures Live(hashes, keys[0], now) && MatchesLinkPattern(keys[0], code)
    ensures LookupFirst(hashes, keys, now).value == HashOf(hashes, keys[0])
    ensures CodeTaken(hashes, code, now)
  {
    assert keys[0] in keys;
  }

  /**
   * The first-key quirk: once user "a"'s record for "x" has expired and user
   * "b" has reused the code, a scan that lists "a"'s key first makes
   * `get_link` answer None for a live code, and `get_link_owner` name "a".
   */
  lemma ExpiredRecordShadowsLive()
    ensures var expired := LinkKey("a", "x");
            var live := LinkKey("b", "x");
            var hashes := map[expired := NewRecord("a", "https://a.example", 0, Some(5)),
                              live := NewRecord("b", "https://b.example", 20, None)];
            && IsListing([expired, live], hashes.Keys, "x")
            && Live(hashes, live, 30) && CodeTaken(hashes, "x", 30)
            && LookupFirst(hashes, [expired, live], 30).None?
            && OwnerOfFirst(hashes, [expired, live]) == Some("a")
  {
    var expired := LinkKey("a", "x");
    var live := LinkKey("b", "x");
    var hashes := map[expired := NewRecord("a", "https://a.example", 0, Some(5)),
                      live := NewRecord("b", "https://b.example", 20, None)];
    assert expired != live by {
      LinkKeyOwnerInjective("a", "b", "x");
    }
    StoredExpiryReadsBack(Some(5), 30);
    StoredExpiryReadsBack(None, 30);
    assert HashOf(hashes, expired) == NewRecord("a", "https://a.example", 0, Some(5));
    assert HashOf(hashes, live) == NewRecord("b", "https://b.example", 20, None);
    assert "url" in HashOf(hashes, live);
    assert RecordExpired(HashOf(hashes, expired), 30);
    assert Live(hashes, live, 30);
    forall k ensures k in [expired, live] <==> k in hashes.Keys && MatchesLinkPattern(k, "x") {
    }
  }

  /** The codes a listing mentions. */
  function CodesOf(links: seq<ListedLink>): (r: set<string>) {
    set i | 0 <= i < |links| :: links[i].shortCode
  }

  /** Appending an entry adds its code; a code not yet mentioned keeps the codes distinct. */
  lemma AppendEntry(links: seq<ListedLink>, entry: ListedLink)
    ensures CodesOf(links + [entry]) == CodesOf(links) + {entry.shortCode}
    ensures entry.shortCode !in CodesOf(links) ==> forall i :: 0 <= i < |links| ==> links[i].shortCode != entry.shortCode
  {
    var after := links + [entry];
    assert after[|links|] == entry;
    forall c | c in CodesOf(links) ensures c in CodesOf(after) {
      var i :| 0 <= i < |links| && links[i].shortCode == c;
      assert after[i] == links[i];
    }
  }

  /** A listing with distinct codes has one entry per code. */
  lemma {:induction false} DistinctCodesCount(links: seq<ListedLink>)
    requires forall i, j :: 0 <= i < j < |links| ==> links[i].shortCode != links[j].shortCode
    ensures |CodesOf(links)| == |links|
  {
    if links != [] {
      var prefix := links[..|links| - 1];
      assert links == prefix + [links[|links| - 1]];
      DistinctCodesCount(prefix);
      AppendEntry(prefix, links[|links| - 1]);
      assert links[|links| - 1].shortCode !in CodesOf(prefix);
    }
  }

  /** A listing whose codes are exactly `codes`, each once, has one entry per code. */
  lemma ListingCovers(links: seq<ListedLink>, codes: set<string>)
    requires CodesOf(links) == codes
    requires forall i, j :: 0 <= i < j < |links| ==> links[i].shortCode != links[j].shortCode
    ensures forall i :: 0 <= i < |links| ==> links[i].shortCode in codes
    ensures forall c :: c in codes ==> exists i :: 0 <= i < |links| && links[i].shortCode == c
    ensures |links| == |codes|
  {
    DistinctCodesCount(links);
  }

  /** Taking `c` out of the pending codes finishes it: counted once if backed, else nothing changes. */
  lemma PendingStep(backed: set<string>, pending: set<string>, c: string)
    requires c in pending
    ensures c in backed ==> backed - (pending - {c}) == (backed - pending) + {c}
    ensures c !in backed ==> backed - (pending - {c}) == backed - pending
  {
    if c in backed {
      assert c !in backed - pending;
      assert backed - (pending - {c}) == (backed - pending) + {c};
    }
  }

  /**
   * What `get_user_links` has gathered once the codes outside `pending` are
   * done: one entry per backed code among them, each with its record and
   * its expiry flag.
   */
  ghost predicate ListedSoFar(hashes: map<string, Fields>, userId: string, now: int,
                              links: seq<ListedLink>, backed: set<string>, pending: set<string>) {
    && (forall i :: 0 <= i < |links| ==>
         && links[i].fields == HashOf(hashes, LinkKey(userId, links[i].shortCode))
         && links[i].isExpired == RecordExpired(links[i].fields, now))
    && CodesOf(links) == backed - pending
    && (forall i, j :: 0 <= i < j < |links| ==> links[i].shortCode != links[j].shortCode)
  }

  /** One code of `get_user_links`: listed when its record exists, skipped otherwise. */
  lemma ListingStep(hashes: map<string, Fields>, userId: string, now: int,
                    links: seq<ListedLink>, backed: set<string>, pending: set<string>, code: string)
    requires ListedSoFar(hashes, userId, now, links, backed, pending)
    requires code in pending
    requires code in backed <==> HashOf(hashes, LinkKey(userId, code)) != map[]
    ensures HashOf(hashes, LinkKey(userId, code)) == map[] ==>
      ListedSoFar(hashes, userId, now, links, backed, pending - {code})
    ensures HashOf(hashes, LinkKey(userId, code)) != map[] ==>
      var record := HashOf(hashes, LinkKey(userId, code));
      ListedSoFar(hashes, userId, now, links + [ListedLink(record, code, IsExpired(Some(Field(record, "expires_at", "")), now))],
                  backed, pending - {code})
  {
    var record := HashOf(hashes, LinkKey(userId, code));
    PendingStep(backed, pending, code);
    if record != map[] {
      var entry := ListedLink(record, code, IsExpired(Some(Field(record, "expires_at", "")), now));
      AppendEntry(links, entry);
      var after := links + [entry];
      assert after[|links|] == entry;
    }
  }

  // ------------------------------------------------------------------ the service

  class LinkService {
    const db: Store

    constructor (db: Store)
      ensures this.db == db
    {
      this.db := db;
    }

    /**
     * `_link_exists(code)`: scans every key `link:*:<code>` and reports
     * whether one of them holds a live record.
     */
    method LinkExists(code: string, now: int) returns (found: bool)
      requires PlainCode(code)
      ensures found <==> CodeTaken(db.hashes, code, now)
    {
      var keys := db.ListLinkKeys(code);
      if keys == [] {
        return false;
      }
      var i := 0;
      while i < |keys|
        invariant 0 <= i <= |keys|
        invariant forall j :: 0 <= j < i ==> !Live(db.hashes, keys[j], now)
      {
        var linkData := db.HashGetAll(keys[i]);
        if linkData != map[] {
          var expiresAt := Field(linkData, "expires_at", "");
          if !IsExpired(Some(expiresAt), now) {
            assert keys[i] in keys && Live(db.hashes, keys[i], now);
            return true;
          }
        }
        i := i + 1;
      }
      return false;
    }

    /**
     * `_generate_short_code()`: tries the draws in order, at most
     * `MaxAttempts` of them, and returns the first one not taken.
     */
    method GenerateShortCode(candidates: seq<string>, now: int) returns (r: Option<string>)
      requires ValidDraws(candidates)
      ensures r.None? <==> forall i :: 0 <= i < MaxAttempts ==> CodeTaken(db.hashes, candidates[i], now)
      ensures r.Some? ==> GeneratedShape(r.value) && !CodeTaken(db.hashes, r.value, now)
      ensures r.Some? ==> exists j :: 0 <= j < MaxAttempts && r.value == candidates[j]
                                      && forall i :: 0 <= i < j ==> CodeTaken(db.hashes, candidates[i], now)
    {
      var attempts := 0;
      while attempts < MaxAttempts
        invariant 0 <= attempts <= MaxAttempts
        invariant forall i :: 0 <= i < attempts ==> CodeTaken(db.hashes, candidates[i], now)
      {
        var code := candidates[attempts];
        GeneratedIsPlain(code);
        var taken := LinkExists(code, now);
        if !taken {
          return Some(code);
        }
        attempts := attempts + 1;
      }
      return None;
    }

    /**
     * `create_link(user_id, url, custom_code, expires_in)`. Fails, writing
     * nothing, on a blank url, a taken custom code, or when every draw is
     * taken; otherwise writes the record, then adds the code to the owner's
     * set.
     */
    method CreateLink(userId: string, url: string, customCode: Option<string>, expiresIn: Option<string>,
                      now: int, candidates: seq<string>)
      returns (r: Result<CreatedLink, LinkError>)
      requires CustomGiven(customCode) ==> PlainCode(customCode.value)
      requires ValidDraws(candidates)
      modifies db
      ensures r.Err? ==> unchanged(db)
      ensures r == Err(UrlRequired) <==> Blank(url)
      ensures r == Err(CodeExists) <==>
        !Blank(url) && CustomGiven(customCode) && old(CodeTaken(db.hashes, customCode.value, now))
      ensures r == Err(CodesExhausted) <==>
        !Blank(url) && !CustomGiven(customCode)
        && forall i :: 0 <= i < MaxAttempts ==> old(CodeTaken(db.hashes, candidates[i], now))
      ensures r.Ok? <==>
        !Blank(url)
        && (CustomGiven(customCode) ==> !old(CodeTaken(db.hashes, customCode.value, now)))
        && (!CustomGiven(customCode) ==> exists i :: 0 <= i < MaxAttempts && !old(CodeTaken(db.hashes, candidates[i], now)))
      ensures r.Ok? ==>
        var code := r.value.shortCode;
        var key := LinkKey(userId, code);
        var expiresAt := ParseExpiresIn(expiresIn, now);
        && r.value == CreatedLink(code, url, now, expiresAt)
        && (CustomGiven(customCode) ==> code == customCode.value)
        && (!CustomGiven(customCode) ==> GeneratedShape(code))
        && (!CustomGiven(customCode) ==>
              exists j :: 0 <= j < MaxAttempts && code == candidates[j] && forall i :: 0 <= i < j ==> old(CodeTaken(db.hashes, candidates[i], now)))
        && PlainCode(code) && !old(CodeTaken(db.hashes, code, now))
        && db.hashes == old(db.hashes)[key := old(HashOf(db.hashes, key)) + NewRecord(userId, url, now, expiresAt)]
        && db.sets == old(db.sets)[UserLinksKey(userId) := old(db.SetMembers(UserLinksKey(userId))) + {code}]
        && db.data == old(db.data)
    {
      StripEmptyIffBlank(url);
      if url == [] || Strip(url) == [] {
        return Err(UrlRequired);
      }
      var expiresAt := ParseExpiresIn(expiresIn, now);
      var expiresAtStr := StoredExpiry(expiresAt);
      var shortCode: string;
      if CustomGiven(customCode) {
        var taken := LinkExists(customCode.value, now);
        if taken {
          return Err(CodeExists);
        }
        shortCode := customCode.value;
      } else {
        var generated := GenerateShortCode(candidates, now);
        if generated.None? {
          return Err(CodesExhausted);
        }
        shortCode := generated.value;
        GeneratedIsPlain(shortCode);
      }
      var createdAt := now;
      var linkKey := LinkKey(userId, shortCode);
      var _ := db.HashSetMapping(linkKey, map["url" := url, "created_at" := ShowInt(createdAt),
                                              "expires_at" := expiresAtStr, "user_id" := userId]);
      var userLinksKey := UserLinksKey(userId);
      var _ := db.SetAdd(userLinksKey, [shortCode]);
      assert Elems([shortCode]) == {shortCode} by {
        assert [shortCode][..0] == [];
      }
      return Ok(CreatedLink(shortCode, url, createdAt, expiresAt));
    }

    /**
     * `get_link(code)`: the record under the first key the scan lists, when
     * that record exists and is live. `scanned` is the scan's answer.
     */
    method GetLink(code: string, now: int) returns (r: Option<Fields>, ghost scanned: seq<string>)
      requires PlainCode(code)
      ensures IsListing(scanned, db.data.Keys + db.hashes.Keys, code)
      ensures r == LookupFirst(db.hashes, scanned, now)
      ensures r.Some? ==> r.value != map[] && CodeTaken(db.hashes, code, now)
    {
      var keys := db.ListLinkKeys(code);
      scanned := keys;
      if keys == [] {
        return None, scanned;
      }
      var key := keys[0];
      var linkData := db.HashGetAll(key);
      if linkData == map[] {
        return None, scanned;
      }
      var expiresAt := Field(linkData, "expires_at", "");
      if IsExpired(Some(expiresAt), now) {
        return None, scanned;
      }
      assert MatchesLinkPattern(key, code) && Live(db.hashes, key, now);
      return Some(linkData), scanned;
    }

    /**
     * `delete_link(user_id, code)`: only the owner's own key is looked at.
     * Missing: False and nothing changes. Otherwise the record goes, then the
     * code leaves the owner's set; other owners' records are untouched.
     */
    method DeleteLink(userId: string, code: string) returns (deleted: bool)
      modifies db
      ensures deleted == old(db.Exists(LinkKey(userId, code)))
      ensures !deleted ==> unchanged(db)
      ensures !db.Exists(LinkKey(userId, code))
      ensures deleted ==>
        && db.data == old(db.data) - {LinkKey(userId, code)}
        && db.hashes == old(db.hashes) - {LinkKey(userId, code)}
        && db.sets == if UserLinksKey(userId) in old(db.sets)
                      then old(db.sets)[UserLinksKey(userId) := old(db.sets[UserLinksKey(userId)]) - {code}]
                      else old(db.sets)
    {
      var linkKey := LinkKey(userId, code);
      if !db.Exists(linkKey) {
        return false;
      }
      var _ := db.Delete(linkKey);
      var userLinksKey := UserLinksKey(userId);
      var _ := db.SetRemove(userLinksKey, [code]);
      assert Elems([code]) == {code} by {
        assert [code][..0] == [];
      }
      return true;
    }

    /**
     * `get_user_links(user_id)`: one entry per code in the owner's set whose
     * record exists, expired ones included and tagged; codes without a
     * record are skipped.
     */
    method GetUserLinks(userId: string, now: int) returns (links: seq<ListedLink>)
      ensures forall i :: 0 <= i < |links| ==>
        && links[i].shortCode in BackedCodes(db.hashes, userId, db.SetMembers(UserLinksKey(userId)))
        && links[i].fields == HashOf(db.hashes, LinkKey(userId, links[i].shortCode))
        && links[i].isExpired == RecordExpired(links[i].fields, now)
      ensures forall c :: c in BackedCodes(db.hashes, userId, db.SetMembers(UserLinksKey(userId))) ==>
        exists i :: 0 <= i < |links| && links[i].shortCode == c
      ensures forall i, j :: 0 <= i < j < |links| ==> links[i].shortCode != links[j].shortCode
      ensures |links| == |BackedCodes(db.hashes, userId, db.SetMembers(UserLinksKey(userId)))|
    {
      var userLinksKey := UserLinksKey(userId);
      var shortCodes := db.SetMembers(userLinksKey);
      ghost var backed := BackedCodes(db.hashes, userId, shortCodes);
      if shortCodes == {} {
        assert backed == {};
        assert |backed| == 0;
        return [];
      }
      links := [];
      var pending := shortCodes;
      assert backed - pending == {};
      while pending != {}
        invariant pending <= shortCodes
        invariant ListedSoFar(db.hashes, userId, now, links, backed, pending)
        decreases pending
      {
        var shortCode :| shortCode in pending;
        var linkKey := LinkKey(userId, shortCode);
        var linkData := db.HashGetAll(linkKey);
        ListingStep(db.hashes, userId, now, links, backed, pending, shortCode);
        if linkData != map[] {
          var expiresAt := Field(linkData, "expires_at", "");
          links := links + [ListedLink(linkData, shortCode, IsExpired(Some(expiresAt), now))];
        }
        pending := pending - {shortCode};
      }
      assert CodesOf(links) == backed;
      ListingCovers(links, backed);
    }

    /**
     * `get_link_owner(code)`: the `user_id` of the first listed key's
     * record, expired or not. `scanned` is the scan's answer.
     */
    method GetLinkOwner(code: string) returns (owner: Option<string>, ghost scanned: seq<string>)
      requires PlainCode(code)
      ensures IsListing(scanned, db.data.Keys + db.hashes.Keys, code)
      ensures owner == OwnerOfFirst(db.hashes, scanned)
      ensures owner.Some? ==> scanned != [] && owner.value == HashOf(db.hashes, scanned[0])["user_id"]
    {
      var keys := db.ListLinkKeys(code);
      scanned := keys;
      if keys == [] {
        return None, scanned;
      }
      var key := keys[0];
      var linkData := db.HashGetAll(key);
      if linkData != map[] {
        return FieldOpt(linkData, "user_id"), scanned;
      }
      return None, scanned;
    }
  }
}
