/**
 * Whole-service call sequences on a fresh store, following the service tests
 * (app/tests/test_services.py) and the expiry behaviour the services
 * promise. Each method states the answers the services give.
 */
module Scenarios {
  import opened Wrappers
  import opened Text
  import opened Keys
  import opened Expiry
  import opened MockStore
  import opened Links
  import opened Auth
  import opened Redirect

  /** The helper examples: a strict comparison, and "" or None for never. */
  lemma ExpiryExamples()
    ensures !IsExpired(Some("2000"), 1000) && IsExpired(Some("500"), 1000)
    ensures !IsExpired(Some(""), 1000) && !IsExpired(None, 1000)
    ensures !IsExpired(Some("1000"), 1000) && !IsExpired(Some("soon"), 1000)
  {
    assert "2000"[..3] == "200" && "200"[..2] == "20" && "20"[..1] == "2";
    assert DigitsValue("2000") == 2000;
    assert "500"[..2] == "50" && "50"[..1] == "5";
    assert DigitsValue("500") == 500;
    assert "1000"[..3] == "100" && "100"[..2] == "10" && "10"[..1] == "1";
    assert DigitsValue("1000") == 1000;
    assert ParseInt("soon").None?;
  }

  /** `parse_expires_in` reads "never", in any letter case, and an absent value as no expiry. */
  lemma ParseNeverExamples(now: int)
    ensures ParseExpiresIn(Some("never"), now).None? && ParseExpiresIn(Some("NEVER"), now).None?
    ensures ParseExpiresIn(None, now).None?
  {
    ParseNever("never", now);
    ParseNever("NEVER", now);
  }

  /** `parse_expires_in` on the documented durations: hours, days and bare seconds. */
  lemma ParseDurationExamples(now: int)
    ensures ParseExpiresIn(Some("2h"), now) == Some(now + 7200)
    ensures ParseExpiresIn(Some("7d"), now) == Some(now + 604800)
    ensures ParseExpiresIn(Some("90"), now) == Some(now + 90)
  {
    ParseHours(2, now);
    ParseDays(7, now);
    ParseSeconds(90, now);
    assert ShowInt(2) + "h" == "2h";
    assert ShowInt(7) + "d" == "7d";
    assert ShowInt(90) == "90";
  }

  /** A url that is not blank. */
  lemma NotBlank(url: string)
    requires url != [] && !IsSpace(url[0])
    ensures !Blank(url)
  {
  }

  /** A second link with a custom code already in use is refused, under any url. */
  method DuplicateCustomCode(candidates: seq<string>) returns (first: Result<CreatedLink, LinkError>,
                                                                second: Result<CreatedLink, LinkError>)
    requires ValidDraws(candidates)
    ensures first == Ok(CreatedLink("mycode", "https://example.com", 0, None))
    ensures second == Err(CodeExists)
  {
    var store := new Store();
    var links := new LinkService(store);
    NotBlank("https://example.com");
    NotBlank("https://other.com");
    assert !CodeTaken(store.hashes, "mycode", 0);
    first := links.CreateLink("user123", "https://example.com", Some("mycode"), None, 0, candidates);
    CreatedRecordLive(map[], "user123", "mycode", "https://example.com", 0, None, 0);
    second := links.CreateLink("user123", "https://other.com", Some("mycode"), None, 0, candidates);
  }

  /** An empty url is refused before anything else is looked at. */
  method EmptyUrl(candidates: seq<string>) returns (r: Result<CreatedLink, LinkError>)
    requires ValidDraws(candidates)
    ensures r == Err(UrlRequired)
  {
    var store := new Store();
    var links := new LinkService(store);
    r := links.CreateLink("user123", "", Some("mycode"), None, 0, candidates);
  }

  /**
   * Without a custom code the first draw is free on an empty store: the
   * link is made under it with a one-hour expiry.
   */
  method CreateGenerated(candidates: seq<string>, userId: string, url: string, now: int)
    returns (created: Result<CreatedLink, LinkError>)
    requires ValidDraws(candidates) && !Blank(url)
    ensures created == Ok(CreatedLink(candidates[0], url, now, Some(now + 3600)))
    ensures created.Ok? ==> GeneratedShape(created.value.shortCode)
  {
    var store := new Store();
    var links := new LinkService(store);
    assert !CodeTaken(store.hashes, candidates[0], now);
    ParseHours(1, now);
    assert ShowInt(1) + "h" == "1h";
    created := links.CreateLink(userId, url, None, Some("1h"), now, candidates);
  }

  /** A link made without a custom code or an expiry reads back through `get_link` with its url. */
  method CreateThenGet(candidates: seq<string>, userId: string, url: string, now: int)
    returns (link: Option<Fields>)
    requires ValidDraws(candidates) && !Blank(url)
    ensures link.Some? && "url" in link.value && link.value["url"] == url
  {
    var store := new Store();
    var links := new LinkService(store);
    assert !CodeTaken(store.hashes, candidates[0], now);
    var created := links.CreateLink(userId, url, None, None, now, candidates);
    var code := created.value.shortCode;
    var key := LinkKey(userId, code);
    CreatedRecordLive(map[], userId, code, url, now, None, now);
    assert store.data == map[] && store.hashes.Keys == {key};
    ghost var scanned;
    link, scanned := links.GetLink(code, now);
    SoleRecordLookup(store.hashes, {key}, scanned, code, key, now);
  }

  /**
   * A link made at t=1000 to last one hour has expired at t=5000:
   * `get_link` answers None while `get_link_owner` still names the owner.
   */
  method ExpiredLinkLookups(candidates: seq<string>, userId: string, code: string, url: string)
    returns (link: Option<Fields>, owner: Option<string>)
    requires ValidDraws(candidates) && PlainCode(code) && code != "" && userId != "" && !Blank(url)
    ensures link.None? && owner == Some(userId)
  {
    var store := new Store();
    var links := new LinkService(store);
    assert !CodeTaken(store.hashes, code, 1000);
    ParseHours(1, 1000);
    assert ShowInt(1) + "h" == "1h";
    var created := links.CreateLink(userId, url, Some(code), Some("1h"), 1000, candidates);
    var key := LinkKey(userId, code);
    CreatedRecordLive(map[], userId, code, url, 1000, Some(4600), 5000);
    assert store.data.Keys + store.hashes.Keys == {key};
    ghost var linkScan, ownerScan;
    link, linkScan := links.GetLink(code, 5000);
    SoleRecordLookup(store.hashes, {key}, linkScan, code, key, 5000);
    owner, ownerScan := links.GetLinkOwner(code);
    SoleRecordLookup(store.hashes, {key}, ownerScan, code, key, 5000);
  }

  /** The redirect route reports that same expired link as gone. */
  method ExpiredLinkIsGone(candidates: seq<string>, userId: string, code: string, url: string)
    returns (outcome: Outcome)
    requires ValidDraws(candidates) && PlainCode(code) && code != "" && '.' !in code && userId != "" && !Blank(url)
    ensures outcome == Gone
  {
    var store := new Store();
    var links := new LinkService(store);
    assert !CodeTaken(store.hashes, code, 1000);
    ParseHours(1, 1000);
    assert ShowInt(1) + "h" == "1h";
    var created := links.CreateLink(userId, url, Some(code), Some("1h"), 1000, candidates);
    var key := LinkKey(userId, code);
    CreatedRecordLive(map[], userId, code, url, 1000, Some(4600), 5000);
    assert store.data.Keys + store.hashes.Keys == {key};
    ghost var linkScan, ownerScan;
    outcome, linkScan, ownerScan := ResolveRedirect(links, code, 5000);
    SoleRecordRedirect(store.hashes, {key}, linkScan, ownerScan, code, key, 5000);
  }

  /** Once its owner deletes a link, `get_link` finds nothing under the code. */
  method DeleteThenGet(candidates: seq<string>) returns (deleted: bool, link: Option<Fields>)
    requires ValidDraws(candidates)
    ensures deleted && link.None?
  {
    var store := new Store();
    var links := new LinkService(store);
    NotBlank("https://example.com");
    assert !CodeTaken(store.hashes, "testcode", 0);
    var created := links.CreateLink("user123", "https://example.com", Some("testcode"), None, 0, candidates);
    deleted := links.DeleteLink("user123", "testcode");
    assert store.data.Keys + store.hashes.Keys == {};
    ghost var scanned;
    link, scanned := links.GetLink("testcode", 0);
    NoRecordLookup(store.hashes, {}, scanned, "testcode", 0);
  }

  /** Only the backed one of two listed codes survives in the listing. */
  lemma OrphanNotBacked(hashes: map<string, Fields>, userId: string, code: string, orphan: string)
    requires PlainCode(code) && PlainCode(orphan) && orphan != code
    requires hashes.Keys == {LinkKey(userId, code)} && hashes[LinkKey(userId, code)] != map[]
    ensures BackedCodes(hashes, userId, {orphan, code}) == {code}
  {
    PlainPatternsSeparate(userId, orphan, code);
    assert LinkKey(userId, orphan) !in hashes;
  }

  /** A code left in the owner's set without a record is skipped by the listing. */
  method OrphanCodeSkipped(candidates: seq<string>, userId: string, code: string, orphan: string, url: string)
    returns (listed: seq<ListedLink>)
    requires ValidDraws(candidates) && PlainCode(code) && PlainCode(orphan) && code != "" && orphan != code && !Blank(url)
    ensures |listed| == 1 && listed[0].shortCode == code && !listed[0].isExpired
  {
    var store := new Store();
    var links := new LinkService(store);
    var _ := store.SetAdd(UserLinksKey(userId), [orphan]);
    assert [orphan][..0] == [];
    assert !CodeTaken(store.hashes, code, 0);
    var created := links.CreateLink(userId, url, Some(code), None, 0, candidates);
    CreatedRecordLive(map[], userId, code, url, 0, None, 0);
    assert store.SetMembers(UserLinksKey(userId)) == {orphan, code};
    OrphanNotBacked(store.hashes, userId, code, orphan);
    listed := links.GetUserLinks(userId, 0);
    assert listed[0].shortCode in {code};
  }

  /** Registering an address again, in another letter case, is refused. */
  method DuplicateEmailAnyCase(email: string, variant: string, hashpw: (string, string) -> string, salt: string)
    returns (first: Option<UserView>, second: Option<UserView>)
    requires Lower(variant) == Lower(email)
    ensures first == Some(UserView("id1", Some(NormalizeEmail(email)), Some("0")))
    ensures second.None?
  {
    var store := new Store();
    var auth := new AuthService(store);
    first := auth.CreateUser(email, "pw", "id1", hashpw, salt, 0);
    second := auth.CreateUser(variant, "other", "id2", hashpw, salt, 0);
  }

  /**
   * A registered account signs in exactly when the password check accepts
   * the stored hash, and reads back without that hash.
   */
  method SignInAfterRegister(email: string, hashpw: (string, string) -> string, salt: string, checkpw: (string, string) -> bool)
    returns (registered: Option<UserView>, signedIn: Option<UserView>, account: Option<Fields>)
    ensures registered == Some(UserView("id1", Some(NormalizeEmail(email)), Some("0")))
    ensures signedIn.Some? <==> hashpw("pw", salt) != "" && checkpw("pw", hashpw("pw", salt))
    ensures signedIn.Some? ==> signedIn == registered
    ensures account == Some(map["user_id" := "id1", "email" := NormalizeEmail(email), "created_at" := "0"])
  {
    var store := new Store();
    var auth := new AuthService(store);
    var record := AccountRecord("id1", NormalizeEmail(email), hashpw("pw", salt), 0);
    assert map[] + record == record;
    registered := auth.CreateUser(email, "pw", "id1", hashpw, salt, 0);
    ghost var accountKey := UserAccountKey("id1");
    assert store.hashes == map[accountKey := record];
    assert IndexedId(store.data, email) == Some("id1");
    assert HashOf(store.hashes, accountKey) == record;
    assert Field(record, "password_hash", "") == hashpw("pw", salt);
    signedIn := auth.VerifyUser(email, "pw", checkpw);
    account := auth.GetUserById("id1");
    AccountViewOfCreated(store.hashes, "id1", NormalizeEmail(email), hashpw("pw", salt), 0);
  }
}
