/**
 * What the public redirect route (app/app.py, `redirect_short_code`) makes
 * of the two link lookups: a redirect to the stored url, "gone" for a code
 * whose record has expired, or "not found".
 */
module Redirect {
  import opened Wrappers
  import opened Keys
  import opened Expiry
  import opened MockStore
  import opened Links

  /** The three answers: 302 to the url, 410, 404. */
  datatype Outcome = Redirected(url: string) | Gone | NotFound

  /**
   * The route's decision once `get_link` has answered `link` and
   * `get_link_owner` has answered `owner`. A code with a `.` is refused
   * before either lookup runs.
   */
  function RedirectOutcome(code: string, link: Option<Fields>, owner: Option<string>): (o: Outcome)
    ensures '.' in code ==> o == NotFound
    ensures o.Redirected? ==> link.Some? && "url" in link.value && o.url == link.value["url"] && o.url != ""
    ensures o == Gone ==> (link.None? || link.value == map[]) && owner.Some? && owner.value != ""
  {
    if '.' in code then NotFound
    else if link.None? || link.value == map[] then
      if owner.Some? && owner.value != "" then Gone else NotFound
    else if Field(link.value, "url", "") != "" then Redirected(link.value["url"])
    else NotFound
  }

  /**
   * With both lookups answered from the same listing, the route says "gone"
   * exactly when the first listed record exists, has expired and names an
   * owner.
   */
  lemma GoneIff(hashes: map<string, Fields>, keys: seq<string>, code: string, now: int)
    ensures RedirectOutcome(code, LookupFirst(hashes, keys, now), OwnerOfFirst(hashes, keys)) == Gone
      <==> '.' !in code && keys != [] && HashOf(hashes, keys[0]) != map[]
           && RecordExpired(HashOf(hashes, keys[0]), now) && Field(HashOf(hashes, keys[0]), "user_id", "") != ""
  {
  }

  /**
   * With both lookups answered from the same listing, the route redirects
   * exactly when the first listed record is live and holds a url, and then
   * to that url; the code is then taken.
   */
  lemma RedirectedIff(hashes: map<string, Fields>, present: set<string>, keys: seq<string>, code: string, now: int)
    requires IsListing(keys, present, code)
    ensures RedirectOutcome(code, LookupFirst(hashes, keys, now), OwnerOfFirst(hashes, keys)).Redirected?
      <==> '.' !in code && keys != [] && Live(hashes, keys[0], now) && Field(HashOf(hashes, keys[0]), "url", "") != ""
    ensures RedirectOutcome(code, LookupFirst(hashes, keys, now), OwnerOfFirst(hashes, keys)).Redirected? ==>
      RedirectOutcome(code, LookupFirst(hashes, keys, now), OwnerOfFirst(hashes, keys)).url == HashOf(hashes, keys[0])["url"]
      && CodeTaken(hashes, code, now)
  {
    if RedirectOutcome(code, LookupFirst(hashes, keys, now), OwnerOfFirst(hashes, keys)).Redirected? {
      LookupFirstSound(hashes, present, keys, code, now);
    }
  }

  /** A code no stored key carries is "not found", never "gone". */
  lemma AbsentIsNotFound(hashes: map<string, Fields>, present: set<string>, keys: seq<string>, code: string, now: int)
    requires IsListing(keys, present, code)
    ensures (forall k :: k in present ==> !MatchesLinkPattern(k, code)) ==>
      RedirectOutcome(code, LookupFirst(hashes, keys, now), OwnerOfFirst(hashes, keys)) == NotFound
  {
    NoRecordLookup(hashes, present, keys, code, now);
  }

  /**
   * When a single key carries the code, the two scans cannot disagree: the
   * route redirects to a live record's url and reports an expired one as
   * gone, whatever order each scan used.
   */
  lemma SoleRecordRedirect(hashes: map<string, Fields>, present: set<string>, keys1: seq<string>, keys2: seq<string>,
                           code: string, key: string, now: int)
    requires IsListing(keys1, present, code) && IsListing(keys2, present, code)
    requires key in present && MatchesLinkPattern(key, code)
    requires forall k :: k in present && MatchesLinkPattern(k, code) ==> k == key
    requires '.' !in code
    ensures Live(hashes, key, now) && Field(HashOf(hashes, key), "url", "") != "" ==>
      RedirectOutcome(code, LookupFirst(hashes, keys1, now), OwnerOfFirst(hashes, keys2)) == Redirected(HashOf(hashes, key)["url"])
    ensures HashOf(hashes, key) != map[] && RecordExpired(HashOf(hashes, key), now) && Field(HashOf(hashes, key), "user_id", "") != "" ==>
      RedirectOutcome(code, LookupFirst(hashes, keys1, now), OwnerOfFirst(hashes, keys2)) == Gone
  {
    SoleRecordLookup(hashes, present, keys1, code, key, now);
    SoleRecordLookup(hashes, present, keys2, code, key, now);
  }

  /**
   * `redirect_short_code`: refuses a code with a `.`, then calls `get_link`
   * and, when that finds nothing, `get_link_owner`. Each call scans the
   * store on its own, so each has its own listing order (`ownerScan` is
   * the first scan again when the second one is not made).
   */
  method ResolveRedirect(service: LinkService, code: string, now: int)
    returns (o: Outcome, ghost linkScan: seq<string>, ghost ownerScan: seq<string>)
    requires '.' !in code ==> PlainCode(code)
    ensures '.' !in code ==> IsListing(linkScan, service.db.data.Keys + service.db.hashes.Keys, code)
    ensures '.' !in code ==> IsListing(ownerScan, service.db.data.Keys + service.db.hashes.Keys, code)
    ensures o == RedirectOutcome(code, LookupFirst(service.db.hashes, linkScan, now), OwnerOfFirst(service.db.hashes, ownerScan))
  {
    if '.' in code {
      return NotFound, [], [];
    }
    var link;
    link, linkScan := service.GetLink(code, now);
    ownerScan := linkScan;
    if link.None? || link.value == map[] {
      var owner;
      owner, ownerScan := service.GetLinkOwner(code);
      if owner.Some? && owner.value != "" {
        o := Gone;
      } else {
        o := NotFound;
      }
    } else if Field(link.value, "url", "") != "" {
      o := Redirected(link.value["url"]);
    } else {
      o := NotFound;
    }
  }
}
