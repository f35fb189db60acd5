/**
 * Expiry arithmetic (app/services.py, `is_expired` and `parse_expires_in`).
 * The clock is an explicit integer `now`, in whole seconds.
 */
module Expiry {
  import opened Wrappers
  import opened Text

  const SecondsPerHour: int := 60 * 60
  const SecondsPerDay: int := 24 * 60 * 60

  /**
   * `is_expired(expires_at)`: absent, empty and non-integer values never
   * expire; an integer instant has expired once `now` is strictly past it.
   */
  function IsExpired(expiresAt: Option<string>, now: int): (r: bool)
    ensures r ==> expiresAt.Some? && ParseInt(expiresAt.value).Some?
    ensures expiresAt.Some? && ParseInt(expiresAt.value).Some? ==> (r <==> now > ParseInt(expiresAt.value).value)
  {
    match expiresAt
    case None => false
    case Some(s) =>
      if s == "" then false
      else
        match ParseInt(s)
        case None => false
        case Some(instant) => now > instant
  }

  /**
   * `parse_expires_in(expires_in)`: `"<N>h"`, `"<N>d"` or `"<N>"` seconds from
   * `now`; absent, empty, `never` in any letter case, and anything `int()`
   * rejects mean "never".
   */
  function ParseExpiresIn(expiresIn: Option<string>, now: int): (r: Option<int>)
    ensures r.Some? ==> expiresIn.Some? && expiresIn.value != "" && Lower(expiresIn.value) != "never"
    ensures r.Some? && expiresIn.value[|expiresIn.value| - 1] == 'h' ==> (r.value - now) % SecondsPerHour == 0
    ensures r.Some? && expiresIn.value[|expiresIn.value| - 1] == 'd' ==> (r.value - now) % SecondsPerDay == 0
  {
    match expiresIn
    case None => None
    case Some(s) =>
      if s == "" || Lower(s) == "never" then None
      else if s[|s| - 1] == 'h' then
        match ParseInt(s[..|s| - 1])
        case None => None
        case Some(hours) => Some(now + hours * SecondsPerHour)
      else if s[|s| - 1] == 'd' then
        match ParseInt(s[..|s| - 1])
        case None => None
        case Some(days) => Some(now + days * SecondsPerDay)
      else
        match ParseInt(s)
        case None => None
        case Some(seconds) => Some(now + seconds)
  }

  /**
   * The `expires_at` field `create_link` stores: `str(expires_at)`, or `""`
   * when the parsed expiry is None or falsy, which includes the instant 0.
   */
  function StoredExpiry(expiresAt: Option<int>): (r: string)
    ensures r == "" <==> expiresAt.None? || expiresAt.value == 0
    ensures r != "" ==> ParseInt(r) == expiresAt
  {
    if expiresAt.None? || expiresAt.value == 0 then ""
    else
      ParseShowInt(expiresAt.value);
      ShowIntEndsInDigit(expiresAt.value);
      ShowInt(expiresAt.value)
  }

  /** A stored integer instant has expired exactly when `now` is strictly later. */
  lemma IsExpiredInstant(instant: int, now: int)
    ensures IsExpired(Some(ShowInt(instant)), now) <==> now > instant
  {
    ParseShowInt(instant);
    ShowIntEndsInDigit(instant);
  }

  /** The boundary: an expiry equal to `now` is still live, one second earlier is not. */
  lemma ExpiryBoundary(now: int)
    ensures !IsExpired(Some(ShowInt(now)), now)
    ensures IsExpired(Some(ShowInt(now - 1)), now)
  {
    IsExpiredInstant(now, now);
    IsExpiredInstant(now - 1, now);
  }

  /** Expiry is permanent: what has expired stays expired as the clock advances. */
  lemma ExpiredStaysExpired(expiresAt: Option<string>, now: int, later: int)
    requires now <= later
    ensures IsExpired(expiresAt, now) ==> IsExpired(expiresAt, later)
  {
  }

  /** Whatever `int()` rejects never expires. */
  lemma UnparsableNeverExpires(s: string, now: int)
    requires ParseInt(s).None?
    ensures !IsExpired(Some(s), now) && !IsExpired(None, now)
  {
  }

  lemma NotNever(s: string)
    requires s != [] && s[|s| - 1] != 'r' && s[|s| - 1] != 'R'
    ensures Lower(s) != "never"
  {
    LowerAt(s);
    assert Lower(s)[|s| - 1] != 'r';
  }

  /** `"<N>h"` is N hours from now; N may be negative. */
  lemma ParseHours(n: int, now: int)
    ensures ParseExpiresIn(Some(ShowInt(n) + "h"), now) == Some(now + n * SecondsPerHour)
  {
    var s := ShowInt(n) + "h";
    NotNever(s);
    assert s[..|s| - 1] == ShowInt(n);
    ParseShowInt(n);
  }

  /** `"<N>d"` is N days from now. */
  lemma ParseDays(n: int, now: int)
    ensures ParseExpiresIn(Some(ShowInt(n) + "d"), now) == Some(now + n * SecondsPerDay)
  {
    var s := ShowInt(n) + "d";
    NotNever(s);
    assert s[..|s| - 1] == ShowInt(n);
    ParseShowInt(n);
  }

  /** A plain integer N is N seconds from now. */
  lemma ParseSeconds(n: int, now: int)
    ensures ParseExpiresIn(Some(ShowInt(n)), now) == Some(now + n)
  {
    ShowIntEndsInDigit(n);
    NotNever(ShowInt(n));
    ParseShowInt(n);
  }

  /** Absent input and `never` in any letter case mean "never". */
  lemma ParseNever(s: string, now: int)
    requires Lower(s) == "never"
    ensures ParseExpiresIn(Some(s), now).None? && ParseExpiresIn(None, now).None?
  {
  }

  /** A bare unit, or an upper-case unit, is not understood and means "never". */
  lemma ParseRejectsMalformed(now: int)
    ensures ParseExpiresIn(Some("h"), now).None?
    ensures ParseExpiresIn(Some("1H"), now).None?
  {
    NotNever("1H");
    assert !IsDigit("1H"[1]);
  }

  /**
   * What `create_link` stores reads back through `is_expired` as the parsed
   * instant, except that None and the instant 0 both read as "never".
   */
  lemma StoredExpiryReadsBack(expiresAt: Option<int>, now: int)
    ensures IsExpired(Some(StoredExpiry(expiresAt)), now)
        <==> expiresAt.Some? && expiresAt.value != 0 && now > expiresAt.value
  {
    if expiresAt.Some? && expiresAt.value != 0 {
      IsExpiredInstant(expiresAt.value, now);
    }
  }

  /**
   * The falsy-zero quirk: `expires_in = "-<now>"` parses to the instant 0,
   * which is in the past, yet the stored record never expires.
   */
  lemma ZeroExpiryStoredAsNever(now: int, later: int)
    requires now > 0 && later > 0
    ensures ParseExpiresIn(Some(ShowInt(-now)), now) == Some(0)
    ensures !IsExpired(Some(StoredExpiry(ParseExpiresIn(Some(ShowInt(-now)), now))), later)
    ensures IsExpired(Some(StoredExpiry(ParseExpiresIn(Some(ShowInt(1 - now)), now))), later + 1)
  {
    ParseSeconds(-now, now);
    ParseSeconds(1 - now, now);
    StoredExpiryReadsBack(Some(1), later + 1);
  }
}
