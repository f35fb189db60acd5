# URL shortener service layer in Dafny

This project models the service layer of a small URL shortener and proves properties about it:

- **Link registry (`LinkService`).** Users own short links. Each link record is a hash stored under `link:<owner>:<code>`. Each owner has a set of codes under `user:<owner>:links`. A code is unique across all owners, but only among records that have not expired. Lookups by code scan every key that matches `link:*:<code>`.
- **Account registry (`AuthService`).** Each account is a hash under `account:<user_id>`. A string index `email:<address>` maps a normalised email address to its account.
- **Key-value store.** Both registries run on a store with three kinds of value: strings, hashes and sets. The store follows the in-memory `MockDatabase` that the service tests use.
- **Redirect route.** The public redirect route turns the two link lookups into one of three answers: a redirect, "gone" (410) or "not found" (404).

Files and modules:

| file | module | what it holds |
|---|---|---|
| `wrappers.dfy` | `Wrappers` | `Option` and `Result` |
| `text.dfy` | `Text` | `str.lower()`, `str.strip()`, `int(str)` and `str(int)` as the services use them |
| `keys.dfy` | `Keys` | the key prefixes and builders, and the `link:*:<code>` pattern |
| `expiry.dfy` | `Expiry` | `is_expired` and `parse_expires_in` with an explicit clock |
| `store.dfy` | `MockStore` | class `Store`: fields `data`, `hashes`, `sets` and one method per store operation |
| `links.dfy` | `Links` | class `LinkService` over a `Store`, plus the value-level definitions and lemmas it is proved against |
| `auth.dfy` | `Auth` | class `AuthService` over a `Store`, email normalisation and the index invariant |
| `redirect.dfy` | `Redirect` | the redirect route's decision and its characterisation |
| `scenarios.dfy` | `Scenarios` | call sequences on a fresh store that follow the service tests |

Modelling choices:

- **The clock.** Every operation that reads the clock takes an integer `now`.
- **Randomness.** `random.choice` becomes a sequence `candidates` of at least 1000 draws, each six characters of `[A-Za-z0-9]`.
- **Identifiers and passwords.** The `uuid4` identifier is a parameter. `bcrypt.hashpw` and `bcrypt.checkpw` are function parameters, and so is the salt from `gensalt()`.
- **Scan order.** The order of keys a scan returns is not specified. `GetLink` and `GetLinkOwner` therefore return the scan's answer as a ghost value `scanned`. Their results are stated relative to `scanned[0]`.

## Model

| member | source | states |
|---|---|---|
| Text.LowerIdempotent | app/services.py:85 | lower-casing an already lower-cased string changes nothing |
| Text.StripEmptyIffBlank | app/services.py:224 | `url.strip()` is empty exactly when every character of `url` is white space |
| Text.StripIdempotent | app/services.py:85 | stripping twice is stripping once |
| Text.LowerStrip | app/services.py:85 | lower-casing and stripping commute |
| Text.ParseShowInt | app/services.py:38 | `int(str(i)) == i` for every integer, negative ones included |
| Keys.LinkKey | app/db.py:23-25 | a link key starts with `link:` and matches the scan pattern `link:*:<code>` for its own code |
| Keys.UserLinksKey | app/db.py:28-30 | the key is `user:`, the owner, then `:links`, and the owner reads back from between them |
| Keys.UserAccountKey | app/db.py:33-35 | the key is `account:` followed by the identifier, which reads back from it |
| Keys.EmailIndexKey | app/db.py:38-40 | the key is `email:` followed by the lower-cased address, and what follows the prefix is already lower-case |
| Keys.MatchedKeyIsLinkKey | app/services.py:188 | every key the pattern for `code` matches is `link_key(owner, code)` for the owner: the text between the prefix and the `:` that precedes the code |
| Keys.PlainPatternsSeparate | app/services.py:188 | for codes without glob characters or `:`, the pattern for `code` matches `link_key(u, other)` exactly when `other == code` |
| Keys.LinkKeyOwnerInjective | app/db.py:23-25 | two link keys for one code are equal exactly when their owners are |
| Keys.LinkKeyInjective | app/db.py:23-25 | a link key determines its owner and (plain) code |
| Keys.OwnerKeysInjective | app/db.py:28-35 | `user_links_key` and `user_account_key` are injective |
| Keys.EmailIndexKeyCaseInsensitive | app/db.py:38-40 | two email index keys are equal exactly when the addresses agree after lower-casing |
| Keys.KeyFamiliesDisjoint | app/db.py:13-16 | keys built by different helpers never collide |
| Expiry.IsExpired | app/services.py:33-41 | expired only for a present value `int()` accepts (so never for None or `""`), and then exactly when `now` is strictly past that instant |
| Expiry.ParseExpiresIn | app/services.py:44-66 | an expiry comes only from a present, non-empty value that is not `never` in any letter case; with an `h` or `d` suffix it lies a whole number of hours or days from `now` |
| Expiry.StoredExpiry | app/services.py:227-228 | the stored `expires_at` is `""` exactly when the parsed expiry is None or the falsy instant 0; otherwise `int()` reads the instant back from it |
| Expiry.IsExpiredInstant | app/services.py:33-41 | a stored integer instant has expired exactly when `now` is strictly later |
| Expiry.ExpiryBoundary | app/services.py:39 | an instant equal to `now` has not expired and one a second earlier has |
| Expiry.ExpiredStaysExpired | app/services.py:39 | once expired, a value stays expired as the clock advances |
| Expiry.UnparsableNeverExpires | app/services.py:35-41 | None, and any value `int()` rejects, never expire |
| Expiry.NotNever | app/services.py:50 | a value ending in anything but `r`/`R` is not "never" |
| Expiry.ParseHours | app/services.py:56-58 | `"<N>h"` gives `now + N*3600` for every integer N |
| Expiry.ParseDays | app/services.py:59-61 | `"<N>d"` gives `now + N*86400` |
| Expiry.ParseSeconds | app/services.py:62-64 | a plain integer N gives `now + N` |
| Expiry.ParseNever | app/services.py:50-51 | None and `never` in any letter case give None |
| Expiry.ParseRejectsMalformed | app/services.py:65-66 | `"h"` and `"1H"` give None |
| Expiry.StoredExpiryReadsBack | app/services.py:227-228 | the stored `expires_at` reads back as expired exactly when the parsed instant is present, non-zero and past |
| Expiry.ZeroExpiryStoredAsNever | app/services.py:228 | an expiry parsed as the instant 0 is stored as `""` and never expires, while the instant 1 does expire |
| MockStore.Store.Get | app/tests/test_services.py:27-28 | None exactly for a key without a string, otherwise that string |
| MockStore.Store.Exists | app/tests/test_services.py:43-44 | a key that does not exist reads as nothing: `get` gives None and `hash_get_all` the empty hash |
| MockStore.Store.SetValue | app/tests/test_services.py:30-31 | stores the string and nothing else changes |
| MockStore.Store.Delete | app/tests/test_services.py:33-41 | returns 1 exactly when the key held a string or a hash, removes both, and leaves the sets alone |
| MockStore.Store.ListLinkKeys | app/tests/test_services.py:46-58 | the answer holds exactly the string and hash keys that match `link:*:<code>`; set keys never appear |
| MockStore.Store.HashGetAll | app/tests/test_services.py:60-61 | the stored hash, or `{}` for a missing key |
| MockStore.Store.HashSetMapping | app/tests/test_services.py:63-67 | merges the mapping into the hash, keeps the other fields, and returns the mapping's size |
| MockStore.Store.SetMembers | app/tests/test_services.py:89-90 | the stored set, or the empty set |
| MockStore.Store.SetAdd | app/tests/test_services.py:69-77 | the set gains every member, is created if missing, and the count is the number of members not present before |
| MockStore.Store.SetRemove | app/tests/test_services.py:79-87 | a missing set gives 0 with no change; otherwise the members are removed and the count is the number that were present |
| Links.LookupFirst | app/services.py:262-278 | `get_link` on a scan's answer: a record exactly when the first listed key holds a live record, and then that record |
| Links.OwnerOfFirst | app/services.py:326-338 | `get_link_owner` on a scan's answer: the first listed record's `user_id`, present exactly when that record stores one, expired or not; it agrees with `get_link` whenever `get_link` finds the record |
| Links.GeneratedIsPlain | app/services.py:205-210 | a generated code contains no glob character and no `:` |
| Links.CreatePreservesUniqueness | app/services.py:230-244 | writing a record for a code that is not taken keeps every code held by at most one live record |
| Links.DeletePreservesUniqueness | app/services.py:290 | deleting a record keeps codes unique |
| Links.AccountWriteKeepsUniqueness | app/services.py:95-101 | writing an account hash, as `create_user` does, keeps codes unique: the only other write to hashes cannot touch a link key |
| Links.UniquenessPersists | app/services.py:194-199 | codes stay unique as the clock advances |
| Links.LiveEarlier | app/services.py:196-199 | a record live now was live at every earlier instant |
| Links.CreatedRecordLive | app/services.py:237-244 | the record `create_link` writes holds its code until the stored expiry passes, and names its owner |
| Links.ExpiredCodeIsFree | app/services.py:194-201 | a code whose only record has expired is free again |
| Links.SoleRecordLookup | app/services.py:256-278 | with one matching key, `get_link` returns its record exactly when it is live, and `get_link_owner` returns its `user_id` |
| Links.NoRecordLookup | app/services.py:265-266 | with no matching key, the scan is empty and both lookups give None |
| Links.LookupFirstSound | app/services.py:268-278 | a record `get_link` returns is live, matches the code, and makes the code taken |
| Links.ExpiredRecordShadowsLive | app/services.py:268 | an expired first-listed record makes `get_link` answer None for a code another owner holds live, while `get_link_owner` names the expired record's owner |
| Links.DistinctCodesCount | app/services.py:309-317 | a listing with distinct codes has as many entries as codes |
| Links.ListingCovers | app/services.py:309-317 | a listing whose codes are exactly a set, each once, covers the set with one entry per code |
| Links.LinkService.LinkExists | app/services.py:186-201 | true exactly when some key matching `link:*:<code>` holds a non-empty, unexpired record |
| Links.LinkService.GenerateShortCode | app/services.py:203-215 | None exactly when all 1000 draws are taken; otherwise the first free draw, which has the generated shape |
| Links.LinkService.CreateLink | app/services.py:217-254 | one error per cause, each writing nothing: a blank url, a taken custom code, or all draws taken. Success exactly when none applies. On success the code is the custom one or the first free draw; the record is merged at `link_key`, the code is added to the owner's set, and the returned fields are given |
| Links.LinkService.GetLink | app/services.py:256-278 | the first listed key's record when it exists and is live, otherwise None |
| Links.LinkService.DeleteLink | app/services.py:280-295 | false with no change when the owner's key is missing; otherwise that key is gone, the code leaves the owner's set, and nothing else changes |
| Links.LinkService.GetUserLinks | app/services.py:297-319 | exactly one entry per code in the owner's set that has a record, with the record's fields and its expiry flag; dangling codes are skipped |
| Links.LinkService.GetLinkOwner | app/services.py:321-338 | the first listed record's `user_id`, expired or not |
| Auth.NormalizeEmail | app/services.py:85 | `email.lower().strip()`: the result has no upper-case ASCII letter and no surrounding white space |
| Auth.NormalizeIdempotent | app/services.py:85 | normalising an address twice is normalising it once |
| Auth.IndexKeyOfNormalized | app/db.py:38-40 | the index key of a normalised address is the prefix followed by the address itself |
| Auth.SameIndexKey | app/services.py:85-88 | two addresses share an index key exactly when they normalise alike |
| Auth.AccountViewOfCreated | app/services.py:145-154 | an account `create_user` wrote reads back with every field except the hash |
| Auth.CreateUserKeepsIndex | app/services.py:91-104 | registering a new address under a fresh id keeps every index entry pointing to an account that stores that address |
| Auth.LinkWritesKeepIndex | app/services.py:238-247 | writing or deleting a link record never disturbs the account index |
| Auth.AccountView | app/services.py:145-154 | None exactly for a missing account; otherwise every stored field except `password_hash`, with its stored value |
| Auth.IndexedId | app/services.py:118-124 | the id the index holds, None when the entry is missing or empty |
| Auth.AuthService.CreateUser | app/services.py:79-110 | None, with no change, exactly when the index key exists; otherwise the account hash and then the index entry are written, and the result carries no hash |
| Auth.AuthService.VerifyUser | app/services.py:112-143 | None when the index, the account or the stored hash is missing, or the check fails; otherwise the account's id, email and creation time |
| Auth.AuthService.GetUserById | app/services.py:145-154 | the stored account without its password hash |
| Auth.AuthService.GetUserByEmail | app/services.py:156-165 | follows the index, then reads the account as `get_user_by_id` does |
| Auth.AuthService.EmailExists | app/services.py:167-171 | true exactly when the normalised address has an index key |
| Redirect.RedirectOutcome | app/app.py:259-279 | a code containing `.` is not found; a redirect goes to the non-empty stored url; "gone" only when `get_link` found nothing and an owner was named |
| Redirect.GoneIff | app/app.py:263-271 | "gone" exactly when the first listed record exists, has expired and names an owner |
| Redirect.RedirectedIff | app/app.py:263-277 | a redirect exactly when the first listed record is live and holds a url, and then the code is taken |
| Redirect.AbsentIsNotFound | app/app.py:263-273 | a code no stored key carries is "not found", never "gone" |
| Redirect.SoleRecordRedirect | app/app.py:263-277 | with one matching key the two scans agree whatever their order: a live record with a non-empty `url` leads to a redirect to that url, and an expired record with a non-empty `user_id` leads to "gone" |
| Redirect.ResolveRedirect | app/app.py:257-279 | the route's answer from its own `get_link` and `get_link_owner` scans |
| Scenarios.ExpiryExamples | app/tests/test_services.py:271-283 | `is_expired` at t=1000: `"2000"` no, `"500"` yes, `""` and None no, `"1000"` (the boundary) no, the unparsable `"soon"` no |
| Scenarios.ParseNeverExamples | app/tests/test_services.py:285-289 | `never`, `NEVER` and None all give None (no expiry) |
| Scenarios.ParseDurationExamples | app/tests/test_services.py:291-297 | `2h`, `7d` and `90` give `now` plus 7200, 604800 and 90 seconds |
| Scenarios.DuplicateCustomCode | app/tests/test_services.py:208-223 | the first `mycode` link is created; the second is refused with "already exists" |
| Scenarios.EmptyUrl | app/tests/test_services.py:225-232 | an empty url is refused |
| Scenarios.CreateGenerated | app/tests/test_services.py:177-195 | on an empty store, a link without a custom code and with `1h` is made under the first draw, with that url, `created_at` = now and `expires_at` = now + 3600 |
| Scenarios.CreateThenGet | app/tests/test_services.py:234-246 | for any owner and non-blank url, a generated-code link without expiry reads back through `get_link` with its url |
| Scenarios.ExpiredLinkLookups | app/services.py:256-278 | for any owner and plain code, a link made at t=1000 for `1h` and read at t=5000: `get_link` gives None and `get_link_owner` still names the owner |
| Scenarios.ExpiredLinkIsGone | app/app.py:263-271 | the same expired link makes the redirect route answer "gone" |
| Scenarios.DeleteThenGet | app/tests/test_services.py:248-264 | after the owner deletes it, `get_link` finds nothing |
| Scenarios.OrphanCodeSkipped | app/services.py:309-319 | for any two distinct plain codes, the one left in the owner's set without a record is not listed; the one live link is, as the only entry |
| Scenarios.DuplicateEmailAnyCase | app/tests/test_services.py:118-124 | for any address, registering it again in another letter case is refused; the first registration returns the normalised address |
| Scenarios.SignInAfterRegister | app/tests/test_services.py:127-151 | for any address, a registered account signs in exactly when the password check accepts the stored (non-empty) hash, then answers as registration did, and reads back without the hash |

## Left out

- **External systems.** Redis, the network and the generic store wrappers are not modelled. The store is the in-memory mock's behaviour instead.
- **Foreign calls.** `bcrypt`, `uuid4`, `random.choice` and the floating-point clock `time.time()` are parameters. Every clock reading is taken as a whole second `now`. Where the service truncates the clock with `int()`, `now` is already that integer. `is_expired` compares the untruncated float with the stored instant, so at a float time strictly between `E` and `E + 1` the service already reports an expiry `E` as expired, while `Expiry.IsExpired` with `now = E` does not. Every clock read during one operation is taken to be the same `now`: in `create_link` that covers `parse_expires_in`, `created_at` and the `is_expired` call of every `_link_exists` scan the code generator makes.
- MockStore.Store.ListLinkKeys: only the pattern `link:*:<code>` is modelled, not general `fnmatch` globbing.
  - Every scan requires the code to be plain: no `*`, `?`, `[` or `:`.
  - Such characters would widen the match, or would make the owner and the code ambiguous.
- Text.ParseInt: accepts only an optional sign followed by ASCII digits. Python's `int()` also allows surrounding white space, underscores between digits, and non-ASCII digits.
- Text.Lower: lower-cases only the ASCII letters; Python's `str.lower()` also maps other Unicode letters. `Text.Strip` removes exactly the characters `str.isspace` accepts.
- Redirect.ResolveRedirect: the two scans are separate, and each is free to use its own order. The characterisation lemmas `GoneIff` and `RedirectedIff` assume both scans answered the same listing. `SoleRecordRedirect` needs no such assumption, because there is a single matching key.
- **Aliasing in the mock.** The mock's `hash_get_all` returns the stored dictionary itself, so the `short_code` and `is_expired` writes in `get_user_links` leak into the store, and so does the `pop` in `get_user_by_id`. Here every read returns a copy, as Redis does. A listing entry is the `ListedLink` datatype rather than a dictionary with two extra keys.
- **Concurrency.** Races between requests are not modelled, and neither is a failure between the two non-atomic writes of `create_link`, `create_user` or `delete_link`. The model is sequential.
- **Expiry cleanup.** The service has no operation that reclaims expired records, and the model adds none.
- **HTTP layer.** Flask routes, sessions, CORS and response bodies are left out. Only the redirect route's choice among its three answers is modelled.
- **Older version and other tests.** The older single-file version of the application is not part of this model: the root `app.py` and `app/utils.py`, with their JSON file storage, lock and unbounded code generator. The duplicate mock in `app/tests/test_all.py` is not modelled, and neither are the route tests.
- **Invariants about users.** Auth.CreateUserKeepsIndex assumes the new identifier has no account yet. A `uuid4` collision would merge two accounts, and that case is not covered.
