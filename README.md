# Announcement board worker — a Dafny model

A Cloudflare Worker that serves a password-protected announcement board out of
a key-value namespace. One request goes through three stages:

- **Routing.** The URL path is lower-cased and one trailing `/` is dropped. It
  is then matched against the configured base path (`HOME_URL`, default `/`):
  logout, the bare root, 403 outside the base, the list view, the admin view,
  and the JSON API for announcements. The API covers list, get, create, update
  and delete.
- **Auth guard.** A guarded route is let through by one of two credentials:
  - the API token in the `Authorization` header, for paths under `<base>/api/`;
  - the session cookie `token=…`, for every other path.

  When neither passes, the guard answers the request. A login POST is checked
  against the shared secret (`AUTH_KEY || PW`); a successful form login sets
  the cookie and redirects. Any other request is challenged with 401.
- **Route work.** The work itself reads and writes announcements in the store.
  Listings are paginated, ten per page.

The model has six modules:

- `Text` — the JavaScript string operations the worker relies on: `trim`,
  ASCII `toLowerCase`, the last `/`-segment, UTF-16 length and decimal
  rendering.
- `Types` — configuration, request, announcement, store health and response
  values.
- `Auth` — `verifyPassword`, `verifyApiToken`, the token `createAuthRedirect`
  issues, and `handleAuth` as `Authorize`, a function returning `Allowed` or
  the response that ends the request.
- `Pagination` — the listing half of `getAnnouncements`.
- `Router` — route classification in `handleRequest`, as `Classify`.
- `Store` — the single-announcement operations and the listing. Create,
  update and delete are functions from the old store to an `Outcome`
  (response and new store); a get returns a `Response` and the listing a
  `Listing`, and neither changes the store. It
  also holds `Handle`, the composition of router, guard and route work. The
  class `AnnouncementStore` keeps the store in a field and performs the same
  steps in place. Each of its methods is proved equal to the function that
  specifies it.

Several members are definitions, written branch for branch after the source;
their behaviour is stated by the lemmas listed below:

- `Auth.VerifyPassword` and `Auth.CookieValue` (`verifyPassword`, src/index.js:111-145);
- `Auth.WithoutBearer` (the `Bearer ` strip, 164-168);
- `Auth.IssuedToken` (the token choice of `createAuthRedirect`, 182-184);
- `Auth.IsApiTokenPath` (596), `Auth.Authorize` and `Auth.LoginResponse` (`handleAuth`, 588-729);
- `Router.IsLogoutPath` (832-834), `Router.MatchForm` (855-856), `Router.Classify` and `Router.Dispatch` (826-1291);
- `Store.GeneratedId` (1113), `Store.Readable` (the announcements of the readable keys, in key order), `Store.Handle` and `Store.Serve` (810-1291);
- `Text.DigitsValue`, the number a digit string denotes;
- `Text.Lower` (`toLowerCase` on ASCII letters, 828-829);
- `Text.StartsWith`, `Text.EndsWith` and `Text.Contains` (`startsWith`, `endsWith` and `includes` on strings);
- `Types.Config.Base` and `Types.Config.NormalizedBase` (the `HOME_URL || '/'` default and the leading-slash fix, 208-209, 592-593, 662-663, 826);
- `Auth.MatchesAt`, `Auth.Hit` and `Auth.CapturedAt` (the cookie regular expressions of `verifyPassword`, 126-139);
- `Pagination.ClampPage` (the page clamp, 774);
- `Pagination.FailedListing` (the empty listing of a failed read, 795-803);
- `Store.Truthy` (the truthiness tests of `title`, `content` and `id`, 1087, 1096, 1190, 1198);
- `Store.CreateId` (the id choice of a create, 1095-1114);
- `Store.Fetched` (one value per listed key, `null` when the key is missing or its read fails, 756-767);
- `Store.PageParam` (the `page` query parameter, 877-884);
- `Store.Unguarded` (the logout, root, forbidden and unmatched answers, 835, 840, 861-864, 1291);
- `Store.Guarded` (the `handleAuth` guard in front of each protected route, 872-873, 918-919, 955-956, 1022-1023, 1068-1069, 1151-1152, 1241-1242).

## Model

| member | source | states |
|---|---|---|
| Text.Trim | src/index.js:127-139 | `trim` leaves no whitespace at either end of its result |
| Text.TrimCutsPadding | src/index.js:164-168 | the result of `trim` is a substring of its input, and only whitespace was cut off either end |
| Text.TrimPadded | src/index.js:164-168 | trimming a trimmed core padded with whitespace gives back exactly that core |
| Text.TrimFixedPoint | src/index.js:127 | `trim` leaves a string unchanged if and only if neither end is whitespace |
| Text.TrimIdempotent | src/index.js:127 | trimming twice is trimming once |
| Text.StripTrailingSlash | src/index.js:855-856 | removes one trailing `/` exactly when there is one, else returns the string unchanged |
| Text.LastSegment | src/index.js:1026-1027 | the last element of `split('/')`: a suffix with no `/`, preceded by a `/` when shorter than the string, empty when the string ends in `/` |
| Text.LastSegmentAfterSlash | src/index.js:1026-1027 | a `/` anywhere in the path makes its last segment a proper suffix that follows a `/` |
| Text.LowerFixed | src/index.js:828-829 | `toLowerCase` leaves a string with no upper-case ASCII letter unchanged |
| Text.LowerConcat | src/index.js:828-829 | `toLowerCase` works character by character, so it distributes over concatenation |
| Text.LowerIdempotent | src/index.js:828-829 | lower-casing twice equals lower-casing once, and leaves no upper-case ASCII letter |
| Text.Utf16Length | src/index.js:182 | `length` counts between one and two code units per character |
| Text.Utf16LengthConcat | src/index.js:182 | `length` adds up over concatenation |
| Text.Utf16LengthBmp | src/index.js:182 | a string with no character above U+FFFF has `length` equal to its character count |
| Text.Utf16LengthAstral | src/index.js:182 | a character above U+FFFF counts as two code units |
| Text.Decimal | src/index.js:1113 | the decimal rendering of the clock value is non-empty and all digits |
| Text.DecimalValue | src/index.js:1113 | the digits of the rendering, most significant first, denote the number rendered |
| Text.DecimalInjective | src/index.js:1113 | different numbers render as different digit strings |
| Auth.Secret | src/index.js:113-118 | the secret in force is `AUTH_KEY` when set, `PW` otherwise; it is empty exactly when neither is set |
| Auth.Search | src/index.js:126 | the match that `String.prototype.match` finds is the leftmost one: nothing before it matches, and none at all when there is no match |
| Auth.UntilSemicolon | src/index.js:126 | the capture group `([^;]+)` takes the longest prefix free of `;`, stopping at the first `;` |
| Auth.BoundarySearchUnreachable | src/index.js:134-141 | the third try (`\btoken=`) never finds a match the first try missed |
| Auth.StartsWithFallbackValue | src/index.js:131-132 | the second try runs only on a header `token=` with nothing or `;` after it, so it yields "" or a value starting with `;` |
| Auth.SearchFindsFirst | src/index.js:126 | the first search returns the leftmost index where `token=` is followed by a character other than `;` |
| Auth.FirstMatchWins | src/index.js:126-129 | the cookie value read is the trimmed run after the leftmost `token=`, up to the next `;` |
| Auth.LeadingTokenCookie | src/index.js:126-129 | a header beginning `token=<v>` yields the trimmed `v` |
| Auth.LookalikeCookieShadows | src/index.js:126 | the unanchored pattern makes a cookie named `xtoken` shadow the real session cookie that follows it, so the request is not authenticated |
| Auth.VerifyApiToken | src/index.js:153-171 | acceptance needs a configured token with no whitespace at either end, presented with only whitespace (and an optional `Bearer `) around it |
| Auth.BearerTokenAccepted | src/index.js:164-166 | `Bearer <token>` with any whitespace padding around the token is accepted |
| Auth.RawTokenAccepted | src/index.js:167-168 | the bare token with any whitespace padding is accepted |
| Auth.Challenge | src/index.js:712-728 | an unauthenticated request that is not a login POST always gets 401 |
| Auth.LoginResponseShape | src/index.js:617-709 | a login answers 200 or 302 exactly when a secret is configured and the trimmed password equals it; 200 exactly on `/api/login` paths; 302 redirects to the base and issues the token; an unreadable body gives 400, a wrong password (or any password when no secret is set) 401 |
| Auth.ApiPathNeverFallsBack | src/index.js:595-610 | a path under `<base>/api/` is decided by the API token alone, failing with a 401 JSON error |
| Auth.ApiPathNeedsApiToken | src/index.js:155-157 | with no API token configured nothing under `<base>/api/` is allowed, even when no secret is set |
| Auth.AllowedOnlyWithCredential | src/index.js:588-615 | a request is let through exactly when it carries a valid API token (API paths) or passes `verifyPassword` (other paths); when let through, an API token is configured, or no secret is set or the cookie holds it |
| Auth.LoginSucceedsOnlyWithSecret | src/index.js:617-670 | a 200 or 302 from the guard comes only from a POST outside `<base>/api/`, with a secret configured and the trimmed password equal to it |
| Auth.NonChallengeHaltIsLogin | src/index.js:612-710 | every guard answer other than 401 comes from a login POST without a valid session |
| Auth.FailedLoginRejected | src/index.js:671-708 | a wrong password answers 401, an unreadable login body 400 |
| Auth.UntrimmedSecretCannotLogIn | src/index.js:624-646 | a secret with whitespace at either end can never be matched by the trimmed password, so form login never redirects |
| Auth.UnauthenticatedChallenge | src/index.js:712-728 | without credentials a non-POST gets a 401 JSON error on paths containing `/api/`, the login page otherwise |
| Auth.NoSecretAllowsPages | src/index.js:612-615 | with no secret configured every path outside `<base>/api/` is allowed |
| Auth.LoginCookieAuthorizes | src/index.js:182-187 | login round trip: the cookie a successful form login issues for a short secret without `;` or padding authorises later requests outside `<base>/api/` |
| Auth.CookieAmongOthersAuthorizes | src/index.js:120-145 | the session cookie after other cookies without `token=` (e.g. `theme=dark; token=<secret>`) still lets a request outside `<base>/api/` through, for a secret without padding or `;` |
| Auth.FormLoginRedirect | src/index.js:658-670 | a 302 from the guard redirects to the normalised base and issues the token `createAuthRedirect` chooses |
| Auth.LongSecretCookieRejected | src/index.js:182-185 | for a secret of 20 or more UTF-16 units the issued cookie holds the UUID, which `verifyPassword` rejects: the login does not stick |
| Auth.DefaultBaseIgnoresApiToken | src/index.js:592-596 | with the default base the API-token prefix is `//api/`, so outside it the `Authorization` header never changes the decision |
| Auth.DefaultBaseApiTokenPrefix | src/index.js:592-596 | with the default base, a path the API-token test accepts starts with `//api/` |
| Auth.HeaderOnlyForApiPaths | src/index.js:596-615 | outside `<base>/api/` the decision does not depend on the `Authorization` header |
| Auth.CaseVariantSkipsApiToken | src/index.js:596 | the API-token test is case-sensitive: `/Board/api/announcements` under base `/board` is decided by the cookie, and is allowed with no secret |
| Pagination.Present | src/index.js:768 | filtering out failed fetches never lengthens the list |
| Pagination.PresentKeepsExactlyTheValues | src/index.js:768 | an announcement is kept if and only if it was fetched |
| Pagination.PresentConcat | src/index.js:768 | `filter` distributes over concatenation: kept values stay in order, repeats included |
| Pagination.PresentOfAllSome | src/index.js:767-768 | when every fetch succeeded all values are kept, in order |
| Pagination.Gather | src/index.js:750-769 | the array built with `push` holds exactly the non-null fetched values, in order |
| Pagination.CeilDiv | src/index.js:773 | `Math.ceil(n / d)`: the least multiple count covering `n` |
| Pagination.TotalPages | src/index.js:773 | there is always at least one page |
| Pagination.PageStart | src/index.js:776 | the start index of a page in range never passes the end of the list, and lies inside it when the list is non-empty |
| Pagination.Paginate | src/index.js:772-778 | total items counts the list; enough pages to hold it and no more; the page is clamped into `[1, totalPages]`, kept when in range; at most `pageSize` items |
| Pagination.PageIsSlice | src/index.js:776-778 | the items are exactly the slice `[(p-1)*pageSize, min(p*pageSize, n))` |
| Pagination.PageOfIndexInRange | src/index.js:773-776 | the page an index falls on is a page in range |
| Pagination.EveryItemOnItsPage | src/index.js:772-778 | item `i` appears on page `i / pageSize + 1`, at its offset from that page's first index |
| Pagination.PagesInRangeNonEmpty | src/index.js:776-778 | with at least one item, the returned page is never empty |
| Pagination.ClampIdempotent | src/index.js:774 | asking for an out-of-range page gives the same listing as asking for the page it was clamped to |
| Router.DispatchIgnoresId | src/index.js:1020-1027 | the route is chosen from the match forms alone; the id only fills in a single-announcement route under `<base>/api/announcements/` |
| Router.LogoutFirst | src/index.js:826-836 | the logout path, in any case and with or without a trailing `/`, is recognised before every other rule |
| Router.DefaultBaseLogoutPath | src/index.js:832-834 | with the default base the logout path is `//logout` |
| Router.DefaultBaseMissesLogout | src/index.js:832-841 | with the default base, `/logout` falls through to the 204 of an unmatched path |
| Router.DefaultBaseApiLoginUnrouted | src/index.js:617-656 | with the default base, `POST /api/login` reaches no route and never passes through `handleAuth`, so its JSON login reply is not sent on that path |
| Router.RootIsNoContent | src/index.js:839-841 | the bare root is always the root route |
| Router.DefaultBaseHidesListView | src/index.js:839-870 | with the default base the list view is unreachable: its only paths are taken by the root rule first |
| Router.ListViewIsTheBase | src/index.js:870 | the list view is reached only by a non-root path whose match form is the base's |
| Router.OutsideBaseForbidden | src/index.js:855-865 | a path that is neither the base nor under it (and not logout or root) is refused with 403 |
| Router.RoutedPathsInsideBase | src/index.js:858-865 | every route that does work, or answers 204 unmatched, lies inside the base |
| Router.RouteIdIsLastSegment | src/index.js:1026-1027 | the id of a single-announcement route holds no `/`, ends the path right after a `/`, and is empty when the path ends in `/` |
| Router.CaseInsensitive | src/index.js:828-829 | paths differing only in case reach the same endpoint |
| Router.TrailingSlashTolerated | src/index.js:855-856 | one trailing `/` does not change the endpoint a path reaches |
| Router.DefaultBaseApiPrefixUnguarded | src/index.js:826-870 | with the default base, a path under `//api/` reaches no route that needs authorisation |
| Router.WriteRoutesNeedWriteVerbs | src/index.js:1066-1239 | create is reached only by POST, update only by PUT, delete only by DELETE |
| Store.CreateOutcome | src/index.js:1066-1146 | a create answers 200 exactly when it answers with the new id, and a create that fails leaves the store unchanged |
| Store.CreateRejection | src/index.js:1087-1128 | the checks of a parsed create body refuse with a non-200 JSON error; nothing is refused exactly when the write works, both fields are non-empty strings, and a custom id can be read and is not taken |
| Store.UpdateOutcome | src/index.js:1149-1236 | an update answers 200 exactly with a success body, then only for an existing id and without adding or removing keys; failure leaves the store unchanged |
| Store.DeleteOutcome | src/index.js:1239-1288 | after a 200 the id is gone; otherwise nothing changes; the store is either unchanged or loses exactly that id |
| Store.GetResponse | src/index.js:1020-1063 | GET answers 200 exactly when the store is bound, readable and holds the id, and then returns the stored announcement |
| Store.ListingOf | src/index.js:734-805 | a missing binding or failing list gives the failed listing with that error; otherwise no error, at most ten items and at most 1000 counted |
| Store.CreateSucceeds | src/index.js:1087-1138 | a create succeeds exactly when the store is usable, the fields are non-empty strings and a custom id is free; it stores the trimmed title and content under the trimmed custom id or the generated one and changes nothing else |
| Store.CreateRejectsFalsy | src/index.js:1087-1092 | an empty, missing or falsy title or content is refused with 400 and the store is untouched |
| Store.DuplicateIdNotOverwritten | src/index.js:1096-1110 | a custom id already in use is refused with 400 and the existing announcement is kept |
| Store.CustomId | src/index.js:1096-1097 | a custom id is taken exactly when the field is a string that is not blank; it is the field with the whitespace padding cut off, non-empty and trimmed |
| Store.CustomIdTrimmed | src/index.js:1096-1097 | a custom id padded with whitespace names the same announcement as the bare id |
| Store.WhitespaceTitleStoredEmpty | src/index.js:1087-1120 | truthiness is checked before trimming: a whitespace-only title is accepted and stored empty |
| Store.GeneratedIdUnchecked | src/index.js:1112-1125 | a generated id is not checked against the store: a repeated clock reading replaces the earlier announcement |
| Store.GeneratedIdsDistinct | src/index.js:1113 | different clock readings give different generated ids |
| Store.CreateThenGet | src/index.js:1116-1136 | what a successful create stored is what a later GET of its id returns |
| Store.UpdateMissingIs404 | src/index.js:1168-1180 | updating an id that is not stored answers 404 before the body is read |
| Store.UpdateIdMismatch | src/index.js:1198-1203 | a truthy body id other than the path id is refused with 400 |
| Store.UpdateSucceeds | src/index.js:1156-1226 | an update answers 200 exactly when the store is usable, the id is stored, both fields are non-empty strings and the body id is falsy or the path id; it then replaces exactly the announcement under that id |
| Store.UpdateRejectsFalsy | src/index.js:1190-1196 | an empty, missing or falsy title or content of an update to a stored id is refused with 400 and the store is untouched |
| Store.UpdateKeepsCreatedAt | src/index.js:1204-1214 | a successful update keeps the creation time and every other announcement, stores the trimmed fields and the update time, and a later GET returns it |
| Store.DeleteIdempotent | src/index.js:1258-1279 | deleting twice answers 200 both times, the second as already deleted, and leaves the store as the first left it |
| Store.DeleteThenGet | src/index.js:1263-1276 | after a delete a GET of the id answers 404 |
| Store.WritesKeepKeyedById | src/index.js:1116-1215 | create, update and delete keep every announcement stored under its own id |
| Store.CreateKeepsKeyedById | src/index.js:1116-1125 | create stores the announcement under the id it carries |
| Store.UpdateKeepsKeyedById | src/index.js:1206-1215 | update rewrites the id field to the key it is stored under |
| Store.FetchedAllPresent | src/index.js:756-768 | when every listed key is stored and readable, each value arrives, in key order |
| Store.FullListingCountsStore | src/index.js:746-778 | with at most 1000 keys, all stored and readable, the listing counts every key and holds exactly the announcements stored under them |
| Store.FetchedKeepsReadable | src/index.js:756-768 | whatever reads fail, fetching and dropping nulls leaves exactly the announcements of the readable keys, in key order |
| Store.ListingCountsReadable | src/index.js:746-778 | the listing pages through the readable keys among the first 1000 listed, and counts exactly those |
| Store.ReadableCount | src/index.js:768-772 | the number of announcements kept is the number of listed keys that are stored and read without failure |
| Store.ListLimitCapsTotal | src/index.js:746 | keys past the first 1000 that the list returns are never shown |
| Store.OutsideBaseIgnoresCredentials | src/index.js:858-865 | outside the base the answer is 403 whatever the credentials, and nothing changes |
| Store.UnmatchedIsNoContent | src/index.js:1291 | the root and unmatched paths inside the base answer 204 without a credential check |
| Store.LogoutNeedsNoCredentials | src/index.js:832-836 | logout always clears the cookie and redirects to the base, with no credential check |
| Store.GuardedWrites | src/index.js:1066-1242 | on a guarded route the store changes only when the guard allowed a create, update or delete that answered 200, and stays keyed by id |
| Store.WritesRequireAuthorization | src/index.js:1066-1242 | any change to the store comes from an authorised create, update or delete that answered 200 |
| Store.ReadsChangeNothing | src/index.js:870-1063 | requests other than POST, PUT and DELETE never change the store |
| Store.HandleKeepsKeyedById | src/index.js:810-1291 | every request keeps each announcement stored under its own id |
| Store.DefaultBaseNeverConsultsApiToken | src/index.js:592-610 | with the default base, no request that reaches the guard is on an API-token path, so the `Authorization` header never changes the decision |
| Store.ListingErrorStatus | src/index.js:891-998 | with the listing unavailable, the admin view still answers 200 while the list view and the API list answer 500 |
| Store.AdminViewHidesListingError | src/index.js:935-948 | for an authorised request the admin view swallows a listing error (200) where the list view and the API list answer 500 |
| Store.AnnouncementStore.Create | src/index.js:1066-1146 | creating in place gives the response and new store that `CreateOutcome` specifies |
| Store.AnnouncementStore.Update | src/index.js:1149-1236 | updating in place gives the response and new store that `UpdateOutcome` specifies |
| Store.AnnouncementStore.Delete | src/index.js:1239-1288 | deleting in place gives the response and new store that `DeleteOutcome` specifies |
| Store.AnnouncementStore.Get | src/index.js:1020-1063 | answers 200 exactly when the store is bound, readable and holds the id, as `GetResponse` specifies |
| Store.AnnouncementStore.List | src/index.js:734-805 | fetching, gathering and paginating give the listing `ListingOf` specifies |
| Store.AnnouncementStore.HandleRequest | src/index.js:810-1291 | one request, handled in place, gives the response and new store that `Handle` specifies |

## Left out

- HTML pages, response headers, cache-control helpers and the JSON text of bodies: responses are modelled as a status and the kind of body.
- `AUTH_KEY` and `PW` set to empty strings count as unset, so `Auth.LoginResponse` treats the expected password as `undefined` then. Only a login without any secret reaches this difference, and `verifyPassword` (src/index.js:113-115) lets such requests through before any login is read.
- URL parsing, form and JSON body decoding, `decodeURIComponent` and `parseInt` are inputs. The login password arrives as an optional raw field: `None` stands for a body whose reading threw.
- The store is an abstract map from key to announcement. Its failures (missing binding, `list`, `get`, `put`/`delete` throwing) are per-request flags. Which keys `list` returns, and in what order, are inputs independent of the map (a listed key need not be stored, and keys may repeat); the keys whose read fails while listing are inputs too.
- `Promise.all` concurrency in the listing: the fetches are modelled one after another, which gives the same result because each fetch is independent.
- `crypto.randomUUID()`, `Date.now()` and `new Date().toISOString()` are parameters.
- Console logging and the commented-out favicon rule.
- The worker entry point's remapping of environment variables and its outer catch-all 500.
- The invalid-URL 204 at the top of `handleRequest`: the path is taken as already parsed.
- The host part of redirect URLs: only the path is kept in `Redirect`.
- `toLowerCase` is modelled on ASCII letters only; URL pathnames reach the worker percent-encoded.
- JavaScript number precision: the clock value and page numbers are unbounded integers.
- The `String(actualPassword)` comparison in `verifyPassword` is the same test as the first one, since configuration values are strings.
- The comment at src/index.js:112 says no check is needed when no password is set. That holds for the cookie check, but `handleAuth` still asks paths under `<base>/api/` for the API token (src/index.js:596-609); the model follows the code (`Auth.ApiPathNeedsApiToken`).
- Concurrency between requests: each request is one atomic step on the map, and every read sees the latest write. In the source, create's existence check and its `KV.put` are separate awaits (src/index.js:1100-1125), as are update's read and write (src/index.js:1168-1215). Another request can run in between, and the store keeps whichever write lands last. `Store.DuplicateIdNotOverwritten`, `Store.CreateThenGet`, `Store.UpdateKeepsCreatedAt` and `Store.DeleteThenGet` hold only for requests that do not overlap.
