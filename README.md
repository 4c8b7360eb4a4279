# climbsheet, modelled in Dafny

climbsheet copies a gym chain's climbing routes from the vendor's mobile-app
backend (Vertical Life) into a Google Sheets workbook. This project models
the logic between the network calls:

- **Login.** The vendor's login is an OAuth 2.0 authorization-code grant with
  PKCE (RFC 6749, RFC 7636). The model covers
  - the client object and its fixed code verifier;
  - the authorize, authenticate and token requests, and how they are chained;
  - the refresh grant;
  - base64url encoding without padding (section 5 of RFC 4648).
- **The API client** (`VerticalLifeClient`) is a class whose fields hold the
  token pair. Its retry loop resends a request after refreshing the pair on
  a 401, up to a bound. The loop is a `while` loop, proved equal to a
  recursive specification.
- **Sheet naming.** The sheet that holds a gym's climbs of one wall category
  is named `"<location> - <noun>"`. Its numeric id is found by title, and a
  cache object remembers earlier answers.
- **The wall sync** (`add_wall_to_sheet`) makes these calls in this order:
  - for each climb, an append and then a colour fill at the row the append
    landed on;
  - one sort at the end.

  The calls are returned as a log of operations. The backend's answers are
  parameters.
- **Spreadsheet helpers:**
  - the A1-range row parser, written out by hand in place of its regular
    expression;
  - the landed-row reader;
  - `#RRGGBB` decoding;
  - the grid ranges of the cell, row and sort requests.
- **`Wall::climbs`:** the boulders, then the routes.
- **The two report programs.** The route-set-time report collects every
  climb's set-at instant, then fills a 24-entry array of hourly buckets in
  place. The sector-image export works out each image URL and file path and
  downloads them in gym and sector order.

Each file is one module:

| file | module |
|---|---|
| `wrappers.dfy` | `Wrappers` |
| `strings.dfy` | `Strings` |
| `types.dfy` | `Types` |
| `sheet_util.dfy` | `SheetUtil` |
| `climb_sheet.dfy` | `ClimbSheet` |
| `sheets.dfy` | `Sheets` |
| `auth.dfy` | `Auth` |
| `api.dfy` | `Api` |
| `util.dfy` | `Util` |
| `route_set_times.dfy` | `RouteSetTimes` |
| `gym_images.dfy` | `GymImages` |

A Rust panic (`unwrap`, `expect`, `panic!`) is modelled as `Err(Panic(..))`.

Things outside the program are modelled as explicit inputs:

- the HTTP exchanges;
- the Google Sheets calls;
- SHA-256;
- the HTML scraping of the login page;
- URL parsing;
- JSON decoding;
- the random source.

Each one is either a reply sequence, a function-typed parameter, or, for
the login, a `Primitives` value.

### Where the code and its documentation differ

The model follows the code in each case below.

- **Send count.** `make_request` lets `attempts` reach `MAX_ATTEMPTS` = 3
  before it stops refreshing. It therefore makes up to three refreshes and
  four sends, not "at most 3 total attempts"
  (`Api.AlwaysUnauthorizedGivesUp`).
- **No deduplication.** The `add_wall_to_sheet` shown appends every climb of
  the wall. It does not skip climbs already in the sheet, and there is no
  highlight pass.
- **State and nonce lengths.** `authorize` gives the state
  `NONCE_LENGTH` bytes and the nonce `STATE_LENGTH` bytes, the swap of what
  the names suggest. Both are 32, so nothing changes. The model keeps the
  swap.
- **Colour parsing.** `color_from_hex` parses each pair with
  `u8::from_str_radix`, which also accepts a `+` sign followed by one digit.
  `Sheets.ColorFromHex` accepts it too.

## Model

| member | source | states |
|---|---|---|
| Types.HourOf | src/bin/get_route_set_times.rs:43 | The hour of an instant lies in [0, 24). The instant is a whole number of days, plus that many hours, plus the seconds into the hour. |
| Types.Items | src/vertical_life/types.rs:41-42 | An absent list contributes no climbs; a present list contributes exactly its own. |
| Types.Climbs | src/vertical_life/types.rs:39-45 | The length is the sum of the two lists' lengths. The boulders come first, at their own positions. The routes follow, in their order. |
| Types.ClimbsMembership | src/vertical_life/types.rs:40-44 | A climb is in `climbs()` if and only if it is in the boulders or in the routes. |
| Types.ClimbsOfBareWall | src/vertical_life/types.rs:41-42 | A wall with both lists absent has no climbs. |
| SheetUtil.FormatSheetName | src/sheet_util.rs:1-4 | The name is the location, then `" - "`, then the noun, each at its position. |
| SheetUtil.WallCategoryToPluralHumanType | src/sheet_util.rs:6-13 | Succeeds exactly for `gym_bouldering` (`Boulderit`) and `gym_sportclimbing` (`Reitit`). Any other category panics. |
| SheetUtil.ParseLocationFromGymName | src/sheet_util.rs:15-18 | Succeeds exactly when the name has a space. The location holds no space. |
| SheetUtil.ParseLocationIsSecondWord | src/sheet_util.rs:16-17 | The parsed location follows the first space and runs to the next space or the end. |
| SheetUtil.ParseLocationOfSecondWord | src/sheet_util.rs:16-17 | Conversely, a word standing after the first space, ending at a space or the end, is what is parsed. |
| SheetUtil.ParseLocationExample | src/sheet_util.rs:15 | `"Kiipeilyareena Ristikko"` gives `"Ristikko"`. |
| SheetUtil.SheetNameExample | src/sheet_util.rs:1-13 | `Ristikko` with the two categories gives `"Ristikko - Boulderit"` and `"Ristikko - Reitit"`. |
| ClimbSheet.CopiesAgree | src/climb_sheet.rs:79-96 | The three private copies compute exactly what the shared naming functions compute. |
| ClimbSheet.GetSheetForGymNameAndWallCategory | src/climb_sheet.rs:15-33 | Succeeds if and only if four things hold: the sheet list is present, the gym name has a second word, the category is known, and the lookup of the formatted title succeeds. The title is then the formatted sheet name, and the id is the lookup's (that of the first sheet with that title). |
| ClimbSheet.AppendClimbToSheet | src/climb_sheet.rs:35-56 | The first call appends the climb's row to the target sheet. A second call is made if and only if the append gave a landed row, the colour decodes and the colour column is below `i32::MAX`. That call colours the landed row's cell in the configured colour column with the climb's own colour, and its answer is the outcome. Otherwise the step fails, and a failed append's error is the outcome. |
| ClimbSheet.CanFillExactly | src/climb_sheet.rs:45-54 | The fill is made if and only if three things hold: the append landed on a row, the climb's colour decodes, and the configured colour column is below `i32::MAX`. The landed row never overflows. |
| ClimbSheet.AppendClimbs | src/climb_sheet.rs:69-72 | The loop's outcome and calls are those of running the climbs' steps in order and stopping at the first failure. |
| ClimbSheet.AddWallToSheet | src/climb_sheet.rs:58-77 | The outcome and calls equal `AddWall`: resolve the sheet (a missing spreadsheet id panics), run the loop, then sort. |
| ClimbSheet.RunLength | src/climb_sheet.rs:69-72 | A run makes at most two calls per climb. A run that succeeds makes exactly two. |
| ClimbSheet.RunSucceeds | src/climb_sheet.rs:69-72 | A run succeeds if and only if every climb's step succeeds. |
| ClimbSheet.RunStopsAtFirstFailure | src/climb_sheet.rs:71 | A failing run ends with its first failing step. The outcome is that step's, after all the calls of the steps before it. |
| ClimbSheet.RunCallsAt | src/climb_sheet.rs:69-72 | Calls `2k` and `2k + 1` of a run are the first and second calls of step `k`. |
| ClimbSheet.StepsWellShaped | src/climb_sheet.rs:43-54 | Each climb makes its append and at most one more call. A step that made only the append failed. |
| ClimbSheet.StepsSucceed | src/climb_sheet.rs:43-55 | A climb's step succeeds if and only if three things hold: its append landed on a row, the fill could be made (the colour decodes and the colour column is below `i32::MAX`), and the fill was accepted. |
| ClimbSheet.SyncCallsAt | src/climb_sheet.rs:43-53 | Call `2k` of a sync appends climb `k` in `climbs()` order. Call `2k + 1`, when made, colours that climb's cell in the row its own append landed on. |
| ClimbSheet.AddWallShape | src/climb_sheet.rs:58-77 | At most `2n + 1` calls for `n` climbs. The sort is made if and only if the sheet resolves and every climb goes through. It is then the last call, sorts the resolved sheet on the date column, and its answer is the outcome. A successful sync always includes the sort. |
| ClimbSheet.AddWallStopsAtFirstFailure | src/climb_sheet.rs:69-74 | When climb `k` is the first to fail, the sync ends with that climb's outcome. Before it come two calls for each earlier climb, then that climb's own calls, and no sort follows. |
| Sheets.FindSheetId | src/sheets.rs:72-76 | A found id belongs to the first sheet with the title, and every sheet before it had properties and another title. Whenever such a first sheet with an id exists, the lookup succeeds. |
| Sheets.GetSheetId | src/sheets.rs:68-77 | A missing sheet list panics. Otherwise the result is the lookup in the list. |
| Sheets.SheetIdCache.constructor | src/sheets.rs:84-87 | The cache starts empty. |
| Sheets.SheetIdCache.MemoizedGetSheetId | src/sheets.rs:79-95 | A hit returns the cached id, fetches nothing and changes nothing. A miss fetches. A failed fetch changes nothing. A successful miss stores exactly the name and the id found, and no other entry changes. With a cache that agrees with the spreadsheet, the answer equals a fresh lookup and the cache still agrees. |
| Sheets.SheetRows | src/sheets.rs:226 | The rows `get_sheet_rows` returns: none when the range has no values (`unwrap_or_default`), otherwise exactly its values. No operation of the modelled sync reads a sheet, so nothing else uses it. |
| Sheets.LastMatch | src/sheets.rs:245 | A found position is a `!` at which `.+![A-Z]+\d+:[A-Z]+\d+` matches, no later than the bound. |
| Sheets.LastMatchIsLast | src/sheets.rs:245 | The greedy `.+` takes the last `!` at which a match starts. |
| Sheets.ParseRowFromRange | src/sheets.rs:241-250 | A parsed row lies in [0, 2^31 - 1]. |
| Sheets.ParseRowFromRangeCases | src/sheets.rs:241-250 | On any string: success if and only if the pattern matches somewhere and the row digits of the last match fit in an `i32`. The result is then their value. No match, or a row that overflows `i32`, panics. |
| Sheets.ParseLaidOut | src/sheets.rs:245-249 | A string laid out as `.!<letters><digits>:<letters><digits>` parses to the value of its first digits. |
| Sheets.ParseA1Range | src/sheets.rs:241-250 | Parsing the A1 range of an append (`<title>!<col><row>:<col><row>`) gives back its start row, whatever the title holds. When the row exceeds `i32::MAX`, the parse panics. |
| Sheets.ParseRowExample | src/sheets.rs:268-274 | `'Ristikko - Reitit'!B12:F12` gives 12. |
| Sheets.GetUpdatedRow | src/sheets.rs:229-239 | Succeeds if and only if the response has an updated range that parses. The landed row is one less than the parsed row (zero-based), so it lies in [-1, 2^31 - 1) and `row + 1` cannot overflow. |
| Sheets.ColorFromHex | src/sheets.rs:252-255 | Succeeds if and only if three things hold: the string has at least seven characters, the first is ASCII, and characters 1-2, 3-4 and 5-6 each decode as a byte. The channels are those bytes. A non-ASCII first character puts byte 1 inside it, and the byte slice panics. With an ASCII first character, character and byte offsets agree on the pairs that decode. Every failure is a panic. |
| Sheets.ColorFromHexByteBoundary | src/sheets.rs:253 | `"é123456"` panics, though six hex digits follow. `"#123456"` gives (0x12, 0x34, 0x56). |
| Sheets.HexByteRoundTrip | src/sheets.rs:253-255 | Decoding the two lower-case hex digits of a byte gives the byte. |
| Sheets.ColorFromHexRoundTrip | src/sheets.rs:252-262 | Decoding `#rrggbb` gives back the three channels it was written from. |
| Sheets.SetCellBackgroundColorRequest | src/sheets.rs:140-158 | Succeeds if and only if the colour decodes and neither `row + 1` nor `column + 1` overflows `i32`. The request covers exactly the one cell at (`row`, `column`), replaces every format field (`*`) and carries the decoded colour. |
| Sheets.ResetRowFormatRequest | src/sheets.rs:183-197 | Succeeds if and only if `row + 1` does not overflow `i32`. The request covers exactly the cells of row `row`, every column from the first on, with the default format. |
| Sheets.SortSheetByColumnRequest | src/sheets.rs:103-116 | The request covers exactly the rows from index 1 on (the header is left out), in every column. It sorts `DESCENDING` on the given column. |
| Auth.Base64UrlNoPad | src/vertical_life/auth.rs:214-216 | `n` bytes encode to `(4n + 2) / 3` symbols, with no padding. |
| Auth.Base64UrlSymbols | src/vertical_life/auth.rs:214-216 | Every symbol is from the URL-safe alphabet `[A-Za-z0-9_-]`. |
| Auth.RandomStringIsCodeVerifier | src/vertical_life/auth.rs:14-16 | 32 random bytes give 43 characters, a well-formed code verifier: 43 to 128 unreserved characters. |
| Auth.RandomBytes | src/vertical_life/auth.rs:218-222 | A fresh buffer of `len` bytes holding the random source's first `len` bytes. |
| Auth.RandomBase64String | src/vertical_life/auth.rs:224-226 | The encoding of `len` random bytes. |
| Auth.BrowserHeaders | src/vertical_life/auth.rs:192-204 | Exactly `user-agent`, `accept` and `accept-language`, with the browser values. |
| Auth.AppHeaders | src/vertical_life/auth.rs:130-131 | The same header names, with the app's user agent instead and the other values unchanged. |
| Auth.AuthorizeQueryIsPkceRequest | src/vertical_life/auth.rs:62-71 | The query is an authorization-code request with a PKCE S256 challenge for the fixed client and redirect. It carries the scope, the state and the nonce. |
| Auth.ScopeAsksOfflineAccess | src/vertical_life/auth.rs:66 | The scope ends with `offline_access`, so the server issues a refresh token. |
| Auth.LoginForm | src/vertical_life/auth.rs:95-98 | Exactly `username`, `password` and `rememberMe=on`. |
| Auth.TokenFormIsCodeTokenRequest | src/vertical_life/auth.rs:133-138 | Exactly `grant_type=authorization_code`, the code, `redirect_uri`, `client_id` and `code_verifier` (section 4.1.3 of RFC 6749, section 4.5 of RFC 7636). |
| Auth.RefreshFormIsRefreshRequest | src/vertical_life/auth.rs:164-167 | Exactly `grant_type=refresh_token`, the refresh token and `client_id` (section 6 of RFC 6749). |
| Auth.PairsToMapLast | src/vertical_life/auth.rs:117 | A key is in the collected query if and only if some pair has it. Its value is that of the last such pair. |
| Auth.PairsToMapValueIsLast | src/vertical_life/auth.rs:117 | A collected value is carried by a pair with its key after which no pair has that key. |
| Auth.CodeFromRedirect | src/vertical_life/auth.rs:108-122 | A code is returned when four things hold: the reply has a `Location` header, the header is visible ASCII, the URL parses, and some query pair is named `code`. The code is the value of the last pair named `code`. Anything else panics, and a failed send propagates. |
| Auth.AuthClient.constructor | src/vertical_life/auth.rs:42-51 | The verifier is the encoding of 32 random bytes. It is a `const`, so it is never reassigned. |
| Auth.AuthClient.Authorize | src/vertical_life/auth.rs:53-86 | Sends one GET to the authorize endpoint with the browser headers. The query holds the verifier's challenge and a fresh state and nonce. The result is the scraped action URL, or the failure. |
| Auth.AuthClient.Authenticate | src/vertical_life/auth.rs:88-123 | Posts the login form to the action URL with the browser headers. The result is the redirect's code. |
| Auth.AuthClient.GetAccessToken | src/vertical_life/auth.rs:125-152 | Posts the code-exchange form, with the client's own verifier and the app headers, to the token endpoint. The result is the parsed token. |
| Auth.RefreshToken | src/vertical_life/auth.rs:154-182 | Sends the refresh grant for the given token from a freshly made client. The result is the parsed token. |
| Auth.DoAuthFlow | src/vertical_life/auth.rs:184-189 | The outcome and the requests sent equal `AuthFlow`: authorize, authenticate at the found action URL, then exchange the found code, all on one client, stopping at the first failure. |
| Auth.FlowBindsVerifier | src/vertical_life/auth.rs:49-60 | The verifier whose challenge the authorize request carries is well formed. It is the very one the token request presents. The authorize request is a PKCE S256 request. |
| Auth.FlowStopsAtFirstFailure | src/vertical_life/auth.rs:184-189 | One request when authorize fails, two when authenticate fails, three otherwise. Each failure's error is the outcome. The credentials go only to the found action URL, and the exchanged code is the one the redirect carried. |
| Api.MakeHeaders | src/vertical_life/api.rs:94-108 | Succeeds if and only if the token can stand in a header value (otherwise the `unwrap` panics). The `authorization` header is `Bearer ` plus the token. |
| Api.MakeHeadersFixed | src/vertical_life/api.rs:100-106 | Exactly eight headers. Besides the token, they hold the app's fixed accept, locale, version, app-id, time-zone and user-agent values. |
| Api.Final | src/vertical_life/api.rs:47-62 | A pass of the loop that does not retry leaves the pair unchanged. It makes at most one send, with the current headers, and at most one refresh, which failed. It succeeds only with that send's non-error status. |
| Api.VerticalLifeClient.constructor | src/vertical_life/api.rs:23-32 | The client holds the given pair. |
| Api.VerticalLifeClient.RefreshAccessToken | src/vertical_life/api.rs:34-39 | Sends the refresh grant for the current refresh token. Success replaces both tokens with the returned pair. Failure propagates and leaves both unchanged. |
| Api.VerticalLifeClient.MakeRequest | src/vertical_life/api.rs:41-66 | The outcome, the new pair, the headers of every send and every refresh request equal the retry specification `Attempt` run from the old pair with `attempts` at 0. |
| Api.SendCarriesCurrentToken | src/vertical_life/api.rs:47 | Every send's `authorization` header is `Bearer ` plus the current access token: the start token, then the one the preceding refresh returned. Every refresh before a later send succeeded. |
| Api.RefreshUsesCurrentToken | src/vertical_life/api.rs:57-59 | Each refresh is made with the current refresh token: the start token, then the one the previous refresh returned. |
| Api.FinalPair | src/vertical_life/api.rs:34-39 | The pair left at the end is the one the last successful refresh returned, or the start pair when no refresh succeeded. A failed refresh changes nothing. |
| Api.AttemptBounds | src/vertical_life/api.rs:45-65 | At most three refreshes and at most four sends. There are at least as many sends as refreshes, and at most one more. |
| Api.EqualCountsEndWithoutSend | src/vertical_life/api.rs:47-59 | When sends and refreshes are equally many, the loop ended without a final send in one of two ways. Either the last refresh failed and its error is the outcome, or the headers for the current access token could not be built (a panic). |
| Api.SuccessIsImmediate | src/vertical_life/api.rs:53-54 | A success status at any send, including after refreshes, is returned at once. From that send on there is one send and no refresh, and the pair is unchanged. |
| Api.OtherErrorIsNotRetried | src/vertical_life/api.rs:57-61 | An error status other than 401 at any send, including after a refresh, ends the loop with that status as the error. There is no further send or refresh. |
| Api.TransportFailureIsNotRetried | src/vertical_life/api.rs:48-51 | A send that fails at any attempt propagates at once as the error, with no refresh and no retry. |
| Api.UnauthorizedRefreshesOnce | src/vertical_life/api.rs:57-59 | A 401 before the bound costs exactly one refresh, with the current refresh token. A failed refresh ends the loop with its error. A successful one is followed by the rest of the loop under the new pair. |
| Api.AlwaysUnauthorizedGivesUp | src/vertical_life/api.rs:13 | When every send gets 401 and every refresh succeeds, the request fails with 401 after four sends and three refreshes. |
| Api.SuccessComesFromLastSend | src/vertical_life/api.rs:53-54 | A successful request's status is its last send's, and it is not an error status. |
| Util.FormatImageUrl | src/vertical_life/util.rs:4-11 | Succeeds if and only if the width is 750 or 3750. The URL is the API base, `/images/`, the id, `?width=` and the width. Any other width panics. |
| Util.ImageUrlCarriesWidth | src/vertical_life/util.rs:5-10 | The URL starts with the fixed prefix, the id sits between the fixed parts, and the trailing numeral reads back as the width. |
| Util.ImageUrlExample | src/vertical_life/util.rs:3 | Width 3750 gives `https://vlcapi.vertical-life.info/images/<id>?width=3750`. |
| RouteSetTimes.ClimbTimesAt | src/bin/get_route_set_times.rs:32-34 | One instant per climb, each the climb's own set-at, in order. |
| RouteSetTimes.WallTimesLength | src/bin/get_route_set_times.rs:30-35 | The instants of some walls number exactly their climbs. |
| RouteSetTimes.WallTimesHas | src/bin/get_route_set_times.rs:30-35 | The instant of every climb of every wall is collected. |
| RouteSetTimes.WallTimesFrom | src/bin/get_route_set_times.rs:30-35 | Every collected instant belongs to a climb of one of the walls. |
| RouteSetTimes.SectorTimesHas | src/bin/get_route_set_times.rs:28-36 | The instants of every wall of every sector are collected. |
| RouteSetTimes.SectorTimesFrom | src/bin/get_route_set_times.rs:28-36 | Every instant collected from some sectors comes from the walls of one of them. |
| RouteSetTimes.AllSetAtHas | src/bin/get_route_set_times.rs:22-37 | The instants of every sector of every configured gym are collected. |
| RouteSetTimes.AllSetAtFrom | src/bin/get_route_set_times.rs:22-37 | Every collected instant comes from the sectors of one of the gyms. |
| RouteSetTimes.AllSetAtAppend | src/bin/get_route_set_times.rs:24-37 | Gym order is kept: the instants of later gyms follow those of earlier ones. |
| RouteSetTimes.CollectWall | src/bin/get_route_set_times.rs:32-34 | The pushes for one wall append its climbs' instants, in `climbs()` order. |
| RouteSetTimes.CollectSector | src/bin/get_route_set_times.rs:30-35 | The pushes for one sector append its walls' instants, wall by wall. |
| RouteSetTimes.CollectGym | src/bin/get_route_set_times.rs:28-36 | The pushes for one gym append its sectors' instants, sector by sector. |
| RouteSetTimes.CollectSetAt | src/bin/get_route_set_times.rs:22-37 | `all_set_at` is the instants of all climbs in gym, sector, wall and climb order. |
| RouteSetTimes.BucketsSumToTotal | src/bin/get_route_set_times.rs:41-44 | Every instant lands in exactly one hour, so the 24 counts add up to the number of instants. |
| RouteSetTimes.Buckets | src/bin/get_route_set_times.rs:41-44 | A fresh array of 24 buckets. Bucket `h` holds the number of instants in hour `h`. |
| RouteSetTimes.Pad2Hour | src/bin/get_route_set_times.rs:46 | An hour is written as exactly two digits that read back as the hour. |
| RouteSetTimes.LineLayout | src/bin/get_route_set_times.rs:46 | A line is the two-digit hour, then `:00: `, then a numeral that reads back as the count. |
| RouteSetTimes.Report | src/bin/get_route_set_times.rs:45-47 | The report has exactly 24 lines. |
| RouteSetTimes.OutputLines | src/bin/get_route_set_times.rs:45-47 | 24 lines in hour order. Line `h` is bucket `h`'s line. |
| RouteSetTimes.RouteSetTimes | src/bin/get_route_set_times.rs:22-47 | The printed lines are the report of all the climbs' instants. |
| GymImages.ImagePathLayout | src/bin/get_gym_images.rs:39-44 | The path is `images/`, the gym name with spaces turned into dashes, `-`, the sector name likewise, `-`, the category unchanged, then `.jpg`. Every part is at its position, and neither name segment holds a space. |
| GymImages.ImageUrlAccepted | src/bin/get_gym_images.rs:38 | Width 3750 is one the URL builder accepts, so it never panics there. |
| GymImages.SectorDownload | src/bin/get_gym_images.rs:37-45 | A sector's download targets its image path. Its URL is the overview image's URL at width 3750. |
| GymImages.GymDownloads | src/bin/get_gym_images.rs:35-47 | One download per sector of the gym. |
| GymImages.DownloadsLength | src/bin/get_gym_images.rs:31-48 | One download per sector of every configured gym. |
| GymImages.DownloadsPrefix | src/bin/get_gym_images.rs:31-48 | The downloads of the first gyms come first, in gym order. |
| GymImages.SaveGym | src/bin/get_gym_images.rs:35-47 | The downloads made are a prefix of the gym's, in sector order. On success they are all of them, and each succeeded. On failure the last one made is the one that failed, and every earlier one succeeded. |
| GymImages.SaveImages | src/bin/get_gym_images.rs:31-48 | The downloads made are a prefix of all of them, in gym then sector order. On success they are all of them, and each succeeded. On failure the last one made is the one that failed, and every earlier one succeeded. |

## Left out

- HTTP and SDK plumbing is not modelled: `reqwest`, `google_sheets4`, `get_client` and the `doit()` calls. Their answers are parameters.
- `get_spreadsheet`, `append_row`, `get_sheet_rows`'s fetch and the batch-update sends are modelled only through those answers.
- SHA-256, the `scraper` HTML parsing in `parse_action_url`, `url` parsing, `serde_json` decoding and the random generator are library code. They are function-typed parameters (`Primitives`) or byte sequences.
- Sheets.SetCellBackgroundColorRequest and Sheets.ResetRowFormatRequest: an `i32` overflow of `row + 1` or `column + 1` is modelled as the debug build's panic. A release build would wrap to a negative index instead, and that is not modelled. The configured column indices are otherwise unbounded integers.
- Sheets.ParseRowFromRange: the regular-expression engine is replaced by a hand-written matcher of `.+![A-Z]+\d+:[A-Z]+\d+`. It does not model that `\d` also matches non-ASCII decimal digits. It also does not model that `.` excludes a newline, which the program's leftmost match observes, and that has two effects. First, a range whose every matching `!` directly follows a newline does not match in the program but parses here. Second, with several lines, the program takes the last matching `!` of the first line that has one, while the model takes the last one overall. For example, `x!A1:B2` and `y!C3:D4` on two lines give row 1 in the program and row 3 here. A newline elsewhere, as in a title `'a` / `b'` split over two lines, gives the same row in both.
- The float channels (`b as f32 / 255.0`) of `color_from_hex` are left out. The model keeps the integer bytes.
- The 5-second settling delay in `append_climb_to_sheet`, `async`/`await`, and the `tokio` mutex behind `lazy_static` are timing and concurrency. The cache is a plain map field of an object the caller passes.
- The row layout of an append (`to_sheet_row`) is not part of the shown source, so an append op names the climb.
- Serde deserialisation is left out. chrono's `DateTime` is an integer count of UTC seconds, without leap seconds.
- Configuration loading, logging (`tracing`, `dbg!`) and the file-writing `download_image` are left out. A download's outcome is a function of its URL and path.
- `get_gym_details` and `get_gym_sector` are `make_request` followed by JSON decoding of the body. They are not modelled separately; the report programs take the fetched gyms and sectors as input, so a failed fetch in those programs is not modelled.
- `src/bin/main.rs` and `src/bin/playground.rs` call code that is not part of this model: deduplicating sync, sheet reading, highlighting.
- RouteSetTimes.Buckets: counts are unbounded. The program's `i32` counters would overflow only past 2^31 - 1 climbs in one hour, which is not modelled.
- Api.VerticalLifeClient.MakeRequest: each send's outcome comes from a reply sequence, whatever the request is. The program's request closure, and the fact that the same logical request is reissued, are not modelled.
- GymImages.SaveImages: two downloads with the same URL and path get the same outcome, since the download is a function of its target.
