# portal-magelang client core in Dafny

This project models the browser-side decision logic of the portal-magelang admin portal, a
Next.js front end. It covers the session lifecycle and the components built on it:

- **Route guard** (`middleware.ts`): a page request without a `token` cookie goes to
  `/auth/login`, one with a token is sent away from the login page, and static assets and
  images never reach the guard.
- **HTTP client** (`api.ts`):
  - a request interceptor that adds `Authorization: Bearer <token>`;
  - a response interceptor that ends the session on a 401 from outside the login endpoint;
  - `asErrorMessage`.
- **Login form** (`AuthLogin.tsx`), **profile menu and logout** (`Profile.tsx`).
- **Single sign-on hand-off** (`useRedirectToApp.ts`):
  - the checks it makes before redirecting;
  - the lookup of the application by name;
  - the receiver URL, with `encodeURIComponent` written out in full, and a reference decoder
    that shows the receiver gets the ciphertext back.
- **Cache-or-fetch of the application directory and the sidebar menu** (`DashboardMenu.tsx`,
  `MenuItems.ts`): a one-hour localStorage cache, with its fallbacks.
- **Sidebar rendering** (`SidebarItems.tsx`): the menu filter, the icon-name formatting and
  the selection rule.
- **Two payload serialisers** (`UserEntity.ts`, `PortalSettingsRepository.ts`): the exported
  `mapFormValuesToPayload` of the user entity, which no screen calls, and the
  report-signature update body with the record paths.

## How it is modelled

Everything a component touches in the browser is one `ClientState.Browser` object:

- the cookies;
- the localStorage entries, as typed documents;
- the current pathname;
- the last navigation requested;
- the toasts and alerts shown.

Components that keep React state are classes whose fields are that state
(`AuthLogin.LoginForm`, `Profile.ProfileMenu`, `RedirectToApp.Redirector`,
`DashboardMenu.Dashboard`, `MenuItems.SidebarMenu`). Their handlers are methods. Each method
states the whole new state of the component and of the browser in terms of pure functions,
and lemmas prove what the portal promises about those functions. The route guard, the icon
and rendering rules, and the serialisers are pure functions.

Three things come from outside the page and are parameters:

- the network reply (`Api.Reply`: delivered data, or a failure with an optional status and
  message);
- the clock (`now`, `fetchedAt`);
- the `encryptToken` server action (`string -> Option<string>`, where None means it threw).

Every request made by a component in the browser goes through both interceptors
(`Api.Request`, or `Submit` and `Complete` for the login form), so the 401 rule applies to it.

JavaScript built-ins the code depends on are written out in module `Js`:

- truthiness, and `??` versus `||`;
- `trim` with the ECMAScript white-space set;
- `includes`;
- `Number()` on integers and digit strings;
- the decimal form of an integer.

Module `UriComponent` holds `encodeURIComponent`: UTF-8, upper-case hex, and the unescaped
set of section 2.3 of RFC 3986 plus `!~*'()`.

Three behaviours of the code that are easy to misread:

- `user` is written to localStorage without a timestamp and never expires; only `app_cache`
  and `menus_cache` expire.
- A 401 removes only the `token` cookie; localStorage is left as it is.
- The redirect encrypts the token before the directory lookup, so an encryption failure is
  reported even for an unknown name. The unknown-name exit also leaves the loading flag on
  (see Findings).

## Model

| member | source | states |
|---|---|---|
| Js.Trim | src/features/user/UserEntity.ts:40-48 | `trim()` removes exactly the leading and trailing ECMAScript white space and keeps the middle of the string |
| Js.TrimIdempotent | src/features/user/UserEntity.ts:40-48 | trimming an already-trimmed field changes nothing |
| Js.DecimalStringToNumber | src/features/user/UserEntity.ts:42 | `Number(String(n))` is `n` for every integer |
| Js.DecimalRoundTrip | src/features/portal-settings/PortalSettingsRepository.ts:71 | reading back the decimal numeral of a natural number gives the number |
| Js.IntToDecimal | src/features/portal-settings/PortalSettingsRepository.ts:71 | `${id}` is an optional minus sign followed by the numeral of the magnitude, which reads back as the magnitude and has no leading zero |
| Js.CanonicalNumeralUnique | src/features/portal-settings/PortalSettingsRepository.ts:71 | a digit string without leading zeros that reads back as `n` is exactly the numeral written for `n`, so the numeral is determined by those two properties |
| Js.LeadingDigitPositive | src/features/portal-settings/PortalSettingsRepository.ts:71 | a numeral whose first digit is not 0 has a positive value |
| Js.StringToNumber | src/features/user/UserEntity.ts:42 | `Number` of a blank string is 0, and of a run of decimal digits is the value of those digits |
| Js.ToNumber | src/features/user/UserEntity.ts:42 | `Number(undefined)` is NaN; `null`, booleans and numbers convert to integers, non-zero exactly when the value is truthy |
| Js.IncludesAt | src/core/lib/api.ts:40 | `includes` holds whenever the part occurs at some position |
| Js.IncludesWitness | src/core/lib/api.ts:40 | when `includes` holds, the part occurs at some position |
| UriComponent.Encode | src/core/hooks/useRedirectToApp.ts:49 | `encodeURIComponent` output contains only unreserved characters, `%` and upper-case hex digits |
| UriComponent.EscapeAll | src/core/hooks/useRedirectToApp.ts:49 | a byte sequence is written as one `%XX` triple per byte, in order |
| UriComponent.DecodeEncode | src/core/hooks/useRedirectToApp.ts:49 | percent-decoding the encoded string gives back the original string, for every string |
| UriComponent.EncodeUnescapedIsIdentity | src/core/hooks/useRedirectToApp.ts:49 | a string of unreserved characters, such as base64 text without `+`, `/` or `=`, is sent unchanged |
| CachePolicy.ExpiryBoundary | src/components/dashboard/DashboardMenu.tsx:38-45 | an entry exactly one hour (3,600,000 ms) old is stale; one a millisecond younger is fresh |
| Middleware.Guard | src/middleware.ts:4-24 | a page passes exactly when a truthy token and a page other than `/auth/login` go together; otherwise it redirects to `/` with a token and to `/auth/login` without one |
| Middleware.Route | src/middleware.ts:4-30 | a path the matcher keeps gets exactly the guard's answer; a path it leaves out is served without the guard; every redirect goes to `/auth/login` or `/` |
| Middleware.NoTokenRedirectsToLogin | src/middleware.ts:11-15 | without a truthy token, every page except `/auth/login` redirects to `/auth/login`, and `/auth/login` passes |
| Middleware.TokenLeavesLoginPage | src/middleware.ts:17-23 | with a token, `/auth/login` redirects to `/` and every other page passes |
| Middleware.NoRedirectLoop | src/middleware.ts:4-24 | the target of any redirect passes the guard with the same cookies, so one redirect settles the request |
| Middleware.EmptyTokenIsAbsent | src/middleware.ts:5-12 | an empty `token` cookie is treated exactly like no cookie |
| Middleware.TrailingSlashIsProtected | src/middleware.ts:9-15 | the public-path test is exact: `/auth/login/` without a token is redirected to the login page |
| Middleware.ImagesPassThrough | src/middleware.ts:26-30 | paths ending in `.svg`, `.png`, `.jpg`, `.jpeg`, `.gif` or `.webp` never reach the guard |
| Middleware.StaticAssetsPassThrough | src/middleware.ts:26-30 | paths under `/_next/static` never reach the guard |
| Middleware.NextImagePassThrough | src/middleware.ts:26-30 | paths under `/_next/image` never reach the guard |
| Middleware.FaviconDotMatchesAnyCharacter | src/middleware.ts:28 | the unescaped `.` in `favicon.ico` also lets `/favicon-ico` through unguarded |
| Api.AsErrorMessage | src/core/lib/api.ts:11-14 | the server message if not nullish (an empty one included), else the error's message, else "Unknown error" |
| Api.WithBearer | src/core/lib/api.ts:16-24 | with a non-empty token, `Authorization` carries exactly `Bearer <token>`; without one the headers are unchanged; no other header is touched |
| Api.RequestConfig.constructor | src/core/lib/api.ts:4-9 | every request starts with `Content-Type: application/json` |
| Api.InterceptRequest | src/core/lib/api.ts:16-29 | the interceptor updates the request's headers to `WithBearer` of the cookie token, and reads no token during server rendering |
| Api.InterceptResponse | src/core/lib/api.ts:32-53 | the outcome is passed on unchanged; the token is removed and `/auth/login` requested exactly on a 401 from a URL without `/login` while the page path lacks `/auth/login`; nothing else changes |
| Api.CookiesAfter | src/core/lib/api.ts:37-48 | after a response only the `token` cookie can be gone, and it is gone exactly when the session ends; every other cookie keeps its value |
| Api.NavigationAfter | src/core/lib/api.ts:37-48 | after a response the navigation is the earlier one or `/auth/login`, and it changes only when the session ends |
| Api.Request | src/core/lib/api.ts:4-53 | one request through both interceptors: the headers sent, the settled outcome, and the session effects |
| Api.SuccessKeepsSession | src/core/lib/api.ts:33 | a successful response never ends the session: the cookies and the earlier navigation are kept |
| Api.OtherErrorsKeepSession | src/core/lib/api.ts:37-45 | errors other than 401, including network errors, never end the session: the cookies and the earlier navigation are kept |
| Api.LoginErrorsKeepSession | src/core/lib/api.ts:37-40 | a 401 from a URL containing `/login` never ends the session: the cookies and the earlier navigation are kept |
| Api.ExpiredSessionClearsOnlyToken | src/core/lib/api.ts:37-48 | an expired session on a protected page removes the `token` cookie and no other, and navigates to `/auth/login` whatever was requested before |
| Api.LoginUrlIncludesLogin | src/app/auth/login/AuthLogin.tsx:43 | the login endpoint's URL contains `/login`, so the 401 rule never fires for it |
| AuthLogin.FailureMessage | src/app/auth/login/AuthLogin.tsx:77-79 | the toast is the server message when truthy, else "Login Gagal! Cek username/password."; it is never empty |
| AuthLogin.EmptyServerMessage | src/app/auth/login/AuthLogin.tsx:77-79 | on an empty server message the login toast falls back (`\|\|`) while `asErrorMessage` returns "" (`??`) |
| AuthLogin.LoginForm.constructor | src/app/auth/login/AuthLogin.tsx:33-35 | the form starts empty and not loading |
| AuthLogin.LoginForm.ChangeUsername | src/app/auth/login/AuthLogin.tsx:111-113 | typing sets the username and nothing else |
| AuthLogin.LoginForm.ChangePassword | src/app/auth/login/AuthLogin.tsx:133-135 | typing sets the password and nothing else |
| AuthLogin.LoginForm.Submit | src/app/auth/login/AuthLogin.tsx:38-46 | loading starts and the button is disabled; the body is exactly the typed username and password; the headers are those of the request interceptor |
| AuthLogin.LoginForm.Complete | src/app/auth/login/AuthLogin.tsx:47-81 | on success, the 7-day `token` cookie, `user`, `loginSuccess = "true"`, the success alert and navigation to `/`; on failure, one toast and no other change; loading ends on both |
| Profile.ProfileMenu.constructor | src/components/layout/header/Profile.tsx:21 | the menu starts closed |
| Profile.ProfileMenu.HandleClick | src/components/layout/header/Profile.tsx:23-25 | a click anchors the menu at the clicked element, which opens it |
| Profile.ProfileMenu.HandleClose | src/components/layout/header/Profile.tsx:27-29 | closing clears the anchor, and the menu is closed exactly when the anchor is null |
| Profile.ProfileMenu.HandleLogout | src/components/layout/header/Profile.tsx:34-57 | removes the `token` cookie and exactly `app_cache`, `menus_cache` and `user`, keeps every other entry (`loginSuccess` included) unchanged, closes the menu and navigates to `/auth/login` |
| RedirectToApp.FirstNamed | src/core/hooks/useRedirectToApp.ts:42 | `find` returns the first application whose `nama` equals the name exactly, or none when none does |
| RedirectToApp.Destination | src/core/hooks/useRedirectToApp.ts:49 | the URL is the application URL, then `/authentication/receiver?data=`, then a query value that percent-decodes to the ciphertext |
| RedirectToApp.PlanRedirect | src/core/hooks/useRedirectToApp.ts:21-58 | an abort carries one of the three fixed messages; a present but unreadable directory with a session gives "Gagal mengamankan koneksi."; an unknown name carries its own message; anything but an abort needs a token, a cached directory and a working encryption; a navigation goes to the receiver of an application with that name |
| RedirectToApp.LoadingAfterAsWritten | src/core/hooks/useRedirectToApp.ts:44-47 | as written, only the aborts clear `isLoading`; the unknown-name exit leaves it on |
| RedirectToApp.LoadingAfter | src/core/hooks/useRedirectToApp.ts:53-56 | as intended, `isLoading` stays on exactly when the browser navigates away |
| RedirectToApp.Redirector.constructor | src/core/hooks/useRedirectToApp.ts:19 | the hook starts not loading |
| RedirectToApp.Redirector.TriggerRedirect | src/core/hooks/useRedirectToApp.ts:21-58 | either it navigates to the receiver with no toast, or it shows exactly one toast and navigates nowhere; cookies and storage never change |
| RedirectToApp.TokenCheckedFirst | src/core/hooks/useRedirectToApp.ts:24-30 | without a truthy token the result is "Sesi Anda habis." whatever the cache and the encryption |
| RedirectToApp.MissingDirectoryAborts | src/core/hooks/useRedirectToApp.ts:32-37 | with a session but no cached directory the result is "Konfigurasi aplikasi tidak ditemukan." and the encryption plays no part |
| RedirectToApp.UnreadableDirectoryAborts | src/core/hooks/useRedirectToApp.ts:39-56 | with a session, working encryption and a cached directory that cannot be parsed or searched, the result is "Gagal mengamankan koneksi." |
| RedirectToApp.EncryptionBeforeLookup | src/core/hooks/useRedirectToApp.ts:39-57 | when encryption fails, the result is "Gagal mengamankan koneksi." even for an unknown application |
| RedirectToApp.NavigatesIffRegistered | src/core/hooks/useRedirectToApp.ts:42-52 | with a session, a directory and working encryption, it navigates exactly when some cached application has the name, and otherwise reports it unregistered |
| RedirectToApp.NavigatesToFirstMatch | src/core/hooks/useRedirectToApp.ts:42-52 | the destination is the receiver of the first application of that name, and it carries the ciphertext recoverably |
| RedirectToApp.DirectoryAgeIgnored | src/core/hooks/useRedirectToApp.ts:32-42 | the directory's timestamp never affects the redirect, so an expired directory is still used |
| RedirectToApp.UnregisteredLeavesLoading | src/core/hooks/useRedirectToApp.ts:44-47 | a concrete unknown-name call that ends with a toast and no navigation, while `isLoading` as written is still true |
| DashboardMenu.ReadAppCache | src/components/dashboard/DashboardMenu.tsx:42-50 | the cache is used exactly when an app-cache document younger than one hour is present; a present entry of another shape is unreadable; anything else means fetch |
| DashboardMenu.DescriptionOf | src/components/dashboard/DashboardMenu.tsx:314-315 | a card shows its description when truthy, else the fixed default; never an empty text |
| DashboardMenu.GradientAt | src/components/dashboard/DashboardMenu.tsx:244 | each card's colour is one of the eight gradients |
| DashboardMenu.Render | src/components/dashboard/DashboardMenu.tsx:190-205 | the badge is `menus.length`; while loading there are exactly 6 skeletons; afterwards one card per application, card `i` with its name, its description and gradient `i mod 8` |
| DashboardMenu.Dashboard.constructor | src/components/dashboard/DashboardMenu.tsx:33-34 | the grid starts empty and loading |
| DashboardMenu.Dashboard.FetchMenus | src/components/dashboard/DashboardMenu.tsx:40-84 | a fresh cache is shown with no request; a stale or missing one is refetched, shown and cached with the fetch time; an unreadable cache or a failed request shows the two fallback tiles without writing the cache; loading ends on every path |
| DashboardMenu.Dashboard.ClickTile | src/components/dashboard/DashboardMenu.tsx:208 | clicking card `i` runs the redirect for that card's name; cookies, storage and the current page stay as they were |
| DashboardMenu.CachedReplyReadsBack | src/components/dashboard/DashboardMenu.tsx:58-64 | what a successful fetch caches is read back as the same list for exactly one hour |
| DashboardMenu.UnreadableCacheIsSticky | src/components/dashboard/DashboardMenu.tsx:42-50 | an unreadable `app_cache` entry stays unreadable whatever the clock says |
| DashboardMenu.NeighbourGradientsDiffer | src/components/dashboard/DashboardMenu.tsx:90-99 | neighbouring cards never share a colour, and colours repeat every eight cards |
| DashboardMenu.GradientsDistinct | src/components/dashboard/DashboardMenu.tsx:90-99 | cards fewer than eight apart have different colours |
| MenuItems.FilterValidMenus | src/components/layout/sidebar/MenuItems.ts:26-30 | keeps exactly the menus whose `details` is a non-empty array |
| MenuItems.ReadMenusCache | src/components/layout/sidebar/MenuItems.ts:36-44 | the cache is used exactly when a menus document younger than one hour is present; a present entry of another shape is unreadable; anything else means fetch |
| MenuItems.SidebarMenu.constructor | src/components/layout/sidebar/MenuItems.ts:23 | the menu list starts empty |
| MenuItems.SidebarMenu.FetchMenus | src/components/layout/sidebar/MenuItems.ts:33-64 | a fresh cache is filtered into the state with no request; otherwise the raw reply is cached with the fetch time and its filtered form shown; any failure leaves the state as it was; every held menu has children |
| MenuItems.FilterAppend | src/components/layout/sidebar/MenuItems.ts:27-29 | filtering distributes over concatenation, so the server's order is kept |
| MenuItems.FilterIdempotent | src/components/layout/sidebar/MenuItems.ts:26-30 | filtering twice is filtering once |
| MenuItems.FilterKeepsValid | src/components/layout/sidebar/MenuItems.ts:27-29 | a list whose menus all have children passes unchanged |
| MenuItems.CachedReplyReadsBack | src/components/layout/sidebar/MenuItems.ts:52-58 | what a successful fetch caches is read back as the same raw list for exactly one hour |
| SidebarItems.Sanitize | src/components/layout/sidebar/SidebarItems.tsx:19 | keeps exactly the ASCII letters and digits of the name, each as often as it occurs, and nothing else |
| SidebarItems.UpperAscii | src/components/layout/sidebar/SidebarItems.tsx:20 | maps a lower-case ASCII letter to its own capital and leaves every other character alone |
| SidebarItems.IconKey | src/components/layout/sidebar/SidebarItems.tsx:20 | the key is `Icon`, then the first character upper-cased, then the rest with its case kept |
| SidebarItems.GetIcon | src/components/layout/sidebar/SidebarItems.tsx:16-23 | a falsy or non-string name gives the default icon; otherwise the library icon of the formatted key if it exists, else the default |
| SidebarItems.RenderLinks | src/components/layout/sidebar/SidebarItems.tsx:58-74 | one link per child, selected exactly when the pathname equals the child's URL |
| SidebarItems.RenderMenuItems | src/components/layout/sidebar/SidebarItems.tsx:28-79 | one slot per menu, empty exactly for a menu without children |
| SidebarItems.SidebarView | src/components/layout/sidebar/SidebarItems.tsx:84-91 | no sidebar at all exactly when the menu list is empty |
| SidebarItems.SanitizeIdempotent | src/components/layout/sidebar/SidebarItems.tsx:19 | sanitizing twice is sanitizing once |
| SidebarItems.SanitizeAppend | src/components/layout/sidebar/SidebarItems.tsx:19 | sanitizing distributes over concatenation, so the kept characters stay in their order |
| SidebarItems.SanitizeSingle | src/components/layout/sidebar/SidebarItems.tsx:19 | a single character is kept exactly when it is an ASCII letter or digit |
| SidebarItems.SanitizeDropsOthers | src/components/layout/sidebar/SidebarItems.tsx:19 | characters outside `[a-zA-Z0-9]` before or after a name never change the key |
| SidebarItems.SanitizeNone | src/components/layout/sidebar/SidebarItems.tsx:19 | a name with no ASCII letter or digit sanitizes to the empty string |
| SidebarItems.FirstLetterCaseIgnored | src/components/layout/sidebar/SidebarItems.tsx:20 | names differing only in the case of their first letter choose the same icon |
| SidebarItems.PunctuationLooksUpBareIcon | src/components/layout/sidebar/SidebarItems.tsx:16-22 | a non-empty name with no ASCII letter or digit looks up the key `Icon` |
| SidebarItems.ValidStateRendersFully | src/components/layout/sidebar/SidebarItems.tsx:28-33 | a sidebar whose state holds only menus with children renders each of them as a titled section, never an empty slot |
| SidebarItems.FilteredMenusRenderFully | src/components/layout/sidebar/SidebarItems.tsx:28-33 | a filtered list renders without empty slots, and the sidebar is hidden exactly when no menu has children |
| UserEntity.MapFormValuesToPayload | src/features/user/UserEntity.ts:38-50 | the four text fields are trimmed, `roleId` goes through `Number`, the flags through `Boolean`, and `rolePortal` is copied; a non-string text field throws |
| UserEntity.MapIsIdempotent | src/features/user/UserEntity.ts:38-50 | mapping a payload put back into the form gives the same payload |
| UserEntity.PasswordIgnored | src/features/user/UserEntity.ts:35-50 | the exported mapper never reads the password, so it never reaches its payload |
| UserEntity.NullPhoneThrows | src/features/user/UserEntity.ts:48 | a null `noHp`, which the user type allows, makes the exported mapper throw |
| UserEntity.RoleIdFromText | src/features/user/UserEntity.ts:42 | a role id given as the text of an integer becomes that integer |
| PortalSettingsRepository.ToApiBody | src/features/portal-settings/PortalSettingsRepository.ts:35-48 | the body has exactly the twelve keys `id1..4`, `header1..4` and `is_id_1..4` |
| PortalSettingsRepository.TtdLaporanPath | src/features/portal-settings/PortalSettingsRepository.ts:51 | the path is `/api/portal/settings/ttd-lap/` followed by the id, unchanged |
| PortalSettingsRepository.ParafPath | src/features/portal-settings/PortalSettingsRepository.ts:71 | the path is `/api/portal/settings/paraf/` followed by the id's decimal numeral `${id}`, which reads back as the id |
| PortalSettingsRepository.UpdateTtdLaporan | src/features/portal-settings/PortalSettingsRepository.ts:33-55 | a PUT to the record's path whose body carries exactly the payload without its display fields, with `isIdN` read back from `is_id_N` |
| PortalSettingsRepository.UpdateParaf | src/features/portal-settings/PortalSettingsRepository.ts:67-73 | a PUT of `{nama, jabatan, nik}` to the paraf's path |
| PortalSettingsRepository.DeleteParaf | src/features/portal-settings/PortalSettingsRepository.ts:75-78 | a DELETE, without a body, of the paraf's path |
| PortalSettingsRepository.BodyRoundTrip | src/features/portal-settings/PortalSettingsRepository.ts:35-48 | every well-typed twelve-key body is the body of the payload it carries |
| PortalSettingsRepository.DisplayFieldsNotSent | src/features/portal-settings/PortalSettingsRepository.ts:35-48 | `namaN`, `jabatanN` and `nikN` never influence the request |
| PortalSettingsRepository.ParafPathsIdentifyRecords | src/features/portal-settings/PortalSettingsRepository.ts:71-76 | update and delete of one paraf use the same path, and different ids give different paths |
| Session.CookieValues | src/middleware.ts:5 | the request carries every cookie's value under its name |
| Session.RequestTokenIsBrowserToken | src/middleware.ts:5 | the guard reads the same token as the browser code |
| Session.AfterLogout | src/components/layout/header/Profile.tsx:42-53 | after logout only the login page loads, and every other page is sent to it |
| Session.AfterLogin | src/app/auth/login/AuthLogin.tsx:53-74 | after a login with a non-empty token, `/` loads and the login page sends the browser to `/` |
| Session.EmptyTokenLoginBouncesBack | src/app/auth/login/AuthLogin.tsx:50-74 | a login reply with an empty token is shown as a success, yet the guard sends `/` back to the login page |
| Session.ExpiredSessionLandsOnLogin | src/core/lib/api.ts:37-48 | after the 401 rule fires, the page it navigates to is served by the guard |
| Session.TileLeadsToItsApplication | src/components/dashboard/DashboardMenu.tsx:208 | with distinct names, clicking a tile of a freshly fetched directory goes to that tile's own application |
| Session.DuplicateNameOpensFirst | src/core/hooks/useRedirectToApp.ts:42 | when two applications share a name, the second tile opens the first one |

## Left out

- Rendering and styling in general: the MUI/JSX trees beyond the card grid, the sidebar
  sections and the disabled login button. This includes the avatar button's highlight style
  and the `Swal` timer options.
- The permission-matrix editor of the roles screen is not part of this model.
- The SWR list hooks, `UserRepository.ts`, and the GET and POST wrappers of
  `PortalSettingsRepository.ts` are left out. They are a verb and a path handed to `api`.
- AES encryption and decryption in `security.ts` are left out. `encryptToken` is a parameter
  that either returns a ciphertext or fails.
- Network I/O, the clock, the browser's real navigation, toasts and alerts are left out. They
  are parameters or recorded effects on `Browser`.
- `JSON.parse` of localStorage text is not modelled character by character. A cache document
  of the expected shape is a typed value. Any other entry (`Text`) is unreadable, and so is a
  cache document of the other kind stored under a key.
    - A text that is valid JSON without `data` and `timestamp` (such as `123`) would be
      treated as stale by the source, not as unreadable.
    - A menus document under `app_cache` would be searched by `nama` in the redirect.
- Server replies are assumed to have the documented shape:
    - `applications` and `menus` are arrays;
    - the login reply has `token` and `user`.
  A reply of another shape, which would throw inside `try` in the source, is not modelled.
  Neither is a `localStorage.setItem` that throws because the quota is full.
- JavaScript numbers are modelled as unbounded integers (`Js.JsValue.Num`). Fractions, NaN,
  -0, infinities and the loss of precision above 2^53 are not modelled.
- `Js.StringToNumber` evaluates only integers and signed digit strings. Fractions, exponents,
  hexadecimal literals and `Infinity` are `Unevaluated`, and so is every other text, which
  JavaScript turns into NaN.
- IntToDecimal: agrees with JavaScript's `String(n)` only for |n| <= 2^53. Above that,
  JavaScript prints the shortest digits that round-trip, padded with zeros.
- `encodeURIComponent` throws on a lone UTF-16 surrogate. Dafny strings cannot hold one, so
  that error path does not arise.
- The route matcher is modelled as its regular expression applied to the path after the
  first `/`. Line terminators (which `.` does not match) and Next.js's own matcher
  compilation are not modelled.
- Cookie attributes that js-cookie cannot set from script (`httpOnly`) are not modelled.
- UserEntity.MapFormValuesToPayload: models the mapper exported by `UserEntity.ts`, which no
  screen calls. The users screen sends the body built by its own local mapper
  (`administrator/users/page.tsx`), which trims `rolePortal`, sends an empty `noHp` as
  `null`, tests the flags with `=== true` and includes `password`; that mapper is not part of
  this model.
- Api.InterceptRequest: during server rendering the token is read as absent, and
  `Api.Request` always runs in the browser.
- RedirectToApp.Redirector.TriggerRedirect: models the corrected unknown-name exit, which
  clears `isLoading`. The exit as written is `RedirectToApp.LoadingAfterAsWritten` (see
  Findings).

## Findings

| source | as written | input that shows it | evidently intended | confidence | as-written member | corrected member |
|---|---|---|---|---|---|---|
| src/core/hooks/useRedirectToApp.ts:44-47 | the unknown-application exit returns from inside `try` without `setIsLoading(false)`; the comment relies on a `finally` that does not exist | a token, a directory listing only "A", working encryption, `triggerRedirect("B")`: one toast, no navigation, `isLoading` still true | `isLoading` is cleared on every exit that does not navigate | high for the hook's state; not executed; the dashboard does not read the flag today | RedirectToApp.LoadingAfterAsWritten | RedirectToApp.LoadingAfter |
