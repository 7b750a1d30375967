# Session layer and client-side rules of the shop frontend, in Dafny

This project models the browser client of a shopping platform: a React
single-page application that talks to a cookie-authenticated REST server.
It covers the client-side session layer and the small pure rules around it.

**The session layer:**

- `Interceptor` models the request/response interceptor chain of `src/api/client.js`.
  - Outbound: non-GET requests get the anti-CSRF header, and the token is fetched first when the cache is empty.
  - Inbound: failures are classified into idle-timeout 401, ordinary 401, refresh/login 401, password-expired 403, CSRF 403 and anything else. Exactly one recovery policy is applied per failure.
  - A single `_retry` flag per request is shared by all categories.
  - The single-flight refresh coordinator (`isRefreshing` / `refreshPromise`) is a class with explicit events: a failure joins the refresh, and the refresh settles.
- `Csrf` models the token cache of `src/utils/csrf.js`.
- `IdleMonitor` models the idle/heartbeat monitor of `src/hooks/useIdleTimeout.js`.
  - Its state is the two timestamps, the armed interval and the installed listeners.
  - The clock is a parameter. Ticks, activity events, arming and teardown are methods.
  - A pure event semantics (`Step`/`Run`) carries the lemmas about whole event traces.
- `AuthStore` models the authentication store of `src/store/authStore.js`, with its persisted copy and its cross-tab storage listener.

**Stores and pages:**

- `CartStore`, `FavoritesStore` and `ConfirmStore` model the Zustand stores. `ConfirmStore` also covers the global confirmation dialog.
- `Pagination` models the page-number window, built by loops.
- `Sanitize` models HTML escaping and URL-scheme blocking.
- `ValidationSchemas` models the zod schemas.
- `PasswordForms` models the change-password, reset-password and registration guard chains, and the development PIN extraction.
- `StrengthMeter` models the password strength meter.
- `VerifyEmail` models the six-slot PIN entry.
- `Routes` models the admin and storefront route guards.
- Pure page logic is modelled for:
  - the admin activity-log page (`ActivityLogs`);
  - the product list (`ProductsPage`);
  - the product detail page (`ProductDetail`);
  - the admin product editor (`AdminProducts`);
  - the profile page (`ProfilePage`);
  - the security settings page (`SecuritySettings`).

**Shared modules:**

- `Wrappers` holds the optional value type.
- `Text` holds the JavaScript string operations the rules rely on:
  - ASCII character classes;
  - the ECMAScript whitespace set behind `trim()` and `\s`;
  - `includes`, `startsWith`, `split` and `join`.

**How state is modelled.**

- Code that updates state in place is a class with `modifies` clauses:
  - the stores;
  - the token cache;
  - the monitor;
  - the refresh coordinator;
  - the PIN entry;
  - the product editor.
- Each such class is proved against pure specification functions, and the properties are proved as lemmas about those functions.
- Code that only computes is functions and lemmas.
- JavaScript truthiness is written out: an absent value and `""` are both falsy.

**Two thresholds worth knowing:**

- An activity event probes the server when more than 5000 ms have passed since the last heartbeat (`src/hooks/useIdleTimeout.js:56`), while a tick probes only after more than 15000 ms (`src/hooks/useIdleTimeout.js:73-74`).
- Registration asks for at least 8 characters (`src/components/auth/RegisterForm.jsx:57-60`), while the schema's password rule asks for 12. `PasswordForms.RegisterFormWeakerThanSchema` states the gap.

## Model

| member | source | states |
|---|---|---|
| Csrf.TokenCache.constructor | src/utils/csrf.js:3 | the cached token starts as null |
| Csrf.TokenCache.Set | src/utils/csrf.js:27-29 | the last token set is the one `getCSRFToken` returns |
| Csrf.TokenCache.Fetch | src/utils/csrf.js:8-17 | the fetch never throws: on success the fetched token is stored and returned; on failure null is returned and the cached token is kept |
| AuthStore.Store.constructor | src/store/authStore.js:5-8 | the initial user is the stored one, and the store counts as authenticated exactly when a user is stored |
| AuthStore.Store.SetUser | src/store/authStore.js:10-13 | the user is persisted and becomes current, and the flag is set to true whatever the user is, so `setUser(null)` leaves the store inconsistent |
| AuthStore.Store.ClearUser | src/store/authStore.js:15-18 | the persisted entry is removed and the user and flag are cleared, which leaves the store consistent |
| AuthStore.Store.SetLoading | src/store/authStore.js:20 | only the loading flag changes |
| AuthStore.Store.Logout | src/store/authStore.js:27-31 | logout has exactly the effect of `clearUser` |
| AuthStore.Store.OnStorageEvent | src/store/authStore.js:49-55 | a cross-tab event that empties the user key clears the user, and any other event changes nothing |
| AuthStore.IsAdminIsCaseSensitive | src/store/authStore.js:22-25 | a user whose role is 'Admin' is not an administrator: the comparison is case-sensitive |
| CartStore.SumQuantitiesAppend | src/store/cartStore.js:9 | the summed quantities split over any division of the item list |
| CartStore.CountAtLeastLines | src/store/cartStore.js:9 | when every quantity is at least one, the badge count is at least the number of cart lines |
| CartStore.ItemCountEdgeCases | src/store/cartStore.js:9 | a missing cart, a cart with no item list and an empty item list all count 0, and a single line counts its quantity |
| CartStore.Store.constructor | src/store/cartStore.js:3-6 | the store starts with no cart and a count of 0, so the two agree |
| CartStore.Store.SetCart | src/store/cartStore.js:8-11 | the cart is stored and the count is its quantities' sum, so the badge agrees with the cart |
| CartStore.Store.ClearCart | src/store/cartStore.js:13 | the cart and count are reset together, so they agree |
| CartStore.Store.SetLoading | src/store/cartStore.js:15 | only the loading flag changes |
| CartStore.Store.UpdateItemCount | src/store/cartStore.js:17 | the count is overwritten without reading the cart, so it agrees with the cart afterwards exactly when the new count equals the cart's sum |
| ConfirmStore.CloseIdempotentAndRestores | src/store/confirmStore.js:16-21 | closing twice is the same as closing once, and opening then closing gets back to the initial state |
| ConfirmStore.ReopenDropsEarlierResolver | src/store/confirmStore.js:9-14 | opening over an open dialog overwrites the stored resolver: the next answer settles only the latest promise, and the earlier one is never settled |
| ConfirmStore.RenderDefaults | src/components/common/GlobalConfirmDialog.jsx:8-12 | missing options default to 'Confirm', 'Cancel' and 'warning', and options that are given are shown as given |
| ConfirmStore.Store.constructor | src/store/confirmStore.js:3-7 | the store starts closed, with an empty message, no options and no resolver |
| ConfirmStore.Store.OpenConfirm | src/store/confirmStore.js:9-14 | all four fields are overwritten with the new message, options and resolver |
| ConfirmStore.Store.CloseConfirm | src/store/confirmStore.js:16-21 | all four fields return to the initial state |
| ConfirmStore.Dialog.constructor | src/components/common/GlobalConfirmDialog.jsx:4 | the dialog reads one store and has settled nothing yet |
| ConfirmStore.Dialog.Handle | src/components/common/GlobalConfirmDialog.jsx:14-22 | Confirm or Cancel calls the stored resolver with true or false (when there is one) and then closes the store |
| FavoritesStore.Without | src/store/favoritesStore.js:25 | the filter never grows the list, and it keeps exactly the products whose key differs from the removed id |
| FavoritesStore.WithoutAppend | src/store/favoritesStore.js:25 | the filter distributes over concatenation, so the survivors keep their original order |
| FavoritesStore.WithoutAbsentIsIdentity | src/store/favoritesStore.js:25 | removing an id that no listed product has leaves the list unchanged |
| FavoritesStore.SetEstablishesListed | src/store/favoritesStore.js:8-11 | after `setFavorites` every listed product's key (`_id`, else `id`) is a favourite id, and every favourite id is some listed product's key |
| FavoritesStore.RemovePreservesListed | src/store/favoritesStore.js:19-28 | `removeFavorite` keeps every remaining listed product's key among the favourite ids |
| FavoritesStore.AddPreservesListed | src/store/favoritesStore.js:13-17 | `addFavorite` keeps every listed product's key among the favourite ids |
| FavoritesStore.Store.constructor | src/store/favoritesStore.js:3-6 | the store starts with no favourites, no ids and not loading |
| FavoritesStore.Store.SetFavorites | src/store/favoritesStore.js:8-11 | the list is replaced and the id set is rebuilt from it, so every listed product's key is a favourite id |
| FavoritesStore.Store.AddFavorite | src/store/favoritesStore.js:13-17 | the id becomes a favourite; the list is untouched, and adding an id that is already present changes nothing |
| FavoritesStore.Store.RemoveFavorite | src/store/favoritesStore.js:19-28 | the id is no longer a favourite, and every listed product with that key is dropped, the others keeping their order |
| FavoritesStore.Store.ClearFavorites | src/store/favoritesStore.js:35 | both the list and the id set are emptied |
| FavoritesStore.Store.SetLoading | src/store/favoritesStore.js:37 | only the loading flag changes |
| Interceptor.WithCsrfHeader | src/api/client.js:38-40 | attaching the header changes neither the verb, the URL nor the retry flag |
| Interceptor.GetPassesThrough | src/api/client.js:26 | a GET request never fetches a token and leaves the request phase unchanged |
| Interceptor.NonGetCarriesTokenIffPresent | src/api/client.js:26-40 | a non-GET request carries the header exactly when a truthy token is held after the fetch; with an empty cache on a route other than /auth/refresh and /csrf-token, that token is the fetched one |
| Interceptor.RetriedIsRejected | src/api/client.js:55-57 | a failure with no config, or of a request already marked `_retry`, is never recovered |
| Interceptor.IdleTimeoutPrecedesRefresh | src/api/client.js:60-70 | a 401 with SESSION_IDLE_TIMEOUT is handled as an idle logout and never sent to the refresh, whatever its URL |
| Interceptor.RefreshPathIff | src/api/client.js:60-78 | the refresh path is taken exactly for a fresh 401 without the idle code whose URL includes neither /auth/refresh nor /auth/login |
| Interceptor.AuthRouteUnauthorizedIsRejected | src/api/client.js:120-121 | a 401 from the refresh or login endpoint is rejected with no refresh and no resend |
| Interceptor.PasswordExpiredPrecedesCsrf | src/api/client.js:125-137 | a 403 with PASSWORD_EXPIRED is handled as an expired password even when its message mentions CSRF |
| Interceptor.LowerPreservesContains | src/api/client.js:142 | lower-casing a message keeps any occurrence of a pattern, lower-cased |
| Interceptor.CsrfDetectionIgnoresCase | src/api/client.js:140-144 | a fresh 403 without PASSWORD_EXPIRED whose message contains "CSRF" in any case, on a URL other than /csrf-token, is a CSRF failure |
| Interceptor.OtherStatusesAreRejected | src/api/client.js:154 | a status other than 401 and 403 is never recovered |
| Interceptor.JoinKeepsSingleFlight | src/api/client.js:80-91 | a 401 that joins the refresh keeps at most one refresh in flight, and a refresh is in flight afterwards |
| Interceptor.SettleKeepsSingleFlight | src/api/client.js:110-113 | settling resets the coordinator, so no request is left waiting |
| Interceptor.JoinAllSharesOneRefresh | src/api/client.js:80-116 | any number of 401s before the refresh settles issue at most one refresh call (exactly one when none was in flight), and all of them wait on it in arrival order |
| Interceptor.NextFailureAfterSettleStartsNewRefresh | src/api/client.js:110-113 | after a refresh settles, the next 401 issues a new refresh call instead of reusing the settled one |
| Interceptor.TwoUnauthorizedShareOneRefresh | src/api/client.js:80-117 | two 401s in the same tick issue one refresh call and are released together when it settles |
| Interceptor.SessionClient.constructor | src/api/client.js:16-17 | the client starts with no refresh in flight, nothing waiting and no effects |
| Interceptor.SessionClient.PrepareRequest | src/api/client.js:23-46 | the outgoing request carries the header exactly as the request phase decides, and the token cache changes only when a token is fetched |
| Interceptor.SessionClient.OnError | src/api/client.js:51-155 | each failure category gets exactly its policy: rejected as-is; idle logout with a redirect unless on /login; join the shared refresh with `_retry` set; password-expired alert and redirect unless on /change-password; or refetch the token and resend once, the resent request being rejected on any further failure; every waiting request stays marked `_retry` |
| Interceptor.SessionClient.RefreshSettles | src/api/client.js:94-117 | the coordinator is reset; on success every waiting request is resent, and on failure the user is cleared, the page goes to /login unless it is on /login or /register, and every waiting request is rejected; every resent request carries `_retry`, so any further failure of it is rejected unchanged |
| Interceptor.ResentRequestsAreNotRetriedAgain | src/api/client.js:55-96 | both resending policies (the CSRF resend and the shared refresh) act on the request marked `_retry`, and joining keeps every waiting request marked, so each resent request's next failure, whatever it is, is rejected unchanged: nothing is resent twice |
| IdleMonitor.DecideIff | src/hooks/useIdleTimeout.js:61-77 | a tick logs out exactly when the last activity is `timeoutMs` or more in the past, and otherwise probes exactly when the last probe is more than 15 s old; it never does both |
| IdleMonitor.RunAppend | src/hooks/useIdleTimeout.js:50-89 | running two event sequences one after the other equals running their concatenation |
| IdleMonitor.LastActivityIsLatestActivity | src/hooks/useIdleTimeout.js:50-52 | while the monitor stays armed, the last-activity timestamp is always the time of the latest activity event, since ticks and probes never move it |
| IdleMonitor.NothingFiresAfterTeardown | src/hooks/useIdleTimeout.js:86-89 | after the cleanup, and until the effect runs again, no probe or logout happens and neither timestamp moves |
| IdleMonitor.AtMostOneLogoutWithoutLogin | src/hooks/useIdleTimeout.js:28-32 | once the user is gone and the effect has re-run without one (or been cleaned up), no event logs anybody out again, because an effect without a user installs nothing |
| IdleMonitor.LogoutThenRerenderLogsOutOnce | src/hooks/useIdleTimeout.js:15-32 | an idle logout followed by the re-render it causes (cleanup, then the effect with no user) logs out exactly once, whatever events follow |
| IdleMonitor.SecondTickBeforeCleanupLogsOutAgain | src/hooks/useIdleTimeout.js:15-16 | the `if (user)` guard reads the render's user, which is truthy while the interval runs, so a second idle tick before the cleanup logs out again |
| IdleMonitor.PeriodicTicks | src/hooks/useIdleTimeout.js:84 | the interval fires its n ticks 5000 ms apart, starting from the first |
| IdleMonitor.TicksBeforeDeadlineKeepSession | src/hooks/useIdleTimeout.js:61-69 | ticks that all come before the idle deadline keep the user, log nobody out and leave the last activity where it was |
| IdleMonitor.IdleScenario | src/hooks/useIdleTimeout.js:28-90 | with the fifteen-minute default, one activity at t=5000 and no more: the 180 ticks up to t=900000 keep the session, and the tick at t=905000 logs out exactly once |
| IdleMonitor.HeartbeatNeverLags | src/hooks/useIdleTimeout.js:71-76 | with the interval ticking and no activity, a session that is not idle is never more than 15 s without a probe |
| IdleMonitor.QuietTickProbes | src/hooks/useIdleTimeout.js:73-76 | a tick that is not idle and finds the last probe more than 15 s old probes with no user activity, moving only the heartbeat |
| IdleMonitor.Monitor.constructor | src/hooks/useIdleTimeout.js:11-13 | both refs start at the mount time, no interval or listener is installed, and the user of the mounting render is captured |
| IdleMonitor.Monitor.ArmEffect | src/hooks/useIdleTimeout.js:28-84 | the render's user is captured; with no user nothing is installed; with a user both timestamps reset to now and the six listeners and the interval are installed, as the reference step function says |
| IdleMonitor.Monitor.TeardownEffect | src/hooks/useIdleTimeout.js:86-89 | all listeners are removed and the interval is cleared |
| IdleMonitor.Monitor.VerifySessionStatus | src/hooks/useIdleTimeout.js:37-48 | the heartbeat moves to now and one probe is issued; nothing else changes |
| IdleMonitor.Monitor.HandleLogout | src/hooks/useIdleTimeout.js:15-26 | if the user captured by the render is truthy, the store is logged out and a session-expired navigation to /login is recorded, whatever the store holds by then; otherwise nothing happens |
| IdleMonitor.Monitor.OnTick | src/hooks/useIdleTimeout.js:61-77 | a tick moves the monitor exactly as the reference step function says; an idle tick of a running interval clears the user, the flag and the stored entry and records one navigation, and any other tick leaves the store and the effects untouched |
| IdleMonitor.Monitor.OnActivity | src/hooks/useIdleTimeout.js:50-59 | an activity event moves the monitor exactly as the reference step function says and records no effect |
| Pagination.GetPageNumbers | src/components/common/Pagination.jsx:2-31 | the list built with pushes is exactly the case-by-case page window |
| Pagination.NumbersOfWindow | src/components/common/Pagination.jsx:6-28 | with the ellipses dropped, the window's numbers are 1..totalPages for at most five pages, and otherwise 1, the current neighbourhood (or the first four, or the last four) and totalPages |
| Pagination.WindowShape | src/components/common/Pagination.jsx:2-31 | the window has at most seven entries; its numbers strictly increase, run from 1 to totalPages when there is a page, and include the current page whenever it is a real page |
| Pagination.Render | src/components/common/Pagination.jsx:33-68 | nothing renders for at most one page; otherwise the buttons are the page window, and on a real page there are at most seven of them, their numbers climb strictly from 1 to the last page and include the current one; Previous is disabled exactly on page 1 and Next exactly on the last page |
| Pagination.ItemClick | src/components/common/Pagination.jsx:46-49 | only number buttons report a page change, and they report their own number; the disabled ellipsis reports nothing |
| Sanitize.Entity | src/utils/sanitize.js:33-40 | every replacement is an entity of at least four characters that starts with `&` and ends with `;` |
| Sanitize.Escape | src/utils/sanitize.js:42 | escaping never shortens the text |
| Sanitize.EscapeHTML | src/utils/sanitize.js:30-43 | a value that is not a string is returned unchanged; a string comes back as a string holding none of `<`, `>`, `"`, `'` and `/`, from which the original text is recovered by decoding the entities |
| Sanitize.EscapeIsInert | src/utils/sanitize.js:42 | no `<`, `>`, `"`, `'` or `/` survives escaping |
| Sanitize.EscapeIdentityOnPlain | src/utils/sanitize.js:42 | a string with none of the six characters is left unchanged |
| Sanitize.EscapeNotIdempotent | src/utils/sanitize.js:34 | escaping twice differs from escaping once: an ampersand is escaped again |
| Sanitize.UnescapeEntity | src/utils/sanitize.js:33-40 | decoding recognises each of the six entities, so no entity is mistaken for another |
| Sanitize.UnescapeEscape | src/utils/sanitize.js:42 | decoding an escaped string gives the original back, so escaping loses nothing |
| Sanitize.SanitizeURL | src/utils/sanitize.js:50-65 | the result never starts, after trimming and in any letter case, with javascript:, data: or vbscript:; it is either "" or the given string itself, untrimmed; and a string that carries none of those schemes is always kept |
| Sanitize.SanitizeURLIdempotent | src/utils/sanitize.js:50-65 | sanitizing an already sanitized URL changes nothing |
| Sanitize.BlockedInAnyCase | src/utils/sanitize.js:53-62 | a blocked scheme in any letter case, after any leading whitespace, is blocked |
| ValidationSchemas.ScanSeesClasses | src/utils/validation.schemas.js:4 | a single left-to-right scan records the length and exactly which of the pattern's character classes occur |
| ValidationSchemas.ScanAcceptsIffPattern | src/utils/validation.schemas.js:4 | the one-pass matcher accepts exactly the strings the password pattern accepts: twelve or more characters, no line terminator, and a lower-case letter, an upper-case letter, a digit and a special character |
| ValidationSchemas.PatternRejectsLineBreak | src/utils/validation.schemas.js:4 | a password containing a line break never matches, because `.` does not match it |
| ValidationSchemas.PhonePatternIff | src/utils/validation.schemas.js:38 | a phone number is one optional leading '+' followed by at least one digit, whitespace, hyphen or parenthesis; a second '+' is rejected |
| ValidationSchemas.StringIssues | src/utils/validation.schemas.js:13-14 | a field reports its issues under its own path, and it reports none exactly when all its checks pass |
| ValidationSchemas.FailingCheckReported | src/utils/validation.schemas.js:24-25 | every failing check of a field is reported: later checks run after an earlier one fails |
| ValidationSchemas.LoginIssuesIff | src/utils/validation.schemas.js:11-15 | login passes exactly with a non-empty password and CAPTCHA token |
| ValidationSchemas.RegisterIssuesIff | src/utils/validation.schemas.js:17-30 | registration passes exactly when the password matches the pattern, both names have 1 to 50 characters, the CAPTCHA token is present and the confirmation equals the password |
| ValidationSchemas.RegisterMismatchReported | src/utils/validation.schemas.js:27-30 | "Passwords don't match" is reported on confirmPassword exactly when the two differ, even when other fields also fail |
| ValidationSchemas.ChangePasswordIssuesIff | src/utils/validation.schemas.js:55-65 | the change passes exactly with a current password, a new one that matches the pattern and a matching confirmation; the mismatch is reported exactly when they differ |
| ValidationSchemas.ShippingIssuesIff | src/utils/validation.schemas.js:32-39 | an address passes exactly when each field is within its length bounds and the phone matches the phone pattern |
| ValidationSchemas.NumberIssues | src/utils/validation.schemas.js:44-45 | a number field reports its issues under its own path |
| ValidationSchemas.ProductIssuesIff | src/utils/validation.schemas.js:41-49 | a product passes exactly with a 1-200-character name, a 1-2000-character description, a positive price, a non-negative integer stock, a category, and one to ten images |
| PasswordForms.StrengthError | src/pages/user/ChangePasswordPage.jsx:50-74 | no error is reported exactly when the password is long enough and has an upper-case letter, a lower-case letter, a digit and a special character |
| PasswordForms.StrengthErrorIsFirstFailure | src/pages/ResetPasswordPage.jsx:51-74 | only the first failing rule is reported: each message means that every earlier rule passed and this one failed |
| PasswordForms.ChangePasswordSubmitsIff | src/pages/user/ChangePasswordPage.jsx:39-85 | the change is sent exactly when the confirmation matches, the new password passes every strength rule and differs from the current one; only the current and new passwords are sent |
| PasswordForms.ChangePasswordOrder | src/pages/user/ChangePasswordPage.jsx:44-79 | a mismatch is reported before any strength rule, and reuse of the current password only after all of them pass |
| PasswordForms.ChangeFormAcceptsWhatSchemaRejects | src/pages/user/ChangePasswordPage.jsx:50-74 | the form accepts a strong password containing a line feed, which the change-password schema rejects |
| PasswordForms.ResetSendsLinkToken | src/pages/ResetPasswordPage.jsx:13-81 | the reset form is shown exactly when the link carries a truthy token, and a reset sent from it carries that token |
| PasswordForms.ResetSubmitsIff | src/pages/ResetPasswordPage.jsx:40-77 | the reset is sent exactly when the confirmation matches and the password passes the strength rules, with the link's token; a mismatch is reported first |
| PasswordForms.RegisterSendsPlaceholderCaptcha | src/components/auth/RegisterForm.jsx:9-16 | the untouched form is refused as too short, and a registration sent after editing the text fields carries the development CAPTCHA placeholder |
| PasswordForms.RegisterSubmitsIff | src/components/auth/RegisterForm.jsx:46-83 | registration is sent exactly when the confirmation matches and the password passes the 8-character strength rules; the whole form, confirmation and CAPTCHA token included, is sent |
| PasswordForms.RegisterFormWeakerThanSchema | src/components/auth/RegisterForm.jsx:57-60 | an 8-character password passes the registration form but not the schema's 12-character pattern |
| PasswordForms.PinFrom | src/components/auth/RegisterForm.jsx:28-29 | an extracted PIN is six digits, and none is extracted exactly when no index matches "PIN is " followed by six digits |
| PasswordForms.DevPinIsLeftmost | src/components/auth/RegisterForm.jsx:28-29 | the extracted PIN is the capture of the leftmost match |
| StrengthMeter.ChecklistFollowsFormRules | src/components/common/PasswordStrengthMeter.jsx:34-40 | the checklist's first four lines are ticked exactly when the password passes the forms' length-12, upper-case, lower-case and digit rules; a special character of the forms ticks the fifth line, so a password the forms accept ticks all five |
| StrengthMeter.WidthGrowsWithScore | src/components/common/PasswordStrengthMeter.jsx:49-55 | each score step widens the bar by a fifth and changes the label, and the top score fills the bar |
| StrengthMeter.AlphanumericIsNotSpecial | src/components/common/PasswordStrengthMeter.jsx:39 | letters, digits and '~' are not in the forms' special-character class |
| StrengthMeter.TildeCountsOnlyForTheMeter | src/components/common/PasswordStrengthMeter.jsx:39 | '~' ticks the meter's special-character line, yet the change-password form rejects a password whose only symbol it is |
| VerifyEmail.JoinedLength | src/pages/VerifyEmailPage.jsx:63-64 | for slots that are empty or hold one digit, the joined code is all digits, and it has one character per slot exactly when every slot is filled |
| VerifyEmail.PinChange | src/pages/VerifyEmailPage.jsx:24-30 | a change never alters the number of slots |
| VerifyEmail.PinChangeKeepsWellFormed | src/pages/VerifyEmailPage.jsx:24-30 | a value other than a single digit or "" is ignored; otherwise only the edited slot changes, to that value, and every slot still holds nothing or one digit |
| VerifyEmail.PastedPin | src/pages/VerifyEmailPage.jsx:45-52 | a paste is applied exactly when its first six characters are one or more digits, and the pin it yields has six slots of nothing or one digit |
| VerifyEmail.PasteJoinsToDigits | src/pages/VerifyEmailPage.jsx:47-51 | a paste puts the pasted digits first, in order, so the pin joins back to exactly those digits |
| VerifyEmail.PasteFocus | src/pages/VerifyEmailPage.jsx:53-55 | a valid paste moves the focus to an input between 1 and 5, and an invalid one moves nothing |
| VerifyEmail.SubmitIff | src/pages/VerifyEmailPage.jsx:59-77 | verification is called exactly when all six slots are filled and an email is known, with a six-digit code; an empty slot gives "Please enter all 6 digits" |
| VerifyEmail.PinEntry.constructor | src/pages/VerifyEmailPage.jsx:20 | the pin starts as six empty slots |
| VerifyEmail.PinEntry.HandlePinChange | src/pages/VerifyEmailPage.jsx:24-36 | the pin becomes what the change function gives, and stays well formed |
| VerifyEmail.PinEntry.HandlePaste | src/pages/VerifyEmailPage.jsx:45-57 | a valid paste replaces the pin with the padded digits and returns the focus index; an invalid paste leaves the pin as it was |
| VerifyEmail.PinEntry.OnVerifyFailed | src/pages/VerifyEmailPage.jsx:90-93 | after a failed verification all six slots are emptied |
| Routes.AdminRouteIff | src/routes/AdminRoute.jsx:4-18 | the admin area renders exactly for an authenticated user whose role is 'admin' in any letter case; an unauthenticated visitor goes to /login whatever the stored role, and everyone else to / |
| Routes.StorefrontRouteIff | src/routes/StorefrontRoute.jsx:4-13 | the storefront renders for everyone except users whose role is 'admin' in any letter case, including visitors with no user at all |
| Routes.AdminSpellings | src/routes/AdminRoute.jsx:12 | the roles that count as administrator are exactly the 32 letter-case spellings of 'admin' |
| Routes.GuardAndStoreDisagreeOnCase | src/routes/AdminRoute.jsx:11-12 | a user with role 'Admin' is let into the admin area although the store's `isAdmin` says no |
| Routes.GuardsAgree | src/routes/StorefrontRoute.jsx:8-10 | whoever the admin area admits, the storefront sends to /admin |
| ActivityLogs.SeverityBadgesDistinct | src/pages/admin/AdminActivityLogs.jsx:28-41 | exactly the four known severities get a colour other than the gray default, and no two of them share one |
| ActivityLogs.CategoryBadgesKnown | src/pages/admin/AdminActivityLogs.jsx:43-68 | exactly the ten known categories get a colour other than the gray default |
| ActivityLogs.FormatPiecesIsCharwise | src/pages/admin/AdminActivityLogs.jsx:126-129 | splitting on '_', capitalising the pieces and joining with spaces equals the character-by-character rewrite, for every suffix of the action |
| ActivityLogs.FormatActionIsCharwise | src/pages/admin/AdminActivityLogs.jsx:125-130 | the formatted action has the action's length, turns each '_' into a space and upper-cases exactly the first character of each piece |
| ActivityLogs.Set | src/pages/admin/AdminActivityLogs.jsx:106 | the chosen filter takes the new value and every other filter keeps its own |
| ActivityLogs.NonEmpty | src/pages/admin/AdminActivityLogs.jsx:95-97 | the sent filters are exactly those whose value is not '', each under its own name with its own value |
| ActivityLogs.NoFiltersNoParams | src/pages/admin/AdminActivityLogs.jsx:91-98 | with no filter set only the page and the limit are sent |
| ActivityLogs.ClearAfterChanges | src/pages/admin/AdminActivityLogs.jsx:105-119 | a filter change sets that filter and returns to page 1, and clearing afterwards restores the initial page and filters |
| ActivityLogs.MissingPaginationStaysOnPageOne | src/pages/admin/AdminActivityLogs.jsx:103 | without a pagination object the page reads zero logs, and Previous and Next both keep the list on page 1 |
| ActivityLogs.PrevNextStayInRange | src/pages/admin/AdminActivityLogs.jsx:360-368 | Previous and Next keep the page within 1..totalPages and move it by exactly one unless it is already at the end |
| ProductsPage.KeepEntriesMembers | src/pages/user/ProductsPage.jsx:37-43 | an entry survives the cleaning exactly when it was among the entries and is either a fixed key or a filter that is not '' |
| ProductsPage.CleanedQueryContents | src/pages/user/ProductsPage.jsx:36-44 | page, limit, sortBy and sortOrder are always sent, and each text filter is sent exactly when it is not '' |
| ProductsPage.CleanedQueryOrder | src/pages/user/ProductsPage.jsx:36-44 | the cleaned query keeps the declaration order: page and limit, then the kept text filters, then sortBy and sortOrder |
| ProductsPage.KeepAppend | src/pages/user/ProductsPage.jsx:37 | the entry filter distributes over concatenation |
| ProductsPage.FilterChange | src/pages/user/ProductsPage.jsx:52-54 | the chosen filter takes the new value, the page returns to 1, and every other filter, the limit and the sort are kept |
| ProductsPage.SearchSettledIsFilterChange | src/pages/user/ProductsPage.jsx:24-30 | the debounced search input lands in the filters exactly as a change of the search filter would, on page 1 |
| ProductsPage.PageChange | src/pages/user/ProductsPage.jsx:56-59 | the page takes the new value and nothing else changes |
| ProductsPage.SortRoundTrip | src/pages/user/ProductsPage.jsx:147-151 | choosing the option that shows the current sort gives back the same sort on page 1, when neither half contains '-' |
| ProductsPage.SortOptionsRoundTrip | src/pages/user/ProductsPage.jsx:149-159 | each of the six options splits into a sort key and an order that show as that option again, on page 1 |
| ProductsPage.ClearFilters | src/pages/user/ProductsPage.jsx:163-176 | clearing empties the search box and restores the initial filter object whatever the state was, and a waiting search timer still settles the text in the box |
| ProductsPage.ClearSettlesToDefaults | src/pages/user/ProductsPage.jsx:24-30 | the search timer that clearing may start settles "" on page 1, so the defaults survive it and the box and timer are then idle |
| ProductsPage.PageChangeAfterClear | src/pages/user/ProductsPage.jsx:24-30 | when the box held text, a page change made before the timer fires is undone by the settled search; with an empty box and no timer waiting, the page change stays |
| ProductsPage.ClearedQuery | src/pages/user/ProductsPage.jsx:163-176 | after clearing, only page 1, limit 12 and the newest-first sort are sent |
| ProductsPage.ShownRangeBounds | src/pages/user/ProductsPage.jsx:187-195 | on a page that exists the range lies within 1..total, covers at most `limit` products, and the next page starts right after it |
| ProductsPage.NoRangeWithoutProducts | src/pages/user/ProductsPage.jsx:187 | the range line is shown exactly when there is at least one product |
| ProductDetail.ImageUrlIdempotent | src/pages/user/ProductDetailPage.jsx:16-19 | with a server URL that is not root-relative, resolving an already resolved URL changes nothing |
| ProductDetail.QuantityChange | src/pages/user/ProductDetailPage.jsx:88-93 | the quantity either stays or moves by the step, and it moves exactly when the new value lies within 1 and the stock (1 when the stock is missing or 0) |
| ProductDetail.QuantityStaysInRange | src/pages/user/ProductDetailPage.jsx:29 | a quantity that starts at 1 or more stays at 1 or more, and one within the stock stays within it |
| ProductDetail.EnabledButtonsMove | src/pages/user/ProductDetailPage.jsx:267-277 | with stock in hand, a click on an enabled minus or plus button always moves the quantity by one |
| ProductDetail.ToggleApplied | src/pages/user/ProductDetailPage.jsx:57-62 | the toggle's answer changes only this product's id among the favourite ids |
| ProductDetail.ToggleShowsServerAnswer | src/pages/user/ProductDetailPage.jsx:39 | after the toggle the heart shows the server's answer, and no other product's heart changes |
| ProductDetail.OnToggleSuccess | src/pages/user/ProductDetailPage.jsx:57-62 | the favourites store adds or removes the id as the server answered, so `isFavorite` then equals the answer; on removal the listed products with that id are filtered out in order, on addition the list is kept, and the loading flag never changes |
| ProductDetail.GuardIff | src/pages/user/ProductDetailPage.jsx:70-86 | a signed-out visitor never reaches the cart or favourite mutation and is sent to /login with a toast; a signed-in user always reaches the chosen mutation |
| ProfilePage.UploadIff | src/pages/user/ProfilePage.jsx:101-125 | an avatar is uploaded exactly when its MIME type is one of the five image types and it is at most 2 MiB; a wrong type is reported as such before the size is looked at, and an oversized image of a right type is reported as too large |
| ProfilePage.SizeBoundary | src/pages/user/ProfilePage.jsx:119-122 | exactly 2 097 152 bytes is accepted and one byte more is refused |
| ProfilePage.AvatarUrlIsNeverRootRelative | src/pages/user/ProfilePage.jsx:140-145 | an avatar is shown exactly for a signed-in user with a truthy image, and with an absolute server URL its address is never a root-relative path |
| ProfilePage.EditAfterCancelDiscardsInput | src/pages/user/ProfilePage.jsx:170-191 | cancel keeps what was typed, but editing again refills the form from the stored user, so a cancelled edit never reaches the next one |
| ProfilePage.SubmitIff | src/pages/user/ProfilePage.jsx:193-205 | an update is sent iff both names contain a non-whitespace character; a blank first name is reported before a blank last name |
| ProfilePage.PayloadIsTrimmed | src/pages/user/ProfilePage.jsx:207-211 | the request carries both names trimmed (non-empty, no surrounding whitespace) and the phone trimmed, or null exactly when it is blank |
| SecuritySettings.DigitsOnly | src/pages/user/SecuritySettingsPage.jsx:448 | dropping non-digits leaves only ASCII digits and never lengthens the input |
| SecuritySettings.TotpInput | src/pages/user/SecuritySettingsPage.jsx:448 | the one-time-code field never holds more than six characters, all digits |
| SecuritySettings.DigitsOnlyAppend | src/pages/user/SecuritySettingsPage.jsx:448 | the digit filter distributes over concatenation, so digits keep their order |
| SecuritySettings.DigitsOnlySingle | src/pages/user/SecuritySettingsPage.jsx:448 | a single character is kept iff it is a digit |
| SecuritySettings.DigitsOnlyKeepsDigits | src/pages/user/SecuritySettingsPage.jsx:448 | a string of digits passes the filter unchanged |
| SecuritySettings.TotpInputIdempotent | src/pages/user/SecuritySettingsPage.jsx:448 | filtering the field's own value again changes nothing |
| SecuritySettings.TotpInputIsDigitPrefix | src/pages/user/SecuritySettingsPage.jsx:448 | the field holds the first min(6, number of digits) digits of what was typed, in order |
| SecuritySettings.PasswordSubmitIff | src/pages/user/SecuritySettingsPage.jsx:150-157 | the password dialog disables two-factor iff the action is 'disable-totp', regenerates codes iff it is 'regenerate-codes', and does nothing for any other action |
| SecuritySettings.Decimal | src/pages/user/SecuritySettingsPage.jsx:282 | a count is written as a non-empty string of decimal digits |
| SecuritySettings.CountLineWording | src/pages/user/SecuritySettingsPage.jsx:282-285 | the count line says "code" for exactly one code and "codes" otherwise, and the Low badge shows iff fewer than three codes remain |
| SecuritySettings.DownloadRecoversCodes | src/pages/user/SecuritySettingsPage.jsx:164 | the downloaded text starts with the header, ends with the footer, and the lines between them are exactly the codes in order, when no code holds a line break |
| AdminProducts.ErrorMapIff | src/pages/admin/AdminProducts.jsx:135-149 | the error object has an entry exactly for each failed check, with that check's message, never one for description or the active flag, and is empty exactly when no check failed |
| AdminProducts.ValidationErrorsIff | src/pages/admin/AdminProducts.jsx:134-146 | name errs iff it is blank after trim; price iff empty or parsed to at most 0; stock iff empty or parsed below 0; category iff empty; images iff there are neither new files nor existing images |
| AdminProducts.ValidIffNoCheckFails | src/pages/admin/AdminProducts.jsx:148-149 | the form is valid exactly when none of the five checks fails |
| AdminProducts.UnparsedNumbersPass | src/pages/admin/AdminProducts.jsx:137-140 | a non-empty price or stock that does not parse (NaN) passes its check, since NaN compares false |
| AdminProducts.WithoutIndex | src/pages/admin/AdminProducts.jsx:449-451 | filtering out position i removes exactly that element when i is in range and changes nothing otherwise |
| AdminProducts.RemoveKeepsPairs | src/pages/admin/AdminProducts.jsx:480-485 | removing the same position from previews and files keeps them of equal length, and every remaining preview still sits beside its own file |
| AdminProducts.KeepPartReadBack | src/pages/admin/AdminProducts.jsx:171-173 | the keep-existing part carries no file and gives back exactly the kept images (none when the list is empty, when the part is omitted) |
| AdminProducts.ReadBackAppend | src/pages/admin/AdminProducts.jsx:158-173 | reading files and kept images back from a body distributes over appending parts |
| AdminProducts.FileEntriesReadBack | src/pages/admin/AdminProducts.jsx:166-168 | the file parts read back as exactly the new files, in order, and carry no kept image |
| AdminProducts.TextOnlyReadsBackNothing | src/pages/admin/AdminProducts.jsx:158-163 | the text fields contribute no file and no kept image |
| AdminProducts.BodyReadBack | src/pages/admin/AdminProducts.jsx:158-173 | text fields followed by the file parts and the keep part read back as exactly the files and the kept images |
| AdminProducts.SubmissionReadBack | src/pages/admin/AdminProducts.jsx:157-173 | the submitted body carries exactly the new files, in order, and exactly the kept existing images |
| AdminProducts.ClearError | src/pages/admin/AdminProducts.jsx:129-131 | after clearing, the field shows no error and every other field's message is as before |
| AdminProducts.ProductForm.constructor | src/pages/admin/AdminProducts.jsx:17-32 | the editor starts closed, with the default form (category electronics, active), no images and no errors |
| AdminProducts.ProductForm.ResetForm | src/pages/admin/AdminProducts.jsx:77-91 | restores the default form, empties all three image lists and the errors, and clears the product being edited |
| AdminProducts.ProductForm.CloseModal | src/pages/admin/AdminProducts.jsx:183-186 | closes the editor and resets it as above |
| AdminProducts.ProductForm.Edit | src/pages/admin/AdminProducts.jsx:106-120 | opens the editor on the product, with its fields, its images as the existing list (or none), no new files, and the error messages left as they were |
| AdminProducts.ProductForm.InputChange | src/pages/admin/AdminProducts.jsx:122-132 | only the edited field changes, and its error message is blanked if one was shown; images and other state stay |
| AdminProducts.ProductForm.SelectFiles | src/pages/admin/AdminProducts.jsx:503-522 | a selection is taken iff existing + new + selected is at most 10; then files and previews grow by the selection in order, still paired, and the images message is blanked; otherwise nothing changes |
| AdminProducts.ProductForm.RemoveNewImage | src/pages/admin/AdminProducts.jsx:480-485 | drops position i from both the previews and the files, keeping them paired, and nothing else |
| AdminProducts.ProductForm.RemoveExistingImage | src/pages/admin/AdminProducts.jsx:449-451 | drops position i from the existing images only |
| AdminProducts.ProductForm.ValidateForm | src/pages/admin/AdminProducts.jsx:134-150 | replaces the error map with one entry per failed check and answers valid iff the map is empty, changing nothing else |
| AdminProducts.ProductForm.Submit | src/pages/admin/AdminProducts.jsx:152-181 | sends nothing unless the form validates; otherwise sends the multipart body (trimmed name and description, the other fields, each new file, the kept images) as an update of the edited product or as a creation |

## Left out

**I/O, timing and the browser**

- HTTP transport: axios and the endpoint wrappers under `src/api/` other than `client.js` are not part of this model. Server answers are inputs: status, code, message and URL. The refresh POST's own outcome is a boolean input to `RefreshSettles`.
- The token GET of `fetchCSRFToken` also goes through `apiClient` (`src/utils/csrf.js:10`), so its own failures pass through the response interceptor. For example, a 401 on `/csrf-token` would join or start the shared refresh. The model takes that GET's outcome as a bare input (`Csrf.FetchOutcome`), so the token fetches of `PrepareRequest` and of the CSRF policy in `OnError` never touch the refresh coordinator.
- Promise scheduling is not modelled. The single-flight refresh is a sequence of events on one state machine. The dynamic import inside the liveness probe is left out.
- Timers, DOM listeners and the wall clock are replaced by explicit state: `now` is a parameter, and listeners and the interval are fields.
- Debounce delays and delayed redirects are left out as durations. The 500 ms search timer is a pending input that fires as an explicit step (`ProductsPage.TimerFires`); delayed redirects are modelled only by their settled effects.
- Browser side effects are recorded as emitted effects or left out: `window.location.href`, `navigate`, toasts, `alert`, focus and Blob downloads.
- `encodeURIComponent` of the idle-logout message is not modelled; the redirect effect records the raw message.
- Browser storage (`storage.js`) is an abstract map of already-parsed values. JSON parsing and storage exceptions are left out.
- The store-clearing subscriber of `src/store/authStore.js:35-46` is left out. It relies on a zustand middleware that the store does not apply, so nothing says it fires.
- `confirmDialog.jsx` is modelled only through its effect: `openConfirm` stores a resolver.

**Foreign libraries**

- DOMPurify (`sanitizeHTML`, `sanitizeInput`) is a foreign library whose behaviour is not visible here.
- The zxcvbn score is an input in 0..4. The suggestion list is represented by its length.
- zod's `email()` and `url()` checks are left out; those fields are modelled without them.

**Numbers and strings**

- `parseFloat` and `parseInt` results are inputs, with `None` standing for NaN.
- Number-to-string conversion: `price.toString()` and `stock.toString()` are taken as given strings, and counts are written by `SecuritySettings.Decimal` for natural numbers only.
- Floating-point money and `toFixed` are left out.
- Case mapping (`toLowerCase`, `toUpperCase`) is modelled on ASCII letters only. This does not affect the comparisons with 'admin' or with the URL schemes. It does affect `formatAction` (`ActivityLogs.FormatAction`): JavaScript upper-cases "ß" to "SS" and "ﬀ" to "FF", which lengthens the label, whereas the model keeps such characters as they are.
- String lengths count code points, not UTF-16 code units.
- `URL.createObjectURL` previews are inputs, one per selected file.
- `JSON.stringify` of the kept image list is represented by a `JsonList` part.
- `SERVER_URL` is a parameter.
- axios dropping `undefined` query parameters is not modelled. The cleaned queries are stated over the keys the page builds.

**Restricted inputs**

- `ProductsPage.SortChange` requires a select value with at least one '-'. Only the six option values, all of which have one, can be emitted.
- `AdminProducts.WithInput` and `AdminProducts.ProductForm.InputChange` require that a checkbox event comes exactly for the `isActive` field, the form's only checkbox.
- `VerifyEmail.PinEntry.HandlePinChange` requires a slot index below six. The index comes from the six rendered inputs.
- `ConfirmStore.Dialog.Handle` requires an open dialog, because the buttons exist only while it is open.
- `AdminProducts.ProductForm.SelectFiles` requires one preview per selected file, as the page creates them.

**Pages**

- Query caching, mutations' network effects and rendering markup are left out of every page. Only the decisions and state changes listed in the table are modelled.
