# Verified model of the restaurant platform's stateful core

A Dafny model of the parts of the platform in which several callers, replies, timers or edits meet in
shared state, with proofs over every input, every reachable state or every run.

Asynchronous code is modelled twice. A protocol module (`...Protocol`, `TokenRefresh`, `RefundLedger`)
cuts it at its suspension points into steps over an immutable state; runs are arbitrary sequences of
those steps, chosen by a scheduler, network, server or user that may delay, reorder, fail or lose
whatever the platform lets it. A class keeps the source's own form, fields reassigned by methods, and
each method is proved to be one of those steps, and a `Play` method runs any such sequence on the object
and states what it leaves in the fields. In-place code (`seoMeta.ts`) is a heap of document and
element objects proved against a value model; pure code is functions and lemmas.

| files | what they model |
|---|---|
| `ApiClientProtocol`, `ApiClient`, `TokenRefresh`, `RequestFate`, `ApiClientRun` | the shared refresh promise of the API client, composed with the rotating server and the browser's cookie |
| `SessionExpiry` | what an expired session means |
| `HeadTags`, `HeadRoundTrip`, `HeadFields`, `SeoMeta` | managed head tags, applied in place and undone by a forward log |
| `Calendar`, `DateTime` | the Gregorian calendar, `Date.UTC`, date keys and the opening phrase |
| `SearchProtocol`, `AddressAutocomplete` | the debounced address search |
| `LocationProtocol`, `LocationContext` | the active location, its fetches and the socket |
| `RefundLedger`, `RefundRequests`, `RefundWindows`, `RefundEvidence`, `RefundRetry` | refunds of one payment on the server, what each request comes to, the exact limits of their promise, and the key the admin panel keeps |
| `Hostname`, `Slug`, `Text` | custom domains and slugs |
| `Overrides`, `Money`, `FeeTiers`, `BillingHistory`, `ShutdownProtocol`, `Shutdown` | option overrides, cents in dollar fields, delivery tiers, paged history, graceful shutdown |

## What the proofs found

Places where the code does not do what its comments or a reader would expect. Where the property is a law,
the exact condition under which it holds is proved.

- `apiClient.ts:34-37` says session-expired means the session is genuinely over. That is right when the refresh
  was answered 401 and nobody logged in since (`RefusalEndsSession`). It is wrong for a rejected retry, for a
  403 to an account that is open again, and for a 429 or 5xx that came before the handler deleted the token;
  it is right again for a failure after that (`SessionAtExpiryExactly`). The client's code tells none of these
  answers from another. A newer token is dropped exactly when the stored one is not the one the rejected
  request carried (`NewerTokenDroppedExactly`).
- A session that was intact is lost exactly by the steps listed in `TokenRefresh.Loses`, among them one lost
  refresh reply, a handler that fails between deleting a token and issuing the next, and a password change
  while a refresh is to be checked (`SessionLostExactly`).
- A head element that is the match of two supplied selectors is not restored (`SharedElementIsClobbered`);
  `RestoresExactly` and `NestedRestoresExactly` give the exact conditions.
- `Date.UTC` reads years below 100 as 1900 and later: the day count is wrong exactly when one year is below
  100 and the other is not (`CountsCalendarDays`).
- A query cut below three characters takes no new request id, so an old reply still opens its list
  (`CommitAnswersBoxExactlyWhenLong`).
- `socket.connect()` does nothing on a live connection, so the server stays in the old room when a commit
  changes the location and when a business is left for another own location, and only then (`RoomExactly`).
- `payment.service.ts:383-419` promises never to over-refund. Two windows remain: a crash between releasing a
  rejected claim's amount and deleting the claim, and a "not refunded" written on a refund that the provider has
  made or can still make. `NeverOverRefunds` holds on every run outside them, `WindowsAreExact` shows that either
  one can over-refund. The second needs no race: the service accepts a lookup older than the last call, and counts
  the holding time from the claim (`TimedOutRetryOverRefunds`). And a check that is right can be overtaken: the
  write comes later and turns even a success into a failure (`OvertakenCheckOverRefunds`). `SoundCopyExactly` is
  the check on the fields the request reads that would close it, exactly.

## Model

| member | source | states |
|---|---|---|
| TokenRefresh.NoUsedTokenPresented | packages/utils/src/apiClient.ts:28-33 | over every interleaving of requests, refreshes, replies, failures, logins and logouts in which every refresh whose token the handler deleted is answered and its answer arrives, the server is never shown a refresh token that was already rotated away |
| TokenRefresh.OneRefreshInFlight | packages/utils/src/apiClient.ts:63-78 | in every reachable state at most one refresh round is unsettled, `refreshPromise` is null exactly when there is none and names it otherwise, and no refresh call is on the wire without it |
| TokenRefresh.ReuseExactlyWhenPoisoned | apps/api/src/controllers/auth.controller.ts:234-247 | the server sees a consumed token on a refresh if and only if the browser still held one whose replacement was lost when the call went out |
| TokenRefresh.PoisonedJarEndsEverySession | apps/api/src/controllers/auth.controller.ts:234-247 | once a rotation reply was lost, the next refresh is denied as reuse and every session of the user is revoked |
| TokenRefresh.LostRotationPoisons | apps/api/src/controllers/auth.controller.ts:253-256 | losing one rotation, or a handler that fails between deleting the token and answering, is enough to leave the consumed token in the browser; a dropped call clears the promise |
| TokenRefresh.StepKeepsSessionExactly | apps/api/src/controllers/auth.controller.ts:223-257 | a step keeps the session (the cookie, its replacement on the way and a call still to be checked can all be used, on an open account) if and only if it is not one of: a call lost or failed once its token is deleted, an expired token, a password change while a refresh with a cookie is to be checked or its rotation is on the way, a logout under a refresh of the same cookie that is to be checked, a revocation of a token in play, a deactivation or removal of the account |
| TokenRefresh.SessionLostExactly | apps/api/src/controllers/auth.controller.ts:234-256 | from every reachable state with its session intact, a step can end in a lock-out (a cookie the server will not rotate, nothing under way) without a further such step, if and only if it is such a step |
| TokenRefresh.RunKeepsSession | apps/api/src/controllers/auth.controller.ts:223-257 | over every run without such a step the session is kept |
| TokenRefresh.SessionSurvives | apps/api/src/controllers/auth.controller.ts:234-256 | after any run without such a step, whatever its concurrent 401s, the next refresh the handler serves is admitted, consumes its token and rotates |
| TokenRefresh.OverlappingPasswordChangeEndsSession | apps/api/src/services/token.service.ts:74-77 | a password change processed while a refresh with a cookie is on its way makes that refresh look like reuse and revokes the new session too (the other losing steps, and that they really lock out, are in SessionLostExactly) |
| TokenRefresh.JoinersShareOneOutcome | packages/utils/src/apiClient.ts:63-65 | callers that awaited the same refresh saw the same outcome, the one it settled with |
| TokenRefresh.RequestOutcome | packages/utils/src/apiClient.ts:80-97 | a request sends at most twice, the second time only after a successful refresh; session-expired fires exactly for a finished request that may refresh and whose last response is still 401, always after a refresh that completed, never after one that threw |
| TokenRefresh.FinishedCallsStay | packages/utils/src/apiClient.ts:80-106 | over any run a finished caller never changes and a caller never awaits a second refresh round |
| TokenRefresh.SettledRefreshCanRestart | packages/utils/src/apiClient.ts:73-75 | however a refresh ended, including by a throw, the next caller that needs one starts a new one on the cookie the browser holds |
| TokenRefresh.EveryCallEnds | packages/utils/src/apiClient.ts:80-106 | from any reachable state at most Measure replies and continuations remain, and when none can happen every caller has returned or thrown |
| TokenRefresh.UnfinishedCallCanProgress | packages/utils/src/apiClient.ts:80-106 | while a caller is unfinished some reply or continuation can happen |
| TokenRefresh.JoinersRetryWithNewToken | packages/utils/src/apiClient.ts:84-85 | in whatever order the callers of a successful round resume, every request among them is sent again under the token that round stored |
| TokenRefresh.RefreshedTokenIsUsed | packages/utils/src/apiClient.ts:69-72 | the server's new access token is what the waiting request and every later request carry |
| TokenRefresh.LateRejectionDropsNewerToken | packages/utils/src/apiClient.ts:87-96 | a reachable run where a retry's late 401 drops a newer token and ends a session that is still live |
| SessionExpiry.SessionAtExpiryExactly | packages/utils/src/apiClient.ts:34-37 | in every reachable state, when a request is about to expire the session and nothing else touched its tokens since its refresh was sent: the session is alive if and only if the account is open and the refresh succeeded (a rejected retry), or was answered 403, or failed in any other way with a usable cookie before the handler deleted its token |
| SessionExpiry.RefusalEndsSession | packages/utils/src/apiClient.ts:87-92 | whatever else happened, a refresh answered 401 means the session is over, unless someone logged in after it was sent |
| SessionExpiry.KeptSessionAtExpiry | packages/utils/src/apiClient.ts:87-96 | in a session no step has lost, an expiry is wrong exactly while the browser holds a cookie, and then the refresh was not answered 401 or someone logged in since |
| SessionExpiry.NewerTokenDroppedExactly | packages/utils/src/apiClient.ts:93-95 | in every reachable state, an expiry drops a token stored after the rejected request was sent if and only if the stored token is not the one that request carried |
| SessionExpiry.ExpiresExactly | packages/utils/src/apiClient.ts:83-97 | the expiring steps are exactly: resuming from a refused refresh, and a 401 to a retry; both leave no token |
| SessionExpiry.TurnedAwayExpiresLiveSession | apps/api/src/app.ts:60-68 | a reachable run where the rate limiter's refusal of a refresh expires a live session |
| SessionExpiry.ForbiddenExpiresLiveSession | apps/api/src/controllers/auth.controller.ts:249-251 | a reachable run where an account deactivated and reactivated meanwhile gets a 403 that ends a session whose cookie still rotates |
| SessionExpiry.FailedHandlerEndsSession | apps/api/src/controllers/auth.controller.ts:253-256 | a reachable run where the handler fails after deleting the token: a dead cookie, locked out, and the next refresh is taken for theft although no reply was lost |
| SessionExpiry.TracesEveryRun | packages/utils/src/apiClient.ts:80-106 | the history these are stated on is a function of the run, and every run has one |
| ApiClientRun.Play | packages/utils/src/apiClient.ts:26-109 | any run played on a client object leaves these facts in its fields: the calls made, each where its own events put it, one refresh in flight exactly while refreshPromise is set, at most two sends a request, the exact expiry condition, and no used token shown as long as rotations arrive |
| RequestFate.RunTells | packages/utils/src/apiClient.ts:80-106 | over every run, the calls are those the application made, and each is where its own replies, failures and resumptions put it, with the status of its last reply: a table on events and statuses alone |
| RequestFate.AnsweredReturns | packages/utils/src/apiClient.ts:81-105 | a request whose last awaited reply arrived, and was not a first 401 that it may refresh, has returned with that very status |
| RequestFate.ThrownExactly | packages/utils/src/apiClient.ts:80-106 | a caller is thrown if and only if the event that ended it was its own failed fetch, or its resuming from a refresh that threw |
| RequestFate.WaitsForTheNewest | packages/utils/src/apiClient.ts:63-66 | a caller that begins to wait joins the refresh in flight, or the one its own step starts when there is none |
| RequestFate.RoundMovesExactly | packages/utils/src/apiClient.ts:66-75 | a refresh in flight is refused by any answer but a rotation, throws when its call is lost or its body is unreadable, succeeds with its body, and nothing else moves it |
| RequestFate.TokenMovesExactly | packages/utils/src/apiClient.ts:69-72 | the access token is changed by a store, the body of a refresh and an expiry, and by nothing else |
| TokenRefresh.StepKeepsInv | packages/utils/src/apiClient.ts:63-106 | one step of client, network, server or scheduler keeps single flight, the facts known at each program counter, and the bookkeeping of used, active and lost tokens |
| ApiClient.Client.TryRefresh | packages/utils/src/apiClient.ts:63-78 | the fields afterwards and the returned promise are those of the protocol function: join the round in flight, else start one |
| ApiClient.Client.OnReply | packages/utils/src/apiClient.ts:80-97 | the code between a reply and the next suspension is the protocol step: finish, wait for a refresh, or expire the session |
| ApiClient.Client.Resume | packages/utils/src/apiClient.ts:84-96 | the code after the awaited refresh is the protocol step: retry under the current token, expire, or rethrow |
| ApiClient.Client.OnRefreshReply | packages/utils/src/apiClient.ts:67-68 | the refresh body after its fetch is the protocol step |
| ApiClient.Client.OnRefreshBody | packages/utils/src/apiClient.ts:69-75 | the refresh body after its JSON stores the token and settles the round, or settles it refused |
| ApiClient.Client.FinishRefresh | packages/utils/src/apiClient.ts:73-75 | the `finally` settles the newest round and clears the shared promise |
| HeadRoundTrip.RestoresExactly | packages/utils/src/seoMeta.ts:101-105 | for every head and managed tags: apply then cleanup, whose restores run in forward order, gives back title and exact element sequence if and only if no element is clobbered (the last but one writer of a shared element wrote the value it already had) |
| HeadRoundTrip.DisjointNeverClobbers | packages/utils/src/seoMeta.ts:42-63 | if no element matches two supplied selectors, nothing is clobbered |
| HeadRoundTrip.SharedElementIsClobbered | packages/utils/src/seoMeta.ts:53-56 | a head with one element that is both description and og:description does not come back |
| HeadRoundTrip.NestedUsesRestore | packages/utils/src/seoMeta.ts:38-123 | any well-nested sequence of applySeoMeta and applyJsonLd uses, at any depth, leaves the document as it was on every head where no element matches two supplied selectors |
| HeadRoundTrip.NestedUseRestores | packages/utils/src/seoMeta.ts:101-123 | the same for one use with whatever it shows inside |
| HeadRoundTrip.NestedRestoresExactly | packages/utils/src/seoMeta.ts:38-123 | on every head and at any depth, each use restores the document it found if and only if none of them clobbers an element of the head it is applied to |
| HeadRoundTrip.UseRestoresExactly | packages/utils/src/seoMeta.ts:101-123 | the same for one use and what it shows inside |
| HeadRoundTrip.NeverDuplicates | packages/utils/src/seoMeta.ts:42-45 | while applied, a managed selector has the matches it had, or exactly the one that was created |
| HeadRoundTrip.SuppliedValueShows | packages/utils/src/seoMeta.ts:48-63 | while applied, the first match of a supplied selector carries its value, unless a later tag was set on the same element |
| HeadRoundTrip.CleanupLeaves | packages/utils/src/seoMeta.ts:101-105 | on every head the cleanup brings back the title, removes exactly the created elements, and leaves each other element as it was before the last write to it |
| HeadRoundTrip.ReplayUndoes | packages/utils/src/seoMeta.ts:50-56 | the forward replay of the restore log takes each element to its state before its last write |
| HeadRoundTrip.AppliedShape | packages/utils/src/seoMeta.ts:48-63 | the applied head is the original elements in place, each with the writes of the tags it was first match of, followed by one created element per tag without a match |
| HeadRoundTrip.AppliedPage | packages/utils/src/seoMeta.ts:38-106 | on a head where no element matches two supplied selectors, applying keeps that property and the cleanup restores the document |
| HeadTags.TagsAreManaged | packages/utils/src/seoMeta.ts:77-99 | the tags of any input are managed ones, no two with the same selector |
| HeadFields.FieldsShow | packages/utils/src/seoMeta.ts:77-99 | on every head where no element matches two supplied selectors, the title is the input's and each of the twelve selectors shows the field named for it (`og:title` shows `og.title`, and so on), on the match it had or one that was created; the matches of an absent or empty optional field are untouched |
| HeadFields.TagsExactly | packages/utils/src/seoMeta.ts:77-99 | on any head: a tag is set if and only if it carries description, canonical URL or a given field under its own name |
| HeadFields.ScriptShows | packages/utils/src/seoMeta.ts:115-119 | on any head applyJsonLd adds one JSON-LD script with the given text at the end and leaves the title and every element as it was |
| SeoMeta.ApplySeoMeta | packages/utils/src/seoMeta.ts:38-99 | on the mutable document: page and undo log afterwards are those of the value model, every element in the head is an old or a fresh one; where no element matches two supplied selectors, each field of the input shows in the tag named for it |
| SeoMeta.SetTag | packages/utils/src/seoMeta.ts:48-63 | one tag written in place or created and logged, as the value model says |
| SeoMeta.CleanupHandle.Run | packages/utils/src/seoMeta.ts:101-105 | the cleanup closure, working through captured element references on whatever head it finds, is the value model's cleanup |
| SeoMeta.CleanupHandle.RestoreAll | packages/utils/src/seoMeta.ts:103 | the restore loop is the forward replay of the log |
| SeoMeta.CleanupHandle.RemoveCreated | packages/utils/src/seoMeta.ts:104 | the removal loop leaves exactly the elements that were not created |
| SeoMeta.Document.QuerySelector | packages/utils/src/seoMeta.ts:49 | the index of the first match, or the length |
| SeoMeta.Document.Remove | packages/utils/src/seoMeta.ts:104 | removal by reference is removal by identity |
| SeoMeta.ShowThenLeave | packages/utils/src/seoMeta.ts:38-123 | on the heap: any nested uses of applySeoMeta and applyJsonLd give back title and head with all attribute values, if no element matches two supplied selectors |
| SeoMeta.RunUse | packages/utils/src/seoMeta.ts:38-123 | apply, run whatever is inside, clean up through the captured references: on any head the page ends as in the value model, and only elements created meanwhile are new |
| SeoMeta.ApplyJsonLd | packages/utils/src/seoMeta.ts:115-123 | one script element with the text is appended, nothing else changes |
| DateTime.CountsCalendarDays | packages/utils/src/datetime.ts:32-36 | on date keys of local dates the result is n exactly when n next-day steps lead from one date to the other (backwards for negative n), if and only if both years are below 100 or neither is |
| DateTime.TomorrowIsTheNextDay | packages/utils/src/datetime.ts:86-90 | for every two local dates from year 100 on, "Opens tomorrow" is chosen exactly for the Gregorian next day, plain "Opens at" exactly for today and every day before it, the dated phrase otherwise |
| DateTime.PhraseExactly | packages/utils/src/datetime.ts:77-90 | for every availability, timezone and day: "Open" if and only if there is no availability or it is open; a reason if and only if it is paused, or closed with no next opening, and the text is the given reason, or that status's fallback when it is empty; a known opening without a timezone says "Opens at" |
| DateTime.DaysBetweenDates | packages/utils/src/datetime.ts:32-36 | on every pair of date keys the result is the difference of the days Date.UTC takes the dates for |
| DateTime.DaysBetweenAdds | packages/utils/src/datetime.ts:32-36 | antisymmetric and additive on all date keys |
| DateTime.KeyRoundTrip | packages/utils/src/datetime.ts:28-34 | splitting a date key and reading its parts gives back year, month and day |
| DateTime.NextDayCountsOne | packages/utils/src/datetime.ts:35 | the day number behind Date.UTC grows by one per calendar day, month ends, leap years and centuries included |
| DateTime.DayNumberInjective | packages/utils/src/datetime.ts:35 | two valid dates with one day number are the same date |
| DateTime.DayNumberDifference | packages/utils/src/datetime.ts:35 | day numbers differ by n exactly when n next-day steps lead from one date to the other |
| DateTime.RoundIsExact | packages/utils/src/datetime.ts:35 | between whole days Math.round has nothing to round |
| SearchProtocol.OnlyNewestCommits | apps/admin/src/components/AddressAutocomplete.tsx:41-51 | in every interleaving a reply changes the screen exactly when its request is the newest made, and committed ids strictly increase |
| SearchProtocol.SpinnerIsLive | apps/admin/src/components/AddressAutocomplete.tsx:52-54 | `loading` is never on without a timer, reply or finally of the newest request still to come |
| SearchProtocol.SpinnerEnds | apps/admin/src/components/AddressAutocomplete.tsx:28-57 | once typing stops, timers and replies run out within Measure steps and the spinner is off |
| SearchProtocol.CommitAnswersBoxExactlyWhenLong | apps/admin/src/components/AddressAutocomplete.tsx:29-35 | a reply that reaches the screen answers the query in the box if and only if the box still holds three characters |
| SearchProtocol.ClearedBoxCanShowResults | apps/admin/src/components/AddressAutocomplete.tsx:30-34 | a reachable run in which suggestions open under an emptied box, since a short query takes no new id |
| SearchProtocol.NewestReplyShows | apps/admin/src/components/AddressAutocomplete.tsx:41-51 | in every reachable box the reply to the newest request opens the list: its suggestions with no error, or its message with no suggestions |
| SearchProtocol.LongQueryIsAsked | apps/admin/src/components/AddressAutocomplete.tsx:36-55 | in every reachable box a text of three characters takes the next id; when its timer fires the spinner is on and the request is out, and it stays on until the finally after the reply |
| SearchProtocol.ShortQueryClears | apps/admin/src/components/AddressAutocomplete.tsx:29-35 | in every reachable box a shorter text leaves no timer, no list and no spinner, and asks for nothing |
| SearchProtocol.ChoiceFillsBox | apps/admin/src/components/AddressAutocomplete.tsx:59-73 | a chosen suggestion puts its address in the box and closes and empties the list |
| SearchProtocol.StepKeepsInv | apps/admin/src/components/AddressAutocomplete.tsx:28-73 | one keystroke, timer, reply or finally keeps the facts about ids, timers and replies |
| AddressAutocomplete.SearchBox.SetQuery | apps/admin/src/components/AddressAutocomplete.tsx:28-36 | cleanup and effect of a changed query are the protocol step |
| AddressAutocomplete.SearchBox.OnFound | apps/admin/src/components/AddressAutocomplete.tsx:40-45 | the success callback is the protocol step, with its id guard |
| AddressAutocomplete.SearchBox.OnFailed | apps/admin/src/components/AddressAutocomplete.tsx:46-51 | the failure callback is the protocol step, with its id guard |
| AddressAutocomplete.SearchBox.OnFinally | apps/admin/src/components/AddressAutocomplete.tsx:52-54 | the finally callback is the protocol step |
| AddressAutocomplete.Play | apps/admin/src/components/AddressAutocomplete.tsx:28-73 | any run played on a search box leaves these facts in its fields: the spinner on only with something of the newest request to come, committed ids strictly increasing, the newest request asking for the text in the box while it is long enough |
| LocationProtocol.SupersededNeverCommits | apps/admin/src/context/LocationContext.tsx:92-110 | over any run of logins, logouts, switches and password-change flips, an answered fetch commits exactly when it belongs to the newest uncancelled run, started for the user and business of now; otherwise it changes nothing; commits come in order |
| LocationProtocol.ChoicePrecedence | apps/admin/src/context/LocationContext.tsx:100-103 | the committed location is null exactly for an empty list, else in the list, by stored, own, first |
| LocationProtocol.CommitShows | apps/admin/src/context/LocationContext.tsx:97-107 | in every reachable state an answered live run shows the answered list, makes active the stored location if listed, else the run's own, else the first, else none, gives the socket the same and stores nothing |
| LocationProtocol.ListOverRuns | apps/admin/src/context/LocationContext.tsx:58-143 | over every run the list shown is the last one committed or refetched, empty once a render without user or business came after it |
| LocationProtocol.RenderStartsRun | apps/admin/src/context/LocationContext.tsx:92-96 | a run is started with the user, own location and business of its render and shows nothing until it is answered |
| LocationProtocol.RerunsExactly | apps/admin/src/context/LocationContext.tsx:125-128 | a render cancels every earlier run exactly when the business, the user's id or the pending password change differs, and otherwise changes nothing shown |
| LocationProtocol.RenderWithoutBusiness | apps/admin/src/context/LocationContext.tsx:69-89 | signing out and being in no business empty the list at once, with no location and a closed socket, or the user's own location and an open one |
| LocationProtocol.SwitchExactly | apps/admin/src/context/LocationContext.tsx:130-140 | a switch without a business or to the active location changes nothing; any other is stored for that business and made active |
| LocationProtocol.SocketSendsActiveLocation | apps/admin/src/lib/socket.ts:12-23 | whenever the socket is up or coming up, its next handshake, also after a dropped connection, sends the active location |
| LocationProtocol.ActiveIsListed | apps/admin/src/context/LocationContext.tsx:98-105 | without refetches a non-empty list always holds the active location; after any such run one refetch keeps that exactly when its list holds it |
| LocationProtocol.LoadingExactly | apps/admin/src/context/LocationContext.tsx:92-110 | `loading` holds exactly before the first effect and while the newest run waits for its fetch |
| LocationProtocol.SwitchIsRemembered | apps/admin/src/context/LocationContext.tsx:130-136 | until the next switch, a run for that business whose list still has the switched-to location commits it again |
| LocationProtocol.RoomExactly | apps/admin/src/context/LocationContext.tsx:77-107 | in every reachable state: a step keeps the live connection in the active location's room if and only if it is not a commit of another location, nor a render that takes a signed-in user out of a business to another own location, on a live connection; and out of the room it comes back exactly by a drop, a close, a switch, or by the presented location becoming active |
| LocationProtocol.RunStaysInRoomExactly | apps/admin/src/context/LocationContext.tsx:65-143 | a whole run stays in the room if and only if none of its steps is one of those two |
| LocationProtocol.RoomOverRuns | apps/admin/src/context/LocationContext.tsx:65-143 | at the end of any run the connection is in the room exactly as its leaving and rejoining steps say |
| LocationProtocol.SwitchRejoins | apps/admin/src/context/LocationContext.tsx:133-140 | a switch always handshakes afresh with the location switched to |
| LocationProtocol.EnteringBusinessCanStayOutOfRoom | apps/admin/src/context/LocationContext.tsx:77-107 | a reachable run in which a location is active and loaded but the live connection presented none |
| LocationProtocol.LeavingBusinessCanStayInRoom | apps/admin/src/context/LocationContext.tsx:77-89 | a reachable run in which no location is active but the live connection is still in the left business's room |
| LocationProtocol.StepKeepsInv | apps/admin/src/context/LocationContext.tsx:65-143 | one render, fetch, switch or connection event keeps the facts about runs and socket |
| LocationContext.LocationProvider.Resolve | apps/admin/src/context/LocationContext.tsx:65-96 | cancel the previous run and execute resolve up to its fetch: the protocol step |
| LocationContext.LocationProvider.Render | apps/admin/src/context/LocationContext.tsx:65-128 | the effect re-runs exactly on a change of user id, mustChangePassword or business |
| LocationContext.LocationProvider.OnFetched | apps/admin/src/context/LocationContext.tsx:97-110 | the code after the fetch is the protocol step |
| LocationContext.LocationProvider.SwitchLocation | apps/admin/src/context/LocationContext.tsx:130-140 | switchLocation is the protocol step |
| LocationContext.Play | apps/admin/src/context/LocationContext.tsx:58-143 | any run played on a provider and socket leaves these facts in their fields: what the socket would send is the active location, the exact loading condition, the list last committed or refetched, the active location listed without refetches, the room kept unless a step left it |
| RefundLedger.NeverOverRefunds | apps/api/src/services/payment.service.ts:383-419 | over every interleaving of requests, retries, webhooks, lookups, re-issues, staff and crashes outside two named windows, the money the provider moves is at most totalRefunded, which is at most the payment |
| RefundWindows.WindowsAreExact | apps/api/src/services/payment.service.ts:394-399 | after a step from any safely reached state, what the provider moves can never exceed the payment (less amounts already stuck in the balance) if and only if the step is outside the two windows: a crash between releasing a rejected claim and deleting it, and a "not refunded" written, whatever was checked before, on a pending or succeeded refund that the provider has made or can still make |
| RefundWindows.UnsafeStepOverRefunds | apps/api/src/services/payment.service.ts:591-595 | every step into a window, for every ledger, continues by safe steps the code allows to more money moved than the payment holds, less what was stuck |
| RefundEvidence.SoundCopyExactly | apps/api/src/services/payment.service.ts:849-875 | a request that has read the document and passed the service's checks may write "not refunded", in every safely reached history with that copy and whatever happens before the write, if and only if nothing was found after the claim's request was over, and the amount was never marked reserved or, without a provider reference, nothing was found after the last call there can be could still take effect |
| RefundEvidence.TimedOutRetryOverRefunds | apps/api/src/services/payment.service.ts:811-832 | for every such provider: a retry that looks up, re-issues and times out leaves a lookup on which "not refunded" is accepted, and more than the payment can leave; no race is needed |
| RefundEvidence.TimedOutRetryCanBeSettled | apps/api/src/services/payment.service.ts:866-874 | the state that retry reaches: held, nothing at work on it, a request to settle by hand past its checks, its write unsafe |
| RefundEvidence.OvertakenCheckOverRefunds | apps/api/src/services/payment.service.ts:634-697 | for every amount and every landing time within the window: a check that is right when it passes is overtaken by a retry that succeeds, the write turns the success into a failure, and more than the payment leaves |
| RefundLedger.PassedCanWrite | apps/api/src/services/payment.service.ts:853-875 | a request that passed its checks can always write: nothing is read again |
| RefundLedger.LeaseIsExclusive | apps/api/src/services/payment.service.ts:814-821 | whoever takes the re-issue lease finds no other request at work on the refund |
| RefundLedger.OneRefundPerKey | apps/api/src/services/payment.service.ts:401-407 | under one idempotency key the provider makes at most one refund, however often it is claimed, retried and re-issued |
| RefundRequests.TurnedDownClaimIsRemoved | apps/api/src/services/payment.service.ts:501-512 | in every safely reached ledger the request of a claim whose reservation did not fit, or that the provider refused, ends by deleting it: the total is as it is without it, no undeleted refund has its key, and the key can be claimed again for any positive amount |
| RefundRequests.TurnedDownOverRuns | apps/api/src/services/payment.service.ts:401-407 | over every run in which its request does not crash such a claim counts nothing in the total, and once that request has ended it stays deleted |
| RefundRequests.ReservesExactly | apps/api/src/services/payment.service.ts:498-508 | a reservation takes the amount exactly when total and amount are within the payment, and otherwise turns the claim down and takes nothing |
| RefundRequests.RefusalReleases | apps/api/src/services/payment.service.ts:591-593 | a fresh call that the provider refuses gives its amount back and turns the claim down |
| RefundRequests.StatusMovesExactly | apps/api/src/services/payment.service.ts:625-663 | in every safely reached ledger: pending becomes succeeded or failed, succeeded becomes failed, when the provider tells it or a person writes it; a pending claim is deleted by its own request; no action moves a status otherwise |
| RefundRequests.SuccessSettles | apps/api/src/services/payment.service.ts:498-518 | from every ledger that keeps the invariant, a claim that fits is reserved, marked, called and on success settled with its amount counted once |
| RefundRequests.FailureReleases | apps/api/src/services/payment.service.ts:577-578 | the same request on a failure at the provider ends failed and gives the amount back |
| RefundRequests.UnknownHolds | apps/api/src/services/payment.service.ts:603 | the same request on an unknown outcome leaves the refund held at once, its amount counted |
| RefundRequests.StatusEndsHold | apps/api/src/services/payment.service.ts:655-657 | any status the provider gives ends the unknown outcome, and a known reference is kept |
| RefundRequests.RetrySettles | apps/api/src/services/payment.service.ts:811-832 | a held refund unknown to the provider is looked up, leased and called again under its key, and on success settled without a second reservation, its lease given back |
| RefundRequests.EndedReissueFreesLease | apps/api/src/services/payment.service.ts:822-832 | however a re-issue is answered it gives its lease back, moves no money in the total at that step, and leaves an unsettled refund reserved |
| RefundRequests.OtherLookupBarsConfirming | apps/api/src/services/payment.service.ts:793-809 | after a lookup that found something or was inconclusive, what is read of the document passes no check for "not refunded" of a provider with lookups |
| RefundRequests.UnreservedSuccessCounts | apps/api/src/services/payment.service.ts:689-697 | a success told of a claim without a reservation marks it reserved and counts its amount once |
| RefundLedger.EveryRefundCovered | apps/api/src/services/payment.service.ts:689-697 | outside the windows every refund that moves money is counted in totalRefunded |
| RefundWindows.StepKeepsStuck | apps/api/src/services/payment.service.ts:689-697 | what a crashed or lost balance update left counted stays counted |
| RefundLedger.StepKeepsTotal | apps/api/src/services/payment.service.ts:498-505 | every step changes totalRefunded by exactly the change of the refunds' shares in it |
| RefundLedger.StepKeepsKeys | apps/api/src/models/Refund.ts:73-76 | the unique index admits one undeleted refund per key through every step |
| RefundLedger.ActionKeepsRefund | apps/api/src/services/payment.service.ts:420-876 | one database operation, provider answer or decision outside the windows keeps reservation, status, lease, evidence and provider record of its refund consistent |
| RefundLedger.StepKeepsInv | apps/api/src/services/payment.service.ts:420-876 | and the ledger's balance, claims and refunds with it |
| RefundProtocol.RefundsBoundedByResets | apps/admin/src/components/OrderPaymentAdmin.tsx:78-102 | however many retries, lost replies and late deliveries, refunds performed are at most one more than the resets |
| RefundProtocol.OneKeyBetweenResets | apps/admin/src/components/OrderPaymentAdmin.tsx:47-50 | two submits carry the same key if and only if no reset came between them |
| RefundProtocol.RetrySendsKeyExactly | apps/admin/src/components/OrderPaymentAdmin.tsx:78-102 | over every run, read off its events: a confirm press sends the key of an earlier press if and only if no success and no edit of the amount came between; failures and lost replies keep it |
| RefundProtocol.RefundsBoundedByEvents | apps/admin/src/components/OrderPaymentAdmin.tsx:78-102 | over every run the refunds performed are at most one more than its successes and edits |
| RefundProtocol.RunTells | apps/admin/src/components/OrderPaymentAdmin.tsx:80-101 | over every run the button is disabled exactly from a press to a failure or the end of the reload after a success, and a reply is awaited exactly from a press to its reply |
| RefundProtocol.PerformedExactly | apps/admin/src/components/OrderPaymentAdmin.tsx:82-90 | the server has refunded under exactly the keys of the submits it performed |
| OrderPaymentAdmin.RefundPanel.SubmitRefund | apps/admin/src/components/OrderPaymentAdmin.tsx:78-90 | the key is minted only if there is none, and sent |
| OrderPaymentAdmin.RefundPanel.OnReplyOk | apps/admin/src/components/OrderPaymentAdmin.tsx:91-94 | a success drops the key and clears the form |
| OrderPaymentAdmin.RefundPanel.OnReplyError | apps/admin/src/components/OrderPaymentAdmin.tsx:96-101 | a failure keeps the key and the form |
| OrderPaymentAdmin.RefundPanel.EditAmount | apps/admin/src/components/OrderPaymentAdmin.tsx:155-158 | an edit of the amount drops the key |
| OrderPaymentAdmin.Play | apps/admin/src/components/OrderPaymentAdmin.tsx:78-102 | any run played on a panel leaves at most one refund more than there were successes and edits, the button disabled as its events say, and a kept key is the newest one minted |
| Hostname.SpellingsCollide | packages/validation/src/domain.ts:3-7 | for every accepted name: any letter case, surrounding white space, alphabetic scheme and a suffix "", "/", "." or "./" is accepted as that very name |
| Hostname.StripsToExactly | packages/validation/src/domain.ts:17-21 | lower-cased text reduces to an accepted name if and only if it is that name with an optional scheme before and one of the four suffixes after it |
| Hostname.AcceptedIsFixedPoint | packages/validation/src/domain.ts:50-56 | reducing an accepted name again changes nothing |
| Hostname.AcceptedLabels | packages/validation/src/domain.ts:24-40 | an accepted name is its labels joined: two or more, each 1 to 63 letters, digits and inner hyphens, at most 253 characters, not four groups of up to three digits |
| Hostname.NonPublicExactly | packages/validation/src/domain.ts:31-41 | refused as non-public: exactly the reserved names and the names under one of them |
| Hostname.AcceptedExactly | packages/validation/src/domain.ts:24-48 | a name is accepted if and only if it has two or more labels of 1 to 63 letters, digits and inner hyphens, at most 253 characters, is not four decimal groups, is no reserved name nor under one, and the URL parser agrees |
| Hostname.ParsesExactly | packages/validation/src/domain.ts:50-56 | the schema yields exactly the reduced text, when it is acceptable, and asks for a value exactly on the empty text |
| Hostname.NormalizeHostname | packages/validation/src/domain.ts:13-22 | the step-by-step reassignment computes the reduction the lemmas are about |
| Slug.SlugifyGivesSlug | apps/admin/src/components/ClientProvisioningWizard.tsx:8-14 | for every input the result is "" or matches the slug pattern of agency.ts |
| Slug.SlugifyIsWords | apps/admin/src/pages/CreateRestaurantPage.tsx:9-15 | the result is the lower-cased text's alphanumeric runs joined by single hyphens |
| Slug.TrimIsRedundant | apps/admin/src/components/ClientProvisioningWizard.tsx:11 | the result is the same without the trim step |
| Slug.IdentityExactlyOnSlugs | packages/validation/src/agency.ts:5 | slugify changes nothing exactly on "" and on slugs |
| Slug.SlugifyIdempotent | apps/admin/src/components/ClientProvisioningWizard.tsx:8-14 | slugify is idempotent |
| Slug.SplitJoin | packages/validation/src/agency.ts:5 | joining words by hyphens and splitting at hyphens are inverse |
| Overrides.EditsMean | apps/admin/src/components/ModifierGroupsEditor.tsx:308-326 | after any edits an option has its last saved price and its availability flipped once per toggle, whatever the order and the other edits |
| Overrides.EditedLookup | apps/admin/src/components/ModifierGroupsEditor.tsx:308-326 | an edit changes its own option's entry as stated and no other option's |
| Overrides.EditsKeepDistinct | apps/admin/src/components/ModifierGroupsEditor.tsx:308-326 | any edits keep option ids distinct |
| Overrides.IndexAgreesWithFind | apps/admin/src/components/ModifierGroupsEditor.tsx:330 | on distinct ids the last-wins Map and the first-wins find are one table |
| Overrides.EditsCommute | apps/admin/src/components/ModifierGroupsEditor.tsx:308-326 | a price edit and a toggle, or edits of two options, commute as tables |
| Overrides.ToggleTwice | apps/admin/src/components/ModifierGroupsEditor.tsx:317-326 | toggling twice restores effective availability and keeps the price |
| Overrides.PayloadValidExactly | packages/validation/src/override.ts:28-45 | an edit of valid overrides passes the schemas exactly when it names an option and its price is not negative |
| Overrides.EditsStayValid | packages/validation/src/override.ts:38-45 | any acceptable edits give valid payloads |
| Money.EditorKeepsPrice | apps/admin/src/pages/AgencyBusinessDetailPage.tsx:145-163 | for every accepted price, dividing, multiplying and rounding, each operation off by at most 2^-53, saves the cents that were opened; an absent price stays absent |
| Money.TypedPriceIsExact | apps/admin/src/components/ClientProvisioningWizard.tsx:153 | a price typed with two decimals is stored as exactly those cents |
| Money.TwoRoundings | apps/admin/src/pages/AgencyBusinessDetailPage.tsx:149-163 | the round trip is exact up to 2^50 cents |
| FeeTiers.HasDistinctDistances | packages/validation/src/restaurant.ts:117-126 | the Set-building loop accepts exactly the lists with pairwise distinct distances |
| FeeTiers.WarningAgreesWithSchema | apps/admin/src/pages/DeliveryPage.tsx:246-247 | the page warns exactly for the lists the schema refuses |
| FeeTiers.OrderFreeExactly | packages/validation/src/restaurant.ts:111-116 | the fee for a distance is the same for every storage order if and only if all tightest covering tiers carry one fee |
| FeeTiers.AcceptedListsAreOrderFree | packages/validation/src/restaurant.ts:111-116 | on accepted lists every permutation gives the same fee |
| FeeTiers.TightestIsTightest | apps/api/src/services/delivery.service.ts:39-44 | the reduce picks a covering tier with the smallest distance, none exactly when none covers |
| FeeTiers.FlatExactlyUncovered | apps/api/src/services/delivery.service.ts:39-44 | the fee is the flat one, whatever that is, if and only if no tier covers the distance, and otherwise that of a tightest covering tier |
| FeeTiers.TierEditor.AddTier | apps/admin/src/pages/DeliveryPage.tsx:261-268 | "Add tier" appends a strict maximum with fee 0 and keeps distinctness both ways |
| FeeTiers.TierEditor.SetDistance | apps/admin/src/pages/DeliveryPage.tsx:244-247 | a distance edit keeps distinctness exactly when no other tier has the new distance |
| FeeTiers.TierEditor.SetFee | apps/admin/src/pages/DeliveryPage.tsx:224-228 | a fee edit changes one fee and no distance |
| FeeTiers.TierEditor.RemoveTier | apps/admin/src/pages/DeliveryPage.tsx:234-237 | removal drops one tier and keeps the others in order |
| Pagination.AppendIsPrefixExactly | apps/admin/src/pages/AgencyBillingPage.tsx:124-134 | appending page m to the first k pages gives a gapless prefix exactly when m is the next page or empty |
| Pagination.NextPageExtends | apps/api/src/utils/pagination.ts:43-46 | the next page continues the first k pages |
| Pagination.HasNextExactly | apps/api/src/utils/pagination.ts:20-31 | hasNextPage holds exactly while the first k pages are not the whole list |
| BillingHistory.HistoryList.LoadAll | apps/admin/src/pages/AgencyBillingPage.tsx:124-140 | pressing "Load more" until it disappears ends with the whole list, each page fetched once |
| BillingHistory.HistoryList.FinishLoadMore | apps/admin/src/pages/AgencyBillingPage.tsx:131-134 | the answer is appended to what is shown by then; a list of the first pages stays one if it was the next page |
| BillingHistory.HistoryList.Reload | apps/admin/src/pages/AgencyBillingPage.tsx:118-120 | a reload shows the first page and knows whether that is all |
| BillingHistory.HistoryList.PressRepeatedly | apps/admin/src/pages/AgencyBillingPage.tsx:124-140 | any presses, some answered and some failed, show the first pages, one more per answer until there are no more: a failure skips and repeats nothing |
| ShutdownProtocol.ExactlyOneExit | apps/api/src/shutdown.ts:38-56 | with an exit that terminates: at most one exit, by the deadline, code 0 exactly when all four closers resolved before it; past the deadline it has happened |
| ShutdownProtocol.ClosersInOrder | apps/api/src/shutdown.ts:34-48 | whatever the signals, each closer is called at most once, in the fixed order, only after the one before resolved |
| ShutdownProtocol.SecondExitExactlyAfterDeadline | apps/api/src/shutdown.ts:38-56 | with an exit that returns, a second exit happens exactly when the closers end after the deadline was reached |
| ShutdownProtocol.RunTells | apps/api/src/shutdown.ts:33-56 | over every run: the handler is shutting down if and only if a signal came, its first closer was called at the time of the first one, and which exits happened when is read off the events |
| Shutdown.Handler.OnSignal | apps/api/src/shutdown.ts:33-45 | the first signal starts the timer and calls the first closer; later ones do nothing |
| Shutdown.Handler.OnResolved | apps/api/src/shutdown.ts:45-51 | a resolved closer is followed by the next, or by clearing the timer and exiting cleanly |
| Shutdown.Handler.OnRejected | apps/api/src/shutdown.ts:52-56 | a rejected closer clears the timer and exits with 1 |
| Shutdown.Handler.OnTimeout | apps/api/src/shutdown.ts:38-41 | the deadline forces exit 1 |
| Shutdown.Play | apps/api/src/shutdown.ts:29-57 | any run played on a handler whose exit terminates leaves at most one exit in its fields, by the deadline, with code 0 exactly when all four closers resolved, and closers called in the fixed order, the first at the first signal |

## Left out

- NoUsedTokenPresented: one browser and one user; several tabs sharing the cookie jar are several clients and are not modelled.
- RequestOutcome: the response body of a request (204, JSON, `success: false` raised as an error) is not modelled; reading it comes after every step shown, and "returned" stands for both.
- EveryCallEnds: replies are events; that they arrive is the network's affair.
- SessionLostExactly: the user lookup and the deletion that follows it are one step of the handler, as are the membership query and the issue of the next token; an abandoned refresh call that the server takes up later is left out.
- OverlappingPasswordChangeEndsSession: a login or logout, with or without revoking the other sessions, is one step of server and browser together; the handler set by `setOnSessionExpired` is only counted as fired.
- SettledRefreshCanRestart: a refresh call the browser gave up on is either served before that or never; one served after the next refresh went out is not modelled.
- RestoresExactly: elements nested inside head elements, attributes with duplicate names and invalid selectors have no counterpart; `document.title` is a plain string, without the browser creating a title element or stripping white space.
- ApplyJsonLd: the text is given, as serialising an object is not modelled; its cleanup is the removal of one element, without the error of a script already gone.
- TomorrowIsTheNextDay: which local date an instant has in a timezone is Intl's affair and a parameter; an invalid timezone, which makes Intl throw, and the wording of times are not modelled.
- DaysBetweenDates: every part of a key is digits or not a number; other spellings Number accepts (signs, exponents, white space) do not occur in date keys.
- OnlyNewestCommits: the separate `resolving` flag and the id and callback of a chosen suggestion are not modelled.
- SocketSendsActiveLocation: a localStorage that throws, and the server's own check of the presented location, are not modelled.
- ActiveIsListed: refetchLocations is unguarded in the code and can put any list on the screen, so it is excluded from the run and its effect stated apart.
- RoomExactly: a handshake is one step, in which its packet reads the location; from then on the connection counts as live, although the server joins the room a little later. The server itself falls back to the token's own restaurant when no location, or one it refuses, is presented (`realtime/socket.ts:51-68`), so a connection that presented none may still be in that room.
- NeverOverRefunds: amounts are whole cents, so `roundCurrency` has no counterpart; the early reads that refuse a request, and the payment's own status, are left out, which only allows more runs; a request is taken to end within the five-minute rule and a re-issue within its lease, as the code relies on (`payment.service.ts:554-557`).
- SoundCopyExactly: the payment is positive; a lookup's answer is recorded in the step that gives it; a person who names a provider reference, or sees none in the dashboard, tells the truth at that time, and for a provider without lookups that time comes with the request; how long a call may take effect after it was sent is a parameter.
- WindowsAreExact: amounts are stuck when a crash falls between a reservation and its mark, or loses a decided release; they make the service refund less, never more.
- OneRefundPerKey: a provider key is the client's key, as hashing is not modelled, and the provider honours it within the 23-hour window in which re-issues happen; loyalty, audit events, notifications and payment status follow from the statuses and are left out.
- RefundsBoundedByResets: one panel with one submission in flight; the body it sends carries the key only.
- AcceptedLabels: the URL parser's last check and Unicode lower-casing are parameters; of lower-casing only its effect on ASCII text is assumed, where the result depends on it.
- EditorKeepsPrice: writing a double as text and reading it back is exact, and overflow and NaN do not occur in the accepted range.
- HasDistinctDistances: distances and fees are real numbers.
- EditsMean: each edit sees the list left by the one before; two edits sent from one stale render are not modelled.
- LoadAll: the server's list does not change meanwhile; a reload overlapping a load is covered by `AppendIsPrefixExactly`.
- ExactlyOneExit: the timer is not unreferenced, and an exit that throws instead of ending the process is not modelled.
- JSX, styling, toasts, routing, label tables, order and delivery status maps: nothing to prove beyond enumeration.
- Field-range schemas, entitlements, webhook delivery and third-party wrappers: easy members or foreign calls.
