# Health chat app: routing, auth store, chat service and list helpers in Dafny

This project models the client-side decision logic of a React Native health and
emergency-assistance app whose persistence, authentication and realtime feeds
live in a hosted backend. What the app itself decides is small and sequential:

- the **route guard** of the root layout, which redirects by loading state,
  sign-in state, admin flag and current route segments, and the **deep-link
  handlers** (the layout's URL listener and the `/auth/callback` screen) that
  turn an email link into a session and one navigation;
- the **auth store** (`useAuthStore`): a record `{session, isLoading, isAdmin,
  error}` and its actions `setSession`, `signIn`, `signUp`, `signOut`,
  `resetPassword` and `updateProfile`, including the "defined fields only"
  update record and the `|| null` argument mapping of the profile procedure;
- the **chat service**: the conversation-list projection (other participant,
  `unread_count` fixed at 0), the liveness-gated conversation change feed, and
  the thin wrappers around the message table and the get-or-create procedure;
- the **contact list** helpers: initials, the 32-bit string hash that picks an
  avatar colour, the fetch-result handling and the caller's filter;
- the **tab-bar counter**: a saturating hide counter with derived visibility.

Every backend call is replaced by its reply, passed in as
`Outcome<T> = Ok(value) | Err(message)`. Store actions return the store
snapshot after each `set`, in order, so that the loading bracket (error cleared
and spinner raised on entry, spinner lowered on every exit) can be stated.
Deep-link handlers return the list of their effects: the session exchange
request, the store update and the navigation.

One interaction between the modules is a defect, listed under "## Findings":
a recovery link signs the user in and lands on `/(auth)/reset-password`, and
the guard then replaces that page with the home screen, because an
authenticated user on an `(auth)` page is always redirected. The store-level
guard `RootLayout.GuardStore` therefore runs the corrected `RecoveryGuard`.

Some behaviours of the code that one might expect otherwise:

- The conversation-feed disposer is not idempotent. Every call unsubscribes the
  channel again (`ChatService.UnsubscribePerDispose`).
- Message content is not validated. `sendMessage` inserts whatever it is given.
- `getOrCreateConversation` passes the two ids through to a server procedure in
  the caller's order. Its atomicity is not visible here.
- `unread_count` is always 0.
- Emergency reports, message de-duplication and read tracking are not handled
  by any of the modelled files, so they are not modelled.

Files: `gateway.dfy` (Option, Outcome, Session), `text.dfy` (split, join, trim,
upper-case, cut), `url_query.dfy` (URL query parsing and serialization),
`navigation.dfy` (routes and effects), `root_layout.dfy`, `auth_callback.dfy`,
`auth_store.dfy`, `chat_service.dfy`, `user_list.dfy`, `tab_bar.dfy`.

## Model

| member | source | states |
|---|---|---|
| RootLayout.IsAuthenticated | app/_layout.tsx:52 | signed in exactly when there is a session and it has a user |
| RootLayout.Guard | app/_layout.tsx:21-46 | the full redirect table: nothing while loading; signed out: login unless already in `(auth)`; signed in on `(auth)`: admin dashboard or app by admin flag; non-admin in `(admin)`: app; admin in `(admin)`: stay; admin on the bare `(app)` route: dashboard, deeper `(app)` routes stay; any other route: stay |
| RootLayout.GuardSettles | app/_layout.tsx:28-44 | no redirect loop: with the same flags, the guard leaves the segments of any target it redirected to |
| RootLayout.SignedOutIsSentToLogin | app/_layout.tsx:28-32 | after a successful sign-out, every screen outside `(auth)` is redirected to login |
| RootLayout.AdminSignInLandsOnDashboard | app/_layout.tsx:35-37 | an admin sign-in with a user-bearing session, seen from the login page, is redirected to `/(admin)` |
| RootLayout.RecoveryLandingIsRedirected | app/_layout.tsx:35-37 | as written, the reset-password landing of a recovery link is itself redirected home for a signed-in user |
| RootLayout.RecoveryGuard | app/_layout.tsx:21-46 | corrected guard: a signed-in user on the password form stays; on every other route the decision is the original guard's |
| RootLayout.RecoveryGuardSettles | app/_layout.tsx:28-44 | the corrected guard has no redirect loop either |
| RootLayout.RecoveryLandingStays | app/_layout.tsx:35-37 | with the corrected guard the recovery landing stays, while the login page still sends a signed-in user home |
| RootLayout.LayoutDeepLink | app/_layout.tsx:58-80 | an unparsable URL does nothing; without both tokens in the query nothing happens; with them the exchange is requested; only a successful exchange returning a session stores it and navigates, once, to reset-password for `type=recovery` and to the app otherwise; a failed exchange or one returning no session leaves the request as the only effect |
| RootLayout.LinkEffects | app/_layout.tsx:64-79 | the same decision on already-read link parameters: at most one navigation, exactly when tokens are present and a session came back; otherwise, with tokens, the exchange request alone |
| Navigation.Landing | app/auth/callback.tsx:40-45 | reset-password exactly for link type `recovery`, the app for every other type or none |
| UrlQuery.ParsePiece | app/auth/callback.tsx:16 | a query piece splits at its first `=` into name and value; without `=` the value is empty |
| UrlQuery.Get | app/auth/callback.tsx:25-27 | `searchParams.get`: `null` exactly when no pair has the name; otherwise the value of the first such pair |
| UrlQuery.SerializeRoundTrip | app/auth/callback.tsx:16-17 | parsing a serialized well-formed parameter list gives the list back |
| UrlQuery.ReparseIsIdentity | app/auth/callback.tsx:15-18 | serializing and re-parsing parsed parameters changes nothing |
| AuthCallback.FragmentReplacesQuery | app/auth/callback.tsx:15-18 | with a non-empty fragment the tokens come from the fragment's parameters, after the one leading `?` the `URLSearchParams` constructor drops; otherwise from the query's |
| AuthCallback.QueryMarkedFragmentIsRead | app/auth/callback.tsx:15-17 | a fragment of `?` followed by serialized parameters yields exactly those parameters |
| AuthCallback.QueryMarkedFragmentIsExchanged | app/auth/callback.tsx:15-35 | a fragment `?access_token=a&refresh_token=b` makes the callback request the exchange with those tokens |
| AuthCallback.HandleCallback | app/auth/callback.tsx:9-53 | exactly one navigation, always last; a URL parse failure goes to login with no exchange; missing or empty tokens go to login with no exchange; an exchange error goes to login without storing; success stores the session, then lands by link type |
| AuthCallback.Exchange | app/auth/callback.tsx:29-52 | the token check and exchange on read link parameters, with the same outcomes and one final navigation |
| AuthCallback.CallbackStore | app/auth/callback.tsx:36-49 | the store changes only if the exchange succeeded, and then it holds the returned session and stops loading; every failure leaves it untouched |
| AuthCallback.ListenerAgreesWithCallback | app/_layout.tsx:64-78 | on a fragment-free link whose exchange returned a session, the layout listener and the callback screen perform the same effects |
| AuthStore.SetSession | store/auth.ts:47 | stores the given session and clears the loading flag, keeping the admin flag and error |
| AuthStore.Conclude | store/auth.ts:84-90 | the loading bracket, with either the success update or the error message recorded (the next-to-last snapshot) before the spinner drops |
| AuthStore.SignIn | store/auth.ts:49-91 | loading bracket; on success with exactly the admin credentials: session stored, admin flag set, reply `isAdmin: true`; on other success: session stored, admin flag cleared, no `isAdmin` in the reply; on failure: message stored and returned, session and admin flag kept |
| AuthStore.SignUp | store/auth.ts:93-121 | loading bracket; success stores the returned (possibly absent) session; failure stores and returns the message, keeping the session |
| AuthStore.SignOut | store/auth.ts:123-130 | without a backend error a single update clears the session and admin flag and nothing else; with one the store is not touched at all |
| AuthStore.ResetPassword | store/auth.ts:132-148 | loading bracket; only the error field changes, to the backend's message if any |
| AuthStore.UpdateData | store/auth.ts:157-172 | the update record holds exactly the fields the caller defined, with the caller's values |
| AuthStore.ProfileRpcArgs | store/auth.ts:182-193 | the procedure gets one argument per profile field and none for the avatar; an argument is `null` exactly when the field is missing or falsy, and otherwise carries the field's value |
| AuthStore.UpdateProfile | store/auth.ts:150-233 | loading bracket; no signed-in user fails with that message and no calls after `getUser`; the metadata update carries the defined fields; the procedure follows it; the direct upsert (with every defined field, avatar included) runs only after the procedure failed; success stores the refreshed session; any failure stores and returns its message and keeps the session; a metadata error is returned as is after the one metadata call; an upsert error after a failed procedure is returned after three calls; otherwise the session refresh is the last call and its error is returned |
| AuthStore.FalsyValuesBecomeNull | store/auth.ts:186-189 | an empty name reaches the metadata as `""` but the procedure as `null`; an empty list is truthy and is passed on |
| ChatService.Snapshot | services/chat.ts:31-36 | `other_user` copies the profile's fields, and is all-undefined when there is no profile |
| ChatService.ProjectRow | services/chat.ts:29-38 | the view keeps the row intact and reports zero unread messages |
| ChatService.GetConversations | services/chat.ts:6-40 | a query error is rethrown unchanged; otherwise one view per row, same count and order, each keeping its row, with the viewer's counterpart as `other_user` and `unread_count` 0 |
| ChatService.OtherUserIsCounterpart | services/chat.ts:27-28 | for a viewer who is one of two distinct participants, `other_user` is the other participant and never the viewer |
| ChatService.MissingProfileIsUndefined | services/chat.ts:32-35 | a missing counterpart profile yields undefined fields, not an error |
| ChatService.Subscribe | services/chat.ts:66-96 | a new subscription is live, has a channel exactly when setup did not throw, and has not unsubscribed |
| ChatService.Dispose | services/chat.ts:99-104 | the disposer stops forwarding and unsubscribes once per call, only if a channel exists |
| ChatService.SilentStaysSilent | services/chat.ts:83-86 | once a listener no longer forwards, no later event reaches the callback |
| ChatService.DeliveredBeforeDispose | services/chat.ts:83-100 | a live listener hands the callback exactly the changes before the first disposal, in order |
| ChatService.SubscriptionDelivers | services/chat.ts:66-105 | over any event sequence the callback sees the changes before the first disposal if setup succeeded, and nothing otherwise |
| ChatService.UnsubscribePerDispose | services/chat.ts:99-104 | the channel is unsubscribed once for every disposer call, not once in all |
| ChatService.GetOrCreateConversation | services/chat.ts:108-124 | the procedure receives both ids in the caller's order; its id or its error comes back unchanged |
| ChatService.GetMessages | services/chat.ts:127-138 | the conversation id is the only filter; rows or error come back unchanged |
| ChatService.SendMessage | services/chat.ts:141-162 | one insert with exactly conversation id, sender id and content, for any content; the stored row or the error comes back unchanged |
| UserList.LoadedUsers | components/user-list.tsx:36-41 | a fetch error or `null` data leaves an empty list; otherwise the fetched rows |
| UserList.Filter | components/user-list.tsx:90 | keeps exactly the users the predicate accepts, never more than given |
| UserList.FilterAppend | components/user-list.tsx:90 | filtering preserves fetched order: it distributes over concatenation |
| UserList.FilterKeepsAll | components/user-list.tsx:90 | a list that passes entirely comes through unchanged |
| UserList.FilterIdempotent | components/user-list.tsx:90 | filtering twice is filtering once |
| UserList.Displayed | components/user-list.tsx:90 | all users without a filter; with one, the accepted users in fetched order (the `Filter` that `FilterAppend`, `FilterKeepsAll` and `FilterIdempotent` describe) |
| Text.Split | components/user-list.tsx:50 | `split(" ")`: at least one piece, none containing the separator |
| Text.SplitJoin | components/user-list.tsx:50 | splitting undoes joining for separator-free parts |
| Text.Trim | components/user-list.tsx:50 | the trimmed name is a slice of the name with only white space cut off either side; it is empty exactly for a blank name, and otherwise neither starts nor ends with white space |
| Text.ToUpper | components/user-list.tsx:54 | upper-casing keeps the length and maps each letter |
| UserList.LastWordFollowsLastSpace | components/user-list.tsx:56 | the last word is the whole name without spaces, else the space-free tail after the last space |
| UserList.InitialsOfTrimmed | components/user-list.tsx:50-56 | two characters: the upper-cased first character, then the last character of a single word or the first character of the last word |
| UserList.InitialsAsWritten | components/user-list.tsx:48-57 | as written: `"UNDEFINED"` for a non-empty blank name, and otherwise the same as the corrected helper |
| UserList.BlankNameAsWritten | components/user-list.tsx:49-54 | the name `" "` gets the initials `"UNDEFINED"` |
| UserList.Initials | components/user-list.tsx:48-57 | `"?"` exactly for a missing, empty or blank name; two characters otherwise |
| UserList.InitialsOfName | components/user-list.tsx:50-56 | the initials read off the trimmed name: first character, plus the last character of one word or the character after the last space |
| UserList.ToInt32 | components/user-list.tsx:75 | the 32-bit signed value congruent to the input modulo 2^32 |
| UserList.ColorIndex | components/user-list.tsx:77 | `abs(hash) % 10` is a valid palette index |
| UserList.GetColor | components/user-list.tsx:60-78 | the loop computes the left fold of the hash step over the id's UTF-16 code units; the colour is a palette entry, the first one for the empty id |
| UserList.HashStepBound | components/user-list.tsx:75 | one hash step moves the value by at most 2^32 |
| UserList.HashBound | components/user-list.tsx:73-76 | the hash is bounded by 2^32 per code unit, so ids of up to 2^21 units keep it within 2^53, where a JavaScript number is exact |
| TabBar.Hide | contexts/TabBarContext.tsx:23-30 | the counter goes up by one |
| TabBar.Show | contexts/TabBarContext.tsx:32-39 | the counter goes down by one, but not below zero |
| TabBar.ShowUndoesHide | contexts/TabBarContext.tsx:23-39 | a show undoes a hide; a hide undoes a show exactly when the counter was positive |
| TabBar.Sync | contexts/TabBarContext.tsx:42-50 | the bar becomes visible exactly when the counter is zero, and the flag is written only when it disagreed |
| TabBar.SyncSettles | contexts/TabBarContext.tsx:46-49 | a second sync writes nothing |
| TabBar.Reset | contexts/TabBarContext.tsx:52-56 | counter zero, bar visible, already in sync |
| TabBar.HideTimesCounts | contexts/TabBarContext.tsx:25-29 | `n` hides add `n` |
| TabBar.ShowTimesSaturates | contexts/TabBarContext.tsx:34-37 | `n` shows subtract `n`, stopping at zero |
| TabBar.HidesThenShowsRestore | contexts/TabBarContext.tsx:23-39 | from any counter, `n` hides followed by `n` shows give it back |
| TabBar.VisibleAfterBalancedCalls | contexts/TabBarContext.tsx:23-50 | from the initial state, `h` hides followed by `s` shows leave the synced bar visible exactly when `s >= h` |
| TabBar.Outstanding | contexts/TabBarContext.tsx:25-37 | the largest surplus of hides over shows in any suffix of the calls, the empty suffix included |
| TabBar.CounterIsOutstanding | contexts/TabBarContext.tsx:23-39 | from the initial state, any interleaving of hides and shows leaves the counter at the outstanding count |
| TabBar.VisibleAfterCalls | contexts/TabBarContext.tsx:23-50 | from the initial state, after any interleaving the synced bar is visible exactly when no suffix of the calls has more hides than shows |
| TabBar.LostShow | contexts/TabBarContext.tsx:34-37 | a show at zero is lost: show then hide balance, yet the bar ends hidden |

## Findings

| source | as written | input that shows it | evidently intended | confidence | as-written member | corrected member |
|---|---|---|---|---|---|---|
| app/_layout.tsx:35-37 | a signed-in user on any `(auth)` page is sent home, including the password form that app/auth/callback.tsx:41-42 and app/_layout.tsx:73-74 open for a recovery link and that needs that session | a recovery link with both tokens and a successful exchange, `type=recovery` | the password form stays open for the signed-in user | medium (not executed) | RootLayout.RecoveryLandingIsRedirected | RootLayout.RecoveryGuard |
| components/user-list.tsx:49-54 | a name of white space only passes `!name`, trims to `""`, and `""[0] + ("" \|\| "")` is `"undefined"` | full name `" "` gives initials `"UNDEFINED"` | a blank name shows `"?"`, like a missing one | high (not executed) | UserList.InitialsAsWritten | UserList.Initials |

`RootLayout.RecoveryLandingStays` proves that the corrected guard keeps the
recovery landing, and `RootLayout.RecoveryGuardSettles` that it still has no
redirect loop.

`UserList.BlankNameAsWritten` exhibits the input. The corrected `UserList.Initials`
answers `"?"` exactly for missing, empty and blank names, and `UserList.InitialsOfName`
proves its two-letter result for every other name.

## Left out

- `RootLayout.RecoveryGuard`: the `redirect={isAuthenticated}` option of the reset-password screen in app/(auth)/_layout.tsx:16 sends the signed-in user away as well; that screen option is not part of this model, and the corrected guard does not lift it.

- Backend calls (auth, procedures, table reads and writes, realtime channels): foreign calls, modelled as their replies. Server-side filtering and ordering of conversations and messages happen in the backend.
- The atomicity of `get_or_create_conversation`: it lives in a server procedure that is not part of this model, so no idempotence is claimed.
- `subscribeToMessages` (services/chat.ts:43-63): it only forwards payloads to the callback.
- Concurrency between store actions: each action is modelled on its own. Interleavings of awaited calls, and React's batching and effect scheduling, are not modelled. In particular, the tab-bar cleanup re-runs on every counter change, so a hide is not claimed to persist.
- `initializeAuth` (store/auth.ts:237-255), i.e. the initial session read and the auth-change listener, plus rendering, styles, toasts and logging.
- The admin credentials themselves: `SignIn` takes the admin pair as a parameter and models only the equality check.
- The redirect URL of `resetPassword` is built from an environment variable and is not modelled.
- The `getUser` error of `updateProfile` is ignored by the code. A missing user is modelled as the thrown "No user is currently logged in".
- `UrlQuery.Parse`: percent-decoding and `+` as space are not modelled.
- `Text.ToUpper`: only `a`-`z` are mapped. Full Unicode case mapping, which can change a string's length, is not modelled.
- `Text.Split`, `UserList.InitialsOfTrimmed`: strings are indexed by Unicode character, not by UTF-16 code unit, so a name starting or ending with a character outside the Basic Multilingual Plane is not modelled exactly. `GetColor` does use UTF-16 code units.
- `UserList.GetColor`: JavaScript numbers are doubles. The model uses exact integers, which agree with them for ids of up to 2^21 code units (`UserList.HashBound`).
- The `isLoading` flag of the contact list and the row rendering.
- services/stepCounter.ts, the theme hooks, and the type-only files are not part of this model.
