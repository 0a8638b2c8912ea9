# Consent-gated analytics glue, modelled in Dafny

This project models the logic of `gtm.js`, a browser script that loads Google
Tag Manager, keeps analytics events behind a consent flag kept in browser-local
storage, and shows a cookie-consent popup until the visitor decides. There is
no DOM here. The page is an immutable record, and every handler is a pure
transition over it:

- `ConsentStore`: the flag under the key `hasAnalyticsConsent`, as an
  `Option<string>`. It covers the tri-state reader `checkHasConsent`, the
  write `String(result)`, and the startup test that decides whether the popup
  is mounted.
- `ContainerId`: `getId`, which picks the container id `GTM-5M39N8J` when the
  environment descriptor says `production` and `GTM-W4VMRHV` otherwise.
- `TagManager`: the `dataLayer` message list, the event bridge's pending
  `queue`, the actions sent through `gtag('event', …)`, and whether
  `window.gtag` exists. It covers the consent part of `loadGTM`, `sendEvent`,
  `gtmEvent` with its last-in-first-out flush, `updateConsent` and
  `onRouteChange`.
- `RouteWatcher`: the mutation observer's change test over the last-seen URL.
- `ClassNames`: the `cn` builder for block__element_modifier class names.
- `Page`: the load handler, the mutation callback chained to the route-change
  callback, and the popup's decision callback.
- `Wrappers` and `Seqs`: `Option`, and sequence reversal characterised index by
  index.

`window.gtag` is modelled as the function that `loadGTM` defines
(gtm.js:35). It appends its argument list to `dataLayer`. So consent,
config and event commands all show up as `dataLayer` entries, and event
commands are also recorded in `sent`. The `{event: 'default_consent'}` object
is a `Marker` entry.

Both consent scans in `gtmEvent` look at every entry, in any order. A grant is
any `consent` command, default or update, with `analytics_storage` granted. A
refusal is a stored `"false"` or any `consent`/`update` command with denied. A
refusal wins even when a grant is also recorded. The queue is drained with
`pop`, so held events go out newest first. The queue is flushed only by the
next `gtmEvent` call. When `window.gtag` is missing, the flush still empties
the queue but sends nothing.

## Model

| member | source | states |
|---|---|---|
| ConsentStore.CheckHasConsent | legal/docs-assets/rev/c3cd01588cb049cc787c9fef1ebe63852b54a053/en/_assets/script/gtm.js:136-144 | An absent flag reads as unset. Exactly `"true"` reads as granted. Any other stored string reads as refused. |
| ConsentStore.Store | legal/docs-assets/rev/c3cd01588cb049cc787c9fef1ebe63852b54a053/en/_assets/script/gtm.js:151 | Writing a decision stores `"true"` for a grant and `"false"` for a refusal. |
| ConsentStore.ReadAfterWrite | legal/docs-assets/rev/c3cd01588cb049cc787c9fef1ebe63852b54a053/en/_assets/script/gtm.js:136-151 | Reading back a written decision returns that decision. |
| ConsentStore.ShouldMountPopup | legal/docs-assets/rev/c3cd01588cb049cc787c9fef1ebe63852b54a053/en/_assets/script/gtm.js:17-24 | The popup is mounted exactly when no value is stored. |
| ContainerId.GetId | legal/docs-assets/rev/c3cd01588cb049cc787c9fef1ebe63852b54a053/en/_assets/script/gtm.js:28-30 | The id is one of the two containers, and it is the production one exactly when `env` is `"production"`. |
| TagManager.LoadGtm | legal/docs-assets/rev/c3cd01588cb049cc787c9fef1ebe63852b54a053/en/_assets/script/gtm.js:32-49 | `gtag` becomes available. The earlier `dataLayer` is kept. It gains a default consent and then the `default_consent` marker. The default is granted with zero wait exactly when the flag reads as granted, and denied with an indefinite wait otherwise. |
| TagManager.Drain | legal/docs-assets/rev/c3cd01588cb049cc787c9fef1ebe63852b54a053/en/_assets/script/gtm.js:102-110 | The flush empties the queue. With `gtag` present, it sends the pending events in reverse arrival order and records one event command each. Without `gtag`, nothing is sent. |
| TagManager.GtmEvent | legal/docs-assets/rev/c3cd01588cb049cc787c9fef1ebe63852b54a053/en/_assets/script/gtm.js:77-113 | An event never changes the flag or `gtag`'s presence. It only appends event commands to `dataLayer`. |
| TagManager.EventCmdsKeepConsent | legal/docs-assets/rev/c3cd01588cb049cc787c9fef1ebe63852b54a053/en/_assets/script/gtm.js:80-89 | Appending event commands never changes either scan's answer, in either direction. |
| TagManager.GtmEventKeepsConsent | legal/docs-assets/rev/c3cd01588cb049cc787c9fef1ebe63852b54a053/en/_assets/script/gtm.js:80-95 | After an event, grant and refusal are recorded exactly when they were recorded before it. |
| TagManager.GtmEventDropped | legal/docs-assets/rev/c3cd01588cb049cc787c9fef1ebe63852b54a053/en/_assets/script/gtm.js:84-95 | A stored `"false"` or any denied update drops the event, and the state is unchanged. |
| TagManager.GtmEventHeld | legal/docs-assets/rev/c3cd01588cb049cc787c9fef1ebe63852b54a053/en/_assets/script/gtm.js:80-82 | If the event is not dropped and no grant is recorded, the event joins the end of the queue. Nothing is sent or recorded. |
| TagManager.GtmEventFlushes | legal/docs-assets/rev/c3cd01588cb049cc787c9fef1ebe63852b54a053/en/_assets/script/gtm.js:102-112 | Under a grant the queue empties. With `gtag`, the reversed queue is sent and then the new event. Without `gtag`, nothing is sent. |
| TagManager.GtmEventConserves | legal/docs-assets/rev/c3cd01588cb049cc787c9fef1ebe63852b54a053/en/_assets/script/gtm.js:97-112 | With `gtag` present, no event that passes the refusal checks is lost or duplicated: queue plus sent gains exactly the new event, as multisets. |
| TagManager.DeclinedDropsAll | legal/docs-assets/rev/c3cd01588cb049cc787c9fef1ebe63852b54a053/en/_assets/script/gtm.js:91-95 | Once the flag is `"false"`, any run of events leaves the state unchanged. |
| TagManager.HeldWhileUndecided | legal/docs-assets/rev/c3cd01588cb049cc787c9fef1ebe63852b54a053/en/_assets/script/gtm.js:97-101 | With neither refusal nor grant recorded, a run of events is appended to the queue in arrival order. |
| TagManager.SentOnceGranted | legal/docs-assets/rev/c3cd01588cb049cc787c9fef1ebe63852b54a053/en/_assets/script/gtm.js:102-112 | Under a grant, with an empty queue and `gtag` present, a run of events is sent in arrival order and the queue stays empty. |
| TagManager.UpdateConsent | legal/docs-assets/rev/c3cd01588cb049cc787c9fef1ebe63852b54a053/en/_assets/script/gtm.js:150-168 | The decision is persisted and `gtag`'s presence is kept. |
| TagManager.UpdateConsentDecline | legal/docs-assets/rev/c3cd01588cb049cc787c9fef1ebe63852b54a053/en/_assets/script/gtm.js:150-168 | Declining stores `"false"` and, with `gtag`, records a denied update and the page config. Its one follow-up event, `updateConsent`, is dropped, so the queue and `sent` are unchanged, and later events stay dropped. |
| TagManager.UpdateConsentAccept | legal/docs-assets/rev/c3cd01588cb049cc787c9fef1ebe63852b54a053/en/_assets/script/gtm.js:150-168 | Accepting with `gtag` present and no denied update recorded stores `"true"`. `dataLayer` gains a granted update and then the page config, right after its earlier messages. The queue empties. It sends the old queue newest first, then `updateConsent`, then `cookie_consent_statistics`. |
| TagManager.UpdateConsentAcceptWithoutGtag | legal/docs-assets/rev/c3cd01588cb049cc787c9fef1ebe63852b54a053/en/_assets/script/gtm.js:150-168 | Accepting without `gtag` and with nothing recorded queues both follow-up events behind the pending ones. Nothing is sent or recorded. |
| TagManager.OnRouteChange | legal/docs-assets/rev/c3cd01588cb049cc787c9fef1ebe63852b54a053/en/_assets/script/gtm.js:129-133 | With `gtag`, exactly one page config with the selected container id and the given path is recorded. Without `gtag`, nothing changes. |
| RouteWatcher.Observe | legal/docs-assets/rev/c3cd01588cb049cc787c9fef1ebe63852b54a053/en/_assets/script/gtm.js:119-125 | The callback runs, with the new URL, exactly when the URL differs from the last seen one. The last-seen URL becomes the current one. |
| RouteWatcher.ObserveRepeatIsSilent | legal/docs-assets/rev/c3cd01588cb049cc787c9fef1ebe63852b54a053/en/_assets/script/gtm.js:120-125 | Seeing the same URL again never fires. |
| RouteWatcher.FiredAreObserved | legal/docs-assets/rev/c3cd01588cb049cc787c9fef1ebe63852b54a053/en/_assets/script/gtm.js:116-127 | Every reported URL was observed, and there are at most as many reports as observations. |
| RouteWatcher.FiredHasNoRepeats | legal/docs-assets/rev/c3cd01588cb049cc787c9fef1ebe63852b54a053/en/_assets/script/gtm.js:116-127 | The first report differs from the starting URL, and no two consecutive reports are equal. |
| RouteWatcher.FiredEndsAtLastSeen | legal/docs-assets/rev/c3cd01588cb049cc787c9fef1ebe63852b54a053/en/_assets/script/gtm.js:116-127 | The last report is the final observed URL. |
| RouteWatcher.FiredNothingIffUnchanged | legal/docs-assets/rev/c3cd01588cb049cc787c9fef1ebe63852b54a053/en/_assets/script/gtm.js:116-127 | Nothing is reported exactly when every observed URL equals the starting one. |
| ClassNames.ReduceAppendsTokens | legal/docs-assets/rev/c3cd01588cb049cc787c9fef1ebe63852b54a053/en/_assets/script/gtm.js:178-183 | The `reduce` over modifier entries equals its start value followed by the concatenated tokens, which is an independent reference definition. |
| ClassNames.CnIsElementClassAndTokens | legal/docs-assets/rev/c3cd01588cb049cc787c9fef1ebe63852b54a053/en/_assets/script/gtm.js:171-185 | `cn(block)(element, mods)` is `block__element` followed by one token per modifier. With no modifier object, or an empty one, it is `block__element`. |
| ClassNames.TokensSnoc | legal/docs-assets/rev/c3cd01588cb049cc787c9fef1ebe63852b54a053/en/_assets/script/gtm.js:178-183 | A modifier listed last adds its token last. |
| ClassNames.CnAddsOneTokenPerMod | legal/docs-assets/rev/c3cd01588cb049cc787c9fef1ebe63852b54a053/en/_assets/script/gtm.js:178-183 | Each further entry appends exactly ` block__element_mod`. The `_value` part is added only for non-boolean values, so a boolean `false` still adds `_mod`. |
| ClassNames.CnSpaceCount | legal/docs-assets/rev/c3cd01588cb049cc787c9fef1ebe63852b54a053/en/_assets/script/gtm.js:171-185 | When no name or value contains a space, the class string contains exactly one space per modifier. |
| ClassNames.ConsentPopupButtonClass | legal/docs-assets/rev/c3cd01588cb049cc787c9fef1ebe63852b54a053/en/_assets/script/gtm.js:259-268 | A popup button with one boolean modifier gets `consent-popup__button consent-popup__button_<mod>`. |
| Page.Load | legal/docs-assets/rev/c3cd01588cb049cc787c9fef1ebe63852b54a053/en/_assets/script/gtm.js:10-25 | The popup is mounted exactly when the flag reads unset. Route watching starts from the load URL. `gtag` is present, and the queue and `sent` start empty. `dataLayer` keeps its earlier messages and gains two. |
| Page.OnMutation | legal/docs-assets/rev/c3cd01588cb049cc787c9fef1ebe63852b54a053/en/_assets/script/gtm.js:119-133 | The watcher's last-seen URL becomes the current URL. The popup state is untouched. |
| Page.OnPopupChoice | legal/docs-assets/rev/c3cd01588cb049cc787c9fef1ebe63852b54a053/en/_assets/script/gtm.js:20-23 | After a click the popup is gone, and the flag reads back as the clicked decision. |
| Page.FirstVisit | legal/docs-assets/rev/c3cd01588cb049cc787c9fef1ebe63852b54a053/en/_assets/script/gtm.js:10-49 | With no stored flag, the popup is shown and the default consent is denied with an indefinite wait. |
| Page.ReturningAfterAccept | legal/docs-assets/rev/c3cd01588cb049cc787c9fef1ebe63852b54a053/en/_assets/script/gtm.js:10-49 | With `"true"` stored, there is no popup and the default consent is granted with zero wait. |
| Page.DeclineSilencesEvents | legal/docs-assets/rev/c3cd01588cb049cc787c9fef1ebe63852b54a053/en/_assets/script/gtm.js:20-23 | Declining on a first visit stores `"false"` and removes the popup. No later run of events sends anything. |
| Page.AcceptOnFirstVisit | legal/docs-assets/rev/c3cd01588cb049cc787c9fef1ebe63852b54a053/en/_assets/script/gtm.js:150-168 | Accepting on a first visit stores `"true"` and records a granted update followed by the page config. It sends `updateConsent` then `cookie_consent_statistics`, and leaves the queue empty. |
| Page.NavigationReconfigures | legal/docs-assets/rev/c3cd01588cb049cc787c9fef1ebe63852b54a053/en/_assets/script/gtm.js:116-133 | A run of mutations appends one page config per reported route change, in order, carrying each new URL's pathname, and moves the last-seen URL to the final one. The whole result is stated, so the flag, `gtag`'s presence, the queue, `sent` and the popup stay as they were. |
| Page.NavigateThenStay | legal/docs-assets/rev/c3cd01588cb049cc787c9fef1ebe63852b54a053/en/_assets/script/gtm.js:119-133 | A move from A to a different B records exactly one config, carrying B's pathname. Staying on B records nothing. |

## Left out

- ContainerId.GetId: reading `window.__DATA__.env` throws a TypeError when `window.__DATA__` is undefined, and that aborts the whole load handler (gtm.js:11) before `loadGTM`, the route watcher and the popup. The model assumes the descriptor object exists. `None` stands only for a descriptor that lacks the `env` field.
- Injecting the GTM script tag, the `{gtm.start, event: 'gtm.js'}` message with its timestamp, and the hidden no-script iframe (gtm.js:51-68) are left out. They are DOM and network side effects, and the timestamp comes from the clock.
- The `MutationObserver` and `DOMContentLoaded` wiring is left out. Only the callbacks are modelled, as the transitions `Page.OnMutation` and `Page.Load`.
- URL parsing (`new URL(url).pathname`) is a host library. It is a function parameter `pathname`, or a `path` argument for `getPathname`.
- The popup's DOM construction, `render` and its teardown closure are left out (gtm.js:187-273). They are UI. Mounting and teardown are the `popupMounted` flag, and the buttons' class names come from `ClassNames`.
- A wait of `Infinity` is the enum value `Indefinite`, so no floating point is involved.
- `localStorage` exceptions and other storage keys are left out. Storage is one `Option<string>`.
- A `window.gtag` defined elsewhere before `loadGTM` runs is not modelled. Every `gtag` is assumed to push its arguments to `dataLayer`, as the one defined at gtm.js:35 does.
- The `if (deferredEvent)` guard in the flush is not modelled as a branch. Queued items are always event objects, so the guard always holds.
- `ClassNames.Cn`: `Object.entries` is modelled as the modifier list in the caller's order. JavaScript puts integer-like keys first, and that reordering is not modelled. Non-boolean values appear as their already-rendered string, and any falsy `mods` value is modelled as `None`.
