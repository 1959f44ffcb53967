# WP Quick Tools popup: classification cache and decision core

This project models the decision core of the WP Quick Tools browser-action popup (`popup.js`). The popup decides whether the active tab's site runs WordPress and caches that answer per hostname for seven days. It also remembers whether new tabs open before or after the current one, and builds the random `nocache` token used for cache-busting reloads.

Browser capabilities become inputs:

- extension storage reads and writes: a `StorageResult` per call;
- script injection: a `ProbeOutcome`, which holds either the page the probe saw or a mechanism failure;
- the `HEAD` request to `/wp-login.php`: a `FetchOutcome`;
- `Date.now()`: integer clock readings passed in as parameters;
- `Math.random()`: a sequence of reals in [0, 1), one per token character.

Modules:

- `Base`: the `Option` and `StorageResult` datatypes.
- `Text`: `includes` as a left-to-right scan, proved equal to a reference "occurs at some position" definition. Also ASCII `toLowerCase`.
- `Probe`: the page predicate that the popup injects, and its equivalence with the signature: six tests over three markers.
- `StatusCache`: the `wpCache` store. It has a class `Cache` whose field `store: map<string, Entry>` is read and rewritten by `GetCachedStatus` and `SetCachedStatus`. Expiry is a filter applied when reading (`Lookup`).
- `Classifier`: `Classify` is the decision taken after the cache read. It returns the classification and the sequence of calls made: probe, fetch and cache write. `CheckWordPress` runs that decision against a `Cache` object.
- `TabPlacement`: the class `Preference`, which holds the in-memory `tabPosition` mirror and the stored key. It also holds the insertion-index rule, and a lemma that places the new tab next to the current one in the tab strip.
- `NoCache`: the token loop, proved against the `Token` function. `Token` is proved to produce exactly the ten-character lower-case alphanumeric strings, and every such string can be produced.

Two details of the code that the model keeps:

- `saveTabPosition` reads the key back after writing it (popup.js:134). If that read throws, the call returns `false` even though the write succeeded.
- The `HEAD` request uses `fetch`'s defaults, which follow redirects. Only whether the request resolved or threw is modelled.

## Model

| member | source | states |
|---|---|---|
| `StatusCache.CachedStatus` | popup.js:21-40 | a read returns a value iff the storage read succeeded, an entry exists and its age is strictly below the cache duration; the value is the entry's classification; a storage failure reads as a miss |
| `StatusCache.Cache.GetCachedStatus` | popup.js:21-40 | the method returns what `CachedStatus` specifies for the current store and changes nothing, so expired entries are not deleted |
| `StatusCache.Cache.SetCachedStatus` | popup.js:43-57 | after the call the store is `AfterSet` of the old store: the domain's entry is replaced by (value, now) when the read and the write both succeed, and the store is untouched when either fails (the error is swallowed); every call, successful or not, appends exactly one (domain, value) record to the cache's write log |
| `StatusCache.ReadYourWrite` | popup.js:45-53 | after a successful write at time t, a read at t' returns the written value iff t' − t < 604800000, and a miss otherwise |
| `StatusCache.SetLeavesOthers` | popup.js:48-53 | a write leaves every other domain's entry, and every lookup of it, unchanged |
| `StatusCache.SetKeys` | popup.js:48-53 | a write adds at most the written domain to the keys and removes none |
| `StatusCache.ExpiryIsMonotone` | popup.js:26-33 | an entry that has expired at one clock reading stays expired at every later reading |
| `StatusCache.ExpiryBoundary` | popup.js:9-30 | the cache duration (7·24·60·60·1000) is 604800000 ms; an entry exactly that old is a miss, one 604799999 ms old is a hit |
| `Classifier.Classify` | popup.js:59-110 | a hit returns the cached value with no probe, fetch or write; a miss attempts the probe exactly once, first, and makes exactly one cache write, last, of the value returned; the network probe happens at most once; a probe that ran decides by the page predicate with no fetch; a probe mechanism failure fetches, and success means true and failure false |
| `Classifier.CheckWordPress` | popup.js:59-110 | the method returns `Classify`'s value for the cache read it performed, and its recorded calls are exactly `Classify`'s (no probe and no fetch on a hit); the write log grows by nothing on a hit and by exactly one (domain, value) record on a miss; the store is unchanged on a hit and otherwise the store after that one write |
| `Classifier.SecondCheckHits` | popup.js:60-64 | after a miss whose write succeeded, a second check within the cache duration is a hit with the same value and makes no probe and no write |
| `Classifier.IncludesScriptScenario` | popup.js:73-96 | a page with script `/wp-includes/x.js` is classified true and true is cached under the domain |
| `Classifier.BothProbesFailScenario` | popup.js:97-108 | probe mechanism failure plus fetch failure classifies false and caches false |
| `Probe.ProbeMatchesSignature` | popup.js:73-91 | the injected predicate is true iff some link href contains `wp-content`, some script src contains `wp-includes` or `wp-content`, the lower-cased generator content contains `wordpress`, or the head HTML contains `wp-content` or `wp-includes` |
| `Probe.AnyIncludesIff` | popup.js:74-76 | an attribute selector with `*=` finds an element iff some element's value contains the marker |
| `Probe.ScriptIncludesIsWordPress` | popup.js:75 | a script src containing `wp-includes` anywhere makes the probe true |
| `Probe.GeneratorIgnoresCase` | popup.js:80-83 | any casing of `wordpress` anywhere in the generator content makes the probe true |
| `Probe.BlankPageIsNotWordPress` | popup.js:90 | a page with no markers is classified false |
| `Probe.IncludesScriptPage` | popup.js:75 | the concrete page with script `/wp-includes/x.js` is classified true |
| `Text.IncludesIff` | popup.js:86 | `includes` holds iff the needle occurs at some position of the string |
| `Text.ToLower` | popup.js:81 | lower-casing keeps the length and maps each character through the ASCII case map |
| `Text.ToLowerIdempotent` | popup.js:81 | a lower-cased string has no upper-case ASCII letter and lower-casing it again changes nothing |
| `Text.IncludesIgnoringCase` | popup.js:81 | an occurrence of any casing of a word makes the lower-cased string include the lower-cased word |
| `TabPlacement.LoadedPosition` | popup.js:113-124 | the loaded preference is the stored value when the read succeeds and that value is truthy, and `'after'` otherwise; it is never empty |
| `TabPlacement.Preference.constructor` | popup.js:6 | the mirror starts as `'after'` |
| `TabPlacement.Preference.LoadTabPosition` | popup.js:113-124 | the mirror and the returned value both become `LoadedPosition` of the stored key, which is not changed |
| `TabPlacement.Preference.SaveTabPosition` | popup.js:127-142 | the mirror becomes the new value whatever happens; the stored key becomes it iff the write succeeded; the result is true iff the write and the verifying read both succeeded |
| `TabPlacement.InsertionIndex` | popup.js:207 | the index is the current tab's index iff the preference is `'before'`, and that index plus one iff it is anything else |
| `TabPlacement.Preference.NewTabIndex` | popup.js:205-207 | the index for a new tab is the current index iff the in-memory mirror is `'before'`, and one more iff it is anything else |
| `TabPlacement.PlaceAfterSave` | popup.js:129-207 | after `saveTabPosition(p)` a new tab is placed by `p` whatever the write and verify outcomes, while the stored key changes only if the write succeeded and the result is true only if both succeeded |
| `TabPlacement.NewTabBesideCurrent` | popup.js:207-221 | inserting at that index puts the new tab immediately left of the current tab under `'before'` and immediately right of it otherwise |
| `TabPlacement.InsertionIndexExamples` | popup.js:207 | for a current index of 5 the new tab goes at 5 under `'before'` and at 6 under `'after'` |
| `TabPlacement.SaveThenLoad` | popup.js:113-142 | on a `Preference`, a save whose write succeeded followed by a load gives back the saved value when it is non-empty, and `'after'` when it is empty, whatever the verifying read did; the mirror holds the loaded value and the key holds the saved one |
| `TabPlacement.LoadDefaults` | popup.js:116-122 | an empty store or a failed read loads `'after'` |
| `NoCache.Pick` | popup.js:156 | `floor(r·36)` for r in [0, 1) is an alphabet index below 36 |
| `NoCache.GenerateNoCacheParam` | popup.js:152-159 | the loop returns exactly `Token(draws)`, one alphabet character per draw |
| `NoCache.TokenIsWellFormed` | popup.js:153-158 | every token has length 10 and only characters in a–z and 0–9 |
| `NoCache.EveryTokenIsReachable` | popup.js:153-157 | every 10-character string over a–z and 0–9 is the token of some draws |
| `NoCache.AlphabetIsLowerAlnum` | popup.js:153 | a character is in the alphabet iff it is a lower-case ASCII letter or a digit |

## Left out

- The browser calls are not modelled. This covers `chrome.tabs.*`, `chrome.windows.*`, `chrome.scripting.*`, `chrome.storage.local` and `chrome.browsingData.removeCache`. Only their outcomes enter the model, as inputs.
- The `fetch` to `/wp-login.php` is network I/O. Only whether it resolved or threw is modelled.
- `addNoCacheParam`, `clearCacheOnly` and the normal and incognito visit handlers are not modelled. They consist of URL parsing (`new URL`, `searchParams.set`, `origin`, `hostname`) and browser calls. The model covers only the token they use.
- `openInNewTab` is modelled only as far as its index. The `chrome.tabs.create` call is left out; `NewTabBesideCurrent` models an insertion into a tab strip instead.
- `init`, the DOM wiring, toasts, button state, the Elementor CSS toggle, clipboard writes, `window.close` and `console` logging are UI. So are the `.link-item`, DNS, WHOIS and PageSpeed handlers.
- `Date.now()` and `Math.random()` are passed in as parameters.
- `NoCache.Pick`: uses exact real arithmetic, not IEEE doubles. For draws in [0, 1), the double product also floors to a value below 36.
- `Text.ToLower`: lower-cases ASCII letters only. For the test against `wordpress` this is exact: a non-ASCII character lower-cases to an ASCII letter only for the Kelvin sign and dotted capital I, and neither `k` nor `i` occurs in `wordpress`.
- `TabPlacement.LoadedPosition`: the stored `tabPosition` is modelled as an optional string. Non-string stored values (numbers, `false`, objects) are not modelled.
- `Classifier.Classify`: does not model the injected function itself throwing, for example on a document without a `head`. In that case `executeScript` resolves with an undefined result, and the source would cache and return that. The probe is modelled as returning a boolean or failing as a mechanism.
- StatusCache.ReadYourWrite: hostnames are plain map keys. In the source, `wpCache` is a JavaScript object, so the key `__proto__` behaves differently. There, `cache[domain] = ...` (popup.js:48) replaces the object's prototype and persists nothing. A later read (popup.js:26-30) finds `Object.prototype`, whose age is `NaN`, so it misses. The model stores and hits that key like any other.
- Interleaving between overlapping popup sessions is not modelled. Every operation is one sequential step, and the store's read-modify-write is atomic.
- `getCachedStatus` always sets `fromCache` to true on a hit, so that field is not modelled.
