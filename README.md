# Presentation-state controller of the sjun.me business-card page

This project models the stateful part of the page component in `src/App.tsx`
and proves properties of that model. It covers four things:

- **Host gate.** `isAllowedHostname` decides whether the ChannelIO messaging
  widget may run on the current deployment. It accepts the two local hosts,
  each configured domain, and every subdomain of a configured domain.
- **Theme state machine.** This is the dark / light / terminal theme. It covers
  the initial theme from the colour-scheme preference, the preference-change
  listener and the theme button. It also covers the hidden badge gesture: ten
  activations (a click, or Enter / Space on the keyboard) unlock the terminal
  theme.
- **ChannelIO widget lifecycle.** The effect gates on the host and installs a
  command-queue stub when none exists. It injects the widget script at most
  once, either at once or from the first DOMContentLoaded/load event. It
  queues `boot` at mount and `shutdown` at teardown.
- **Transient feedback flags.** `copiedKey` clears 1600 ms after it is set and
  `badgeGlintCycle` resets 1200 ms after the last activation. Each flag has one
  pending timeout, modelled as an absolute deadline on an explicit clock.

Modules:

- `Hostname` (hostname.dfy) holds the pure gate. It also holds a reference
  reading based on label boundaries, proved equal to the gate on every string,
  and lemmas about suffixes.
- `Theme` (theme.dfy) holds the pure theme rules: `InitialTheme`,
  `MediaChange`, `Toggle` and `Activate`. Lemmas cover runs of activations and
  runs of theme-button presses.
- `Feedback` (feedback.dfy) holds the rule for one timeout per flag: it is
  re-armed when the watched value changes and it is due at its deadline.
- `Page` (page.dfy) has class `App`. Its fields are the component's state plus
  the clock and two timeouts. Each handler is a method that updates the
  fields, and each is proved against the `Theme` and `Feedback` rules.
  `Valid()` is the invariant: the counter is in `[0, 10)`, pending timeouts lie
  in the future, and while the page is mounted a timeout is pending exactly
  while its flag is up. After unmount no timeout is pending, and a flag that
  was up stays up.
- `ChannelIO` (channelio.dfy) specifies the effect's setup, listener and
  cleanup as pure functions on a `Widget` value. Lemmas cover any sequence of
  mounts, DOMContentLoaded events, the document's completion (with its load
  event) and unmounts.
- `ChannelIOEffect` (channelio_effect.dfy) has class `BrowserWindow`. It keeps
  the browser globals in fields and its methods change them in place, proved
  against `ChannelIO`.
- `Wrappers` (wrappers.dfy) holds `Option`.

Environment inputs are parameters:

- `Window` says whether a window exists and whether it prefers dark. It is
  read when the app is constructed, and by `ToggleTheme` only when it leaves
  the terminal theme.
- The `matches` flag of a colour-scheme change.
- The key of a keydown event.
- Elapsed time, passed to `Advance`.
- The hostname and `document.readyState`, held by `BrowserWindow`. The
  document starts loading or complete and completes at most once, through
  `CompleteDocument`.

`UnlockScenario`, `CopyScenario` and `GlintScenario` in `Page` are client
methods. Each drives a fresh `App` through one event sequence and states the
outcome. The loop in `UnlockScenario` stands for the user's ten taps.

Three behaviours of the code worth spelling out:

- **Same-key copy.** Copying the same key again does not restart the "copied"
  timeout. `setCopiedKey` with an equal value is not a state change, so the
  `[copiedKey]` effect does not run again. A second copy of `tax` at 1000 ms
  therefore still clears at 1600 ms (`Page.CopyScenario`). The timeout is
  restarted only when the value changes. The glint always restarts, because
  every activation increments `badgeGlintCycle`.
- **Eleventh activation.** The tenth activation resets the counter to 0. The
  eleventh counts again, so the counter becomes 1 and the theme stays
  terminal (`Page.UnlockScenario`).
- **No stored preference.** This variant stores no theme preference. Leaving
  the terminal theme re-resolves the theme from the live colour-scheme query
  only.

## Model

| member | source | states |
|---|---|---|
| `Hostname.SomeDomainMatches` | src/App.tsx:94 | the `some` over the domains is true exactly when some listed domain `d` has the host equal to `d` or ending with `"." + d` |
| `Hostname.DotSuffixIff` | src/App.tsx:94 | ending with `"." + d` is the same as having a dot at some position with exactly `d` after it |
| `Hostname.IsAllowedHostname` | src/App.tsx:83-95 | accepted exactly when the host is `localhost`/`127.0.0.1`, equals a configured domain, or has a dot right before a configured domain that runs to its end (so `""` is refused) |
| `Hostname.DomainMatchEndsWithDomain` | src/App.tsx:94 | a host admitted through a domain rule ends with that domain |
| `Hostname.SubdomainMatches` | src/App.tsx:94 | for any list of domains, a host that matches one still matches it with any label and a dot put in front |
| `Hostname.SubdomainAllowed` | src/App.tsx:94 | a host admitted through a domain rule stays admitted with any label prefixed to it, e.g. `x.` + `a.sjun.me` |
| `Hostname.LocalAndEmptyHosts` | src/App.tsx:86-92 | `""` is refused; `localhost` and `127.0.0.1` are accepted |
| `Hostname.SubdomainExample` | src/App.tsx:83-94 | `sjun.me` and `a.sjun.me` are accepted |
| `Hostname.NoLabelBoundaryExample` | src/App.tsx:94 | `notsjun.me` is refused: the match needs the dot boundary |
| `Hostname.UnrelatedHostExample` | src/App.tsx:83-94 | `evil.example.com` is refused |
| `Hostname.PrefixOnlyExample` | src/App.tsx:94 | `sjun.me.evil.com` is refused: only the end of the host counts |
| `Hostname.LocalHostIsExactExample` | src/App.tsx:90-94 | `a.localhost` is refused: the local hosts are matched exactly |
| `Theme.InitialTheme` | src/App.tsx:128-135 | never terminal; dark exactly when there is no window or the window prefers dark |
| `Hostname.DomainRuleIff` | src/App.tsx:94 | for a host that is neither empty nor local, the `some` over the configured domains holds exactly when the host is a configured domain or has a dot right before one that runs to its end |
| `Theme.MediaChange` | src/App.tsx:154 | the result is terminal iff the previous theme was; otherwise it equals what the resolver picks for that preference |
| `Theme.MediaChangeIdempotent` | src/App.tsx:154 | reporting the same preference twice changes nothing more than reporting it once |
| `Theme.Toggle` | src/App.tsx:303-312 | the counter is reset to 0 and the result is never terminal; from terminal it re-resolves from the window; otherwise it swaps dark and light |
| `Theme.Activate` | src/App.tsx:335-346 | the counter stays in `[0, 10)` and is either reset or incremented; the result is terminal iff the theme already was or the tenth tap was reached; otherwise the theme is kept |
| `Theme.ActivationsBelowThreshold` | src/App.tsx:337-345 | activations that stay below the threshold only add to the counter and keep the theme |
| `Theme.TenActivationsUnlockTerminal` | src/App.tsx:79 | ten activations from a counter at 0 give the terminal theme with the counter at 0 |
| `Theme.TerminalIsSticky` | src/App.tsx:339-345 | from terminal, any number of further activations keeps terminal and the counter in range |
| `Theme.UnlockNeedsThreshold` | src/App.tsx:79 | from dark or light with the counter at 0, `n` activations reach terminal iff `n >= 10` |
| `Theme.ToggleRestartsCount` | src/App.tsx:303-312 | after a theme-button press, up to nine activations neither reach terminal nor do more than count from 0 |
| `Theme.ToggleAlternates` | src/App.tsx:310-311 | outside terminal, `n` presses give the original theme for even `n` and the other one for odd `n` |
| `Theme.IsActivationKey` | src/App.tsx:349 | a key activates the badge exactly when it is one of `Enter`, `" "` and `Spacebar`; no other key, the empty one included, does |
| `Theme.ToggleLeavesTerminal` | src/App.tsx:304-307 | leaving terminal gives dark iff the window prefers dark, with the counter at 0 |
| `Feedback.Rearm` | src/App.tsx:285-286 | after the effect runs again a timeout is pending iff the new value is truthy, exactly one duration ahead |
| `Feedback.OnChange` | src/App.tsx:280-296 | an unchanged value keeps the old timeout; a changed one leaves a timeout pending iff the new value is truthy; a pending result is the old timeout or one exactly one duration ahead |
| `Feedback.OnChangeScheduled` | src/App.tsx:294-295 | re-running an effect keeps its timeout within one duration of now |
| `Feedback.SecondChangeSupersedes` | src/App.tsx:289-296 | a second change before expiry leaves only the second timeout, due one duration after the second change and not before |
| `Feedback.SameValueKeepsTimer` | src/App.tsx:280-287 | setting an equal value again keeps the first timeout |
| `Page.App.constructor` | src/App.tsx:138-141 | the theme comes from the resolver, the counter and the cycle are 0, nothing is copied, and no timeout is pending |
| `Page.App.ToggleTheme` | src/App.tsx:303-312 | the theme and counter become `Theme.Toggle` of the old ones; everything else is unchanged; the invariant is kept |
| `Page.App.MediaChange` | src/App.tsx:153-155 | the theme becomes `Theme.MediaChange` of the old one; the invariant is kept |
| `Page.App.BadgeGlint` | src/App.tsx:335-346 | the cycle is incremented, the glint timeout is re-armed 1200 ms ahead, the theme and counter become `Theme.Activate` of the old ones, and the counter stays below 10 |
| `Page.App.BadgeKeyDown` | src/App.tsx:348-353 | the default action is prevented and the badge activated exactly for `Enter`, `" "` and `Spacebar`; any other key leaves the object unchanged |
| `Page.App.CopySucceeded` | src/App.tsx:280-287 | the copied key is set; the timeout is kept when the key is unchanged and otherwise re-armed 1600 ms ahead |
| `Page.App.Advance` | src/App.tsx:285-295 | a timeout whose deadline is reached clears its flag and arms nothing; a timeout not yet due leaves its flag and deadline alone; after unmount no flag changes |
| `Page.App.Unmount` | src/App.tsx:286-295 | the cleanups clear both timeouts |
| `Page.UnlockScenario` | src/App.tsx:335-346 | ten taps on a fresh page give terminal with the counter at 0; an eleventh keeps terminal with the counter at 1 |
| `Page.CopyScenario` | src/App.tsx:280-287 | re-copying the same key at 1000 ms still clears at 1600 ms; copying a different key at 1000 ms clears at 2600 ms |
| `Page.GlintScenario` | src/App.tsx:289-296 | two taps 1000 ms apart keep the glint until 2200 ms |
| `ChannelIO.Invoke` | src/App.tsx:205-211 | with the stub installed the call is appended after every queued call and nothing else changes; without an interface nothing changes |
| `ChannelIO.InstallStub` | src/App.tsx:204-213 | afterwards an interface exists; an existing one is left alone; otherwise only the stub and its empty queue are added, so on a consistent page the queue is kept |
| `ChannelIO.LoadScript` | src/App.tsx:219-237 | afterwards the guard flag or the script element is set (both, and exactly one insertion in all, on a consistent page); with either already set nothing changes; otherwise exactly one element is inserted and nothing else changes |
| `ChannelIO.Mount` | src/App.tsx:193-264 | on a host outside the gate nothing changes; on an allowed host the stub exists, a cleanup is pending, boot with the plugin key is queued after the old queue, the script is loaded at once when the document is complete and otherwise the listeners are attached and nothing is inserted; consistency is kept |
| `ChannelIO.HandleLoad` | src/App.tsx:241-248 | the script is loaded (both guards set on a consistent page), no listener is left, at most one element is inserted, and the queue, the stub and the pending cleanup are kept |
| `ChannelIO.Unmount` | src/App.tsx:266-277 | without a pending cleanup nothing changes; otherwise no listener is left, no cleanup is pending, and shutdown is queued after all earlier calls when the interface exists; the script and its guard are kept |
| `ChannelIO.CompleteDocument` | src/App.tsx:239-256 | the document is complete afterwards and completes only once; waiting listeners run `handleLoad`, so the script is loaded and no listener is left; without listeners only `readyState` changes; consistency is kept |
| `ChannelIO.RunConsistent` | src/App.tsx:220-224 | any event sequence keeps the page consistent, so at most one script element is ever inserted |
| `ChannelIO.InjectedStaysInjected` | src/App.tsx:220-222 | once the script is in, no event sequence inserts another or clears the guard flag |
| `ChannelIO.AtMostOneInjection` | src/App.tsx:219-237 | from a fresh page, any sequence of events inserts the script at most once |
| `ChannelIO.QueueOnlyGrows` | src/App.tsx:205-211 | once the stub exists, every event sequence keeps it and the old queue stays a prefix of the new one |
| `ChannelIO.ReadyStaysComplete` | src/App.tsx:250 | once the document is complete it stays complete under every event sequence |
| `ChannelIO.StepOnTrack` | src/App.tsx:239-277 | each event keeps a consistent page on track: a pending cleanup has its script or waiting listeners, and listeners wait only on a loading document |
| `ChannelIO.RunOnTrack` | src/App.tsx:239-277 | any event sequence keeps the page consistent and on track, so a mounted effect on a complete document has its script |
| `ChannelIO.MountedCompletePageHasScript` | src/App.tsx:250-256 | from a fresh page, after any events, a mounted effect on a complete document has the script inserted exactly once |
| `ChannelIO.DisallowedHostNeverTouched` | src/App.tsx:198-200 | on a host outside the gate, no event sequence changes anything but the document's own `readyState` |
| `ChannelIO.RemountWhileLoadingExample` | src/App.tsx:239-256 | mount, unmount and remount while loading, then two load events: one insertion, no listener left, and a queue of boot, shutdown, boot |
| `ChannelIO.RemountAfterCompleteExample` | src/App.tsx:250-256 | mount while loading, unmount, the document completes, remount: the remount inserts the script at once, no listener is left, and the queue is boot, shutdown, boot |
| `ChannelIOEffect.BrowserWindow.constructor` | src/App.tsx:12-17 | a fresh page: no widget globals, no script element, no listeners |
| `ChannelIOEffect.BrowserWindow.Invoke` | src/App.tsx:259-273 | a call through the interface appends to the queue when the interface exists and changes nothing otherwise |
| `ChannelIOEffect.BrowserWindow.LoadScript` | src/App.tsx:219-237 | the fields become `ChannelIO.LoadScript` of the old ones |
| `ChannelIOEffect.BrowserWindow.Mount` | src/App.tsx:193-264 | the fields become `ChannelIO.Mount` of the old ones; nothing changes on a disallowed host; with the script already present nothing is inserted; consistency is kept |
| `ChannelIOEffect.BrowserWindow.HandleLoad` | src/App.tsx:241-248 | the fields become `ChannelIO.HandleLoad` of the old ones; the script is present, no listener is attached, and at most one element was ever inserted |
| `ChannelIOEffect.BrowserWindow.CompleteDocument` | src/App.tsx:239-256 | the fields become `ChannelIO.CompleteDocument` of the old ones; the document is complete, and waiting listeners have loaded the script and are gone |
| `ChannelIOEffect.BrowserWindow.Unmount` | src/App.tsx:266-277 | the fields become `ChannelIO.Unmount` of the old ones; no listener is left, and shutdown is queued after the old queue when the cleanup was pending |

## Left out

- Rendering is left out: JSX, SVG, `renderIcon`, and the static tables `companyBrand`, `linkItems` and `contactLinks`. They are presentation and configuration.
- The Vimeo player script effect (src/App.tsx:172-191) is left out. It is DOM add/remove plumbing with a guard like the ChannelIO one.
- `handleCopy` (src/App.tsx:314-333) is left out: the clipboard API, the textarea fallback and `execCommand`. Only its success path, `setCopiedKey(key)`, is modelled, as `Page.App.CopySucceeded`.
- The `document.documentElement` `data-theme` attribute (src/App.tsx:143-145) is left out. It always equals `theme`.
- The `addListener`/`removeListener` fallback of the colour-scheme query (src/App.tsx:157-169) is left out. Only its effect is modelled: the change handler runs while the page is mounted.
- Real `setTimeout` scheduling, React batching and effect scheduling are left out. Handlers run one at a time. An effect re-run is modelled by `Feedback.OnChange` inside the handler that changes its value. A fired timeout is modelled by `Page.App.Advance`.
- The ChannelIO effect's early return when `window` or `document` is undefined (src/App.tsx:194-196) is left out. The model always runs in a browser.
- The `try`/`catch` around boot and shutdown is left out, along with `console.error` logging and the script's error listener. Calls into the stub cannot fail in the model.
- The third-party script's own behaviour once loaded is left out: replacing the stub and draining the queue. The model's queue only grows.
- The script element's attributes are left out, including `CHANNEL_IO_SCRIPT_SRC` and where the element is inserted. Only whether an element with the id `CHANNEL_IO_SCRIPT_ID` is present is modelled.
- ChannelIO.LoadScript: on a page where only one of the guard flag and the script element is set, the contract promises only that one of them stays set. Such a page is possible only when other code wrote one of them.
- `BrowserWindow` cannot be mounted twice without an unmount in between, because React's effect lifecycle alternates setup and cleanup. The model does not forbid it, but it keeps only one pending cleanup.
- `document.readyState`'s value 'interactive' is not told apart from 'loading', since the effect only compares it with 'complete'. DOMContentLoaded is `LoadEvent`; reaching 'complete' and the load event are one step, `CompleteEvent`.
