/** The theme rules of the page: how the first theme is chosen, how a change
    of the system colour preference is followed, what the theme button does,
    and the hidden badge gesture that unlocks the terminal theme after ten
    activations. The functions here are the specification that the page's
    handlers (module Page) are proved against. */
module Theme {

  datatype ThemeMode = Dark | Light | Terminal

  /** What the theme resolver can see: no browser window at all (a render
      outside the browser), or a window whose colour-scheme query answers
      whether dark is preferred. */
  datatype Window = NoWindow | Browser(prefersDark: bool)

  /** Activations of the badge that unlock the terminal theme. */
  const TAP_THRESHOLD: nat := 10

  /** `getInitialTheme`: dark without a window, otherwise the system
      preference. */
  function InitialTheme(w: Window): (t: ThemeMode)
    ensures t != Terminal
    ensures t == Dark <==> (w.NoWindow? || w.prefersDark)
  {
    match w
    case NoWindow => Dark
    case Browser(prefersDark) => if prefersDark then Dark else Light
  }

  /** The updater run when the colour-scheme query reports a change. The
      terminal theme is sticky against preference changes, and outside it
      the page lands on exactly what the resolver would pick in a browser
      with that preference. */
  function MediaChange(prev: ThemeMode, matches: bool): (t: ThemeMode)
    ensures t == Terminal <==> prev == Terminal
    ensures prev != Terminal ==> t == InitialTheme(Browser(matches))
  {
    if prev == Terminal then prev else if matches then Dark else Light
  }

  /** A repeated report of the same preference changes nothing more. */
  lemma MediaChangeIdempotent(prev: ThemeMode, matches: bool)
    ensures MediaChange(MediaChange(prev, matches), matches) == MediaChange(prev, matches)
  {
  }

  /** The state the theme button and the badge act on: the theme and the tap
      counter kept in `badgeTapCountRef`. */
  datatype Badge = Badge(theme: ThemeMode, taps: nat)

  /** The counter invariant: the counter never reaches the threshold. */
  predicate CounterInRange(b: Badge) {
    b.taps < TAP_THRESHOLD
  }

  /** The ordinary dark/light swap. */
  function Flip(t: ThemeMode): ThemeMode
    requires t != Terminal
  {
    if t == Dark then Light else Dark
  }

  /** `handleToggleTheme`, with `w` the window the resolver reads at the time
      of the click. */
  function Toggle(b: Badge, w: Window): (r: Badge)
    ensures r.taps == 0 && r.theme != Terminal
    ensures b.theme == Terminal ==> r.theme == InitialTheme(w)
    ensures b.theme != Terminal ==> r.theme == Flip(b.theme) && r.theme != b.theme
  {
    if b.theme == Terminal then Badge(InitialTheme(w), 0)
    else Badge(if b.theme == Dark then Light else Dark, 0)
  }

  /** The theme and counter part of `handleBadgeGlint`. */
  function Activate(b: Badge): (r: Badge)
    ensures CounterInRange(r)
    ensures r.taps == 0 || r.taps == b.taps + 1
    ensures r.theme == Terminal <==> (b.theme == Terminal || b.taps + 1 >= TAP_THRESHOLD)
    ensures r.theme != Terminal ==> r.theme == b.theme
  {
    var next := b.taps + 1;
    if next >= TAP_THRESHOLD then Badge(Terminal, 0) else Badge(b.theme, next)
  }

  /** `n` activations of the badge in a row. */
  function ActivateTimes(b: Badge, n: nat): Badge
    decreases n
  {
    if n == 0 then b else ActivateTimes(Activate(b), n - 1)
  }

  /** `n` presses of the theme button in a row, in a window that does not
      change meanwhile. */
  function ToggleTimes(b: Badge, w: Window, n: nat): Badge
    decreases n
  {
    if n == 0 then b else ToggleTimes(Toggle(b, w), w, n - 1)
  }

  /** Activations that stay below the threshold only count. */
  lemma {:induction false} ActivationsBelowThreshold(b: Badge, n: nat)
    requires b.taps + n < TAP_THRESHOLD
    ensures ActivateTimes(b, n) == Badge(b.theme, b.taps + n)
    decreases n
  {
    if n > 0 {
      ActivationsBelowThreshold(Activate(b), n - 1);
    }
  }

  /** From a counter at zero, exactly ten activations with nothing in between
      switch to the terminal theme and leave the counter at zero. */
  lemma {:induction false} TenActivationsUnlockTerminal(b: Badge)
    requires b.taps == 0
    ensures ActivateTimes(b, TAP_THRESHOLD) == Badge(Terminal, 0)
  {
    ActivationsBelowThreshold(b, TAP_THRESHOLD - 1);
    var before := ActivateTimes(b, TAP_THRESHOLD - 1);
    ActivateTimesSplit(b, TAP_THRESHOLD - 1, 1);
    assert ActivateTimes(before, 1) == Activate(before);
  }

  /** Running `m` activations and then `n` more is running `m + n`. */
  lemma {:induction false} ActivateTimesSplit(b: Badge, m: nat, n: nat)
    ensures ActivateTimes(b, m + n) == ActivateTimes(ActivateTimes(b, m), n)
    decreases m
  {
    if m > 0 {
      ActivateTimesSplit(Activate(b), m - 1, n);
    }
  }

  /** Once in the terminal theme, further activations keep it there and keep
      the counter in range. */
  lemma {:induction false} TerminalIsSticky(b: Badge, n: nat)
    requires b.theme == Terminal && CounterInRange(b)
    ensures ActivateTimes(b, n).theme == Terminal && CounterInRange(ActivateTimes(b, n))
    decreases n
  {
    if n > 0 {
      TerminalIsSticky(Activate(b), n - 1);
    }
  }

  /** From the dark or light theme with the counter at zero, `n` activations
      reach the terminal theme if and only if `n` is at least the threshold. */
  lemma {:induction false} UnlockNeedsThreshold(b: Badge, n: nat)
    requires b.theme != Terminal && b.taps == 0
    ensures ActivateTimes(b, n).theme == Terminal <==> n >= TAP_THRESHOLD
  {
    if n < TAP_THRESHOLD {
      ActivationsBelowThreshold(b, n);
    } else {
      TenActivationsUnlockTerminal(b);
      ActivateTimesSplit(b, TAP_THRESHOLD, n - TAP_THRESHOLD);
      TerminalIsSticky(Badge(Terminal, 0), n - TAP_THRESHOLD);
    }
  }

  /** A press of the theme button in the middle of a run of activations
      starts the count again: after it, nine more activations do not unlock
      the terminal theme, whatever came before. */
  lemma {:induction false} ToggleRestartsCount(b: Badge, w: Window, n: nat)
    requires n < TAP_THRESHOLD
    ensures ActivateTimes(Toggle(b, w), n) == Badge(Toggle(b, w).theme, n)
    ensures ActivateTimes(Toggle(b, w), n).theme != Terminal
  {
    ActivationsBelowThreshold(Toggle(b, w), n);
  }

  /** Outside the terminal theme, repeated presses of the theme button
      alternate strictly between dark and light. */
  lemma {:induction false} ToggleAlternates(b: Badge, w: Window, n: nat)
    requires b.theme != Terminal
    ensures ToggleTimes(b, w, n).theme == if n % 2 == 0 then b.theme else Flip(b.theme)
    decreases n
  {
    if n > 0 {
      var b' := Toggle(b, w);
      ToggleAlternates(b', w, n - 1);
      assert Flip(b'.theme) == b.theme;
    }
  }

  /** Leaving the terminal theme with the button re-resolves the theme from
      the window at that moment. */
  lemma ToggleLeavesTerminal(taps: nat, prefersDark: bool)
    ensures Toggle(Badge(Terminal, taps), Browser(prefersDark))
         == Badge(if prefersDark then Dark else Light, 0)
  {
  }

  /** The keys that activate the badge from the keyboard: Enter, and Space
      under both of the names browsers report for it. */
  const ACTIVATION_KEYS: set<string> := {"Enter", " ", "Spacebar"}

  /** The test of `handleBadgeKeyDown`: exactly the activation keys count, so
      neither the empty key nor any other single character does. */
  predicate IsActivationKey(key: string)
    ensures IsActivationKey(key) <==> key in ACTIVATION_KEYS
    ensures IsActivationKey(key) ==> key != "" && (|key| == 1 <==> key == " ")
  {
    key == "Enter" || key == " " || key == "Spacebar"
  }
}
