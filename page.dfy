/** The page component's own state and its event handlers: the theme, the
    badge tap counter, the glint cycle, the "copied" key, and the two
    timeouts that clear the latter two. Handlers are methods that update the
    fields in place; each is proved against the pure rules of modules Theme
    and Feedback. */
module Page {
  import opened Wrappers
  import opened Theme
  import opened Feedback

  /** `!copiedKey` is false: a key is present and not the empty string. */
  predicate Truthy(key: Option<string>) {
    key.Some? && key.value != ""
  }

  class App {
    var theme: ThemeMode
    /** `badgeTapCountRef.current` */
    var taps: nat
    var glintCycle: nat
    var copiedKey: Option<string>
    /** The clock, in milliseconds. */
    var now: int
    /** The timeout of the `copiedKey` effect. */
    var copyTimer: Timer
    /** The timeout of the `badgeGlintCycle` effect. */
    var glintTimer: Timer
    /** Whether the component is on the page; its effects' cleanups run when
        it leaves. */
    var mounted: bool

    /** The theme button and badge part of the state. */
    function Badge(): Theme.Badge
      reads this
    {
      Theme.Badge(theme, taps)
    }

    /** The page's invariant: the counter stays below the threshold, every
        pending timeout lies in the future within its duration, and while the
        page is mounted a timeout is pending exactly when its flag is up. */
    predicate Valid()
      reads this
    {
      && CounterInRange(Badge())
      && Scheduled(copyTimer, now, COPIED_DURATION_MS)
      && Scheduled(glintTimer, now, GLINT_DURATION_MS)
      && (mounted ==> (copyTimer.Pending? <==> Truthy(copiedKey)))
      && (mounted ==> (glintTimer.Pending? <==> glintCycle != 0))
      && (!mounted ==> copyTimer == Idle && glintTimer == Idle)
    }

    /** The first render: the theme comes from the resolver and every other
        piece of state is at its initial value. */
    constructor (w: Window, start: int)
      ensures Valid() && mounted && now == start
      ensures theme == InitialTheme(w) && taps == 0 && glintCycle == 0
      ensures copiedKey == None && copyTimer == Idle && glintTimer == Idle
    {
      theme := InitialTheme(w);
      taps := 0;
      glintCycle := 0;
      copiedKey := None;
      now := start;
      copyTimer := Idle;
      glintTimer := Idle;
      mounted := true;
    }

    /** `handleToggleTheme`; `w` is what the resolver sees at the click. */
    method ToggleTheme(w: Window)
      requires Valid() && mounted
      modifies this
      ensures Valid()
      ensures Badge() == Toggle(old(Badge()), w)
      ensures glintCycle == old(glintCycle) && copiedKey == old(copiedKey) && now == old(now)
      ensures copyTimer == old(copyTimer) && glintTimer == old(glintTimer) && mounted
    {
      if theme == Terminal {
        taps := 0;
        theme := InitialTheme(w);
        return;
      }
      taps := 0;
      theme := if theme == Dark then Light else Dark;
    }

    /** The colour-scheme change listener registered while mounted. */
    method MediaChange(matches: bool)
      requires Valid() && mounted
      modifies this`theme
      ensures Valid()
      ensures theme == Theme.MediaChange(old(theme), matches)
    {
      theme := if theme == Terminal then theme else if matches then Dark else Light;
    }

    /** `handleBadgeGlint`: a new glint cycle on every activation, whose
        effect re-arms the glint timeout, and the tap counter that unlocks
        the terminal theme. */
    method BadgeGlint()
      requires Valid() && mounted
      modifies this
      ensures Valid()
      ensures glintCycle == old(glintCycle) + 1
      ensures glintTimer == Pending(now + GLINT_DURATION_MS)
      ensures Badge() == Activate(old(Badge()))
      ensures copiedKey == old(copiedKey) && copyTimer == old(copyTimer) && now == old(now) && mounted
    {
      var cycle := glintCycle + 1;
      glintTimer := OnChange(glintTimer, glintCycle, cycle, cycle != 0, now, GLINT_DURATION_MS);
      glintCycle := cycle;
      var nextCount := taps + 1;
      if nextCount >= TAP_THRESHOLD {
        taps := 0;
        theme := Terminal;
        return;
      }
      taps := nextCount;
    }

    /** `handleBadgeKeyDown`: an activation key suppresses the browser's
        default action and activates the badge; any other key changes
        nothing. */
    method BadgeKeyDown(key: string) returns (defaultPrevented: bool)
      requires Valid() && mounted
      modifies this
      ensures Valid()
      ensures defaultPrevented == IsActivationKey(key)
      ensures IsActivationKey(key) ==>
        && glintCycle == old(glintCycle) + 1
        && glintTimer == Pending(now + GLINT_DURATION_MS)
        && Badge() == Activate(old(Badge()))
        && copiedKey == old(copiedKey) && copyTimer == old(copyTimer) && now == old(now) && mounted
      ensures !IsActivationKey(key) ==> unchanged(this)
    {
      defaultPrevented := false;
      if key == "Enter" || key == " " || key == "Spacebar" {
        defaultPrevented := true;
        BadgeGlint();
      }
    }

    /** A successful copy: `setCopiedKey(key)`, whose effect re-arms the
        confirmation timeout when the key differs from the one shown. */
    method CopySucceeded(key: string)
      requires Valid() && mounted
      modifies this`copiedKey, this`copyTimer
      ensures Valid()
      ensures copiedKey == Some(key)
      ensures old(copiedKey) == Some(key) ==> copyTimer == old(copyTimer)
      ensures old(copiedKey) != Some(key) ==> copyTimer == Rearm(key != "", now, COPIED_DURATION_MS)
    {
      var next := Some(key);
      copyTimer := OnChange(copyTimer, copiedKey, next, Truthy(next), now, COPIED_DURATION_MS);
      copiedKey := next;
    }

    /** The clock moves on by `elapsed` ms; each timeout whose deadline has
        been reached goes off and puts its flag back to the falsy value, and
        the effect, seeing a falsy value, arms nothing. */
    method Advance(elapsed: nat)
      requires Valid()
      modifies this`now, this`copiedKey, this`copyTimer, this`glintCycle, this`glintTimer
      ensures Valid()
      ensures now == old(now) + elapsed
      ensures Due(old(copyTimer), now) ==> copiedKey == None && copyTimer == Idle
      ensures !Due(old(copyTimer), now) ==> copiedKey == old(copiedKey) && copyTimer == old(copyTimer)
      ensures Due(old(glintTimer), now) ==> glintCycle == 0 && glintTimer == Idle
      ensures !Due(old(glintTimer), now) ==> glintCycle == old(glintCycle) && glintTimer == old(glintTimer)
      ensures !mounted ==> copiedKey == old(copiedKey) && glintCycle == old(glintCycle)
    {
      now := now + elapsed;
      if Due(copyTimer, now) {
        copiedKey := None;
        copyTimer := Rearm(Truthy(copiedKey), now, COPIED_DURATION_MS);
      }
      if Due(glintTimer, now) {
        glintCycle := 0;
        glintTimer := Rearm(glintCycle != 0, now, GLINT_DURATION_MS);
      }
    }

    /** The component leaves the page: the effects' cleanups clear both
        pending timeouts, so no timeout can change the state afterwards. */
    method Unmount()
      requires Valid() && mounted
      modifies this`mounted, this`copyTimer, this`glintTimer
      ensures Valid() && !mounted
      ensures copyTimer == Idle && glintTimer == Idle
    {
      mounted := false;
      copyTimer := Idle;
      glintTimer := Idle;
    }
  }

  /** Ten activations of the badge from a fresh page put it in the terminal
      theme with the counter back at zero; an eleventh keeps it there and
      counts again from zero, so the counter moves to one. */
  method UnlockScenario(w: Window) returns (afterTen: ThemeMode, tapsAfterTen: nat, afterEleven: ThemeMode, tapsAfterEleven: nat)
    ensures afterTen == Terminal && tapsAfterTen == 0
    ensures afterEleven == Terminal && tapsAfterEleven == 1
  {
    var app := new App(w, 0);
    var i := 0;
    while i < TAP_THRESHOLD
      invariant 0 <= i <= TAP_THRESHOLD
      invariant app.Valid() && app.mounted
      invariant app.Badge() == ActivateTimes(Theme.Badge(InitialTheme(w), 0), i)
      modifies app
    {
      ActivateTimesSplit(Theme.Badge(InitialTheme(w), 0), i, 1);
      app.BadgeGlint();
      i := i + 1;
    }
    TenActivationsUnlockTerminal(Theme.Badge(InitialTheme(w), 0));
    afterTen, tapsAfterTen := app.theme, app.taps;
    app.BadgeGlint();
    afterEleven, tapsAfterEleven := app.theme, app.taps;
  }

  /** The confirmation of a copy at 0 ms is still up at 1599 ms and gone at
      1600 ms even though the same key was copied again at 1000 ms; had a
      different key been copied at 1000 ms, it would stay up until 2600 ms. */
  method CopyScenario() returns (sameAt1599: bool, sameAt1600: bool, otherAt2599: bool, otherAt2600: bool)
    ensures sameAt1599 && !sameAt1600
    ensures otherAt2599 && !otherAt2600
  {
    var same := new App(Browser(true), 0);
    same.CopySucceeded("tax");
    same.Advance(1000);
    same.CopySucceeded("tax");
    same.Advance(599);
    sameAt1599 := same.copiedKey.Some?;
    same.Advance(1);
    sameAt1600 := same.copiedKey.Some?;

    var other := new App(Browser(true), 0);
    other.CopySucceeded("tax");
    other.Advance(1000);
    other.CopySucceeded("account");
    other.Advance(1599);
    otherAt2599 := other.copiedKey.Some?;
    other.Advance(1);
    otherAt2600 := other.copiedKey.Some?;
  }

  /** Each activation restarts the glint: two taps 1000 ms apart keep the
      badge glinting until 2200 ms. */
  method GlintScenario() returns (at2199: nat, at2200: nat)
    ensures at2199 == 2 && at2200 == 0
  {
    var app := new App(Browser(false), 0);
    app.BadgeGlint();
    app.Advance(1000);
    app.BadgeGlint();
    app.Advance(1199);
    at2199 := app.glintCycle;
    app.Advance(1);
    at2200 := app.glintCycle;
  }
}
