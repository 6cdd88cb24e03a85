/** The transient feedback flags of the page. Each flag is a piece of state
    watched by one effect that, whenever the value changes to a truthy one,
    arms a single timeout that puts the flag back to its falsy value; the
    previous timeout is cleared first. Time is an explicit clock in
    milliseconds and a pending timeout is its absolute deadline. */
module Feedback {

  /** How long the "copied" confirmation stays up. */
  const COPIED_DURATION_MS: nat := 1600

  /** How long one badge glint lasts. */
  const GLINT_DURATION_MS: nat := 1200

  /** The one timeout an effect may hold. */
  datatype Timer = Idle | Pending(deadline: int)

  /** The effect runs again because its value changed: the cleanup clears the
      pending timeout, and a truthy new value arms a fresh one. */
  function Rearm(truthy: bool, now: int, duration: nat): (t: Timer)
    ensures t.Pending? <==> truthy
    ensures t.Pending? ==> t.deadline - now == duration
  {
    if truthy then Pending(now + duration) else Idle
  }

  /** The effect's dependency check: a value that did not change (as React
      compares state) does not re-run the effect, so the old timeout stays. */
  function OnChange<T(==)>(t: Timer, before: T, after: T, truthy: bool, now: int, duration: nat): (r: Timer)
    ensures before == after ==> r == t
    ensures before != after ==> (r.Pending? <==> truthy)
    ensures r.Pending? ==> r == t || r.deadline == now + duration
  {
    if before == after then t else Rearm(truthy, now, duration)
  }

  /** The timeout goes off once the clock has reached its deadline. */
  predicate Due(t: Timer, now: int) {
    t.Pending? && t.deadline <= now
  }

  /** A timeout that has not gone off lies within one duration after now. */
  predicate Scheduled(t: Timer, now: int, duration: nat) {
    t.Pending? ==> now < t.deadline <= now + duration
  }

  /** Arming keeps a timeout within its duration whenever the duration is
      positive. */
  lemma OnChangeScheduled<T>(t: Timer, before: T, after: T, truthy: bool, now: int, duration: nat)
    requires Scheduled(t, now, duration) && duration > 0
    ensures Scheduled(OnChange(t, before, after, truthy, now, duration), now, duration)
  {
  }

  /** A second change before the first timeout went off supersedes it: only
      the second timeout is pending, and the flag stays up until one duration
      after the second change, not after the first. */
  lemma SecondChangeSupersedes<T>(a: T, b: T, c: T, t0: int, t1: int, duration: nat)
    requires a != b && b != c && t0 <= t1 < t0 + duration
    ensures var first := OnChange(Idle, a, b, true, t0, duration);
            var second := OnChange(first, b, c, true, t1, duration);
            !Due(first, t1) && second == Pending(t1 + duration) &&
            (forall t :: t < t1 + duration ==> !Due(second, t)) && Due(second, t1 + duration)
  {
  }

  /** Setting the same value again is not a change: the first timeout stays
      and still goes off one duration after the first change. */
  lemma SameValueKeepsTimer<T>(a: T, b: T, t0: int, t1: int, duration: nat)
    requires a != b
    ensures var first := OnChange(Idle, a, b, true, t0, duration);
            OnChange(first, b, b, true, t1, duration) == first == Pending(t0 + duration)
  {
  }
}
