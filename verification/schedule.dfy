/** The choice of the next run in `main`: the scheduled instants are 03:00 and
    08:00 local time every day. Times are nanoseconds since today's local
    midnight, and a day is taken to be 24 hours long. */
module Schedule {

  const Hour: nat := 3600 * 1_000_000_000
  const Day: nat := 24 * Hour
  const Morning: nat := 3 * Hour
  const Afternoon: nat := 8 * Hour

  /** An instant at which a run is scheduled: 03:00 or 08:00 of some day. */
  predicate IsSlot(t: int) {
    t % Day == Morning || t % Day == Afternoon
  }

  /** The next-run choice of the main loop: today's 03:00 if `now` is before it, else today's 08:00
      if `now` is before that, else tomorrow's 03:00. The result is the
      earliest scheduled instant strictly after `now`, so the wait before the
      next run is always positive and shorter than a day. */
  function NextRun(now: int): (next: int)
    requires 0 <= now < Day
    ensures IsSlot(next)
    ensures now < next < now + Day
    ensures forall t :: now < t && IsSlot(t) ==> next <= t
  {
    var morning := Morning;
    var afternoon := Afternoon;
    var next := if now < morning then morning
                else if now < afternoon then afternoon
                else morning + Day;
    assert (morning + Day) % Day == Morning;
    forall t | now < t && IsSlot(t)
      ensures next <= t
    {
      SlotBound(t);
    }
    next
  }

  /** A scheduled instant after midnight is either today's 03:00, today's
      08:00, or no earlier than tomorrow's 03:00. */
  lemma SlotBound(t: int)
    requires 0 <= t && IsSlot(t)
    ensures t == Morning || t == Afternoon || t >= Day + Morning
  {
    var q := t / Day;
    var r := t % Day;
    assert t == q * Day + r;
    if q >= 1 {
      assert q * Day >= Day;
    }
  }

  /** At exactly 03:00 the next run is 08:00, not 03:00 again. */
  lemma AtMorningWaitsForAfternoon()
    ensures NextRun(Morning) == Afternoon
  {
  }
}
