/** The delivery-time estimate shown to charities: a fixed heuristic of the
    donation's status and how long ago that status was written. */
module Eta {
  import opened Types

  const MillisPerMinute := 60_000

  function Max(a: int, b: int): int
  {
    if a >= b then a else b
  }

  /** Minutes until delivery. `since` is the time elapsed since the last status
      change, or 0 when none was recorded; `/` on a positive divisor floors,
      as `Math.floor` does, also for a negative `since`. */
  function EtaMinutes(status: DonationStatus, updatedAt: Option<Millis>, now: Millis): (m: int)
    ensures m >= 0
  {
    var since := if updatedAt.Some? then now - updatedAt.value else 0;
    var eta :=
      match status
      case Claimed => 45
      case InTransit => Max(5, 30 - since / MillisPerMinute)
      case Delivered => 0
      case Available => 60;
    Max(0, eta)
  }

  /** When the recorded update is not in the future, the estimate lies in
      [0, 60], and an In Transit estimate lies in [5, 30]. */
  lemma EtaBounds(status: DonationStatus, updatedAt: Option<Millis>, now: Millis)
    requires updatedAt.Some? ==> updatedAt.value <= now
    ensures 0 <= EtaMinutes(status, updatedAt, now) <= 60
    ensures status == InTransit ==> 5 <= EtaMinutes(status, updatedAt, now) <= 30
  {
    var since := if updatedAt.Some? then now - updatedAt.value else 0;
    assert since >= 0;
    assert since / MillisPerMinute >= 0;
  }

  /** The estimate never goes up as time passes. */
  lemma EtaNonIncreasing(status: DonationStatus, updatedAt: Option<Millis>, now: Millis, later: Millis)
    requires now <= later
    ensures EtaMinutes(status, updatedAt, later) <= EtaMinutes(status, updatedAt, now)
  {
    if updatedAt.Some? {
      var a, b := now - updatedAt.value, later - updatedAt.value;
      DivMonotone(a, b);
    }
  }

  /** An In Transit estimate counts down one per whole minute from 30 and
      stays at 5 from the 25th minute on. */
  lemma InTransitCountdown(updatedAt: Millis, minutes: nat, extra: int)
    requires 0 <= extra < MillisPerMinute
    ensures EtaMinutes(InTransit, Some(updatedAt), updatedAt + minutes * MillisPerMinute + extra)
            == if minutes <= 25 then 30 - minutes else 5
  {
    var since := minutes * MillisPerMinute + extra;
    DivExact(minutes, extra);
    assert since / MillisPerMinute == minutes;
  }

  /** A status other than In Transit gives a constant estimate. */
  lemma EtaOtherStatuses(updatedAt: Option<Millis>, now: Millis)
    ensures EtaMinutes(Claimed, updatedAt, now) == 45
    ensures EtaMinutes(Delivered, updatedAt, now) == 0
    ensures EtaMinutes(Available, updatedAt, now) == 60
  {
  }

  lemma DivMonotone(a: int, b: int)
    requires a <= b
    ensures a / MillisPerMinute <= b / MillisPerMinute
  {
  }

  lemma DivExact(q: int, r: int)
    requires 0 <= r < MillisPerMinute
    ensures (q * MillisPerMinute + r) / MillisPerMinute == q
  {
  }
}
