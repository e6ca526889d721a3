/** The flash-sale countdown of the home page
    (src/components/home/FlashSale.tsx). Sales run in back-to-back three-day
    cycles from a fixed start; the countdown shows the time to the end of
    the current cycle as days, hours, minutes and seconds. Times are
    integer milliseconds; the start instant and the clock are parameters. */
module FlashSale {
  import Text
  import JsNumber

  const MsPerSecond := 1000
  const MsPerMinute := 60 * MsPerSecond
  const MsPerHour := 60 * MsPerMinute
  const MsPerDay := 24 * MsPerHour

  /** Three days: 259 200 000 ms. */
  const MsPerCycle := 3 * MsPerDay

  datatype TimeLeft = TimeLeft(days: int, hours: int, minutes: int, seconds: int)

  const Zero := TimeLeft(0, 0, 0, 0)

  /** The end of the cycle `now` falls in: the start plus one more than the
      number of whole cycles since the start (`Math.floor` rounds down, also
      before the start). */
  function NextSaleEnd(start: int, now: int): (r: int)
    ensures now < r <= now + MsPerCycle
    ensures (r - start) % MsPerCycle == 0
  {
    var cyclesPassed := (now - start) / MsPerCycle;
    start + (cyclesPassed + 1) * MsPerCycle
  }

  /** Milliseconds left in the current cycle: always in (0, one cycle]. */
  function Remaining(start: int, now: int): (r: int)
    ensures 0 < r <= MsPerCycle
  {
    NextSaleEnd(start, now) - now
  }

  /** `calculateTimeLeft()`: no time left gives zeros (a branch the cycle
      arithmetic never reaches); otherwise the remaining milliseconds are
      split into whole days and the hours, minutes and seconds beyond them. */
  function CalculateTimeLeft(start: int, now: int): (t: TimeLeft)
    ensures Remaining(start, now) <= 0 ==> t == Zero
    ensures 0 <= t.hours < 24 && 0 <= t.minutes < 60 && 0 <= t.seconds < 60
    ensures 0 <= t.days <= 3
    ensures var shown := Shown(t);
      shown <= Remaining(start, now) < shown + MsPerSecond
  {
    var diff := Remaining(start, now);
    if diff <= 0 then Zero
    else
      var t := TimeLeft(diff / MsPerDay, (diff / MsPerHour) % 24, (diff / MsPerMinute) % 60,
                        (diff / MsPerSecond) % 60);
      Decomposes(diff);
      t
  }

  /** The milliseconds a countdown value stands for. */
  function Shown(t: TimeLeft): int {
    t.days * MsPerDay + t.hours * MsPerHour + t.minutes * MsPerMinute + t.seconds * MsPerSecond
  }

  /** Whole days, then hours, minutes and seconds modulo their units, add up
      to the whole seconds of `diff`. */
  lemma Decomposes(diff: int)
    requires diff > 0
    ensures var t := TimeLeft(diff / MsPerDay, (diff / MsPerHour) % 24, (diff / MsPerMinute) % 60,
                              (diff / MsPerSecond) % 60);
      Shown(t) == (diff / MsPerSecond) * MsPerSecond
  {
    var s := diff / MsPerSecond;
    var m := diff / MsPerMinute;
    var h := diff / MsPerHour;
    var d := diff / MsPerDay;
    assert m == s / 60;
    assert h == m / 60;
    assert d == h / 24;
    assert s == m * 60 + s % 60;
    assert m == h * 60 + m % 60;
    assert h == d * 24 + h % 24;
  }

  /** Exactly at a cycle boundary the countdown shows the full three days. */
  lemma FullCycleAtBoundary(start: int, k: int)
    ensures CalculateTimeLeft(start, start + k * MsPerCycle) == TimeLeft(3, 0, 0, 0)
  {
    var now := start + k * MsPerCycle;
    assert (now - start) / MsPerCycle == k;
  }

  /** `value.toString().padStart(2, "0")`: at least two digits. */
  function Pad2(value: nat): (r: string)
    ensures |r| >= 2 && Text.AllDigits(r)
    ensures JsNumber.DigitsValue(r) == value
    ensures value < 100 ==> |r| == 2
  {
    var s := JsNumber.NatToString(value);
    if |s| >= 2 then
      assert 10 <= value < 100 ==> |JsNumber.NatToString(value / 10)| == 1;
      s
    else
      assert value < 10;
      var r := Text.PadStart(s, 2, '0');
      assert r == ['0'] + s;
      assert r[..1] == ['0'];
      r
  }
}
