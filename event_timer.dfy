/** The countdown shown above the board: which moment it counts towards
    and how the remaining milliseconds are split into days, hours, minutes
    and seconds. */
module EventTimerView {
  import opened Common

  const MsPerSecond: nat := 1000
  const MsPerMinute: nat := 60 * MsPerSecond
  const MsPerHour: nat := 60 * MsPerMinute
  const MsPerDay: nat := 24 * MsPerHour

  datatype TimeLeft = TimeLeft(days: nat, hours: nat, minutes: nat, seconds: nat)

  /** The four `Math.floor` expressions on a non-negative `diff`. */
  function Decompose(diff: nat): (r: TimeLeft)
    ensures r.hours < 24 && r.minutes < 60 && r.seconds < 60
    ensures diff < MsPerDay ==> r.days == 0
  {
    TimeLeft(diff / MsPerDay, (diff % MsPerDay) / MsPerHour, (diff % MsPerHour) / MsPerMinute,
             (diff % MsPerMinute) / MsPerSecond)
  }

  /** The milliseconds a `TimeLeft` stands for. */
  function Milliseconds(t: TimeLeft): nat
  {
    t.days * MsPerDay + t.hours * MsPerHour + t.minutes * MsPerMinute + t.seconds * MsPerSecond
  }

  /** Taking the remainder by a unit, then by a unit that divides it, is
      taking the remainder by the smaller unit. */
  lemma ModOfMod(x: nat, big: nat, small: nat, k: nat)
    requires small > 0 && k > 0 && big == k * small
    ensures x % big == ((x % big) / small) * small + x % small
  {
    var q := x / big;
    var r := x % big;
    assert x == q * big + r;
    assert q * big == (q * k) * small;
    assert r == (r / small) * small + r % small;
    assert x == (q * k + r / small) * small + r % small;
    DivModUnique(x, small, q * k + r / small, r % small);
  }

  /** The split loses less than a second and never overshoots: the shown
      countdown is the remaining time rounded down to whole seconds. */
  lemma DecomposeRecomposes(diff: nat)
    ensures Milliseconds(Decompose(diff)) <= diff < Milliseconds(Decompose(diff)) + MsPerSecond
  {
    var t := Decompose(diff);
    assert diff == t.days * MsPerDay + diff % MsPerDay;
    ModOfMod(diff, MsPerDay, MsPerHour, 24);
    ModOfMod(diff, MsPerHour, MsPerMinute, 60);
    ModOfMod(diff, MsPerMinute, MsPerSecond, 60);
    assert diff % MsPerMinute == t.seconds * MsPerSecond + diff % MsPerSecond;
  }

  /** `String(value).padStart(2, '0')`. */
  function Shown(value: nat): string
  {
    PadTwo(NatToString(value))
  }

  lemma {:induction false} LeadingZero(s: string)
    ensures DigitsValue("0" + s) == DigitsValue(s)
    decreases |s|
  {
    if s != [] {
      var n := |s| - 1;
      assert ("0" + s)[..|"0" + s| - 1] == "0" + s[..n];
      LeadingZero(s[..n]);
    } else {
      assert ("0" + s)[..0] == [];
    }
  }

  /** Every field is shown with at least two digits, and the digits read
      back as the field's value. */
  lemma ShownReadsBack(value: nat)
    ensures |Shown(value)| >= 2
    ensures DigitsValue(Shown(value)) == value
  {
    var s := NatToString(value);
    NatToStringRoundTrip(value);
    if |s| < 2 {
      assert Shown(value) == "0" + s;
      LeadingZero(s);
    }
  }

  class Timer {
    var timerLabel: string
    var timeLeft: TimeLeft

    constructor()
      ensures timerLabel == "" && timeLeft == TimeLeft(0, 0, 0, 0)
    {
      timerLabel := "";
      timeLeft := TimeLeft(0, 0, 0, 0);
    }

    /** `calculateTime` at the clock reading `now`: counts down to the start
        before the event, to the end while it runs, and shows zeros after. */
    method CalculateTime(now: int, start: int, end: int)
      modifies this
      ensures now < start ==> timerLabel == "Starts in" && timeLeft == Decompose(start - now)
      ensures start <= now < end ==> timerLabel == "Ends in" && timeLeft == Decompose(end - now)
      ensures start <= now && end <= now ==> timerLabel == "Event ended" && timeLeft == TimeLeft(0, 0, 0, 0)
    {
      var targetTime;
      if now < start {
        targetTime := start;
        timerLabel := "Starts in";
      } else if now < end {
        targetTime := end;
        timerLabel := "Ends in";
      } else {
        timerLabel := "Event ended";
        timeLeft := TimeLeft(0, 0, 0, 0);
        return;
      }
      var diff := targetTime - now;
      timeLeft := Decompose(diff);
    }
  }
}
