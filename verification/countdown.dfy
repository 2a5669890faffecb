/**
  The countdown component (src/components/TimeToEnd.tsx): the text
  `formatCountdown` builds from a number of milliseconds, the clamped time
  left before an end instant given in whole seconds, and the `finished` flag
  that stops the ticking and calls `onFinish` once. Clock readings are
  inputs; the one-second interval is a sequence of tick events.
 */
module Countdown {
  import opened Arith
  import opened Lists
  import opened Text

  /** Days, hours, minutes and seconds of a duration. */
  datatype Split = Split(days: nat, hours: nat, minutes: nat, seconds: nat)

  const DaySeconds: nat := 86400

  /** The whole seconds a split stands for. */
  function TotalSeconds(sp: Split): nat
  {
    sp.days * 86400 + sp.hours * 3600 + sp.minutes * 60 + sp.seconds
  }

  /** A split whose hours, minutes and seconds are below their next unit. */
  predicate Normal(sp: Split)
  {
    sp.hours < 24 && sp.minutes < 60 && sp.seconds < 60
  }

  /**
    The split of `formatCountdown`: `days = total div 86400`,
    `hours = (total mod 86400) div 3600`, `minutes = (total mod 3600) div 60`,
    `seconds = total mod 60`. It is normal and adds back up to `total`.
   */
  function SplitSeconds(total: nat): (r: Split)
    ensures Normal(r)
    ensures TotalSeconds(r) == total
  {
    var r := Split(total / 86400, (total % 86400) / 3600, (total % 3600) / 60, total % 60);
    SplitAddsUp(total);
    r
  }

  /** The arithmetic behind `SplitSeconds`: 3600 divides 86400 and 60 divides 3600. */
  lemma SplitAddsUp(total: nat)
    ensures (total / 86400) * 86400 + ((total % 86400) / 3600) * 3600 + ((total % 3600) / 60) * 60 + total % 60 == total
  {
    var d, rd := total / 86400, total % 86400;
    var h, rh := rd / 3600, rd % 3600;
    assert total == d * 86400 + rd;
    assert rd == h * 3600 + rh;
    assert total == (d * 24 + h) * 3600 + rh;
    DivModUnique(total, d * 24 + h, 3600, rh);
    assert total % 3600 == rh;
    var m, s := rh / 60, rh % 60;
    assert rh == m * 60 + s;
    assert total == ((d * 24 + h) * 60 + m) * 60 + s;
    DivModUnique(total, (d * 24 + h) * 60 + m, 60, s);
  }

  /** The split is the only normal decomposition: splitting the total of a normal split gives it back. */
  lemma SplitUnique(sp: Split)
    requires Normal(sp)
    ensures SplitSeconds(TotalSeconds(sp)) == sp
  {
    var t := TotalSeconds(sp);
    var rest := sp.hours * 3600 + sp.minutes * 60 + sp.seconds;
    assert rest < 86400;
    DivModUnique(t, sp.days, 86400, rest);
    DivModUnique(rest, sp.hours, 3600, sp.minutes * 60 + sp.seconds);
    DivModUnique(t, sp.days * 24 + sp.hours, 3600, sp.minutes * 60 + sp.seconds);
    DivModUnique(sp.minutes * 60 + sp.seconds, sp.minutes, 60, sp.seconds);
    DivModUnique(t, (sp.days * 24 + sp.hours) * 60 + sp.minutes, 60, sp.seconds);
  }

  /** The text of a normal split: `${days}d, HHhMMmSS`, without a trailing unit. */
  function Render(sp: Split): string
  {
    NatToString(sp.days) + "d, " + Pad2(sp.hours) + "h" + Pad2(sp.minutes) + "m" + Pad2(sp.seconds)
  }

  const ZeroCountdown: string := "0d, 00h00m00s"

  /**
    `formatCountdown(ms)`: no time left reads "0d, 00h00m00s"; otherwise the
    whole seconds of `ms`, split and rendered, ending in the seconds digits
    with no "s" after them.
   */
  function FormatCountdown(ms: int): (r: string)
    ensures ms <= 0 ==> r == ZeroCountdown
    ensures ms > 0 ==> DecodeCountdown(r) == Some(SplitSeconds(ms / 1000))
    ensures ms > 0 ==> |r| >= 12 && IsDigit(r[|r| - 1])
  {
    if ms <= 0 then ZeroCountdown
    else
      var sp := SplitSeconds(ms / 1000);
      RenderDecodes(sp);
      Render(sp)
  }

  /**
    Reads a positive countdown back: the day digits, then "d, ", two hour
    digits, 'h', two minute digits, 'm' and two second digits.
   */
  function DecodeCountdown(r: string): Option<Split>
  {
    var n := |r|;
    if n < 12 then None
    else
      var days, hh, mm, ss := r[..n - 11], r[n - 8..n - 6], r[n - 5..n - 3], r[n - 2..];
      if r[n - 11..n - 8] == "d, " && r[n - 6] == 'h' && r[n - 3] == 'm'
        && AllDigits(days) && AllDigits(hh) && AllDigits(mm) && AllDigits(ss)
      then Some(Split(ParseNat(days), ParseNat(hh), ParseNat(mm), ParseNat(ss)))
      else None
  }

  /** Rendering a normal split and reading it back gives the split. */
  lemma RenderDecodes(sp: Split)
    requires Normal(sp)
    ensures DecodeCountdown(Render(sp)) == Some(sp)
    ensures |Render(sp)| >= 12 && IsDigit(Render(sp)[|Render(sp)| - 1])
  {
    var ds, hs, ms, ss := NatToString(sp.days), Pad2(sp.hours), Pad2(sp.minutes), Pad2(sp.seconds);
    ParseNatToString(sp.days);
    Pad2RoundTrip(sp.hours);
    Pad2RoundTrip(sp.minutes);
    Pad2RoundTrip(sp.seconds);
    var r := Render(sp);
    var n := |r|;
    assert n == |ds| + 11;
    assert r[..n - 11] == ds;
    assert r[n - 11..n - 8] == "d, ";
    assert r[n - 8..n - 6] == hs;
    assert r[n - 6] == 'h';
    assert r[n - 5..n - 3] == ms;
    assert r[n - 3] == 'm';
    assert r[n - 2..] == ss;
  }

  /** The whole seconds of a positive countdown can be read back from its text. */
  lemma FormatCountdownRoundTrip(ms: int)
    requires ms > 0
    ensures DecodeCountdown(FormatCountdown(ms)).Some?
    ensures TotalSeconds(DecodeCountdown(FormatCountdown(ms)).value) == ms / 1000
  {
  }

  /** One day, one hour, one minute and one second. */
  lemma FormatCountdownExample()
    ensures FormatCountdown(90061000) == "1d, 01h01m01"
  {
    assert 90061000 / 1000 == 90061;
    ExampleSplit();
    ExampleRender();
  }

  lemma ExampleSplit()
    ensures SplitSeconds(90061) == Split(1, 1, 1, 1)
  {
    SplitUnique(Split(1, 1, 1, 1));
  }

  lemma ExampleRender()
    ensures Render(Split(1, 1, 1, 1)) == "1d, 01h01m01"
  {
    assert NatToString(1) == "1";
    assert Pad2(1) == "01";
    assert Render(Split(1, 1, 1, 1)) == "1" + "d, " + "01" + "h" + "01" + "m" + "01";
  }

  /** Zero seconds split into zeros. */
  lemma SplitZero(z: nat)
    requires z == 0
    ensures SplitSeconds(z) == Split(z, z, z, z)
  {
    DivModUnique(z, 0, 86400, 0);
    DivModUnique(z, 0, 3600, 0);
    DivModUnique(z, 0, 60, 0);
  }

  /** The text of zero whole seconds is the no-time-left text without its closing "s". */
  lemma RenderZero(z: nat)
    requires z == 0
    ensures Render(SplitSeconds(z)) + "s" == ZeroCountdown
  {
    SplitZero(z);
    RenderZeros(z);
    ZeroText();
  }

  lemma RenderZeros(z: nat)
    requires z == 0
    ensures Render(Split(z, z, z, z)) == "0" + "d, " + "00" + "h" + "00" + "m" + "00"
  {
    ZeroDigits(z);
  }

  lemma ZeroDigits(z: nat)
    requires z == 0
    ensures NatToString(z) == "0" && Pad2(z) == "00"
  {
    NatToStringSmall(z);
    assert DigitChar(z) == '0';
  }

  lemma ZeroText()
    ensures "0" + "d, " + "00" + "h" + "00" + "m" + "00" + "s" == ZeroCountdown
  {
  }

  /**
    Less than a second left reads like no time left, but without the closing
    "s", so the text changes when the last second runs out.
   */
  lemma SubSecondCountdown(ms: int)
    requires 0 < ms < 1000
    ensures FormatCountdown(ms) + "s" == ZeroCountdown
    ensures FormatCountdown(ms) != FormatCountdown(0)
  {
    DivModUnique(ms, 0, 1000, ms);
    RenderZero(ms / 1000);
  }

  /** The countdown text with the seconds unit the zero case shows. */
  function FormatCountdownIntended(ms: int): (r: string)
    ensures |r| > 0 && r[|r| - 1] == 's'
    ensures ms <= 0 ==> r == ZeroCountdown
    ensures ms > 0 ==> r[..|r| - 1] == FormatCountdown(ms)
  {
    if ms <= 0 then ZeroCountdown else FormatCountdown(ms) + "s"
  }

  /** With the unit restored, less than a second left reads exactly like no time left. */
  lemma IntendedSubSecondMatchesZero(ms: int)
    requires 0 < ms < 1000
    ensures FormatCountdownIntended(ms) == FormatCountdownIntended(0)
  {
    SubSecondCountdown(ms);
  }

  // ---------------------------------------------------------------------
  // Time left and the finish-once flag
  // ---------------------------------------------------------------------

  /** `Math.max(endMs - now, 0)` with `endMs = formatted * 1000`. */
  function MsLeft(endMs: int, now: int): (r: nat)
    ensures r == 0 <==> now >= endMs
    ensures r > 0 ==> now + r == endMs
  {
    if endMs - now > 0 then endMs - now else 0
  }

  /** The end instant of a countdown whose end is given in whole seconds. */
  function EndMs(formatted: int): int { formatted * 1000 }

  /**
    The component's state: the end instant, the last clock reading, the
    `finished` flag and whether the one-second interval is running.
   */
  datatype Timer = Timer(endMs: int, now: int, finished: bool, ticking: bool)

  /** The state after one batch of effects, and whether `onFinish` was called in it. */
  datatype Step = Step(timer: Timer, fired: bool)

  /** The two effects after a render: finish at the end instant, and run the interval only while not finished. */
  function Settle(t: Timer): (s: Step)
    ensures s.fired <==> !t.finished && t.now >= t.endMs
    ensures s.timer.finished <==> t.finished || t.now >= t.endMs
    ensures s.timer.ticking <==> !s.timer.finished
    ensures s.timer.endMs == t.endMs && s.timer.now == t.now
  {
    if t.now >= t.endMs && !t.finished then Step(Timer(t.endMs, t.now, true, false), true)
    else Step(Timer(t.endMs, t.now, t.finished, !t.finished), false)
  }

  /** Mounting: the end instant from whole seconds, the first clock reading, not finished. */
  function Mount(formatted: int, clock: int): (s: Step)
    ensures s.timer.endMs == EndMs(formatted)
    ensures s.fired <==> clock >= EndMs(formatted)
  {
    Settle(Timer(EndMs(formatted), clock, false, false))
  }

  /** One interval tick reading `clock`; without a running interval nothing happens. */
  function Tick(t: Timer, clock: int): (s: Step)
    ensures s.fired <==> t.ticking && !t.finished && clock >= t.endMs
    ensures s.timer.endMs == t.endMs
    ensures !t.ticking ==> s.timer == t
    ensures t.ticking ==> s.timer.now == clock
    ensures t.ticking ==> (s.timer.finished <==> t.finished || clock >= t.endMs)
    ensures t.ticking ==> (s.timer.ticking <==> !s.timer.finished)
  {
    if t.ticking then Settle(t.(now := clock)) else Step(t, false)
  }

  /** The states reachable from a mount: the interval runs exactly while not finished. */
  predicate Consistent(t: Timer) { t.ticking <==> !t.finished }

  /** A finished countdown never changes again and never calls `onFinish` again. */
  lemma FinishedIsFinal(t: Timer, clock: int)
    requires Consistent(t) && t.finished
    ensures Tick(t, clock) == Step(t, false)
  {
  }

  /** Ticks preserve consistency and never clear `finished`. */
  lemma TickPreserves(t: Timer, clock: int)
    requires Consistent(t)
    ensures Consistent(Tick(t, clock).timer)
    ensures t.finished ==> Tick(t, clock).timer.finished
  {
  }

  /** Runs a sequence of ticks, counting the `onFinish` calls. */
  function Run(t: Timer, clocks: seq<int>): (r: (Timer, nat))
    decreases |clocks|
  {
    if |clocks| == 0 then (t, 0)
    else
      var s := Tick(t, clocks[0]);
      var rest := Run(s.timer, clocks[1..]);
      (rest.0, rest.1 + (if s.fired then 1 else 0))
  }

  /** Some clock reading reaches the end instant. */
  predicate Reaches(clocks: seq<int>, endMs: int)
  {
    exists i :: 0 <= i < |clocks| && clocks[i] >= endMs
  }

  /**
    From a consistent state, `onFinish` is called at most once over any run,
    and not at all if already finished; it is called exactly when some
    reading reaches the end, and the run ends finished exactly then.
   */
  lemma {:induction false} RunFiresOnce(t: Timer, clocks: seq<int>)
    requires Consistent(t)
    ensures Consistent(Run(t, clocks).0)
    ensures Run(t, clocks).0.endMs == t.endMs
    ensures t.finished ==> Run(t, clocks).1 == 0 && Run(t, clocks).0.finished
    ensures !t.finished ==> (Run(t, clocks).1 == 1 <==> Reaches(clocks, t.endMs))
    ensures !t.finished ==> (Run(t, clocks).1 == 0 <==> !Reaches(clocks, t.endMs))
    ensures !t.finished ==> (Run(t, clocks).0.finished <==> Reaches(clocks, t.endMs))
    decreases |clocks|
  {
    if |clocks| > 0 {
      var s := Tick(t, clocks[0]);
      RunFiresOnce(s.timer, clocks[1..]);
      if !t.finished {
        if clocks[0] >= t.endMs {
          assert Reaches(clocks, t.endMs);
        } else {
          assert Reaches(clocks, t.endMs) <==> Reaches(clocks[1..], t.endMs) by {
            if Reaches(clocks, t.endMs) {
              var i :| 0 <= i < |clocks| && clocks[i] >= t.endMs;
              assert clocks[1..][i - 1] == clocks[i];
            }
            if Reaches(clocks[1..], t.endMs) {
              var i :| 0 <= i < |clocks[1..]| && clocks[1..][i] >= t.endMs;
              assert clocks[i + 1] == clocks[1..][i];
            }
          }
        }
      }
    }
  }

  /**
    Over a whole life, mount plus ticks, `onFinish` is called once if the
    mount reading or any tick reading reaches the end instant, and never
    otherwise.
   */
  lemma LifetimeFiresAtMostOnce(formatted: int, mountClock: int, clocks: seq<int>)
    ensures var m := Mount(formatted, mountClock);
      (if m.fired then 1 else 0) + Run(m.timer, clocks).1
        == (if mountClock >= EndMs(formatted) || Reaches(clocks, EndMs(formatted)) then 1 else 0)
  {
    var m := Mount(formatted, mountClock);
    RunFiresOnce(m.timer, clocks);
  }
}
