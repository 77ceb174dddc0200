/**
 The state store's clock: wall-clock milliseconds carried forward by the
 monotonic clock, and moved ahead, never back, by later wall readings.
 */
module StoreClock {
  import opened Wrappers
  import opened Arithmetic

  const NANOS_PER_MILLI: nat := 1_000_000

  datatype Error = Backwards | Overflow

  datatype Clock = Clock(wallAnchor: nat, monotonicAnchor: nat, last: nat)

  /** A wall reading in milliseconds, if there is one, and a monotonic reading in nanoseconds. */
  datatype Reading = Reading(wall: Option<nat>, monotonic: nat)

  function Millis(nanos: nat): (ms: nat) {
    nanos / NANOS_PER_MILLI
  }

  function Start(wall: nat, monotonic: nat): (c: Clock) {
    Clock(wall, monotonic, wall)
  }

  function Observed(c: Clock, r: Reading): (n: Result<Clock, Error>) {
    if r.monotonic < c.monotonicAnchor then Err(Backwards)
    else
      var elapsed := Millis(r.monotonic - c.monotonicAnchor);
      if elapsed > I64_MAX || c.wallAnchor + elapsed > I64_MAX then Err(Overflow)
      else
        var candidate := c.wallAnchor + elapsed;
        if r.wall.Some? && r.wall.value > candidate then Ok(Clock(r.wall.value, r.monotonic, Max(r.wall.value, c.last)))
        else Ok(c.(last := Max(candidate, c.last)))
  }

  class StoreClock {
    var wallAnchor: nat
    var monotonicAnchor: nat
    var last: nat

    function Now(): (c: Clock)
      reads this
    {
      Clock(wallAnchor, monotonicAnchor, last)
    }

    constructor (wall: nat, monotonic: nat)
      ensures Now() == Start(wall, monotonic)
    {
      wallAnchor, monotonicAnchor, last := wall, monotonic, wall;
    }

    /** A reading that is refused leaves the clock as it was. */
    method Observe(r: Reading) returns (result: Result<nat, Error>)
      modifies this
      ensures match Observed(old(Now()), r)
              case Ok(c) => Now() == c && result == Ok(c.last)
              case Err(e) => Now() == old(Now()) && result == Err(e)
    {
      if r.monotonic < monotonicAnchor { return Err(Backwards); }
      var elapsed := Millis(r.monotonic - monotonicAnchor);
      if elapsed > I64_MAX { return Err(Overflow); }
      var candidate := wallAnchor + elapsed;
      if candidate > I64_MAX { return Err(Overflow); }
      if r.wall.Some? && r.wall.value > candidate {
        wallAnchor, monotonicAnchor := r.wall.value, r.monotonic;
        candidate := r.wall.value;
      }
      candidate := Max(candidate, last);
      last := candidate;
      result := Ok(candidate);
    }
  }

  // ----- The clock that remembers everything

  predicate AllBefore(log: seq<Reading>, now: nat) {
    forall i :: 0 <= i < |log| ==> log[i].monotonic <= now
  }

  /** The latest time any reading vouches for at `now`: its wall time plus the whole milliseconds since. */
  function Best(log: seq<Reading>, now: nat): (ms: nat)
    requires AllBefore(log, now)
  {
    if log == [] then 0
    else
      var earlier, r := Best(log[..|log| - 1], now), log[|log| - 1];
      if r.wall.None? then earlier else Max(earlier, r.wall.value + Millis(now - r.monotonic))
  }

  ghost predicate InOrder(log: seq<Reading>) {
    forall i, j :: 0 <= i < j < |log| ==> log[i].monotonic <= log[j].monotonic
  }

  ghost predicate Representable(log: seq<Reading>) {
    forall i :: 0 <= i < |log| && log[i].wall.Some? ==> log[i].wall.value <= I64_MAX
  }

  /** Time that has passed counts in full. */
  lemma {:induction false} BestAdvances(log: seq<Reading>, earlier: nat, now: nat)
    requires log != [] && log[0].wall.Some? && earlier <= now
    requires AllBefore(log, earlier)
    ensures Best(log, earlier) + Millis(now - earlier) <= Best(log, now)
  {
    var r := log[|log| - 1];
    if |log| > 1 {
      BestAdvances(log[..|log| - 1], earlier, now);
    } else {
      assert log[..0] == [];
    }
  }

  /** The constant-size clock stands for the whole log from `time` on. */
  ghost predicate Stands(c: Clock, log: seq<Reading>, time: nat) {
    && AllBefore(log, time)
    && c.monotonicAnchor <= time && log != [] && log[0].wall.Some?
    && (forall now :: time <= now ==> Best(log, now) == c.wallAnchor + Millis(now - c.monotonicAnchor))
    && c.last == Best(log, time)
  }

  lemma StandsAtStart(wall: nat, monotonic: nat)
    ensures Stands(Start(wall, monotonic), [Reading(Some(wall), monotonic)], monotonic)
  {
    assert [Reading(Some(wall), monotonic)][..0] == [];
  }

  lemma ObservedStands(c: Clock, log: seq<Reading>, time: nat, r: Reading, n: Clock)
    requires Stands(c, log, time) && time <= r.monotonic && Observed(c, r) == Ok(n)
    ensures Stands(n, log + [r], r.monotonic)
  {
    forall now | r.monotonic <= now
      ensures Best(log + [r], now) == n.wallAnchor + Millis(now - n.monotonicAnchor)
    {
    }
    BestAdvances(log, time, r.monotonic);
  }

  // ----- Runs

  /** The states of a clock over a list of readings; a refused reading changes nothing. */
  ghost predicate IsRun(wall: nat, monotonic: nat, rs: seq<Reading>, cs: seq<Clock>) {
    && |cs| == |rs| + 1 && cs[0] == Start(wall, monotonic)
    && forall i {:trigger rs[i]} :: 0 <= i < |rs| ==>
       cs[i + 1] == (match Observed(cs[i], rs[i]) case Ok(c) => c case Err(_) => cs[i])
  }

  function Log(wall: nat, monotonic: nat, rs: seq<Reading>): (log: seq<Reading>) {
    [Reading(Some(wall), monotonic)] + rs
  }

  function LastTime(log: seq<Reading>): (t: nat)
    requires log != []
  {
    log[|log| - 1].monotonic
  }

  /** Too late: the whole log, and the anchor, vouch for more than fits. */
  ghost predicate Overflowed(c: Clock, log: seq<Reading>, time: nat) {
    && AllBefore(log, time)
    && c.monotonicAnchor <= time && log != [] && log[0].wall.Some?
    && c.wallAnchor + Millis(time - c.monotonicAnchor) > I64_MAX && Best(log, time) > I64_MAX
  }

  lemma OverflowStays(c: Clock, log: seq<Reading>, time: nat, r: Reading)
    requires (Overflowed(c, log, time) || (Stands(c, log, time) && Observed(c, r).Err?)) && time <= r.monotonic
    ensures Observed(c, r) == Err(Overflow) && Overflowed(c, log + [r], r.monotonic)
  {
    BestAdvances(log, time, r.monotonic);
  }

  lemma {:induction false} ClockSoFar(wall: nat, monotonic: nat, rs: seq<Reading>, cs: seq<Clock>, i: nat)
    requires IsRun(wall, monotonic, rs, cs) && i <= |rs| && InOrder(Log(wall, monotonic, rs))
    ensures var log := Log(wall, monotonic, rs[..i]);
      Stands(cs[i], log, LastTime(log)) || Overflowed(cs[i], log, LastTime(log))
  {
    if i == 0 {
      StandsAtStart(wall, monotonic);
      assert Log(wall, monotonic, rs[..0]) == [Reading(Some(wall), monotonic)];
    } else {
      ClockSoFar(wall, monotonic, rs, cs, i - 1);
      var log, c, r := Log(wall, monotonic, rs[..i - 1]), cs[i - 1], rs[i - 1];
      assert Log(wall, monotonic, rs[..i]) == log + [r];
      assert LastTime(log) == Log(wall, monotonic, rs)[i - 1].monotonic;
      assert Log(wall, monotonic, rs)[i - 1].monotonic <= Log(wall, monotonic, rs)[i].monotonic == r.monotonic;
      if Stands(c, log, LastTime(log)) && Observed(c, r).Ok? {
        ObservedStands(c, log, LastTime(log), r, cs[i]);
      } else {
        OverflowStays(c, log, LastTime(log), r);
      }
    }
  }

  /** The clock with three fields answers as the clock that keeps every reading: the latest time any of them
      vouches for, or an overflow exactly when that does not fit. */
  lemma ClockKeepsHistory(wall: nat, monotonic: nat, rs: seq<Reading>, cs: seq<Clock>, i: nat)
    requires IsRun(wall, monotonic, rs, cs) && i < |rs|
    requires InOrder(Log(wall, monotonic, rs)) && Representable(Log(wall, monotonic, rs))
    ensures AllBefore(Log(wall, monotonic, rs[..i + 1]), rs[i].monotonic)
    ensures var best := Best(Log(wall, monotonic, rs[..i + 1]), rs[i].monotonic);
      match Observed(cs[i], rs[i])
      case Ok(c) => c.last == best <= I64_MAX
      case Err(e) => e == Overflow && best > I64_MAX
  {
    ClockSoFar(wall, monotonic, rs, cs, i);
    var log, c, r := Log(wall, monotonic, rs[..i]), cs[i], rs[i];
    assert Log(wall, monotonic, rs[..i + 1]) == log + [r];
    assert LastTime(log) == Log(wall, monotonic, rs)[i].monotonic;
    assert Log(wall, monotonic, rs)[i].monotonic <= Log(wall, monotonic, rs)[i + 1].monotonic == r.monotonic;
    assert r.wall.Some? ==> Log(wall, monotonic, rs)[i + 1].wall.value <= I64_MAX;
    if Stands(c, log, LastTime(log)) && Observed(c, r).Ok? {
      ObservedStands(c, log, LastTime(log), r, cs[i + 1]);
    } else {
      OverflowStays(c, log, LastTime(log), r);
    }
  }

  /** Whatever the readings, in whatever order, answers never go back. */
  lemma {:induction false} NeverGoesBack(wall: nat, monotonic: nat, rs: seq<Reading>, cs: seq<Clock>, i: nat, j: nat)
    requires IsRun(wall, monotonic, rs, cs) && i <= j < |cs|
    ensures cs[i].last <= cs[j].last
  {
    if i < j {
      NeverGoesBack(wall, monotonic, rs, cs, i, j - 1);
      assert cs[j] == match Observed(cs[j - 1], rs[j - 1]) case Ok(c) => c case Err(_) => cs[j - 1];
    }
  }

  lemma {:induction false} BestOfMore(log: seq<Reading>, k: nat, now: nat)
    requires k <= |log| && AllBefore(log, now)
    ensures Best(log[..k], now) <= Best(log, now)
  {
    if k < |log| {
      BestOfMore(log[..|log| - 1], k, now);
      assert log[..|log| - 1][..k] == log[..k];
    } else {
      assert log[..k] == log;
    }
  }

  /** A longer log, at a later time, vouches for at least the time that passed. */
  lemma BestOfLater(log: seq<Reading>, i: nat, j: nat)
    requires InOrder(log) && i <= j < |log| && log[0].wall.Some?
    ensures log[i].monotonic <= log[j].monotonic
    ensures AllBefore(log[..i + 1], log[i].monotonic)
    ensures AllBefore(log[..j + 1], log[j].monotonic)
    ensures Best(log[..i + 1], log[i].monotonic) + Millis(log[j].monotonic - log[i].monotonic)
         <= Best(log[..j + 1], log[j].monotonic)
  {
    BestAdvances(log[..i + 1], log[i].monotonic, log[j].monotonic);
    BestOfMore(log[..j + 1], i + 1, log[j].monotonic);
    assert log[..j + 1][..i + 1] == log[..i + 1];
  }

  /** Between two answers at least the whole milliseconds that really passed are counted. */
  lemma NeverLags(wall: nat, monotonic: nat, rs: seq<Reading>, cs: seq<Clock>, i: nat, j: nat)
    requires IsRun(wall, monotonic, rs, cs) && i <= j < |rs|
    requires InOrder(Log(wall, monotonic, rs)) && Representable(Log(wall, monotonic, rs))
    requires Observed(cs[i], rs[i]).Ok? && Observed(cs[j], rs[j]).Ok?
    ensures rs[i].monotonic <= rs[j].monotonic
    ensures cs[i + 1].last + Millis(rs[j].monotonic - rs[i].monotonic) <= cs[j + 1].last
  {
    var log := Log(wall, monotonic, rs);
    BestOfLater(log, i + 1, j + 1);
    AnswerIsBest(wall, monotonic, rs, cs, i);
    AnswerIsBest(wall, monotonic, rs, cs, j);
  }

  lemma AnswerIsBest(wall: nat, monotonic: nat, rs: seq<Reading>, cs: seq<Clock>, i: nat)
    requires IsRun(wall, monotonic, rs, cs) && i < |rs| && Observed(cs[i], rs[i]).Ok?
    requires InOrder(Log(wall, monotonic, rs)) && Representable(Log(wall, monotonic, rs))
    ensures var log := Log(wall, monotonic, rs);
            && log[i + 1] == rs[i]
            && AllBefore(log[..i + 2], rs[i].monotonic)
            && cs[i + 1].last == Best(log[..i + 2], rs[i].monotonic)
  {
    var log := Log(wall, monotonic, rs);
    ClockKeepsHistory(wall, monotonic, rs, cs, i);
    assert log[..i + 2] == Log(wall, monotonic, rs[..i + 1]);
  }
}
