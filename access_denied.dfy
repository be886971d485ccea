/**
 * The access-denied page: a countdown that starts at 1600 seconds,
 * loses one second per tick and rests at 0, shown as `Mm Ss`. It reads no
 * storage and no settings, and reaching 0 does nothing.
 */
module AccessDenied {
  import opened Wrappers
  import opened Text

  const InitialSeconds := 1600

  /** One tick: `prev > 0 ? prev - 1 : 0`. */
  function Decrement(prev: int): int {
    if prev > 0 then prev - 1 else 0
  }

  /** The counter after `n` ticks. */
  function Remaining(n: nat): int {
    if n == 0 then InitialSeconds else Decrement(Remaining(n - 1))
  }

  /** After `n` ticks the counter shows 1600 - n, and 0 from the 1600th tick on. */
  lemma {:induction false} RemainingClosedForm(n: nat)
    ensures Remaining(n) == if n <= InitialSeconds then InitialSeconds - n else 0
  {
    if n > 0 {
      RemainingClosedForm(n - 1);
    }
  }

  /** The counter never goes below 0, never rises, and stays at 0 once there. */
  lemma CountdownSettles(n: nat, m: nat)
    requires n <= m
    ensures 0 <= Remaining(m) <= Remaining(n) <= InitialSeconds
    ensures n >= InitialSeconds ==> Remaining(n) == 0 && Remaining(m) == 0
  {
    RemainingClosedForm(n);
    RemainingClosedForm(m);
  }

  /** formatTime's fields: whole minutes and the seconds left over. */
  function MinSec(sec: nat): (f: (nat, nat))
    ensures f.1 < 60 && f.0 * 60 + f.1 == sec
  {
    (sec / 60, sec % 60)
  }

  /** formatTime: `${m}m ${s}s`, seconds not padded. */
  function FormatMinSec(sec: nat): string {
    NatToString(MinSec(sec).0) + "m " + NatToString(MinSec(sec).1) + "s"
  }

  /** Reads an `Mm Ss` text back into a number of seconds; None for any other text. */
  function ParseMinSec(t: string): Option<nat> {
    var i := IndexOf(t, 'm');
    if 0 < i && i + 3 < |t| && t[i + 1] == ' ' && t[|t| - 1] == 's'
       && AllDigits(t[..i]) && AllDigits(t[i + 2..|t| - 1])
    then Some(60 * ParseNat(t[..i]) + ParseNat(t[i + 2..|t| - 1]))
    else None
  }

  /** The banner text names exactly the seconds left: reading it back gives them. */
  lemma FormatMinSecRoundTrip(sec: nat)
    ensures ParseMinSec(FormatMinSec(sec)) == Some(sec)
  {
    var (m, s) := MinSec(sec);
    var mt, st := NatToString(m), NatToString(s);
    var t := mt + "m " + st + "s";
    assert t == FormatMinSec(sec);
    assert t[|mt|] == 'm';
    var i := IndexOf(t, 'm');
    assert i == |mt|;
    assert t[..i] == mt;
    assert t[i + 2..|t| - 1] == st;
    ParseNatToString(m);
    ParseNatToString(s);
  }

  /** The page's state. `ticks` counts the interval's callbacks since mounting. */
  class DeniedPage {
    var timeLeft: int
    ghost var ticks: nat

    ghost predicate Valid()
      reads this
    {
      timeLeft == Remaining(ticks) && 0 <= timeLeft <= InitialSeconds
    }

    /** Mounting the page starts the counter at 1600 seconds. */
    constructor ()
      ensures Valid() && ticks == 0 && timeLeft == InitialSeconds
    {
      timeLeft := InitialSeconds;
      ticks := 0;
    }

    /** The interval's callback, once a second. */
    method Tick()
      requires Valid()
      modifies this
      ensures Valid() && ticks == old(ticks) + 1
      ensures timeLeft == Decrement(old(timeLeft))
    {
      timeLeft := if timeLeft > 0 then timeLeft - 1 else 0;
      ticks := ticks + 1;
    }

    /** The time shown on the page. */
    function Banner(): string
      reads this
      requires Valid()
    {
      FormatMinSec(timeLeft)
    }
  }
}
