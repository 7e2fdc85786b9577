/** Properties of the fan driver over calls and traces. */
module FanDriverProofs {
  import opened Base
  import opened FanDriver

  /** Repeating a power command changes nothing: the timer is neither
      stopped nor reconfigured the second time. */
  lemma SetPowerIdempotent(f: Fan, p: uint8)
    ensures SetPower(SetPower(f, p), p) == SetPower(f, p)
  {
  }

  /** The first `set_power(0)` after initialisation is swallowed by the
      repeat check: the driver stays in phase-control mode. */
  lemma FirstSetPowerZeroIsIgnored(period: uint32)
    ensures SetPower(Init(period), 0) == Init(period)
    ensures !SetPower(Init(period), 0).manualDrive
  {
  }

  /** The phase delay never grows as power grows. */
  lemma DelayNonIncreasing(p: uint8, q: uint8)
    requires 0 < p <= q < 100
    ensures DelayFor(q) <= DelayFor(p)
  {
  }

  /** In phase-control mode a zero-crossing followed by the timer expiry
      turns the line off and then on again, leaving no pending delay. */
  lemma PhaseCycle(f: Fan)
    requires !f.manualDrive
    ensures !ZeroCross(f).fanOn && ZeroCross(f).timerArmed
    ensures LaunchTriac(ZeroCross(f)).fanOn && !LaunchTriac(ZeroCross(f)).timerArmed
  {
  }

  /** In manual mode zero-crossings cannot arm the timer, so the line keeps
      the level the last power command forced. */
  lemma ManualIgnoresZeroCross(f: Fan)
    requires f.manualDrive
    ensures ZeroCross(f) == f
  {
  }

  /** Every state reachable from initialisation through any interleaving
      of power commands and interrupts satisfies the driver invariant. */
  lemma {:induction false} RunPreservesInv(f: Fan, es: seq<FanEvent>)
    requires Inv(f)
    ensures Inv(Run(f, es))
    decreases |es|
  {
    if es != [] {
      RunPreservesInv(Step(f, es[0]), es[1..]);
    }
  }

  /** Power commands alone: the remembered power is the last command of
      the trace, and the timer is disarmed once the first command took
      effect (or was not armed to begin with), since only a zero crossing
      arms it. */
  lemma {:induction false} LastCommandWins(f: Fan, ps: seq<uint8>)
    requires |ps| > 0
    ensures Run(f, Commands(ps)).prevPowerPerc == ps[|ps| - 1]
    ensures !f.timerArmed || f.prevPowerPerc != ps[0] ==> !Run(f, Commands(ps)).timerArmed
    decreases |ps|
  {
    if |ps| > 1 {
      LastCommandWins(SetPower(f, ps[0]), ps[1..]);
      assert Commands(ps)[1..] == Commands(ps[1..]);
    } else {
      assert Commands(ps)[1..] == [];
    }
  }

  function Commands(ps: seq<uint8>): (es: seq<FanEvent>)
    ensures |es| == |ps|
    ensures forall i :: 0 <= i < |ps| ==> es[i] == SetPowerEvent(ps[i])
  {
    seq(|ps|, i requires 0 <= i < |ps| => SetPowerEvent(ps[i]))
  }
}
