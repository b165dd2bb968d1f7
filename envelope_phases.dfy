/** What the amplitude query promises in each phase of the envelope, how the phases meet,
    and the bounds the amplitude keeps. */
module EnvelopePhases {
  import opened Envelope

  /** Attack: while the life time is within the attack, the amplitude is the linear ramp
      towards the start amplitude, and it stays between 0 and that amplitude. */
  lemma AttackPhase(e: EnvelopeADSR, time: real)
    requires e.noteOn && e.attackTime > 0.0 && e.decayTime >= 0.0
    requires 0.0 <= time - e.triggerOnTime <= e.attackTime
    ensures e.GetAmplitude(time) == Clamp(((time - e.triggerOnTime) / e.attackTime) * e.startAmplitude)
    ensures e.startAmplitude >= 0.0 ==> e.GetAmplitude(time) <= e.startAmplitude
  {
    var lifeTime := time - e.triggerOnTime;
    if e.startAmplitude >= 0.0 {
      FractionBelowOne(lifeTime, e.attackTime);
      ScaledByFraction(lifeTime / e.attackTime, e.startAmplitude);
    }
  }

  /** The attack ends exactly on the start amplitude. */
  lemma AttackPeak(e: EnvelopeADSR, time: real)
    requires e.noteOn && e.attackTime > 0.0 && e.decayTime >= 0.0
    requires time - e.triggerOnTime == e.attackTime
    ensures e.GetAmplitude(time) == Clamp(e.startAmplitude)
  {
    assert e.attackTime / e.attackTime == 1.0;
  }

  /** Decay: after the attack and until the end of the decay, the amplitude follows the line
      from the start amplitude to the sustain level and lies between the two. */
  lemma DecayPhase(e: EnvelopeADSR, time: real)
    requires e.noteOn
    requires e.attackTime < time - e.triggerOnTime <= e.attackTime + e.decayTime
    ensures e.decayTime > 0.0
    ensures e.GetAmplitude(time) == Clamp(e.DecayLine(time - e.triggerOnTime))
    ensures Min(e.startAmplitude, e.sustainAmplitude) <= e.RawAmplitude(time)
                                                     <= Max(e.startAmplitude, e.sustainAmplitude)
  {
    var f := (time - e.triggerOnTime - e.attackTime) / e.decayTime;
    FractionBelowOne(time - e.triggerOnTime - e.attackTime, e.decayTime);
    Interpolates(f, e.startAmplitude, e.sustainAmplitude);
  }

  /** The decay ends exactly on the sustain level, so it meets the sustain phase. */
  lemma DecayReachesSustain(e: EnvelopeADSR, time: real)
    requires e.noteOn && e.decayTime > 0.0
    requires time - e.triggerOnTime == e.attackTime + e.decayTime
    ensures e.GetAmplitude(time) == Clamp(e.sustainAmplitude)
  {
    assert e.decayTime / e.decayTime == 1.0;
  }

  /** The pieces of the envelope meet at their boundaries: the attack and decay lines both
      give the start amplitude at the end of the attack, the decay line gives the sustain
      level at the end of the decay, and the release line starts at the sustain level and
      reaches 0 one release time after the gate closes. */
  lemma PhaseBoundariesMeet(e: EnvelopeADSR)
    requires e.attackTime != 0.0 && e.decayTime != 0.0 && e.releaseTime != 0.0
    ensures e.AttackLine(e.attackTime) == e.startAmplitude == e.DecayLine(e.attackTime)
    ensures e.DecayLine(e.attackTime + e.decayTime) == e.sustainAmplitude
    ensures e.ReleaseLine(0.0) == e.sustainAmplitude
    ensures e.ReleaseLine(e.releaseTime) == 0.0
  {
    assert e.attackTime / e.attackTime == 1.0;
    assert e.decayTime / e.decayTime == 1.0;
    assert e.releaseTime / e.releaseTime == 1.0;
  }

  /** Sustain: once the life time is past attack and decay, the amplitude is the sustain
      level, whatever the time. */
  lemma SustainHolds(e: EnvelopeADSR, time: real)
    requires e.noteOn && e.DividesSafely(time)
    requires time - e.triggerOnTime > e.attackTime + e.decayTime
    ensures e.GetAmplitude(time) == Clamp(e.sustainAmplitude)
  {
  }

  /** Release: with the gate closed the amplitude depends only on the time since the gate
      closed, the sustain level and the release time; not on when the note was triggered,
      nor on the attack and decay. */
  lemma ReleaseDependsOnlyOnOffset(e1: EnvelopeADSR, e2: EnvelopeADSR, t1: real, t2: real)
    requires !e1.noteOn && !e2.noteOn && e1.releaseTime != 0.0
    requires e1.sustainAmplitude == e2.sustainAmplitude && e1.releaseTime == e2.releaseTime
    requires t1 - e1.triggerOffTime == t2 - e2.triggerOffTime
    ensures e2.DividesSafely(t2)
    ensures e1.GetAmplitude(t1) == e2.GetAmplitude(t2)
  {
    assert e1.RawAmplitude(t1) == e1.ReleaseLine(t1 - e1.triggerOffTime);
    assert e2.RawAmplitude(t2) == e2.ReleaseLine(t2 - e2.triggerOffTime);
  }

  /** The release starts from the sustain level, whatever the amplitude was when the gate
      closed. */
  lemma ReleaseStartsAtSustain(e: EnvelopeADSR, time: real)
    requires !e.noteOn && e.releaseTime != 0.0 && time == e.triggerOffTime
    ensures e.GetAmplitude(time) == Clamp(e.sustainAmplitude)
  {
  }

  /** During the release the amplitude lies between 0 and the sustain level. */
  lemma ReleaseBounded(e: EnvelopeADSR, time: real)
    requires !e.noteOn && e.releaseTime > 0.0 && e.sustainAmplitude >= 0.0
    requires 0.0 <= time - e.triggerOffTime <= e.releaseTime
    ensures 0.0 <= e.RawAmplitude(time) <= e.sustainAmplitude
    ensures e.GetAmplitude(time) <= e.sustainAmplitude
  {
    FractionBelowOne(time - e.triggerOffTime, e.releaseTime);
    Interpolates((time - e.triggerOffTime) / e.releaseTime, e.sustainAmplitude, 0.0);
  }

  /** One release time after the gate closes, and at every later time, the envelope is silent. */
  lemma ReleaseEndsSilent(e: EnvelopeADSR, time: real)
    requires !e.noteOn && e.releaseTime > 0.0 && e.sustainAmplitude >= 0.0
    requires time >= e.triggerOffTime + e.releaseTime
    ensures e.GetAmplitude(time) == 0.0
  {
    var f := (time - e.triggerOffTime) / e.releaseTime;
    assert f >= 1.0 by {
      assert f * e.releaseTime == time - e.triggerOffTime;
    }
    assert f * (0.0 - e.sustainAmplitude) <= 0.0 - e.sustainAmplitude;
  }

  /** Retriggering cuts off whatever was sounding: at the moment of a NoteOn (with a positive
      attack) the amplitude is 0, regardless of an unfinished attack or release before it. */
  lemma RetriggerRestartsAttack(e: EnvelopeADSR, time: real)
    requires e.noteOn && e.attackTime > 0.0 && e.decayTime >= 0.0 && e.triggerOnTime == time
    ensures e.GetAmplitude(time) == 0.0
  {
  }

  /** With non-negative durations, levels and a gate that did not close in the future, the
      amplitude never exceeds the larger of the start amplitude and the sustain level. */
  lemma AmplitudeBounded(e: EnvelopeADSR, time: real)
    requires e.NonNegativeDurations() && e.DividesSafely(time)
    requires e.startAmplitude >= 0.0 && e.sustainAmplitude >= 0.0
    requires !e.noteOn ==> time >= e.triggerOffTime
    ensures 0.0 <= e.GetAmplitude(time) <= Max(e.startAmplitude, e.sustainAmplitude)
  {
    var lifeTime := time - e.triggerOnTime;
    if !e.noteOn {
      if time - e.triggerOffTime <= e.releaseTime {
        ReleaseBounded(e, time);
      } else {
        ReleaseEndsSilent(e, time);
      }
    } else if lifeTime > e.attackTime + e.decayTime {
      SustainHolds(e, time);
    } else if lifeTime > e.attackTime {
      DecayPhase(e, time);
    } else if lifeTime >= 0.0 {
      AttackPhase(e, time);
    } else {
      assert e.attackTime > 0.0;
      assert lifeTime / e.attackTime < 0.0;
      assert e.RawAmplitude(time) <= 0.0;
    }
  }

  /** The instance the program plays through has no attack, a 0.1 second decay from 1.0 to
      1.0 (so no audible decay) and a 0.1 second release: once the note has started it
      sounds at full level until the gate closes. */
  lemma ZeroAttackEnvelopeHoldsFullLevel(e: EnvelopeADSR, time: real)
    requires e.attackTime == 0.0 && e.decayTime == 0.1 && e.sustainAmplitude == 1.0
    requires e.startAmplitude == 1.0 && e.noteOn && time > e.triggerOnTime
    ensures e.DividesSafely(time)
    ensures e.GetAmplitude(time) == 1.0
  {
  }

  /** Continuity while the gate is open: with positive attack and decay, the amplitude
      before silencing changes by at most `slope` per second, for any slope at least as
      steep as the attack ramp and the decay line. Across the attack/decay and
      decay/sustain boundaries there is therefore no jump. */
  lemma OpenEnvelopeContinuous(e: EnvelopeADSR, t1: real, t2: real, slope: real)
    requires e.noteOn && e.attackTime > 0.0 && e.decayTime > 0.0
    requires slope * e.attackTime >= Abs(e.startAmplitude)
    requires slope * e.decayTime >= Abs(e.sustainAmplitude - e.startAmplitude)
    ensures Abs(e.RawAmplitude(t2) - e.RawAmplitude(t1)) <= slope * Abs(t2 - t1)
  {
    AttackSlope(e, slope);
    DecaySlope(e, slope);
    var r1, r2 := e.RawAmplitude(t1), e.RawAmplitude(t2);
    if t1 <= t2 {
      OrderedContinuous(e, t1, t2, slope);
      ScaledDistance(r2 - r1, slope, t1, t2);
    } else {
      OrderedContinuous(e, t2, t1, slope);
      ScaledDistance(r2 - r1, slope, t2, t1);
    }
  }

  lemma OrderedContinuous(e: EnvelopeADSR, lo: real, hi: real, slope: real)
    requires e.noteOn && e.attackTime > 0.0 && e.decayTime > 0.0 && lo <= hi
    requires Abs(e.startAmplitude / e.attackTime) <= slope
    requires Abs((e.sustainAmplitude - e.startAmplitude) / e.decayTime) <= slope
    ensures Abs(e.RawAmplitude(hi) - e.RawAmplitude(lo)) <= slope * (hi - lo)
    ensures Abs(e.RawAmplitude(lo) - e.RawAmplitude(hi)) <= slope * (hi - lo)
  {
    var on := e.triggerOnTime;
    var atA, atB := on + e.attackTime, on + e.attackTime + e.decayTime;
    if hi <= atA {
      AttackPiece(e, slope, lo, hi);
    } else if lo >= atB {
      SustainPiece(e, slope, lo, hi);
    } else if lo >= atA && hi <= atB {
      DecayPiece(e, slope, lo, hi);
    } else if lo < atA && hi <= atB {
      AttackPiece(e, slope, lo, atA);
      DecayPiece(e, slope, atA, hi);
      Triangle(e.RawAmplitude(lo), e.RawAmplitude(atA), e.RawAmplitude(hi));
    } else if lo >= atA {
      DecayPiece(e, slope, lo, atB);
      SustainPiece(e, slope, atB, hi);
      Triangle(e.RawAmplitude(lo), e.RawAmplitude(atB), e.RawAmplitude(hi));
    } else {
      AttackPiece(e, slope, lo, atA);
      DecayPiece(e, slope, atA, atB);
      SustainPiece(e, slope, atB, hi);
      Triangle(e.RawAmplitude(lo), e.RawAmplitude(atA), e.RawAmplitude(atB));
      Triangle(e.RawAmplitude(lo), e.RawAmplitude(atB), e.RawAmplitude(hi));
    }
  }

  lemma NonNegativeProduct(x: real, y: real)
    requires x >= 0.0 && y >= 0.0
    ensures x * y >= 0.0
  {
  }

  lemma ScaledDistance(change: real, slope: real, u: real, v: real)
    requires u <= v && Abs(change) <= slope * (v - u)
    ensures Abs(change) <= slope * Abs(v - u) && Abs(change) <= slope * Abs(u - v)
  {
  }

  lemma Triangle(x: real, y: real, z: real)
    ensures Abs(z - x) <= Abs(y - x) + Abs(z - y)
    ensures Abs(x - z) == Abs(z - x)
  {
  }

  function Abs(x: real): real
  {
    if x < 0.0 then -x else x
  }

  lemma AttackSlope(e: EnvelopeADSR, slope: real)
    requires e.attackTime > 0.0 && slope * e.attackTime >= Abs(e.startAmplitude)
    ensures Abs(e.startAmplitude / e.attackTime) <= slope
  {
    SlopeBound(e.startAmplitude, e.attackTime, slope);
  }

  lemma DecaySlope(e: EnvelopeADSR, slope: real)
    requires e.decayTime > 0.0 && slope * e.decayTime >= Abs(e.sustainAmplitude - e.startAmplitude)
    ensures Abs((e.sustainAmplitude - e.startAmplitude) / e.decayTime) <= slope
  {
    SlopeBound(e.sustainAmplitude - e.startAmplitude, e.decayTime, slope);
  }

  lemma SlopeBound(rise: real, run: real, slope: real)
    requires run > 0.0 && slope * run >= Abs(rise)
    ensures Abs(rise / run) <= slope
  {
    assert (rise / run) * run == rise;
    if rise / run > slope {
      assert (rise / run) * run > slope * run;
    } else if -(rise / run) > slope {
      assert -(rise / run) * run > slope * run;
    }
  }

  /** A line of gradient k changes by at most slope * (v - u) over [u, v] when |k| <= slope. */
  lemma LineStep(k: real, u: real, v: real, slope: real)
    requires u <= v && Abs(k) <= slope
    ensures Abs(k * (v - u)) <= slope * (v - u)
  {
    assert k <= slope && -k <= slope;
    NonNegativeProduct(slope - k, v - u);
    NonNegativeProduct(slope + k, v - u);
    assert (slope - k) * (v - u) == slope * (v - u) - k * (v - u);
    assert (slope + k) * (v - u) == slope * (v - u) + k * (v - u);
  }

  /** From the end of the decay on, the amplitude is constant. */
  lemma SustainPiece(e: EnvelopeADSR, slope: real, u: real, v: real)
    requires e.noteOn && e.attackTime > 0.0 && e.decayTime > 0.0
    requires u <= v && u - e.triggerOnTime >= e.attackTime + e.decayTime
    requires slope >= 0.0
    ensures Abs(e.RawAmplitude(v) - e.RawAmplitude(u)) <= slope * (v - u)
  {
    assert e.RawAmplitude(u) == e.sustainAmplitude by {
      assert e.decayTime / e.decayTime == 1.0;
    }
    assert slope * (v - u) >= 0.0;
  }

  /** Within the attack (life time at most the attack time) the amplitude is the attack ramp. */
  lemma AttackPiece(e: EnvelopeADSR, slope: real, u: real, v: real)
    requires e.noteOn && e.attackTime > 0.0 && e.decayTime > 0.0
    requires u <= v && v - e.triggerOnTime <= e.attackTime
    requires Abs(e.startAmplitude / e.attackTime) <= slope
    ensures Abs(e.RawAmplitude(v) - e.RawAmplitude(u)) <= slope * (v - u)
  {
    var k := e.startAmplitude / e.attackTime;
    var on := e.triggerOnTime;
    assert e.RawAmplitude(v) - e.RawAmplitude(u) == k * (v - u) by {
      assert e.RawAmplitude(v) == ((v - on) / e.attackTime) * e.startAmplitude;
      assert e.RawAmplitude(u) == ((u - on) / e.attackTime) * e.startAmplitude;
      assert ((v - on) / e.attackTime) * e.startAmplitude == (v - on) * k;
      assert ((u - on) / e.attackTime) * e.startAmplitude == (u - on) * k;
    }
    LineStep(k, u, v, slope);
  }

  /** From the end of the attack to the end of the decay the amplitude is the decay line. */
  lemma DecayPiece(e: EnvelopeADSR, slope: real, u: real, v: real)
    requires e.noteOn && e.attackTime > 0.0 && e.decayTime > 0.0
    requires u <= v && e.attackTime <= u - e.triggerOnTime && v - e.triggerOnTime <= e.attackTime + e.decayTime
    requires Abs((e.sustainAmplitude - e.startAmplitude) / e.decayTime) <= slope
    ensures Abs(e.RawAmplitude(v) - e.RawAmplitude(u)) <= slope * (v - u)
  {
    var k := (e.sustainAmplitude - e.startAmplitude) / e.decayTime;
    OnDecayLine(e, u);
    OnDecayLine(e, v);
    assert e.RawAmplitude(v) - e.RawAmplitude(u) == k * (v - u);
    LineStep(k, u, v, slope);
  }

  /** From the end of the attack to the end of the decay, the amplitude is on the decay line
      (at the end of the attack it is the attack peak, which is the same value). */
  lemma OnDecayLine(e: EnvelopeADSR, t: real)
    requires e.noteOn && e.attackTime > 0.0 && e.decayTime > 0.0
    requires e.attackTime <= t - e.triggerOnTime <= e.attackTime + e.decayTime
    ensures e.RawAmplitude(t) ==
              (t - e.triggerOnTime - e.attackTime) * ((e.sustainAmplitude - e.startAmplitude) / e.decayTime)
              + e.startAmplitude
  {
    var x := t - e.triggerOnTime - e.attackTime;
    if x == 0.0 {
      assert e.attackTime / e.attackTime == 1.0;
      assert e.RawAmplitude(t) == e.startAmplitude;
    } else {
      DivideThenScale(x, e.decayTime, e.sustainAmplitude - e.startAmplitude);
    }
  }

  lemma DivideThenScale(x: real, d: real, r: real)
    requires d != 0.0
    ensures (x / d) * r == x * (r / d)
  {
    assert x / d == x * (1.0 / d);
    assert r / d == r * (1.0 / d);
  }

  // Arithmetic helpers for the ramps.

  lemma FractionBelowOne(x: real, d: real)
    requires d > 0.0 && 0.0 <= x <= d
    ensures 0.0 <= x / d <= 1.0
  {
    assert (x / d) * d == x;
  }

  lemma ScaledByFraction(f: real, a: real)
    requires 0.0 <= f <= 1.0 && a >= 0.0
    ensures 0.0 <= f * a <= a
  {
    NonNegativeProduct(f, a);
    NonNegativeProduct(1.0 - f, a);
    assert (1.0 - f) * a == a - f * a;
  }

  /** A point f of the way from a to b lies between a and b. */
  lemma Interpolates(f: real, a: real, b: real)
    requires 0.0 <= f <= 1.0
    ensures Min(a, b) <= f * (b - a) + a <= Max(a, b)
  {
    if a <= b {
      NonNegativeProduct(f, b - a);
      NonNegativeProduct(1.0 - f, b - a);
      assert (1.0 - f) * (b - a) == (b - a) - f * (b - a);
    } else {
      NonNegativeProduct(f, a - b);
      NonNegativeProduct(1.0 - f, a - b);
      assert (1.0 - f) * (a - b) == (a - b) - f * (a - b);
      assert f * (b - a) == -(f * (a - b));
    }
  }
}
