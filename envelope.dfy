/** The ADSR (attack, decay, sustain, release) amplitude envelope of the synthesizer.

    The envelope is one mutable object: its shape parameters are fixed at construction and
    only the gate flag and the two trigger times change, through NoteOn and NoteOff.
    The amplitude at a point in time is a query that only reads the object.
    Floating-point doubles are modelled as exact reals.
 */
module Envelope {

  /** Amplitudes at or below this level are silenced to exactly 0. */
  const SilenceThreshold: real := 0.0001

  /** The final step of every amplitude query: near-zero and negative values become 0. */
  function Clamp(a: real): (r: real)
    ensures r == 0.0 || r > SilenceThreshold
    ensures r != 0.0 ==> r == a
    ensures a > SilenceThreshold ==> r == a
  {
    if a <= SilenceThreshold then 0.0 else a
  }

  function Max(x: real, y: real): real
  {
    if x < y then y else x
  }

  function Min(x: real, y: real): real
  {
    if x < y then x else y
  }

  class EnvelopeADSR {
    var attackTime: real
    var decayTime: real
    var sustainAmplitude: real
    var releaseTime: real
    var startAmplitude: real
    var triggerOffTime: real
    var triggerOnTime: real
    var noteOn: bool

    /** The default envelope: a short attack to full level, a very short decay to 0.8
        and a 0.2 second release; the gate is closed. */
    constructor ()
      ensures attackTime == 0.10 && decayTime == 0.01 && startAmplitude == 1.0
      ensures sustainAmplitude == 0.8 && releaseTime == 0.20
      ensures !noteOn && triggerOffTime == 0.0 && triggerOnTime == 0.0
    {
      attackTime := 0.10;
      decayTime := 0.01;
      startAmplitude := 1.0;
      sustainAmplitude := 0.8;
      releaseTime := 0.20;
      noteOn := false;
      triggerOffTime := 0.0;
      triggerOnTime := 0.0;
    }

    /** An envelope with the given durations and sustain level; the attack always peaks at 1.0. */
    constructor WithTimes(attack: real, decay: real, sustain: real, release: real)
      ensures attackTime == attack && decayTime == decay
      ensures sustainAmplitude == sustain && releaseTime == release
      ensures startAmplitude == 1.0
      ensures !noteOn && triggerOffTime == 0.0 && triggerOnTime == 0.0
    {
      attackTime := attack;
      decayTime := decay;
      sustainAmplitude := sustain;
      releaseTime := release;
      startAmplitude := 1.0;
      noteOn := false;
      triggerOffTime := 0.0;
      triggerOnTime := 0.0;
    }

    /** Opens the gate at timeOn; the release time of the previous note is kept. */
    method NoteOn(timeOn: real)
      modifies this
      ensures triggerOnTime == timeOn && noteOn
      ensures triggerOffTime == old(triggerOffTime)
      ensures Shape() == old(Shape())
    {
      triggerOnTime := timeOn;
      noteOn := true;
    }

    /** Closes the gate at timeOff; the trigger time of the note is kept. */
    method NoteOff(timeOff: real)
      modifies this
      ensures triggerOffTime == timeOff && !noteOn
      ensures triggerOnTime == old(triggerOnTime)
      ensures Shape() == old(Shape())
    {
      triggerOffTime := timeOff;
      noteOn := false;
    }

    /** The five shape parameters, which no operation changes after construction. */
    function Shape(): (real, real, real, real, real)
      reads this
    {
      (attackTime, decayTime, sustainAmplitude, releaseTime, startAmplitude)
    }

    /** The durations a sensible envelope has: none of them negative. */
    predicate NonNegativeDurations()
      reads this
    {
      attackTime >= 0.0 && decayTime >= 0.0 && releaseTime >= 0.0
    }

    /** Every division the amplitude query performs at this time has a nonzero divisor.
        The attack ramp divides by the attack time whenever the life time has not passed it,
        the release ramp always divides by the release time, and the decay ramp is only
        entered when the decay time is positive. */
    predicate DividesSafely(time: real)
      reads this
    {
      if noteOn then time - triggerOnTime <= attackTime ==> attackTime != 0.0
      else releaseTime != 0.0
    }

    /** Ramp from 0 at life time 0 to the start amplitude at the end of the attack. */
    function AttackLine(lifeTime: real): real
      reads this
      requires attackTime != 0.0
    {
      (lifeTime / attackTime) * startAmplitude
    }

    /** Line from the start amplitude at the end of the attack to the sustain level at the
        end of the decay. */
    function DecayLine(lifeTime: real): real
      reads this
      requires decayTime != 0.0
    {
      ((lifeTime - attackTime) / decayTime) * (sustainAmplitude - startAmplitude) + startAmplitude
    }

    /** Ramp from the sustain level at the release trigger down to 0 one release time later. */
    function ReleaseLine(sinceOff: real): real
      reads this
      requires releaseTime != 0.0
    {
      (sinceOff / releaseTime) * (0.0 - sustainAmplitude) + sustainAmplitude
    }

    /** The amplitude before silencing: while the gate is open, three guarded assignments
        in order (attack, decay, sustain), the last one whose guard holds winning; while it
        is closed, the release ramp. */
    function RawAmplitude(time: real): real
      reads this
      requires DividesSafely(time)
    {
      var lifeTime := time - triggerOnTime;
      if noteOn then
        var afterAttack := if lifeTime <= attackTime then AttackLine(lifeTime) else 0.0;
        var afterDecay :=
          if lifeTime > attackTime && lifeTime <= attackTime + decayTime then DecayLine(lifeTime)
          else afterAttack;
        if lifeTime > attackTime + decayTime then sustainAmplitude else afterDecay
      else
        ReleaseLine(time - triggerOffTime)
    }

    /** The envelope's amplitude at the given time. It only reads the envelope, is never
        negative, and is either exactly 0 or above the silence threshold. */
    function GetAmplitude(time: real): (r: real)
      reads this
      requires DividesSafely(time)
      ensures r == 0.0 || r > SilenceThreshold
      ensures r >= 0.0
      ensures r != 0.0 ==> r == RawAmplitude(time)
      ensures RawAmplitude(time) > SilenceThreshold ==> r == RawAmplitude(time)
    {
      Clamp(RawAmplitude(time))
    }
  }
}
