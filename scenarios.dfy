/** Concrete note sequences on a freshly built envelope, and the amplitudes they produce. */
module EnvelopeScenarios {
  import opened Envelope

  /** Attack 0.1, decay 0.01, sustain 0.8, release 0.1; a note held from 0 to 0.5.
      Samples at 0 (start of the attack), 0.1 (peak), 0.11 (end of the decay), 0.5 (sustain),
      then after the release at 0.55 (half way) and 0.6 (end of the release). */
  method HeldNote() returns (amplitudes: seq<real>)
    ensures amplitudes == [0.0, 1.0, 0.8, 0.8, 0.4, 0.0]
  {
    var e := new EnvelopeADSR.WithTimes(0.1, 0.01, 0.8, 0.1);
    e.NoteOn(0.0);
    var atStart := e.GetAmplitude(0.0);
    var atPeak := e.GetAmplitude(0.1);
    var afterDecay := e.GetAmplitude(0.11);
    var held := e.GetAmplitude(0.5);
    e.NoteOff(0.5);
    var halfReleased := e.GetAmplitude(0.55);
    var released := e.GetAmplitude(0.6);
    amplitudes := [atStart, atPeak, afterDecay, held, halfReleased, released];
  }

  /** The same envelope, released during the attack and retriggered during the release:
      at 0.04 the attack is at 0.4; the release at 0.05 starts from the sustain level 0.8
      rather than from where the attack had got to; the retrigger at 0.06 restarts from 0. */
  method InterruptedNote() returns (amplitudes: seq<real>)
    ensures amplitudes == [0.4, 0.8, 0.0]
  {
    var e := new EnvelopeADSR.WithTimes(0.1, 0.01, 0.8, 0.1);
    e.NoteOn(0.0);
    var inAttack := e.GetAmplitude(0.04);
    e.NoteOff(0.05);
    var releaseStart := e.GetAmplitude(0.05);
    e.NoteOn(0.06);
    var retriggered := e.GetAmplitude(0.06);
    amplitudes := [inAttack, releaseStart, retriggered];
  }

  /** The default envelope: a note held from 1 to 2 reaches the 0.8 sustain level and is
      silent 0.2 seconds after release. */
  method DefaultEnvelopeNote() returns (amplitudes: seq<real>)
    ensures amplitudes == [1.0, 0.8, 0.4, 0.0]
  {
    var e := new EnvelopeADSR();
    e.NoteOn(1.0);
    var atPeak := e.GetAmplitude(1.1);
    var held := e.GetAmplitude(1.5);
    e.NoteOff(2.0);
    var halfReleased := e.GetAmplitude(2.1);
    var released := e.GetAmplitude(2.2);
    amplitudes := [atPeak, held, halfReleased, released];
  }
}
