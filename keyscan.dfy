/** One pass of the keyboard scan that drives the envelope.

    Each pass looks at the 16 keys in order. A key that is down and is not the current key
    becomes the current key and triggers the envelope; when no key at all is down after the
    pass, a current key is released. The key index stands for the note (its frequency is a
    fixed function of the index), and each transition is recorded as the event the program
    reports for it.
 */
module KeyScan {
  import opened Envelope

  const KeyCount: nat := 16

  /** "No key" as a current key. */
  const NoKey: int := -1

  /** A transition reported by a pass: a note started on a key, or the note was released. */
  datatype Event = NoteOnEvent(key: int) | NoteOffEvent

  /** The pass's local state: the current key, whether any key was seen down, and the
      transitions so far. */
  datatype ScanState = ScanState(currentKey: int, keyPressed: bool, events: seq<Event>)

  /** The scan of key k, which is down or not. */
  function ScanKey(s: ScanState, down: bool, k: int): ScanState
  {
    if !down then s
    else if s.currentKey != k then ScanState(k, true, s.events + [NoteOnEvent(k)])
    else s.(keyPressed := true)
  }

  /** The state after scanning keys 0 .. n-1, starting from the given current key. */
  function ScanKeys(pressed: seq<bool>, n: nat, currentKey: int): ScanState
    requires n <= |pressed|
  {
    if n == 0 then ScanState(currentKey, false, [])
    else ScanKey(ScanKeys(pressed, n - 1, currentKey), pressed[n - 1], n - 1)
  }

  /** After the scan: when no key was down, a current key is released. */
  function FinishScan(s: ScanState): ScanState
  {
    if !s.keyPressed && s.currentKey != NoKey then
      ScanState(NoKey, false, s.events + [NoteOffEvent])
    else s
  }

  /** A whole pass over the keyboard. */
  function Pass(pressed: seq<bool>, currentKey: int): ScanState
    requires |pressed| == KeyCount
  {
    FinishScan(ScanKeys(pressed, KeyCount, currentKey))
  }

  // Reference definitions, independent of the scan.

  /** Some key below n is down. */
  predicate AnyDown(pressed: seq<bool>, n: nat)
    requires n <= |pressed|
  {
    exists i :: 0 <= i < n && pressed[i]
  }

  /** Key j is the highest key below n that is down. */
  predicate HighestDown(pressed: seq<bool>, n: nat, j: int)
    requires n <= |pressed|
  {
    0 <= j < n && pressed[j] && forall i :: j < i < n ==> !pressed[i]
  }

  /** Key k triggers a note in a pass: it is down, and it is not the key that is current when
      it is scanned. That key is a lower key that is down, if there is one (and then
      necessarily differs from k), else the current key the pass started with. */
  predicate Triggers(pressed: seq<bool>, k: int, currentKey: int)
    requires |pressed| == KeyCount
  {
    0 <= k < KeyCount && pressed[k] && (AnyDown(pressed, k) || k != currentKey)
  }

  predicate HasNoteOn(events: seq<Event>)
  {
    exists i :: 0 <= i < |events| && events[i].NoteOnEvent?
  }

  /** Only note-on events, for strictly increasing keys below n. */
  predicate IncreasingNoteOns(events: seq<Event>, n: nat)
  {
    (forall i :: 0 <= i < |events| ==> events[i].NoteOnEvent? && events[i].key < n) &&
    (forall i, j :: 0 <= i < j < |events| ==> events[i].key < events[j].key)
  }

  // Properties of the scan over the first n keys.

  /** A key was seen down exactly when some key below n is down. */
  lemma {:induction false} ScanKeysSeesDown(pressed: seq<bool>, n: nat, currentKey: int)
    requires n <= |pressed|
    ensures ScanKeys(pressed, n, currentKey).keyPressed <==> AnyDown(pressed, n)
    ensures !AnyDown(pressed, n) ==> ScanKeys(pressed, n, currentKey) == ScanState(currentKey, false, [])
  {
    if n > 0 {
      ScanKeysSeesDown(pressed, n - 1, currentKey);
      if AnyDown(pressed, n) && !pressed[n - 1] {
        var i :| 0 <= i < n && pressed[i];
        assert i < n - 1;
      }
    }
  }

  /** The current key is the highest key below n that is down, or the starting key when
      none is. */
  lemma {:induction false} ScanKeysSelectsHighest(pressed: seq<bool>, n: nat, currentKey: int)
    requires n <= |pressed|
    ensures AnyDown(pressed, n) ==> HighestDown(pressed, n, ScanKeys(pressed, n, currentKey).currentKey)
    ensures !AnyDown(pressed, n) ==> ScanKeys(pressed, n, currentKey).currentKey == currentKey
  {
    if n > 0 {
      ScanKeysSelectsHighest(pressed, n - 1, currentKey);
      if !pressed[n - 1] && AnyDown(pressed, n) {
        var i :| 0 <= i < n && pressed[i];
        assert AnyDown(pressed, n - 1);
      }
    }
  }

  /** The events of the first n keys: note-on events for increasing keys, exactly for the
      keys below n that trigger. */
  lemma {:induction false} ScanKeysEvents(pressed: seq<bool>, n: nat, currentKey: int)
    requires n <= |pressed| == KeyCount
    ensures IncreasingNoteOns(ScanKeys(pressed, n, currentKey).events, n)
    ensures forall k :: NoteOnEvent(k) in ScanKeys(pressed, n, currentKey).events <==>
                          k < n && Triggers(pressed, k, currentKey)
  {
    if n > 0 {
      ScanKeysEvents(pressed, n - 1, currentKey);
      ScanKeysSelectsHighest(pressed, n - 1, currentKey);
      var before := ScanKeys(pressed, n - 1, currentKey);
      var after := ScanKeys(pressed, n, currentKey);
      forall k ensures NoteOnEvent(k) in after.events <==> k < n && Triggers(pressed, k, currentKey) {
        if k == n - 1 {
          assert NoteOnEvent(k) !in before.events by {
            assert forall i :: 0 <= i < |before.events| ==> before.events[i] != NoteOnEvent(k);
          }
          if pressed[k] && AnyDown(pressed, k) {
            assert before.currentKey < k;
          }
        }
      }
    }
  }

  // Properties of a whole pass.

  /** With no key down, a current key is released with one note-off event and the current
      key becomes "no key"; with no current key, the pass does nothing. */
  lemma PassWithNothingDown(pressed: seq<bool>, currentKey: int)
    requires |pressed| == KeyCount && !AnyDown(pressed, KeyCount)
    ensures Pass(pressed, currentKey).currentKey == NoKey
    ensures Pass(pressed, currentKey).events == if currentKey != NoKey then [NoteOffEvent] else []
  {
    ScanKeysSeesDown(pressed, KeyCount, currentKey);
    ScanKeysSelectsHighest(pressed, KeyCount, currentKey);
  }

  /** With some key down, the pass ends on the highest key that is down. */
  lemma PassSelectsHighest(pressed: seq<bool>, currentKey: int)
    requires |pressed| == KeyCount && AnyDown(pressed, KeyCount)
    ensures HighestDown(pressed, KeyCount, Pass(pressed, currentKey).currentKey)
  {
    ScanKeysSeesDown(pressed, KeyCount, currentKey);
    ScanKeysSelectsHighest(pressed, KeyCount, currentKey);
  }

  /** A pass reports a note-on exactly for the keys that trigger, in increasing key order,
      and a note-off only when nothing is down and there was a current key. */
  lemma PassEvents(pressed: seq<bool>, currentKey: int)
    requires |pressed| == KeyCount
    ensures forall k :: NoteOnEvent(k) in Pass(pressed, currentKey).events <==> Triggers(pressed, k, currentKey)
    ensures NoteOffEvent in Pass(pressed, currentKey).events <==>
              !AnyDown(pressed, KeyCount) && currentKey != NoKey
    ensures AnyDown(pressed, KeyCount) ==> IncreasingNoteOns(Pass(pressed, currentKey).events, KeyCount)
  {
    ScanKeysSeesDown(pressed, KeyCount, currentKey);
    ScanKeysEvents(pressed, KeyCount, currentKey);
    if !AnyDown(pressed, KeyCount) {
      PassWithNothingDown(pressed, currentKey);
    } else {
      var evs := ScanKeys(pressed, KeyCount, currentKey).events;
      assert forall i :: 0 <= i < |evs| ==> evs[i] != NoteOffEvent;
    }
  }

  /** One pass of the scan over the keys that are down, starting from the current key:
      returns the new current key and the transitions, and drives the envelope accordingly,
      with every trigger at the time now. */
  method ScanPass(pressed: array<bool>, envelope: EnvelopeADSR, now: real, currentKey: int)
    returns (nextKey: int, events: seq<Event>)
    requires pressed.Length == KeyCount
    modifies envelope
    ensures nextKey == Pass(pressed[..], currentKey).currentKey
    ensures events == Pass(pressed[..], currentKey).events
    ensures envelope.Shape() == old(envelope.Shape())
    ensures envelope.noteOn == if events == [] then old(envelope.noteOn) else events[|events| - 1].NoteOnEvent?
    ensures envelope.triggerOnTime == if HasNoteOn(events) then now else old(envelope.triggerOnTime)
    ensures envelope.triggerOffTime == if NoteOffEvent in events then now else old(envelope.triggerOffTime)
  {
    var key, keyPressed := currentKey, false;
    events := [];
    for k := 0 to KeyCount
      invariant ScanState(key, keyPressed, events) == ScanKeys(pressed[..], k, currentKey)
      invariant NoteOffEvent !in events
      invariant envelope.Shape() == old(envelope.Shape())
      invariant envelope.noteOn == if events == [] then old(envelope.noteOn) else true
      invariant envelope.triggerOnTime == if HasNoteOn(events) then now else old(envelope.triggerOnTime)
      invariant envelope.triggerOffTime == old(envelope.triggerOffTime)
    {
      if pressed[k] {
        if key != k {
          envelope.NoteOn(now);
          events := events + [NoteOnEvent(k)];
          assert events[|events| - 1].NoteOnEvent?;
          key := k;
        }
        keyPressed := true;
      }
    }
    if !keyPressed {
      ScanKeysSeesDown(pressed[..], KeyCount, currentKey);
      if key != NoKey {
        envelope.NoteOff(now);
        events := events + [NoteOffEvent];
        key := NoKey;
      }
    }
    nextKey := key;
  }
}
