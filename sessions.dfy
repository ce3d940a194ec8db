/** Sequences of input events, each handled by one call of the callback
    after the previous one has finished. */
module Sessions {
  import opened Midi
  import opened ChannelAllocator

  /** The held notes after a run of events and every message sent on the way. */
  datatype Session = Session(notes: seq<Note>, out: seq<Message>)

  /** The events handled in order from `notes`. An event that raised keeps
      what it did before raising, and the next event is handled as usual. */
  function Run(notes: seq<Note>, events: seq<Message>): (s: Session)
    requires WellFormed(notes)
    ensures WellFormed(s.notes)
    decreases |events|
  {
    if events == [] then Session(notes, [])
    else
      var before := Run(notes, events[..|events| - 1]);
      var e := Step(before.notes, events[|events| - 1]);
      StepPreservesWellFormed(before.notes, events[|events| - 1]);
      Session(e.notes, before.out + e.out)
  }

  /** Handling one more event after a run is one more `Step`. */
  lemma RunSnoc(notes: seq<Note>, events: seq<Message>, last: Message)
    requires WellFormed(notes)
    ensures var before := Run(notes, events);
      var e := Step(before.notes, last);
      Run(notes, events + [last]) == Session(e.notes, before.out + e.out)
  {
    assert (events + [last])[..|events|] == events;
  }

  /** A Note On for each pitch in turn, all with velocity `vel`. */
  function Presses(pitches: seq<Byte>, vel: Byte): seq<Message> {
    seq(|pitches|, k requires 0 <= k < |pitches| => [NOTE_ON, pitches[k], vel])
  }

  /** The k-th pitch held on channel k. */
  function Holding(pitches: seq<Byte>): seq<Note> {
    seq(|pitches|, k requires 0 <= k < |pitches| => Note(pitches[k], k))
  }

  /** A Note On on channel k for the k-th pitch. */
  function NoteOns(pitches: seq<Byte>, vel: Byte): seq<Message>
    requires |pitches| <= NUM_CHANNELS
  {
    seq(|pitches|, k requires 0 <= k < |pitches| => NoteOnMessage(k, pitches[k], vel))
  }

  /** One more key press on the keys held from silence takes the next channel. */
  lemma PressTakesNextChannel(init: seq<Byte>, p: Byte, vel: Byte)
    requires |init| < NUM_CHANNELS
    ensures Step(Holding(init), [NOTE_ON, p, vel]) ==
      Effect(Holding(init + [p]), [NoteOnMessage(|init|, p, vel)], false)
  {
    var h := Holding(init);
    var n := |init|;
    assert IsLowestFree(h, n) by {
      forall c | 0 <= c < n ensures InUse(h, c) {
        assert h[c].channel == c;
      }
      assert forall i :: 0 <= i < |h| ==> h[i].channel == i;
    }
    assert WellFormed(h);
    NoteOnOnLowestFree(h, [NOTE_ON, p, vel], n);
    HoldingLast(init + [p]);
    assert (init + [p])[..n] == init;
  }

  lemma PressesPrefix(pitches: seq<Byte>, vel: Byte, n: nat)
    requires n <= |pitches|
    ensures Presses(pitches, vel)[..n] == Presses(pitches[..n], vel)
  {
  }

  lemma PressesAt(pitches: seq<Byte>, vel: Byte, k: nat)
    requires k < |pitches|
    ensures Presses(pitches, vel)[k] == [NOTE_ON, pitches[k], vel]
  {
  }

  lemma HoldingLast(pitches: seq<Byte>)
    requires 0 < |pitches|
    ensures var n := |pitches| - 1;
      Holding(pitches) == Holding(pitches[..n]) + [Note(pitches[n], n)]
  {
    var n := |pitches| - 1;
    var a := Holding(pitches);
    var b := Holding(pitches[..n]) + [Note(pitches[n], n)];
    forall k | 0 <= k < |a| ensures a[k] == b[k] {
      if k < n {
        assert pitches[..n][k] == pitches[k];
      }
    }
  }

  lemma NoteOnsLast(pitches: seq<Byte>, vel: Byte)
    requires 0 < |pitches| <= NUM_CHANNELS
    ensures var n := |pitches| - 1;
      NoteOns(pitches, vel) == NoteOns(pitches[..n], vel) + [NoteOnMessage(n, pitches[n], vel)]
  {
    var n := |pitches| - 1;
    var a := NoteOns(pitches, vel);
    var b := NoteOns(pitches[..n], vel) + [NoteOnMessage(n, pitches[n], vel)];
    forall k | 0 <= k < |a| ensures a[k] == b[k] {
      if k < n {
        assert pitches[..n][k] == pitches[k];
      }
    }
  }

  /** From silence, up to NUM_CHANNELS key presses take channels 0, 1, 2, ...
      in order, whether or not their pitches repeat. */
  lemma {:induction false} PressesFillChannelsInOrder(pitches: seq<Byte>, vel: Byte)
    requires |pitches| <= NUM_CHANNELS
    ensures Run([], Presses(pitches, vel)) == Session(Holding(pitches), NoteOns(pitches, vel))
  {
    if |pitches| > 0 {
      var n := |pitches| - 1;
      var init := pitches[..n];
      var press := [NOTE_ON, pitches[n], vel];
      assert Presses(pitches, vel) == Presses(init, vel) + [press] by {
        PressesPrefix(pitches, vel, n);
        PressesAt(pitches, vel, n);
      }
      var before := Run([], Presses(init, vel));
      assert before == Session(Holding(init), NoteOns(init, vel)) by {
        PressesFillChannelsInOrder(init, vel);
      }
      var e := Step(before.notes, press);
      assert e == Effect(Holding(pitches), [NoteOnMessage(n, pitches[n], vel)], false) by {
        PressTakesNextChannel(init, pitches[n], vel);
        assert init + [pitches[n]] == pitches;
      }
      RunSnoc([], Presses(init, vel), press);
      NoteOnsLast(pitches, vel);
    }
  }

  /** The key press after NUM_CHANNELS of them evicts the first key, and
      only it: one Note Off for it on channel 0, then the new key on channel 0. */
  lemma OverflowEvictsFirstPress(pitches: seq<Byte>, vel: Byte)
    requires |pitches| == NUM_CHANNELS + 1
    ensures var s := Run([], Presses(pitches, vel));
      && s.notes == Holding(pitches[..NUM_CHANNELS])[1..] + [Note(pitches[NUM_CHANNELS], 0)]
      && s.out == NoteOns(pitches[..NUM_CHANNELS], vel)
                  + [NoteOffMessage(0, pitches[0]), NoteOnMessage(0, pitches[NUM_CHANNELS], vel)]
  {
    var init := pitches[..NUM_CHANNELS];
    assert Presses(pitches, vel)[..NUM_CHANNELS] == Presses(init, vel);
    PressesFillChannelsInOrder(init, vel);
    FullPoolEvictsOldest(Holding(init), [NOTE_ON, pitches[NUM_CHANNELS], vel]);
  }

  /** Pressing keys from silence, then releasing the earliest key with
      the pitch of key i, removes key i and sends one Note Off on channel i. */
  lemma PressesThenRelease(pitches: seq<Byte>, i: nat, vel: Byte)
    requires |pitches| <= NUM_CHANNELS && i < |pitches|
    requires forall j :: 0 <= j < i ==> pitches[j] != pitches[i]
    ensures Run([], Presses(pitches, vel) + [[NOTE_OFF, pitches[i], 0]])
      == Session(RemoveAt(Holding(pitches), i), NoteOns(pitches, vel) + [NoteOffMessage(i, pitches[i])])
  {
    PressesFillChannelsInOrder(pitches, vel);
    RunSnoc([], Presses(pitches, vel), [NOTE_OFF, pitches[i], 0]);
    ReleaseRemovesEarliest(Holding(pitches), [NOTE_OFF, pitches[i], 0], i);
  }

  /** After key i of a run of presses from silence is released, channel i
      is the lowest free one. */
  lemma ReleasedChannelIsLowestFree(pitches: seq<Byte>, i: nat)
    requires |pitches| <= NUM_CHANNELS && i < |pitches|
    ensures WellFormed(RemoveAt(Holding(pitches), i))
    ensures IsLowestFree(RemoveAt(Holding(pitches), i), i)
  {
    var held := Holding(pitches);
    assert WellFormed(held);
    RemoveAtWellFormed(held, i);
    forall c | 0 <= c < i ensures InUse(RemoveAt(held, i), c) {
      assert held[c].channel == c;
    }
  }

  /** Pressing keys from silence, releasing the earliest key with some
      pitch and pressing a new key: the new key takes the channel the release
      freed, because every channel below it is still held. */
  lemma ReleaseThenPressReusesFreedChannel(pitches: seq<Byte>, i: nat, p: Byte, vel: Byte)
    requires |pitches| <= NUM_CHANNELS && i < |pitches|
    requires forall j :: 0 <= j < i ==> pitches[j] != pitches[i]
    ensures var s := Run([], Presses(pitches, vel) + [[NOTE_OFF, pitches[i], 0], [NOTE_ON, p, vel]]);
      && s.notes == RemoveAt(Holding(pitches), i) + [Note(p, i)]
      && s.out == NoteOns(pitches, vel) + [NoteOffMessage(i, pitches[i]), NoteOnMessage(i, p, vel)]
  {
    var released := Presses(pitches, vel) + [[NOTE_OFF, pitches[i], 0]];
    var on := [NOTE_ON, p, vel];
    assert Presses(pitches, vel) + [[NOTE_OFF, pitches[i], 0], on] == released + [on];
    PressesThenRelease(pitches, i, vel);
    RunSnoc([], released, on);
    ReleasedChannelIsLowestFree(pitches, i);
    NoteOnOnLowestFree(RemoveAt(Holding(pitches), i), on, i);
  }

  /** Press 60, 62, 64, 66 (channels 0 to 3); release 62; press 68: the
      new key takes channel 1. */
  lemma ReleaseThenPressExample()
    ensures Run([], Presses([60, 62, 64, 66], 100) + [[NOTE_OFF, 62, 0], [NOTE_ON, 68, 100]]).notes
      == [Note(60, 0), Note(64, 2), Note(66, 3), Note(68, 1)]
  {
    var pitches: seq<Byte> := [60, 62, 64, 66];
    ReleaseThenPressReusesFreedChannel(pitches, 1, 68, 100);
    var held := Holding(pitches);
    assert held[0] == Note(60, 0) && held[2] == Note(64, 2) && held[3] == Note(66, 3);
    var left := RemoveAt(held, 1);
    assert |left| == 3 && left[0] == held[0] && left[1] == held[2] && left[2] == held[3];
    assert left == [Note(60, 0), Note(64, 2), Note(66, 3)];
  }
}
