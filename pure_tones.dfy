/** The `PureTones` object of main.py: its list `currentNotes` and the MIDI
    input callback with its helpers `noteOn` and `noteOff`, written with the
    source's loops. `sent` stands for every `midiout.send_message` call,
    in order. */
module PureTonesApp {
  import opened Midi
  import opened ChannelAllocator

  class PureTones {
    /** The held keys, oldest first. */
    var currentNotes: seq<Note>
    /** Every message sent to the output port so far. */
    ghost var sent: seq<Message>

    ghost predicate Valid()
      reads this
    {
      WellFormed(currentNotes)
    }

    constructor ()
      ensures Valid()
      ensures currentNotes == [] && sent == []
    {
      currentNotes := [];
      sent := [];
    }

    /** `noteOn`: send the Note On, then record the note as held. */
    method NoteOn(ch: nat, pitch: Byte, vel: Byte)
      requires ch < 256
      modifies this
      ensures sent == old(sent) + [NoteOnMessage(ch, pitch, vel)]
      ensures currentNotes == old(currentNotes) + [Note(pitch, ch)]
    {
      var m := NoteOnMessage(ch, pitch, vel);
      sent := sent + [m];
      currentNotes := currentNotes + [Note(pitch, ch)];
    }

    /** `noteOff`: send the Note Off, then drop the earliest entry with this
        pitch (whatever its channel), if there is one. */
    method NoteOff(ch: nat, pitch: Byte)
      requires ch < 256
      modifies this
      ensures sent == old(sent) + [NoteOffMessage(ch, pitch)]
      ensures currentNotes == RemoveFirst(old(currentNotes), pitch)
    {
      var m := NoteOffMessage(ch, pitch);
      sent := sent + [m];
      for ni := 0 to |currentNotes|
        invariant currentNotes == old(currentNotes)
        invariant forall j :: 0 <= j < ni ==> currentNotes[j].pitch != pitch
      {
        if currentNotes[ni].pitch == pitch {
          assert FirstMatch(currentNotes, pitch) == Some(ni);
          currentNotes := RemoveAt(currentNotes, ni);
          return;
        }
      }
    }

    /** The input callback `__call__`. `raised` is true when the source would
        stop with an IndexError because the message is too short. */
    method HandleEvent(message: Message) returns (raised: bool)
      requires Valid()
      modifies this
      ensures Valid()
      ensures var e := Step(old(currentNotes), message);
        && currentNotes == e.notes
        && sent == old(sent) + e.out
        && raised == e.raised
    {
      if |message| == 0 {
        raised := true;
      } else if StatusNibble(message[0]) == NOTE_ON {
        raised := HandleNoteOn(message);
      } else if StatusNibble(message[0]) == NOTE_OFF {
        raised := HandleNoteOff(message);
      } else {
        sent := sent + [message];
        raised := false;
      }
    }

    /** The Note On branch of `__call__`: evict the oldest note when the pool
        is full, otherwise scan for the lowest free channel. */
    method HandleNoteOn(message: Message) returns (raised: bool)
      requires Valid()
      modifies this
      ensures Valid()
      ensures var e := OnNoteOn(old(currentNotes), message);
        && currentNotes == e.notes
        && sent == old(sent) + e.out
        && raised == e.raised
    {
      ghost var e := OnNoteOn(currentNotes, message);
      OnNoteOnPreservesWellFormed(currentNotes, message);
      if |currentNotes| >= MAX_NOTES {
        // full pool: evict the head (oldest note) and reuse its channel
        var victim := currentNotes[0];
        ghost var off := NoteOffEffect(currentNotes, victim.channel, victim.pitch);
        NoteOff(victim.channel, victim.pitch);
        assert currentNotes == off.notes && sent == old(sent) + off.out;
        if |message| < 3 {
          return true;
        }
        NoteOn(victim.channel, message[1], message[2]);
        return false;
      }
      for ch := 0 to NUM_CHANNELS
        invariant currentNotes == old(currentNotes) && sent == old(sent)
        invariant forall c :: 0 <= c < ch ==> InUse(currentNotes, c)
      {
        if InUse(currentNotes, ch) {
          continue;
        }
        LowestFreeIs(currentNotes, ch);
        if |message| < 3 {
          return true;
        }
        assert e == NoteOnEffect(currentNotes, ch, message[1], message[2]);
        NoteOn(ch, message[1], message[2]);
        return false;
      }
      return false;
    }

    /** The Note Off branch of `__call__`: release the earliest entry with
        the message's pitch. */
    method HandleNoteOff(message: Message) returns (raised: bool)
      requires Valid()
      modifies this
      ensures Valid()
      ensures var e := OnNoteOff(old(currentNotes), message);
        && currentNotes == e.notes
        && sent == old(sent) + e.out
        && raised == e.raised
    {
      OnNoteOffPreservesWellFormed(currentNotes, message);
      for ni := 0 to |currentNotes|
        invariant currentNotes == old(currentNotes) && sent == old(sent)
        invariant ni > 0 ==> |message| >= 2
        invariant forall j :: 0 <= j < ni ==> currentNotes[j].pitch != message[1]
      {
        if |message| < 2 {
          return true;
        }
        var n := currentNotes[ni];
        if n.pitch == message[1] {
          assert FirstMatch(currentNotes, message[1]) == Some(ni);
          NoteOff(n.channel, n.pitch);
          return false;
        }
      }
      return false;
    }
  }
}
