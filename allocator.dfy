/** The channel allocator of `PureTones` (main.py) as pure functions.

    The allocator keeps `currentNotes`, the held keys in arrival order, each
    with the output channel it owns. `Step` is what one MIDI input event does
    to that list and which messages it sends; the class in pure_tones.dfy
    runs the source's loops and is proved to do exactly what `Step` says.
    The lemmas below state the allocation policy in terms of `Step`. */
module ChannelAllocator {
  import opened Midi

  datatype Option<T> = None | Some(value: T)

  /** Size of the output channel pool (`self.NUM_CHANNELS`). */
  const NUM_CHANNELS: nat := 16
  /** Most keys held at once (`self.MAX_NOTES`). */
  const MAX_NOTES: nat := NUM_CHANNELS

  /** One held key: the pitch it was pressed with and the channel it owns
      (the tuple `(pitch, ch)` of `currentNotes`). */
  datatype Note = Note(pitch: Byte, channel: nat)

  /** Some held note owns channel `ch`. */
  predicate InUse(notes: seq<Note>, ch: nat) {
    exists i :: 0 <= i < |notes| && notes[i].channel == ch
  }

  /** The invariant every event keeps: at most MAX_NOTES entries, every
      channel in the pool, no channel owned by two entries. */
  predicate WellFormed(notes: seq<Note>) {
    && |notes| <= MAX_NOTES
    && (forall i :: 0 <= i < |notes| ==> notes[i].channel < NUM_CHANNELS)
    && (forall i, j :: 0 <= i < j < |notes| ==> notes[i].channel != notes[j].channel)
  }

  /** `ch` is the lowest channel of the pool that no held note owns. */
  predicate IsLowestFree(notes: seq<Note>, ch: nat) {
    && ch < NUM_CHANNELS
    && !InUse(notes, ch)
    && forall c :: 0 <= c < ch ==> InUse(notes, c)
  }

  /** The first channel at or above `c` that no note owns, or NUM_CHANNELS
      when every one of them is owned. */
  function FreeFrom(notes: seq<Note>, c: nat): (r: nat)
    requires c <= NUM_CHANNELS
    ensures c <= r <= NUM_CHANNELS
    ensures r < NUM_CHANNELS ==> !InUse(notes, r)
    ensures forall k :: c <= k < r ==> InUse(notes, k)
    decreases NUM_CHANNELS - c
  {
    if c == NUM_CHANNELS then c
    else if !InUse(notes, c) then c
    else FreeFrom(notes, c + 1)
  }

  /** The channel the scan `for ch in range(NUM_CHANNELS)` settles on, if any. */
  function LowestFree(notes: seq<Note>): (r: Option<nat>)
    ensures r.Some? ==> IsLowestFree(notes, r.value)
    ensures r.None? ==> forall c :: 0 <= c < NUM_CHANNELS ==> InUse(notes, c)
  {
    var c := FreeFrom(notes, 0);
    if c < NUM_CHANNELS then Some(c) else None
  }

  /** The index of the earliest held entry with this pitch, if any. */
  function FirstMatch(notes: seq<Note>, pitch: Byte): (r: Option<nat>)
    ensures r.Some? ==> r.value < |notes| && notes[r.value].pitch == pitch
    ensures r.Some? ==> forall j :: 0 <= j < r.value ==> notes[j].pitch != pitch
    ensures r.None? ==> forall j :: 0 <= j < |notes| ==> notes[j].pitch != pitch
  {
    if |notes| == 0 then None
    else if notes[0].pitch == pitch then Some(0)
    else match FirstMatch(notes[1..], pitch)
      case None => None
      case Some(i) => Some(i + 1)
  }

  /** The list without entry `i`, the others in their order (`list.pop(i)`). */
  function RemoveAt(notes: seq<Note>, i: nat): seq<Note>
    requires i < |notes|
  {
    notes[..i] + notes[i + 1..]
  }

  /** The list after `noteOff`'s search: the earliest entry with this pitch
      removed, or the list unchanged when no entry has it. */
  function RemoveFirst(notes: seq<Note>, pitch: Byte): seq<Note> {
    match FirstMatch(notes, pitch)
    case None => notes
    case Some(i) => RemoveAt(notes, i)
  }

  /** What one input event does: the list afterwards, the messages sent
      while handling it, in order, and whether handling stopped with the
      IndexError Python raises when the message is shorter than an index
      the handler reads (whatever was done before that point stays done). */
  datatype Effect = Effect(notes: seq<Note>, out: seq<Message>, raised: bool)

  /** `noteOn(ch, pitch, vel)`: send the Note On, then hold the note. */
  function NoteOnEffect(notes: seq<Note>, ch: nat, pitch: Byte, vel: Byte): Effect
    requires ch < 256
  {
    Effect(notes + [Note(pitch, ch)], [NoteOnMessage(ch, pitch, vel)], false)
  }

  /** `noteOff(ch, pitch)`: send the Note Off, then drop the earliest entry
      with this pitch. */
  function NoteOffEffect(notes: seq<Note>, ch: nat, pitch: Byte): Effect
    requires ch < 256
  {
    Effect(RemoveFirst(notes, pitch), [NoteOffMessage(ch, pitch)], false)
  }

  /** The Note On branch of the callback. */
  function OnNoteOn(notes: seq<Note>, message: Message): Effect
    requires WellFormed(notes)
  {
    if |notes| >= MAX_NOTES then
      // full pool: evict the head (oldest note) and reuse its channel
      var victim := notes[0];
      var off := NoteOffEffect(notes, victim.channel, victim.pitch);
      if |message| < 3 then Effect(off.notes, off.out, true)
      else
        var on := NoteOnEffect(off.notes, victim.channel, message[1], message[2]);
        Effect(on.notes, off.out + on.out, false)
    else
      match LowestFree(notes)
      case None => Effect(notes, [], false)
      case Some(ch) =>
        if |message| < 3 then Effect(notes, [], true)
        else NoteOnEffect(notes, ch, message[1], message[2])
  }

  /** The Note Off branch of the callback. The search loop reads the pitch
      only when there is an entry to compare it with. */
  function OnNoteOff(notes: seq<Note>, message: Message): Effect
    requires WellFormed(notes)
  {
    if |notes| == 0 then Effect(notes, [], false)
    else if |message| < 2 then Effect(notes, [], true)
    else
      match FirstMatch(notes, message[1])
      case None => Effect(notes, [], false)
      case Some(i) => NoteOffEffect(notes, notes[i].channel, notes[i].pitch)
  }

  /** One call of the input callback `PureTones.__call__` on `message`. */
  function Step(notes: seq<Note>, message: Message): Effect
    requires WellFormed(notes)
  {
    if |message| == 0 then Effect(notes, [], true)
    else if StatusNibble(message[0]) == NOTE_ON then OnNoteOn(notes, message)
    else if StatusNibble(message[0]) == NOTE_OFF then OnNoteOff(notes, message)
    else Effect(notes, [message], false)
  }

  // ---------------------------------------------------------------------
  // The channel scan always succeeds while the pool is not full.

  /** The set of channels the held notes own. */
  function ChannelSet(notes: seq<Note>): (s: set<nat>)
    ensures |s| <= |notes|
    ensures forall c :: c in s <==> InUse(notes, c)
  {
    if notes == [] then {}
    else
      var rest := ChannelSet(notes[1..]);
      assert forall c :: InUse(notes[1..], c) ==> InUse(notes, c) by {
        forall c | InUse(notes[1..], c) ensures InUse(notes, c) {
          var i :| 0 <= i < |notes[1..]| && notes[1..][i].channel == c;
          assert notes[i + 1].channel == c;
        }
      }
      assert forall c :: InUse(notes, c) && c != notes[0].channel ==> InUse(notes[1..], c) by {
        forall c | InUse(notes, c) && c != notes[0].channel ensures InUse(notes[1..], c) {
          var i :| 0 <= i < |notes| && notes[i].channel == c;
          assert notes[1..][i - 1].channel == c;
        }
      }
      {notes[0].channel} + rest
  }

  /** The channels 0 .. n-1. */
  function Below(n: nat): (s: set<nat>)
    ensures |s| == n
    ensures forall c :: c in s <==> 0 <= c < n
  {
    if n == 0 then {}
    else
      var s := Below(n - 1) + {n - 1};
      s
  }

  lemma SubsetSize(a: set<nat>, b: set<nat>)
    requires a <= b
    ensures |a| <= |b|
  {
    assert b == a + (b - a);
  }

  /** Fewer than NUM_CHANNELS held notes leave a channel free, so a note-on
      on a pool that is not full is never dropped. */
  lemma ScanAlwaysSucceeds(notes: seq<Note>)
    requires |notes| < NUM_CHANNELS
    ensures LowestFree(notes).Some?
  {
    if LowestFree(notes).None? {
      SubsetSize(Below(NUM_CHANNELS), ChannelSet(notes));
      assert false;
    }
  }

  /** The lowest free channel is unique, and it is what the scan returns. */
  lemma LowestFreeIs(notes: seq<Note>, ch: nat)
    requires IsLowestFree(notes, ch)
    ensures LowestFree(notes) == Some(ch)
  {
  }

  // ---------------------------------------------------------------------
  // Removing and appending entries keeps the invariant.

  lemma RemoveAtWellFormed(notes: seq<Note>, i: nat)
    requires WellFormed(notes) && i < |notes|
    ensures WellFormed(RemoveAt(notes, i))
    ensures !InUse(RemoveAt(notes, i), notes[i].channel)
    ensures forall j :: 0 <= j < |notes| && j != i ==> InUse(RemoveAt(notes, i), notes[j].channel)
  {
    var r := RemoveAt(notes, i);
    assert |r| == |notes| - 1;
    assert forall k :: 0 <= k < |r| ==> r[k] == notes[if k < i then k else k + 1];
    forall j | 0 <= j < |notes| && j != i ensures InUse(r, notes[j].channel) {
      assert r[if j < i then j else j - 1] == notes[j];
    }
  }

  lemma AppendWellFormed(notes: seq<Note>, n: Note)
    requires WellFormed(notes) && |notes| < MAX_NOTES
    requires n.channel < NUM_CHANNELS && !InUse(notes, n.channel)
    ensures WellFormed(notes + [n])
  {
    var r := notes + [n];
    forall i, j | 0 <= i < j < |r| ensures r[i].channel != r[j].channel {
      if j == |notes| {
        assert r[i] == notes[i];
      }
    }
  }

  /** Evicting the head through `noteOff`'s search removes exactly the head. */
  lemma RemoveFirstOfHead(notes: seq<Note>)
    requires |notes| > 0
    ensures RemoveFirst(notes, notes[0].pitch) == notes[1..]
  {
    assert RemoveAt(notes, 0) == notes[1..];
  }

  // ---------------------------------------------------------------------
  // What one event does.

  /** The Note On branch keeps the pool invariant, whether it evicts, takes
      a free channel or raises on a short message. */
  lemma OnNoteOnPreservesWellFormed(notes: seq<Note>, message: Message)
    requires WellFormed(notes)
    ensures WellFormed(OnNoteOn(notes, message).notes)
  {
    if |notes| >= MAX_NOTES {
      RemoveFirstOfHead(notes);
      RemoveAtWellFormed(notes, 0);
      if |message| >= 3 {
        AppendWellFormed(notes[1..], Note(message[1], notes[0].channel));
      }
    } else if LowestFree(notes).Some? && |message| >= 3 {
      AppendWellFormed(notes, Note(message[1], LowestFree(notes).value));
    }
  }

  /** The Note Off branch keeps the pool invariant. */
  lemma OnNoteOffPreservesWellFormed(notes: seq<Note>, message: Message)
    requires WellFormed(notes)
    ensures WellFormed(OnNoteOff(notes, message).notes)
  {
    if |message| > 1 && |notes| > 0 {
      match FirstMatch(notes, message[1])
      case None =>
      case Some(i) =>
        assert FirstMatch(notes, notes[i].pitch) == Some(i);
        RemoveAtWellFormed(notes, i);
    }
  }

  /** Every event keeps the pool invariant. */
  lemma StepPreservesWellFormed(notes: seq<Note>, message: Message)
    requires WellFormed(notes)
    ensures WellFormed(Step(notes, message).notes)
  {
    if |message| > 0 && StatusNibble(message[0]) == NOTE_ON {
      OnNoteOnPreservesWellFormed(notes, message);
    } else if |message| > 0 && StatusNibble(message[0]) == NOTE_OFF {
      OnNoteOffPreservesWellFormed(notes, message);
    }
  }

  /** A message that is neither a Note On nor a Note Off is sent on
      unchanged, exactly once, and the held notes stay as they are. */
  lemma OtherMessageForwarded(notes: seq<Note>, message: Message)
    requires WellFormed(notes) && |message| > 0
    requires StatusNibble(message[0]) != NOTE_ON && StatusNibble(message[0]) != NOTE_OFF
    ensures Step(notes, message) == Effect(notes, [message], false)
  {
  }

  /** A Note On while the pool is not full takes the lowest free channel,
      appends the new note after all held ones and sends exactly one Note On
      on that channel. The velocity plays no part: velocity 0 is a
      note-on like any other. */
  lemma NoteOnTakesLowestFree(notes: seq<Note>, message: Message)
    requires WellFormed(notes) && |message| >= 3 && StatusNibble(message[0]) == NOTE_ON
    requires |notes| < MAX_NOTES
    ensures var e := Step(notes, message);
      && |e.notes| == |notes| + 1
      && e.notes[..|notes|] == notes
      && e.notes[|notes|].pitch == message[1]
      && IsLowestFree(notes, e.notes[|notes|].channel)
      && e.out == [NoteOnMessage(e.notes[|notes|].channel, message[1], message[2])]
      && !e.raised
  {
    ScanAlwaysSucceeds(notes);
    var e := Step(notes, message);
    assert e.notes == notes + [Note(message[1], LowestFree(notes).value)];
  }

  /** A Note On handled when `ch` is the lowest free channel appends the
      new note on `ch` and sends one Note On on it. */
  lemma NoteOnOnLowestFree(notes: seq<Note>, message: Message, ch: nat)
    requires WellFormed(notes) && |message| >= 3 && StatusNibble(message[0]) == NOTE_ON
    requires |notes| < MAX_NOTES && IsLowestFree(notes, ch)
    ensures Step(notes, message) ==
      Effect(notes + [Note(message[1], ch)], [NoteOnMessage(ch, message[1], message[2])], false)
  {
    LowestFreeIs(notes, ch);
  }

  /** A second Note On for a held pitch adds a second entry for it on a
      different channel; the first entry stays where it was. */
  lemma DuplicateNoteOnAppends(notes: seq<Note>, message: Message, k: nat)
    requires WellFormed(notes) && |message| >= 3 && StatusNibble(message[0]) == NOTE_ON
    requires |notes| < MAX_NOTES && k < |notes| && notes[k].pitch == message[1]
    ensures var e := Step(notes, message);
      && |e.notes| == |notes| + 1
      && e.notes[k] == notes[k]
      && e.notes[|notes|].pitch == notes[k].pitch
      && e.notes[|notes|].channel != notes[k].channel
  {
    NoteOnTakesLowestFree(notes, message);
    var e := Step(notes, message);
    assert e.notes[k] == e.notes[..|notes|][k];
  }

  /** A Note On on a full pool evicts the oldest note: a Note Off for it,
      then a Note On for the new pitch on the channel it freed. The head
      leaves, the new note is appended, the others keep their order and the
      pool stays full. */
  lemma FullPoolEvictsOldest(notes: seq<Note>, message: Message)
    requires WellFormed(notes) && |message| >= 3 && StatusNibble(message[0]) == NOTE_ON
    requires |notes| >= MAX_NOTES
    ensures var e := Step(notes, message);
      && e.notes == notes[1..] + [Note(message[1], notes[0].channel)]
      && |e.notes| == MAX_NOTES
      && e.out == [NoteOffMessage(notes[0].channel, notes[0].pitch),
                   NoteOnMessage(notes[0].channel, message[1], message[2])]
      && !e.raised
  {
    RemoveFirstOfHead(notes);
  }

  /** A Note On of fewer than three bytes on a full pool still evicts the
      oldest note before the read of its pitch raises. */
  lemma ShortNoteOnStillEvicts(notes: seq<Note>, message: Message)
    requires WellFormed(notes) && 0 < |message| < 3 && StatusNibble(message[0]) == NOTE_ON
    requires |notes| >= MAX_NOTES
    ensures Step(notes, message) == Effect(notes[1..], [NoteOffMessage(notes[0].channel, notes[0].pitch)], true)
  {
    RemoveFirstOfHead(notes);
  }

  /** A Note Off for a held pitch releases the earliest entry with that
      pitch only: one Note Off on its channel, every other entry unchanged
      and in order. */
  lemma ReleaseRemovesEarliest(notes: seq<Note>, message: Message, i: nat)
    requires WellFormed(notes) && |message| >= 2 && StatusNibble(message[0]) == NOTE_OFF
    requires i < |notes| && notes[i].pitch == message[1]
    requires forall j :: 0 <= j < i ==> notes[j].pitch != message[1]
    ensures Step(notes, message) ==
      Effect(notes[..i] + notes[i + 1..], [NoteOffMessage(notes[i].channel, message[1])], false)
  {
  }

  /** Releasing a note frees its channel and no other, so the next Note On
      can take that channel when it is the lowest free one. */
  lemma ReleaseFreesChannel(notes: seq<Note>, message: Message, i: nat)
    requires WellFormed(notes) && |message| >= 2 && StatusNibble(message[0]) == NOTE_OFF
    requires i < |notes| && notes[i].pitch == message[1]
    requires forall j :: 0 <= j < i ==> notes[j].pitch != message[1]
    ensures var e := Step(notes, message);
      && !InUse(e.notes, notes[i].channel)
      && forall j :: 0 <= j < |notes| && j != i ==> InUse(e.notes, notes[j].channel)
  {
    ReleaseRemovesEarliest(notes, message, i);
    RemoveAtWellFormed(notes, i);
  }

  /** A Note Off for a pitch no entry has sends nothing and changes nothing. */
  lemma UnmatchedReleaseIsNoOp(notes: seq<Note>, message: Message)
    requires WellFormed(notes) && |message| >= 2 && StatusNibble(message[0]) == NOTE_OFF
    requires forall j :: 0 <= j < |notes| ==> notes[j].pitch != message[1]
    ensures Step(notes, message) == Effect(notes, [], false)
  {
  }

  /** A one-byte Note Off sends nothing and changes nothing; it raises
      exactly when some note is held, because only then is its pitch read. */
  lemma ShortReleaseRaisesOnlyWhenHolding(notes: seq<Note>, message: Message)
    requires WellFormed(notes) && |message| == 1 && StatusNibble(message[0]) == NOTE_OFF
    ensures Step(notes, message) == Effect(notes, [], |notes| > 0)
  {
  }

  /** The channel nibble of an incoming Note On or Note Off plays no part. */
  lemma IncomingChannelIgnored(notes: seq<Note>, message: Message, status: Byte)
    requires WellFormed(notes) && |message| > 0
    requires StatusNibble(message[0]) == NOTE_ON || StatusNibble(message[0]) == NOTE_OFF
    requires StatusNibble(status) == StatusNibble(message[0])
    ensures Step(notes, [status] + message[1..]) == Step(notes, message)
  {
    assert ([status] + message[1..])[1..] == message[1..];
  }
}
