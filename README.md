# PureTones channel allocator in Dafny

PureTones turns a MIDI keyboard into a microtonal instrument. It gives each
held key its own output channel, so that each key can later be bent on its
own. This project models that channel allocator, the MIDI input callback of
the `PureTones` object in `main.py`, and proves its allocation policy:

- A Note On (status nibble `0x90`) on a pool that is not full takes the
  lowest free channel of the 16. It appends `(pitch, channel)` to
  `currentNotes` and sends `[0x90 | ch, pitch, vel]`.
- A Note On on a full pool evicts the oldest held note. It sends a Note Off
  for that note, then sends the Note On on the channel the old note freed.
- A Note Off (status nibble `0x80`) releases the earliest held entry with
  that pitch and sends `[0x80 | ch, pitch, 0]`. A Note Off for a pitch that
  is not held sends nothing and changes nothing.
- Any other message is sent on unchanged.

Files:

- `midi.dfy` (module `Midi`): messages are byte lists (`seq<bv8>`). It has
  the status constants, the two outbound messages and how their status bytes
  decode.
- `allocator.dfy` (module `ChannelAllocator`): the pure specification.
  - `Note` is one entry of `currentNotes`.
  - `WellFormed` is the invariant: at most 16 entries, every channel below
    16, no channel owned twice.
  - `Step(notes, message)` is one callback call. It gives the new list, the
    messages sent in order, and whether Python would raise.
  - `OnNoteOn` and `OnNoteOff` are its two note branches. `NoteOnEffect`
    and `NoteOffEffect` are what `noteOn` and `noteOff` do.
  - The lemmas state the policy in terms of `Step`.
- `sessions.dfy` (module `Sessions`): `Run` handles a sequence of events one
  after another. Its lemmas are about key-press histories.
- `pure_tones.dfy` (module `PureTonesApp`): the class `PureTones`.
  - Its field `currentNotes` is the source's list.
  - A ghost log `sent` stands for `midiout.send_message`.
  - `HandleEvent` is `__call__`. Its Note On and Note Off branches are the
    methods `HandleNoteOn` and `HandleNoteOff`. With `NoteOn` and `NoteOff`
    they run the source's loops: the channel scan with `continue`, the
    search for the released pitch, and `noteOff`'s search and `pop`.
  - Each method is proved to change the state exactly as its pure
    counterpart says: `Step`, `OnNoteOn`, `OnNoteOff` or `RemoveFirst`.

Details of the code that the model keeps:

- The Note Off path releases by pitch, not by channel. `noteOff` sends its
  message before it searches the list.
- A Note On with velocity 0 is an ordinary note-on and allocates a channel.
- The channel nibble of an incoming Note On or Note Off is ignored.
- Short messages are modelled. Python raises IndexError when the handler
  reads a byte that the message does not have; the model returns
  `raised = true` and keeps whatever the handler had already done.
  - An empty message raises at once.
  - A Note On shorter than three bytes on a full pool raises after the oldest
    note has been evicted and its Note Off sent.
  - A one-byte Note Off raises only when some note is held, because the
    search reads the pitch only when there is an entry to compare it with.
- A second Note On for a pitch that is already held adds a second entry on
  another channel (`DuplicateNoteOnAppends`); a later Note Off for that pitch
  releases the older entry first.
- The handlers return nothing. `Step` records the new list and the messages
  sent instead of a chosen channel or an evicted pitch.
- The pool is fixed at 16 channels. `ReleaseThenPressExample` presses four
  keys, releases the second and presses a fifth, which takes the freed
  channel 1; `OverflowEvictsFirstPress` is the 17th press on a full pool.

## Model

| member | source | states |
|---|---|---|
| Midi.OrIntoLowNibble | main.py:58 | or-ing a byte below 16 into a status byte whose low nibble is clear keeps the type nibble and puts the byte in the low nibble |
| Midi.StatusWithChannel | main.py:65 | or-ing a channel below 16 into a status byte whose low nibble is clear gives that type nibble and a status addressed to that channel |
| Midi.NoteOnMessageDecodes | main.py:57-60 | the Note On built for channel ch is three bytes, type nibble 0x90, channel nibble ch, then pitch and velocity |
| Midi.NoteOffMessageDecodes | main.py:64-67 | the Note Off built for channel ch is three bytes, type nibble 0x80, channel nibble ch, then pitch and velocity 0 |
| Midi.NoteOnMessage | main.py:57-59 | plain definition, no contract of its own: the list `[NOTE_ON or ch, pitch, vel]`; `NoteOnMessageDecodes` states how it decodes |
| Midi.StatusNibble | main.py:36 | plain definition, no contract of its own: the `message[0] & 0xF0` dispatch test; `Step` dispatches on it, `IncomingChannelIgnored` shows only this nibble matters, and `NoteOnMessageDecodes`/`NoteOffMessageDecodes` show outbound statuses decode to it |
| Midi.NoteOffMessage | main.py:64-66 | plain definition, no contract of its own: the list `[NOTE_OFF or ch, pitch, 0]`; `NoteOffMessageDecodes` states how it decodes |
| ChannelAllocator.WellFormed | main.py:12-14 | plain definition, no contract of its own: the invariant of `currentNotes` (at most MAX_NOTES entries, channels below NUM_CHANNELS and distinct); `StepPreservesWellFormed` and `Sessions.Run` show every event keeps it; `PureTones.Valid` is this predicate on the field, established by the constructor and kept by `HandleEvent`, `HandleNoteOn` and `HandleNoteOff` |
| ChannelAllocator.InUse | main.py:44 | plain definition, no contract of its own: the `any(v[1] == ch ...)` test of the channel scan; `IsLowestFree`, `FreeFrom` and `LowestFree` state the scan in its terms, and `PureTones.HandleNoteOn` runs the scan with it |
| ChannelAllocator.FreeFrom | main.py:43-45 | the result is the first channel at or above the start that no entry uses, or 16 when all are used |
| ChannelAllocator.LowestFree | main.py:43-47 | the scan yields the lowest unused channel below 16, or nothing only when all 16 are used |
| ChannelAllocator.FirstMatch | main.py:69-72 | the result is the index of the earliest entry with the pitch, or nothing exactly when no entry has the pitch |
| ChannelAllocator.RemoveAt | main.py:71 | plain definition, no contract of its own: `list.pop(i)`; `RemoveAtWellFormed` states that it keeps the invariant and frees exactly entry i's channel |
| ChannelAllocator.RemoveFirst | main.py:69-72 | plain definition, no contract of its own: the search and `pop` of `noteOff`; `RemoveFirstOfHead` and `ReleaseRemovesEarliest` state what it removes, and `PureTones.NoteOff` runs the loop it stands for |
| ChannelAllocator.NoteOnEffect | main.py:57-62 | plain definition, no contract of its own: what `noteOn` sends and appends; `NoteOnOnLowestFree` and `FullPoolEvictsOldest` state its effect inside a step, and `PureTones.NoteOn` is proved to do it |
| ChannelAllocator.NoteOffEffect | main.py:64-73 | plain definition, no contract of its own: what `noteOff` sends and removes; `ReleaseRemovesEarliest` and `ShortNoteOnStillEvicts` state its effect inside a step, and `PureTones.NoteOff` is proved to do it |
| ChannelAllocator.OnNoteOn | main.py:36-47 | plain definition, no contract of its own: the Note On branch; `NoteOnTakesLowestFree`, `FullPoolEvictsOldest`, `ShortNoteOnStillEvicts` and `OnNoteOnPreservesWellFormed` state what it does |
| ChannelAllocator.OnNoteOff | main.py:48-52 | plain definition, no contract of its own: the Note Off branch; `ReleaseRemovesEarliest`, `UnmatchedReleaseIsNoOp`, `ShortReleaseRaisesOnlyWhenHolding` and `OnNoteOffPreservesWellFormed` state what it does |
| ChannelAllocator.Step | main.py:34-55 | plain definition, no contract of its own: one callback call; `NoteOnTakesLowestFree`, `FullPoolEvictsOldest`, `ReleaseRemovesEarliest`, `UnmatchedReleaseIsNoOp`, `OtherMessageForwarded`, `IncomingChannelIgnored` and `StepPreservesWellFormed` state what it does |
| ChannelAllocator.ScanAlwaysSucceeds | main.py:37-47 | with fewer than 16 entries some channel is free, so the scan of a note-on on a pool that is not full never comes up empty |
| ChannelAllocator.LowestFreeIs | main.py:43-47 | the lowest free channel is unique: whenever ch is lowest free, the scan returns ch |
| ChannelAllocator.RemoveAtWellFormed | main.py:71 | popping an entry keeps the invariant, frees that entry's channel and leaves every other entry's channel in use |
| ChannelAllocator.AppendWellFormed | main.py:61 | appending a note on an unused pool channel to a list that is not full keeps the invariant |
| ChannelAllocator.RemoveFirstOfHead | main.py:39-40 | evicting through noteOff's pitch search removes exactly the head, even when later entries share its pitch |
| ChannelAllocator.OnNoteOnPreservesWellFormed | main.py:36-47 | the Note On branch keeps the invariant whether it evicts, takes a free channel or raises on a short message |
| ChannelAllocator.OnNoteOffPreservesWellFormed | main.py:48-52 | the Note Off branch keeps the invariant |
| ChannelAllocator.StepPreservesWellFormed | main.py:34-55 | every event, whatever its bytes, keeps channels distinct, below 16, and at most 16 entries |
| ChannelAllocator.OtherMessageForwarded | main.py:53-55 | a non-empty message that is neither Note On nor Note Off is sent unchanged exactly once and the list is untouched |
| ChannelAllocator.NoteOnTakesLowestFree | main.py:42-47 | a Note On on a pool that is not full appends the pitch on the lowest free channel, keeps all earlier entries, sends exactly that Note On and does not raise, for any velocity |
| ChannelAllocator.NoteOnOnLowestFree | main.py:43-61 | when ch is the lowest free channel, a Note On appends (pitch, ch) and sends [0x90 or ch, pitch, vel] |
| ChannelAllocator.DuplicateNoteOnAppends | main.py:42-47 | a Note On for a held pitch adds a second entry with that pitch on a different channel and keeps the first entry |
| ChannelAllocator.FullPoolEvictsOldest | main.py:37-41 | on a full pool the head leaves, the new note is appended on its channel, the others keep their order, the pool stays full, and exactly Note Off then Note On on that channel are sent |
| ChannelAllocator.ShortNoteOnStillEvicts | main.py:37-41 | a Note On shorter than three bytes on a full pool evicts the head, sends its Note Off, then raises |
| ChannelAllocator.ReleaseRemovesEarliest | main.py:48-52 | a Note Off for a held pitch removes only the earliest entry with it, keeps the others in order, and sends one Note Off on that entry's channel |
| ChannelAllocator.ReleaseFreesChannel | main.py:48-52 | after that release the entry's channel is free and every other entry's channel is still in use |
| ChannelAllocator.UnmatchedReleaseIsNoOp | main.py:48-52 | a Note Off for a pitch no entry has sends nothing, changes nothing and does not raise |
| ChannelAllocator.ShortReleaseRaisesOnlyWhenHolding | main.py:49-50 | a one-byte Note Off sends nothing, changes nothing, and raises exactly when some note is held |
| ChannelAllocator.IncomingChannelIgnored | main.py:36-52 | replacing the channel nibble of an incoming Note On or Note Off does not change its effect |
| Sessions.Run | main.py:34-55 | handling any sequence of events one after another keeps the invariant |
| Sessions.PressesFillChannelsInOrder | main.py:42-47 | from silence, the k-th of up to 16 key presses is held on channel k and a Note On on channel k is sent for it, repeated pitches included |
| Sessions.OverflowEvictsFirstPress | main.py:36-47 | the 17th key press after silence causes exactly one eviction, that of the first key: Note Off for it on channel 0, then the new key on channel 0 |
| Sessions.ReleaseThenPressReusesFreedChannel | main.py:36-52 | after key presses from silence, releasing the earliest key of a pitch and pressing a new key gives the new key the freed channel |
| Sessions.ReleaseThenPressExample | main.py:36-52 | pressing 60, 62, 64, 66, releasing 62 and pressing 68 leaves 60, 64, 66 on channels 0, 2, 3 and puts 68 on channel 1 |
| PureTonesApp.PureTones.constructor | main.py:12 | a new object holds no notes and has sent nothing |
| PureTonesApp.PureTones.NoteOn | main.py:57-62 | sends [0x90 or ch, pitch, vel] and appends (pitch, ch) at the end of the list |
| PureTonesApp.PureTones.NoteOff | main.py:64-73 | sends [0x80 or ch, pitch, 0], then removes the earliest entry with that pitch, or nothing when none has it |
| PureTonesApp.PureTones.HandleEvent | main.py:34-55 | dispatching on the status nibble changes the list, the sent log and the raise outcome exactly as Step says, and keeps the invariant |
| PureTonesApp.PureTones.HandleNoteOn | main.py:36-47 | the eviction and the channel scan with continue change the list and the sent log exactly as the Note On branch of Step says, and keep the invariant |
| PureTonesApp.PureTones.HandleNoteOff | main.py:48-52 | the search for the released pitch changes the list and the sent log exactly as the Note Off branch of Step says, and keeps the invariant |

## Left out

- Pitch-bend scheduling, ramp interpolation and tuning strategies: the
  repository's code has none of these, so there is nothing to model them
  against.
- The Qt widget, its layout, `closeEvent` and the application loop: these are
  user interface code, not allocation logic.
- Opening and closing the rtmidi ports and registering the callback: these
  are driver plumbing. `send_message` is modelled only as an append to the
  ghost log `sent`. A failed transmission is not modelled.
- rtmidi calls the callback from its own thread. Each event is modelled as
  one atomic step, and `Run` handles events strictly one after another.
- The timestamp of each event, the unused `data` argument and all `print`
  logging have no effect on the allocator and are left out.
- Midi.NoteOnMessage: requires a channel below 256, so that `NOTE_ON | ch`
  is a byte. Every caller passes a channel below 16, so no call the source
  makes is excluded.
- Midi.NoteOffMessage: requires a channel below 256, for the same reason.
- `Run` assumes that rtmidi reports an exception raised by the callback
  and goes on delivering events. The next event is handled from the list
  as the raising call left it, partial effect included. How rtmidi reports
  the exception is not modelled.
