/** The MIDI 1.0 channel voice messages the allocator reads and writes.
    A message is the list of byte values the MIDI driver delivers or
    transmits; its first byte is the status byte, whose high nibble is the
    message type and whose low nibble is the channel (0..15). */
module Midi {

  type Byte = bv8
  type Message = seq<Byte>

  /** Status byte of a Note On on channel 0 (`NOTE_ON` in rtmidi). */
  const NOTE_ON: Byte := 0x90
  /** Status byte of a Note Off on channel 0 (`NOTE_OFF` in rtmidi). */
  const NOTE_OFF: Byte := 0x80

  /** Number of channels a status byte can address. */
  const CHANNEL_COUNT: nat := 16

  /** The message-type nibble of a status byte. */
  function StatusNibble(status: Byte): Byte {
    status & 0xF0
  }

  /** The channel a status byte addresses. */
  function ChannelNibble(status: Byte): (ch: nat)
    ensures ch < CHANNEL_COUNT
  {
    (status & 0x0F) as nat
  }

  /** `[NOTE_ON | ch, pitch, vel]`: the Note On that `noteOn` sends. */
  function NoteOnMessage(ch: nat, pitch: Byte, vel: Byte): Message
    requires ch < 256
  {
    [NOTE_ON | ch as Byte, pitch, vel]
  }

  /** `[NOTE_OFF | ch, pitch, 0]`: the Note Off that `noteOff` sends. */
  function NoteOffMessage(ch: nat, pitch: Byte): Message
    requires ch < 256
  {
    [NOTE_OFF | ch as Byte, pitch, 0]
  }

  /** Or-ing a value below 16 into a status byte whose low nibble is clear
      puts it in the low nibble and leaves the type nibble alone. */
  lemma OrIntoLowNibble(kind: Byte, c: Byte)
    requires kind & 0x0F == 0 && c < 16
    ensures (kind | c) & 0xF0 == kind
    ensures (kind | c) & 0x0F == c
  {
  }

  /** Or-ing a channel below 16 into a status byte whose low nibble is clear
      gives a status byte of that type addressed to that channel. */
  lemma StatusWithChannel(kind: Byte, ch: nat)
    requires kind & 0x0F == 0 && ch < CHANNEL_COUNT
    ensures StatusNibble(kind | ch as Byte) == kind
    ensures ChannelNibble(kind | ch as Byte) == ch
  {
    var c := ch as Byte;
    assert c as nat == ch;
    OrIntoLowNibble(kind, c);
  }

  /** A Note On built for a channel of the pool decodes back to that
      channel, pitch and velocity, with the Note On type nibble. */
  lemma NoteOnMessageDecodes(ch: nat, pitch: Byte, vel: Byte)
    requires ch < CHANNEL_COUNT
    ensures var m := NoteOnMessage(ch, pitch, vel);
      |m| == 3 && StatusNibble(m[0]) == NOTE_ON && ChannelNibble(m[0]) == ch
      && m[1] == pitch && m[2] == vel
  {
    StatusWithChannel(NOTE_ON, ch);
  }

  /** A Note Off built for a channel of the pool decodes back to that
      channel and pitch, with the Note Off type nibble and velocity 0. */
  lemma NoteOffMessageDecodes(ch: nat, pitch: Byte)
    requires ch < CHANNEL_COUNT
    ensures var m := NoteOffMessage(ch, pitch);
      |m| == 3 && StatusNibble(m[0]) == NOTE_OFF && ChannelNibble(m[0]) == ch
      && m[1] == pitch && m[2] == 0
  {
    StatusWithChannel(NOTE_OFF, ch);
  }
}
