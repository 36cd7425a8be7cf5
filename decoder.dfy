/**
 * The notification handler: each decoded chunk is appended to `bleBuffer`,
 * then every complete line is cut out of the front of the buffer, cleaned,
 * and turned into at most one entry at the end of `dataList`.
 */
module Decoder {
  import opened Wrappers
  import opened Framing
  import opened Cleaning
  import opened Readings

  /** The notification characteristic, in canonical lower-case UUID text. */
  const CHARACTERISTIC_UUID := "0000ffe1-0000-1000-8000-00805f9b34fb"

  class NotificationDecoder {
    /** Received text not yet ended by a '\n'. */
    var bleBuffer: string
    /** The entries shown in the data list, oldest first. */
    var dataList: seq<string>

    /** Every '\n' that reached the buffer has been consumed. */
    ghost predicate Valid()
      reads this
    {
      '\n' !in bleBuffer
    }

    constructor ()
      ensures Valid()
      ensures bleBuffer == [] && dataList == []
    {
      bleBuffer := [];
      dataList := [];
    }

    /**
     * One characteristic notification, already decoded to text.  Only the
     * notification characteristic is handled; the lines completed by `chunk`
     * are those Split finds in the old buffer followed by `chunk`, and what
     * Split leaves unterminated stays in the buffer.
     */
    method OnCharacteristicChanged(uuid: string, chunk: string, isFloat: string -> bool)
      requires Valid()
      modifies this
      ensures Valid()
      ensures uuid != CHARACTERISTIC_UUID ==> unchanged(this)
      ensures uuid == CHARACTERISTIC_UUID ==>
                var frames := Split(old(bleBuffer) + chunk);
                && bleBuffer == frames.rest
                && dataList == old(dataList) + Entries(frames.lines, isFloat)
      ensures old(dataList) <= dataList
    {
      if uuid != CHARACTERISTIC_UUID {
        return;
      }
      bleBuffer := bleBuffer + chunk;
      ghost var received := bleBuffer;
      ghost var cut: seq<string> := [];

      var index := IndexOf(bleBuffer, '\n');
      while index != -1
        invariant index == IndexOf(bleBuffer, '\n')
        invariant received == Join(cut) + bleBuffer
        invariant Unterminated(cut)
        invariant dataList == old(dataList) + Entries(cut, isFloat)
        decreases |bleBuffer|
      {
        var fullMessage := bleBuffer[..index];
        CutOneLine(received, cut, bleBuffer, index);
        bleBuffer := bleBuffer[index + 1..];
        EntriesOne(cut, fullMessage, isFloat);
        Associative(old(dataList), Entries(cut, isFloat), EntryOf(fullMessage, isFloat));
        cut := cut + [fullMessage];
        ghost var before := dataList;

        fullMessage := Clean(fullMessage);
        if fullMessage != [] {
          var entry := Classify(fullMessage, isFloat);
          if entry.Some? {
            dataList := dataList + [entry.value];
          }
        }
        assert dataList == before + EntryOf(cut[|cut| - 1], isFloat);
        index := IndexOf(bleBuffer, '\n');
      }
      SplitUnique(cut, bleBuffer);
    }
  }

  /** One more raw line adds its own entry, if any, after those of the lines before it. */
  lemma EntriesOne(lines: seq<string>, line: string, isFloat: string -> bool)
    ensures Entries(lines + [line], isFloat) == Entries(lines, isFloat) + EntryOf(line, isFloat)
  {
    EntriesConcat(lines, [line], isFloat);
    assert [line][0] == line && [line][1..] == [];
    assert Entries([line], isFloat) == EntryOf(line, isFloat) + Entries([], isFloat);
  }

  /** Cutting the first line off the buffer keeps `received` equal to the cut lines plus the buffer. */
  lemma CutOneLine(received: string, cut: seq<string>, buffer: string, index: nat)
    requires received == Join(cut) + buffer && Unterminated(cut)
    requires index < |buffer| && buffer[index] == '\n' && '\n' !in buffer[..index]
    ensures received == Join(cut + [buffer[..index]]) + buffer[index + 1..]
    ensures Unterminated(cut + [buffer[..index]])
  {
    var line := buffer[..index];
    JoinConcat(cut, [line]);
    assert Join([line]) == line + "\n" + Join([]);
    assert buffer == line + "\n" + buffer[index + 1..];
    forall k | 0 <= k < |cut + [line]| ensures '\n' !in (cut + [line])[k] {
      if k < |cut| { assert (cut + [line])[k] == cut[k]; }
    }
  }

  /**
   * Delivering `a` and then `b` leaves the decoder exactly as delivering
   * `a + b` in one notification does: chunk boundaries are invisible.
   */
  method SplitDeliveryIsInvisible(one: NotificationDecoder, other: NotificationDecoder,
                                  a: string, b: string, isFloat: string -> bool)
    requires one != other && one.Valid() && other.Valid()
    requires one.bleBuffer == other.bleBuffer && one.dataList == other.dataList
    modifies one, other
    ensures one.bleBuffer == other.bleBuffer && one.dataList == other.dataList
  {
    ghost var start := one.bleBuffer;
    ghost var log := one.dataList;
    SplitConcat(start, a, b);
    ghost var first := Split(start + a);
    ghost var second := Split(first.rest + b);
    EntriesConcat(first.lines, second.lines, isFloat);
    Associative(log, Entries(first.lines, isFloat), Entries(second.lines, isFloat));
    Associative(start, a, b);

    one.OnCharacteristicChanged(CHARACTERISTIC_UUID, a, isFloat);
    one.OnCharacteristicChanged(CHARACTERISTIC_UUID, b, isFloat);
    other.OnCharacteristicChanged(CHARACTERISTIC_UUID, a + b, isFloat);
  }
}
