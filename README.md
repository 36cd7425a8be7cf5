# HM-10 BLE UART demo: line decoder and scan/connection flags

This project models the two pieces of sequential logic in the Android
activity `MainActivity` of the HM-10 BLE UART demo app.

1. **The notification line decoder** (`onCharacteristicChanged`). Each
   notification from the data characteristic is decoded to text and appended
   to the `StringBuilder bleBuffer`. A loop then cuts every complete line off
   the front of the buffer at its `'\n'`. Each line is cleaned: the control
   characters U+0000 to U+001F and U+007F are deleted, then Java's `trim()` is
   applied. Empty lines are skipped. A line `E<rest>` of two or more
   characters appends `"ECG: "+rest` to `dataList` when `rest` parses as a
   float, and `"Invalid ECG: "+line` otherwise. `P<rest>` does the same with
   PPG. Every other line appends nothing.
2. **The scan and connection flags**: `isScanning` and the GATT handle
   `bluetoothGatt`, as `scanLeDevice`, `stopScanning`, `onScanResult`,
   `onConnectionStateChange` and `closeGatt` update them.

Layout, one module per file:

- `framing.dfy` (`Framing`): `IndexOf` (Java's `indexOf`), `Join` (the text
  lines occupy on the wire) and `Split`, the pure specification of the cutting
  loop. It also holds the lemmas that Split loses nothing (`Split`'s own
  contract), is the only such reading (`SplitUnique`) and ignores chunk
  boundaries (`SplitConcat`).
- `cleaning.dfy` (`Cleaning`): the control-character filter, Java's `trim()`
  and their composition `Clean`.
- `readings.dfy` (`Readings`): the E/P classification of one cleaned line
  (`Classify`) and its inverse `LineOf`. It also defines what a run of raw
  lines adds to the data list (`EntryOf`, `Entries`).
- `decoder.dfy` (`Decoder`): the class `NotificationDecoder` with the fields
  `bleBuffer` and `dataList`. Its method `OnCharacteristicChanged` runs the
  same `while` loop as the Java and is proved against `Split` and `Entries`.
- `session.dfy` (`Session`): the class `BleSession` with `isScanning`,
  `bluetoothGatt` and a log `calls` of the platform calls the activity issues
  (`startScan`, `stopScan`, `connectGatt`, `discoverServices`, `close`).
  Handles returned by `connectGatt` get fresh numbers, so the invariant
  `HandlesKept` can say that no handle is closed twice.
- `wrappers.dfy` (`Wrappers`): `Option`, used where Java has a nullable
  reference.

The buffer has no size cap: text without a `'\n'` accumulates in it.

`onScanResult` never checks `isScanning`. So a later sighting of the target
(for example one already in flight when the scan was stopped) connects
again, and the held handle is replaced without being closed.
`OnScanResult` states this behaviour.

`Float.parseFloat` is the parameter `isFloat: string -> bool`, so every
statement about the decoder holds whatever set of texts that parser accepts.
Each permission check is a boolean parameter, read where the code reads it.
Every callback is one serialized call of a method.

## Model

| member | source | states |
|---|---|---|
| `Framing.IndexOf` | app/src/main/java/com/example/bleuartdemo3/MainActivity.java:321 | -1 exactly when the character is absent; otherwise the position of its first occurrence |
| `Framing.Split` | app/src/main/java/com/example/bleuartdemo3/MainActivity.java:317-323 | the cut lines, each followed by `'\n'`, then the rest, give back the whole text; no cut line and not the rest holds a `'\n'` |
| `Framing.SplitUnique` | app/src/main/java/com/example/bleuartdemo3/MainActivity.java:321-323 | any reading of a text as `'\n'`-free lines plus a `'\n'`-free rest is the one Split gives |
| `Framing.SplitConcat` | app/src/main/java/com/example/bleuartdemo3/MainActivity.java:317-323 | feeding `a` and then `b` to a buffer yields the same lines, in order, and the same final rest as feeding `a + b` |
| `Cleaning.StripControls` | app/src/main/java/com/example/bleuartdemo3/MainActivity.java:326 | the result has no character in U+0000 to U+001F or U+007F; it keeps exactly the other characters of the input; a control-free input is returned unchanged; a single character is kept exactly when it is not a control character |
| `Cleaning.StripControlsConcat` | app/src/main/java/com/example/bleuartdemo3/MainActivity.java:326 | deletion works piece by piece: filtering `a + b` is filtering `a` followed by filtering `b`, so the surviving characters keep their order |
| `Cleaning.TrimStart` | app/src/main/java/com/example/bleuartdemo3/MainActivity.java:326 | the result is a suffix of the input, everything removed is at or below U+0020, and the result is empty or starts above U+0020 |
| `Cleaning.TrimEnd` | app/src/main/java/com/example/bleuartdemo3/MainActivity.java:326 | the result is a prefix of the input, everything removed is at or below U+0020, and the result is empty or ends above U+0020 |
| `Cleaning.Trim` | app/src/main/java/com/example/bleuartdemo3/MainActivity.java:326 | Java's `trim()`: the result is an infix of the input with only characters at or below U+0020 outside it, and it neither starts nor ends with one |
| `Cleaning.Clean` | app/src/main/java/com/example/bleuartdemo3/MainActivity.java:326 | a cleaned line has no control character (so no `'\r'` and no `'\n'`), no leading or trailing space, and only characters of the raw line; it is the control-free line with only spaces cut from its two ends; a control-free line without outer spaces comes back unchanged |
| `Cleaning.CleanIdempotent` | app/src/main/java/com/example/bleuartdemo3/MainActivity.java:326 | cleaning an already-cleaned line changes nothing |
| `Readings.Classify` | app/src/main/java/com/example/bleuartdemo3/MainActivity.java:334-350 | an entry is made exactly for lines of two or more characters starting with `E` or `P`; it names the line's kind (ECG for `E`, PPG for `P`); it is a valid entry exactly when the text after the tag is a float; the line can be read back from it |
| `Readings.ReadsBack` | app/src/main/java/com/example/bleuartdemo3/MainActivity.java:336-348 | `"ECG: "+rest` and `"Invalid ECG: "+line` (and the PPG forms) carry their prefix, are valid exactly when built from an accepted number, and give the line back through `LineOf` |
| `Readings.EntryOf` | app/src/main/java/com/example/bleuartdemo3/MainActivity.java:326-350 | one raw line appends at most one entry; it appends one exactly when the cleaned line has two or more characters and starts with `E` or `P`; the entry is valid exactly when the text after the tag is a float; it carries the ECG prefixes for an `E` line and the PPG prefixes for a `P` line; the entry gives back the cleaned line |
| `Readings.Entries` | app/src/main/java/com/example/bleuartdemo3/MainActivity.java:321-355 | a run of lines appends no more entries than it has lines |
| `Readings.EntriesConcat` | app/src/main/java/com/example/bleuartdemo3/MainActivity.java:321-355 | the entries of two runs of lines are the entries of the first run followed by those of the second |
| `Decoder.NotificationDecoder.constructor` | app/src/main/java/com/example/bleuartdemo3/MainActivity.java:57-61 | the buffer and the data list start empty |
| `Decoder.NotificationDecoder.OnCharacteristicChanged` | app/src/main/java/com/example/bleuartdemo3/MainActivity.java:309-358 | another characteristic changes nothing; otherwise the buffer becomes the unterminated rest of old buffer + chunk, so it holds no `'\n'`, and the data list becomes the old list followed by the entries of the completed lines, so existing entries are never changed |
| `Decoder.SplitDeliveryIsInvisible` | app/src/main/java/com/example/bleuartdemo3/MainActivity.java:316-323 | two decoders in the same state end in the same state when one receives `a` then `b` and the other receives `a + b` |
| `Session.DeviceName` | app/src/main/java/com/example/bleuartdemo3/MainActivity.java:389-395 | the name is the target exactly when the name may be read and the device reports the target; a name that may not be read is exactly the fixed text `"Permission Denied"`; a null name only comes from a readable device that reports none |
| `Session.BleSession.constructor` | app/src/main/java/com/example/bleuartdemo3/MainActivity.java:46-50 | not scanning, no handle, no platform call yet |
| `Session.BleSession.StopScanning` | app/src/main/java/com/example/bleuartdemo3/MainActivity.java:198-215 | when not scanning, nothing changes; otherwise the flag always ends false, and `stopScan` is issued only when permitted and a scanner exists |
| `Session.BleSession.ScanLeDevice` | app/src/main/java/com/example/bleuartdemo3/MainActivity.java:171-188 | no scanner: nothing changes; start without permission: nothing changes; start with permission: the flag rises and `startScan` is issued; stop: as StopScanning; the handle is untouched |
| `Session.BleSession.OnScanResult` | app/src/main/java/com/example/bleuartdemo3/MainActivity.java:219-237 | a name other than the target (including the name given when the name permission is missing) changes nothing; the target stops the scan and then, if permitted, connects with a fresh handle as the last call, and the handle counter advances only then; a handle held before is dropped without a close |
| `Session.BleSession.OnConnectionStateChange` | app/src/main/java/com/example/bleuartdemo3/MainActivity.java:247-266 | success and connected: `discoverServices` on the callback's handle if permitted; disconnect or any failed status: closeGatt; any other state: nothing changes; the scan flag never changes |
| `Session.BleSession.CloseGatt` | app/src/main/java/com/example/bleuartdemo3/MainActivity.java:366-374 | no handle or no permission: nothing changes, so a denied close keeps the handle; otherwise the handle, never closed before, is closed once and dropped |
| `Session.AppendConnect` | app/src/main/java/com/example/bleuartdemo3/MainActivity.java:235 | a connect keeps the handle bookkeeping: the new handle has never been closed |
| `Session.AppendClose` | app/src/main/java/com/example/bleuartdemo3/MainActivity.java:372-373 | closing the held handle keeps every handle closed at most once |
| `Session.StopScanningIsIdempotent` | app/src/main/java/com/example/bleuartdemo3/MainActivity.java:198-209 | two stopScanning calls issue no more than the first one does, leave the flag false, and leave the handle counter alone |
| `Session.CloseGattIsIdempotent` | app/src/main/java/com/example/bleuartdemo3/MainActivity.java:366-374 | after a close that went through, a second closeGatt issues nothing; neither call touches the scan flag or the handle counter |

## Left out

- UTF-8 decoding of each notification (line 314). Chunks are already-decoded text. A multi-byte character split across two notifications is not re-assembled by the code, and the model makes no claim about bytes. Dafny characters are Unicode scalar values where Java uses UTF-16 code units; this makes no difference to the cleaning, which only looks at characters below U+0080.
- `Float.parseFloat` (lines 337 and 345): this is floating-point parsing, and only whether a text is accepted matters. It is the parameter `isFloat`.
- The permission machinery and the SDK-version branches (`checkBlePermissions`, `requestBlePermissions`, `onRequestPermissionsResult`, `checkScanPermission`, the `Build.VERSION` tests). Each check is a boolean input to the method that makes it.
- The `Handler.postDelayed` scan timeout and `removeCallbacksAndMessages` (lines 181 and 209): these are timer behaviour. The timeout firing is a call of `StopScanning`; cancelling it is not modelled.
- `runOnUiThread`: this is thread hopping. Every callback is treated as one serialized event.
- UI output: the status texts, the scan button text, `notifyDataSetChanged`, `smoothScrollToPosition` and `Toast` are display only.
- `scanResults` (lines 164 and 212): it is cleared but never appended to, so it only chooses a status text.
- `onServicesDiscovered` (lines 268-306), the scan button handler (lines 152-169), `onCreate`, `onPause` and `onDestroy`: these are not part of this model. They only issue platform calls or call the modelled methods.
- The Bluetooth calls themselves: they are foreign code. They appear only as recorded `PlatformCall` values. `connectGatt`'s device argument is not recorded.
- `connectGatt` returning null (line 235): the model's connect always yields a fresh, non-null handle, while the code stores whatever the platform returns, so a failed connect that leaves `bluetoothGatt` null is not modelled.
