# Compaq Internet Keyboard (SDM4540UL) raw-report decoder

This project models the raw-event hook of the Linux HID driver for the Compaq
Internet Keyboard SDM4540UL and proves properties about it in Dafny.

The keyboard sends 8-byte input reports. Nine vendor buttons cannot be mapped
by the generic HID parser. The driver recognises each one by a signature:
the group byte (byte 0, value 4 or 3) plus one more byte (byte 3 for group 4,
byte 4 for group 3). It reports a substitute key, F13 to F21. Every other report is
passed through: byte 2 becomes the key code. In both cases the driver reports
a press (value 1) and then a release (value 0) of that key. It returns 0.

Files:

- `keyboard.dfy` (module `Keyboard`): the `byte` type (the driver's `u8`),
  the 8-byte `Report`, the `KeyCode`s (F13 to F21 and `Passthrough(code)`) and
  the `KeyEvent`s handed to the input device.
- `signatures.dfy` (module `Signatures`): a signature as data: group byte,
  secondary position, secondary value and key. It also holds a table-driven
  decoder (`Lookup`, first match wins; `Dispatch`, with the byte-2 fallback).
  This is the independent reference the driver's else-if chain is proved against.
- `decoder.dfy` (module `Decoder`): the driver's else-if chain as `Classify`,
  the nine-row table `SpecialKeys`, and the properties of the decoder.
- `raw_event.dfy` (module `RawEventHandler`): the input device as a class
  `EventSink` whose `log` grows by one event per `input_report_key` call, and
  `RawEvent`, the hook itself.

The chain is proved equal to the table lookup. The nine signatures are proved
pairwise disjoint, so the order of the chain never matters. Two signatures are
disjoint exactly when their group bytes differ, or when they test the same
position for different values.

## Model

| member | source | states |
|---|---|---|
| Decoder.Classify | hid-compaq-sdm4540ul.c:52-112 | a passed-through key code is always byte 2 of the report; a substitute key is only reported when byte 0 is 3 or 4 |
| Decoder.ClassifyIsDispatch | hid-compaq-sdm4540ul.c:52-112 | the else-if chain returns the same key as a first-match search of the nine-signature table, with byte 2 as the fallback |
| Decoder.SignatureFiresExactly | hid-compaq-sdm4540ul.c:52-104 | for each of the nine rows, its substitute key is reported if and only if both the group byte and the secondary byte hold that row's values (e.g. byte 0 = 4 and byte 3 = 16 gives F13; byte 3 = 16 alone does not) |
| Decoder.FallbackExactly | hid-compaq-sdm4540ul.c:106-112 | the pass-through branch is taken exactly when no signature fires, and then the key code is byte 2 |
| Decoder.SpecialKeysUnambiguous | hid-compaq-sdm4540ul.c:52-104 | no report satisfies two of the nine signatures |
| Decoder.SubstituteKeysDistinct | hid-compaq-sdm4540ul.c:54-103 | the nine substitute keys are pairwise distinct and none is a passed-through code |
| Decoder.ClassifyAnyOrder | hid-compaq-sdm4540ul.c:52-104 | testing the nine signatures in any order gives the key the chain gives |
| Decoder.DecidingBytes | hid-compaq-sdm4540ul.c:52-111 | two reports that agree on bytes 0, 2, 3 and 4 get the same key; bytes 1, 5, 6 and 7 never matter |
| Decoder.Scenarios | hid-compaq-sdm4540ul.c:52-112 | one concrete report per signature gives F13 to F21; reports that match no signature pass byte 2 through, including group byte 4 with no matching byte 3 and byte 3 = 16 under another group byte |
| Signatures.Lookup | hid-compaq-sdm4540ul.c:52-104 | a found key belongs to a signature that fires on the report; nothing is found exactly when no signature of the table fires |
| Signatures.LookupFirstMatch | hid-compaq-sdm4540ul.c:52-104 | the search reports the key of the first signature in table order that fires, as an else-if chain does |
| Signatures.LookupUnambiguous | hid-compaq-sdm4540ul.c:52-104 | in a table whose signatures are pairwise disjoint, any signature that fires decides the key, wherever it stands |
| Signatures.LookupOrderIndependent | hid-compaq-sdm4540ul.c:52-104 | reordering an unambiguous table keeps it unambiguous and changes neither the search result nor the decoded key |
| Signatures.DisjointExactly | hid-compaq-sdm4540ul.c:52-104 | two signatures share no report if and only if their group bytes differ or they test the same position for different values |
| RawEventHandler.EventSink.ReportKey | hid-compaq-sdm4540ul.c:54-55 | one key report appends exactly one (code, value) event to the device's log |
| RawEventHandler.RawEvent | hid-compaq-sdm4540ul.c:29-115 | returns 0 for every 8-byte report; appends exactly two events with the decoded key, value 1 then value 0, and nothing else; only reads the report buffer, so the same report always appends the same pair |

## Left out

- Device lifecycle (`compaq_probe`, `compaq_sdm4540ul_remove`): thin wrappers over kernel calls whose bodies are not part of this model.
- The device-ID table, the `hid_driver` structure and the module macros: registration only, with no behaviour to state.
- The `list_entry` walk from the HID device to its input device: a kernel resource lookup. `RawEvent` instead takes the `EventSink` it reports to as a parameter.
- How `input_report_key` turns events into OS input events: a foreign kernel call. It is modelled only as appending (code, value) to the sink's log.
- Logging (`dev_printk`, `hid_err`, the commented-out debug print): I/O only.
- The `size` and `struct hid_report *` arguments: the hook never reads them. The model instead requires the report buffer to be 8 bytes long, because the hook reads bytes 0, 2, 3 and 4 without checking the length.
- The numeric Linux values of KEY_F13 to KEY_F21 are not in the driver's file. The model keeps the nine substitute keys as their own constructors, distinct from every passed-through byte. In the kernel a passed-through byte could equal one of those numbers.
- The pass-through branch hands byte 2, a HID usage ID, to the input layer unchanged as a key code. The model reproduces this as written and does not translate usage IDs into Linux key codes.
