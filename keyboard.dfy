/**
 Values exchanged between the Compaq Internet Keyboard (SDM4540UL) and the
 driver: the raw 8-byte input report, the key codes the driver reports and
 the (code, value) events it hands to the input device.
 */
module Keyboard {

  /** An unsigned 8-bit value, the driver's `u8`. */
  newtype byte = x: int | 0 <= x < 256

  /** A keyboard input report is always eight bytes long (the boot keyboard
      report of Appendix B.1 of the USB HID 1.11 specification). */
  const ReportLength: nat := 8

  /** One raw input report: byte 0 is the group byte, byte 2 the key code of
      an ordinary key, bytes 3 and 4 carry the vendor's extra buttons. */
  type Report = s: seq<byte> | |s| == ReportLength witness [0, 0, 0, 0, 0, 0, 0, 0]

  /** The key codes the driver reports: the nine substitute function keys
      F13 to F21 for the vendor buttons, and an ordinary code copied from the
      report. */
  datatype KeyCode =
    | F13 | F14 | F15 | F16 | F17 | F18 | F19 | F20 | F21
    | Passthrough(code: byte)
  {
    /** True for the nine substitute keys. */
    predicate IsSubstitute() {
      !Passthrough?
    }
  }

  /** The values the driver passes with a key: pressed and released. */
  const KeyOn: int := 1
  const KeyOff: int := 0

  /** One call of `input_report_key`: a key code and its new value. */
  datatype KeyEvent = KeyEvent(code: KeyCode, value: int)

  /** The two events reported for one decoded key: a press, then a release. */
  function PressRelease(k: KeyCode): seq<KeyEvent> {
    [KeyEvent(k, KeyOn), KeyEvent(k, KeyOff)]
  }
}
