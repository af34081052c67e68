/** Types shared by every part of the firmware model. */
module Base {
  /** A C `uint8_t`. */
  type byte = b: int | 0 <= b < 256

  /** A C `int32_t`. */
  type int32 = n: int | -0x8000_0000 <= n < 0x8000_0000

  datatype Option<+T> = None | Some(value: T)

  /** CONFIG_BT_NIMBLE_MAX_BONDS: size of the slot table, the bond lists and every per-connection table. */
  const MAX_BONDS: nat := 4

  /** BLE_HS_CONN_HANDLE_NONE. */
  const HANDLE_NONE: nat := 0xFFFF

  /** The C conversion of an unsigned 64-bit value to `int32_t` (two's complement wrap-around). */
  function ToInt32(v: nat): int32 {
    var low := v % 0x1_0000_0000;
    if low < 0x8000_0000 then low else low - 0x1_0000_0000
  }

  /** A duplicate-free sequence drawn from a finite set is no longer than the set. */
  lemma {:induction false} DistinctFits<T>(s: seq<T>, within: set<T>)
    requires forall i, j | 0 <= i < j < |s| :: s[i] != s[j]
    requires forall i | 0 <= i < |s| :: s[i] in within
    ensures |s| <= |within|
  {
    if s == [] {
    } else {
      var last := s[|s| - 1];
      DistinctFits(s[..|s| - 1], within - {last});
    }
  }
}
