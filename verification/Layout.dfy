/** Constants and plain values shared by every part of the model: bytes, keys, the bits of an item's flag byte. */
module Layout {

  newtype byte = x: int | 0 <= x < 256

  type Key = seq<byte>
  type Blob = seq<byte>

  datatype Option<+T> = None | Some(value: T)

  /** sizeof(base_item) on the usual 64-bit layout */
  const HEADER: nat := 56
  const POWER_SMALLEST: nat := 1
  const POWER_LARGEST: nat := 200
  const CHUNK_ALIGN_BYTES: nat := 8
  const ITEM_UPDATE_INTERVAL: nat := 60
  const TAIL_REPAIR_TIME: nat := 10800
  const REALTIME_MAXDELTA: nat := 2592000
  const INT32: nat := 0x8000_0000
  const UINT32: nat := 0x1_0000_0000

  /** Unsigned 32-bit addition and subtraction, which wrap. */
  function Add32(a: nat, b: nat): nat { (a + b) % UINT32 }

  function Sub32(a: nat, b: nat): nat { (a - b) % UINT32 }

  /**
   * The flag byte of an item. Bits 0, 2 and 3 are ITEM_LINKED, ITEM_SLABBED and ITEM_FETCHED;
   * `rest` is the value of the five other bits. A client's flags are stored in this same byte.
   */
  datatype ItemFlag = ItemFlag(linked: bool, slabbed: bool, fetched: bool, rest: nat) {
    /** A byte that do_item_link refuses: one of the bits the store uses for itself is already set. */
    predicate Dirty() { linked || slabbed }
  }

  /** The assignment of 32-bit client flags to the 8-bit field. */
  function FlagByte(flags: nat): ItemFlag {
    ItemFlag(flags % 2 == 1, flags / 4 % 2 == 1, flags / 8 % 2 == 1, flags / 2 % 2 * 2 + flags / 16 % 16 * 16)
  }

  /** The flag byte of a chunk fresh from a page and of the item an append builds. */
  const CLEAN: ItemFlag := ItemFlag(false, false, false, 0)

  /** Bytes charged for an item: header, key, one terminator, value. */
  function ItemTotal(key: Key, value: Blob): nat { HEADER + |key| + 1 + |value| }

  lemma Half(n: nat, d: nat)
    requires d == 2 || d == 4 || d == 8
    ensures n / d == 2 * (n / (2 * d)) + n / d % 2
  {
  }

  /** A number by its lowest four bits and the others. */
  lemma Bits(n: nat)
    ensures n == n % 2 + n / 2 % 2 * 2 + n / 4 % 2 * 4 + n / 8 % 2 * 8 + n / 16 * 16
    ensures n < 256 ==> n / 16 < 16 && n / 16 % 16 == n / 16
  {
    Half(n, 2);
    Half(n, 4);
    Half(n, 8);
  }
}
