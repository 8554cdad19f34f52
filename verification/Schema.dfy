/**
 * The event record shared by the kernel probes and the command-line tool, and
 * the packing of a block request's (dev, sector) into the 64-bit event key.
 */
module Schema {

  type u8 = x: nat | x < 0x100
  type u32 = x: nat | x < 0x1_0000_0000
  type u64 = x: nat | x < 0x1_0000_0000_0000_0000
  type i32 = x: int | -0x8000_0000 <= x < 0x8000_0000
  type Comm = seq<u8>

  const EVENT_SCHED_BLOCK: u8 := 0
  const EVENT_FUTEX_WAIT: u8 := 1
  const EVENT_FUTEX_WAKE: u8 := 2
  const EVENT_BLOCK_IO: u8 := 3

  /** Every event is stamped with the end of the span it describes. */
  datatype Event = Event(
    timestamp: u64, duration: u64, key: u64, pid: u32, tid: u32, eventType: u8, comm: Comm)

  /** `u64::saturating_sub`. */
  function SaturatingSub(a: u64, b: u64): u64 {
    if a >= b then a - b else 0
  }

  /** The cast of a kernel `pid_t` to `u32`. */
  function AsU32(x: i32): (r: u32)
    ensures r == x % 0x1_0000_0000
  {
    if x < 0 then x + 0x1_0000_0000 else x
  }

  const TWO_32 := 0x1_0000_0000

  /** Block requests: the device in the high half, the low 32 bits of the sector below it. */
  function PackBlockKey(dev: u32, sector: u64): u64 {
    dev * TWO_32 + sector % TWO_32
  }

  function UnpackBlockKey(key: u64): (u32, u32) {
    (key / TWO_32, key % TWO_32)
  }

  /** Packing what was unpacked gives back any 64-bit key: no key is lost. */
  lemma PackOfUnpack(key: u64)
    ensures PackBlockKey(UnpackBlockKey(key).0, UnpackBlockKey(key).1) == key
  {
  }

  /** Unpacking recovers the device in full and the sector modulo 2^32. */
  lemma UnpackOfPack(dev: u32, sector: u64)
    ensures UnpackBlockKey(PackBlockKey(dev, sector)) == (dev, sector % TWO_32)
  {
    var low := sector % TWO_32;
    assert (dev * TWO_32 + low) / TWO_32 == dev;
  }

  /** Two requests share a key exactly when they name the same device and congruent sectors. */
  lemma KeysCollide(dev1: u32, sector1: u64, dev2: u32, sector2: u64)
    ensures PackBlockKey(dev1, sector1) == PackBlockKey(dev2, sector2)
       <==> dev1 == dev2 && sector1 % TWO_32 == sector2 % TWO_32
  {
    UnpackOfPack(dev1, sector1);
    UnpackOfPack(dev2, sector2);
  }

  /** The packing as the code computes it on machine words, by shifting and masking. */
  function PackWords(dev: bv32, sector: bv64): bv64 {
    ((dev as bv64) << 32) | (sector & 0xFFFF_FFFF)
  }

  function UnpackWords(key: bv64): (bv32, bv32) {
    ((key >> 32) as bv32, (key & 0xFFFF_FFFF) as bv32)
  }

  /** On machine words, shifting and masking is the same arithmetic: the halves never overlap and
      nothing wraps around. */
  lemma WordsAreArithmetic(dev: bv32, sector: bv64, key: bv64)
    ensures PackWords(dev, sector) == (dev as bv64) * 0x1_0000_0000 + sector % 0x1_0000_0000
    ensures UnpackWords(key).0 as bv64 == key / 0x1_0000_0000
    ensures UnpackWords(key).1 as bv64 == key % 0x1_0000_0000
    ensures PackWords(UnpackWords(key).0, UnpackWords(key).1 as bv64) == key
  {
  }
}
