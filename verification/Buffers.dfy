/** The buffer arithmetic of NewStream. */
module Buffers {
  import opened Wire

  /** Where the usable buffer starts, how long it is, and how much was allocated. */
  datatype Buffer = Buffer(start: nat, length: int, size: nat)

  /** The buffer NewStream carves out of what Malloc returned at an address. */
  function NewBuffer(requested: int, address: nat): Buffer {
    var wanted := if requested < 32 then 32 else requested;
    var size := AlignInt8(if wanted > MAX_LENGTH + 1 then MAX_LENGTH + 1 else wanted);
    var start := AlignInt8(address);
    Buffer(start, if start != address then size - 8 else size, size)
  }

  /**
   * For every requested size and address: the buffer is aligned, lies inside the
   * allocation, and is a multiple of 8 bytes long with room for a header and content.
   */
  lemma NewBufferLaws(requested: int, address: nat)
    ensures var b := NewBuffer(requested, address);
            && b.start % 8 == 0
            && address <= b.start && b.start + b.length <= address + b.size
            && b.length % 8 == 0 && 24 <= b.length <= MAX_LENGTH + 1
            && (32 <= requested <= MAX_LENGTH + 1 && address % 8 == 0 ==> requested <= b.length < requested + 8)
  {
  }
}
