/** A fixed-size packet buffer and who owns it. */
module Buffers {
  datatype BufState = Posted | AppOwned | Free

  class Buffer {
    const buf: nat          // address of the backing memory
    const classSize: nat    // the allocator's class size
    const lkey: nat
    var length: nat
    var next: Buffer?
    var state: BufState

    constructor (buf: nat, classSize: nat, lkey: nat)
      ensures this.buf == buf && this.classSize == classSize && this.lkey == lkey
      ensures length == 0 && next == null && state == Free
    {
      this.buf, this.classSize, this.lkey := buf, classSize, lkey;
      length, next, state := 0, null, Free;
    }
  }
}
