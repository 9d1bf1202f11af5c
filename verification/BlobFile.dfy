/** The file object behind every handle of one blob. */
module BlobFile {
  import opened Basics
  import opened Disk
  import opened Ledger

  class File {
    var state: DiskState
    /** Every operation so far, in order. */
    ghost var log: seq<Op>
    /** Every commit so far; writers extend it when they write the commit slot. */
    ghost var history: History

    constructor (initial: DiskState, ghost committed: History)
      ensures state == initial && log == [] && history == committed
    {
      state := initial;
      log := [];
      history := committed;
    }

    method WriteAllAt(offset: nat, data: seq<byte>)
      modifies this`state, this`log
      ensures state == Apply(old(state), Write(offset, data))
      ensures log == old(log) + [Write(offset, data)]
    {
      state := state.(bytes := Overwrite(state.bytes, offset, data));
      log := log + [Write(offset, data)];
    }

    method WriteVolatileSlot(locator: Locator)
      modifies this`state, this`log
      ensures state == Apply(old(state), WriteSlot(locator))
      ensures log == old(log) + [WriteSlot(locator)]
    {
      state := state.(slots := state.slots[locator.slot := Sealed(locator)]);
      log := log + [WriteSlot(locator)];
    }

    method SyncAll()
      modifies this`log
      ensures log == old(log) + [Sync]
    {
      log := log + [Sync];
    }

    method ReadAt(offset: nat, length: nat) returns (r: Result<seq<byte>>)
      ensures r == ReadRange(state, offset, length)
    {
      if offset + length > |state.bytes| {
        return Err(Io);
      }
      return Ok(state.bytes[offset..offset + length]);
    }
  }
}
