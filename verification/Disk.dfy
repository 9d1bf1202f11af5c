/** A blob file as the writer sees it: bytes, two locator slots, and a log of what was written. */
module Disk {
  import opened Basics
  import opened Crypto

  const FRONT_MATTER_LEN: nat := 4096

  type SlotIndex = s: nat | s < 2

  /** What a volatile slot holds: where the index is and the MAC that authenticates it. */
  datatype Locator = Locator(generation: nat, offset: u64, length: u64, mac: Mac, slot: SlotIndex)

  /** A slot either opens under the index key or it does not. */
  datatype Slot = Sealed(locator: Locator) | Torn

  /** `slots` stands for bytes 2048..4096 of the file, the two slots, which only `WriteSlot` changes. */
  datatype DiskData = DiskData(bytes: seq<byte>, slots: seq<Slot>)

  type DiskState = d: DiskData | |d.slots| == 2 && |d.bytes| >= FRONT_MATTER_LEN
    witness DiskData(seq(FRONT_MATTER_LEN, _ => 0), [Torn, Torn])

  datatype Op = Write(offset: nat, data: seq<byte>) | WriteSlot(locator: Locator) | Sync

  /** Writing past the end of a file leaves a hole that reads as zeros. */
  function Overwrite(bytes: seq<byte>, offset: nat, data: seq<byte>): seq<byte> {
    if |bytes| < offset then
      bytes + seq(offset - |bytes|, _ => 0) + data
    else
      bytes[..offset] + data + if offset + |data| < |bytes| then bytes[offset + |data|..] else []
  }

  function Apply(d: DiskState, op: Op): DiskState {
    match op
    case Write(offset, data) => d.(bytes := Overwrite(d.bytes, offset, data))
    case WriteSlot(l) => d.(slots := d.slots[l.slot := Sealed(l)])
    case Sync => d
  }

  ghost function ApplyAll(d: DiskState, ops: seq<Op>): DiskState {
    if ops == [] then d else Apply(ApplyAll(d, ops[..|ops| - 1]), ops[|ops| - 1])
  }

  lemma ApplyOne(d: DiskState, ops: seq<Op>, op: Op)
    ensures ApplyAll(d, ops + [op]) == Apply(ApplyAll(d, ops), op)
  {
    assert (ops + [op])[..|ops|] == ops;
  }

  lemma {:induction false} ApplyMore(d: DiskState, a: seq<Op>, b: seq<Op>)
    ensures ApplyAll(d, a + b) == ApplyAll(ApplyAll(d, a), b)
  {
    if b == [] {
      assert a + b == a;
    } else {
      var n := |b| - 1;
      ApplyMore(d, a, b[..n]);
      ApplyOne(d, a + b[..n], b[n]);
      assert a + b == a + b[..n] + [b[n]];
    }
  }

  lemma {:induction false} ApplyPrefix(d: DiskState, ops: seq<Op>, k: nat)
    requires k <= |ops|
    ensures ApplyAll(ApplyAll(d, ops[..k]), ops[k..]) == ApplyAll(d, ops)
    decreases |ops|
  {
    if k == |ops| {
      assert ops[..k] == ops && ops[k..] == [];
    } else {
      var n := |ops| - 1;
      ApplyPrefix(d, ops[..n], k);
      assert ops[..n][..k] == ops[..k] && ops[..n][k..] == ops[k..][..n - k] && ops[k..][n - k] == ops[n];
      assert |ops[k..]| - 1 == n - k;
    }
  }

  /** A byte position some operation of `ops` writes. */
  ghost predicate Touches(ops: seq<Op>, p: int) {
    exists i :: 0 <= i < |ops| && ops[i].Write? && ops[i].offset <= p < ops[i].offset + |ops[i].data|
  }

  /** What the file may hold when the effects of `pending` on `base` have landed only in part:
      any bytes where they write, and each slot they write old, new or torn. */
  ghost predicate Image(base: DiskState, pending: seq<Op>, img: DiskState)
  {
    && |base.bytes| <= |img.bytes| <= |ApplyAll(base, pending).bytes|
    && (forall p :: 0 <= p < |base.bytes| && !Touches(pending, p) ==> img.bytes[p] == base.bytes[p])
    && forall s: SlotIndex ::
         || img.slots[s] == base.slots[s]
         || ((exists i :: 0 <= i < |pending| && pending[i].WriteSlot? && pending[i].locator.slot == s)
             && (img.slots[s] == Torn
                 || exists i :: 0 <= i < |pending| && pending[i].WriteSlot? && pending[i].locator.slot == s
                                && img.slots[s] == Sealed(pending[i].locator)))
  }

  lemma OverwriteEffect(bytes: seq<byte>, offset: nat, data: seq<byte>)
    ensures var after := Overwrite(bytes, offset, data);
      && |after| == Max(|bytes|, offset + |data|)
      && after[offset..offset + |data|] == data
      && forall p :: 0 <= p < |bytes| && !(offset <= p < offset + |data|) ==> after[p] == bytes[p]
  {
  }

  /** The completed operations are one of the partial outcomes. */
  lemma {:induction false} ApplyIsImage(base: DiskState, ops: seq<Op>)
    ensures Image(base, ops, ApplyAll(base, ops))
  {
    if ops == [] {
    } else {
      var n := |ops| - 1;
      ApplyIsImage(base, ops[..n]);
      var before, op := ApplyAll(base, ops[..n]), ops[n];
      forall p | Touches(ops[..n], p) ensures Touches(ops, p) {
        var i :| 0 <= i < n && ops[..n][i].Write? && ops[..n][i].offset <= p < ops[..n][i].offset + |ops[..n][i].data|;
        assert ops[i] == ops[..n][i];
      }
      if op.Write? {
        OverwriteEffect(before.bytes, op.offset, op.data);
      }
    }
  }

  /** Bytes no operation writes are as they were. */
  lemma UntouchedSlice(base: DiskState, pending: seq<Op>, img: DiskState, lo: nat, hi: nat)
    requires Image(base, pending, img)
    requires lo <= hi <= |base.bytes|
    requires forall p :: lo <= p < hi ==> !Touches(pending, p)
    ensures img.bytes[lo..hi] == base.bytes[lo..hi]
  {
  }

  function ReadRange(d: DiskState, offset: nat, length: nat): Result<seq<byte>> {
    if offset + length > |d.bytes| then Err(Io) else Ok(d.bytes[offset..offset + length])
  }
}
