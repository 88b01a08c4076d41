/** Feetech register discipline: which registers may be written at run time and which only as
    part of the persistent profile, and the procedure that unlocks, writes, verifies and
    relocks the servos' EEPROM.

    A servo may ignore a write, take it partly, or fail to confirm it, but a write reaches only
    the bytes it addresses; a read fails or tells the truth. */
module Eeprom {
  import opened Results
  import opened Words

  datatype Area = EepromArea | Sram
  datatype Access = ReadOnly | ReadWrite

  datatype Register = Register(address: u8, widthBytes: u8, area: Area, access: Access)

  const STATUS_RETURN_LEVEL := Register(8, 1, EepromArea, ReadWrite)
  const MAX_TORQUE_LIMIT := Register(16, 2, EepromArea, ReadWrite)
  const TORQUE_ENABLE := Register(40, 1, Sram, ReadWrite)
  const GOAL_POSITION := Register(42, 2, Sram, ReadWrite)
  const TORQUE_LIMIT := Register(48, 2, Sram, ReadWrite)
  const LOCK_MARK := Register(55, 1, Sram, ReadWrite)
  const PRESENT_TELEMETRY := Register(56, 15, Sram, ReadOnly)

  function KnownRegisters(): seq<Register> {
    [STATUS_RETURN_LEVEL, MAX_TORQUE_LIMIT, TORQUE_ENABLE, GOAL_POSITION, TORQUE_LIMIT, LOCK_MARK,
     PRESENT_TELEMETRY]
  }

  function Find(registers: seq<Register>, address: u8, widthBytes: u8): Option<Register>
    decreases |registers|
  {
    if registers == [] then None
    else if registers[0].address == address && registers[0].widthBytes == widthBytes then Some(registers[0])
    else Find(registers[1..], address, widthBytes)
  }

  function LookupRegister(address: u8, widthBytes: u8): Option<Register> {
    Find(KnownRegisters(), address, widthBytes)
  }

  datatype GateError = UnknownRegister | NotAllowed(register: Register)

  function RuntimeWritable(address: u8, widthBytes: u8): Result<Register, GateError> {
    match LookupRegister(address, widthBytes)
    case None => Err(UnknownRegister)
    case Some(register) => if register.area != EepromArea then Ok(register) else Err(NotAllowed(register))
  }

  function PersistentWritable(address: u8, widthBytes: u8): Result<Register, GateError> {
    match LookupRegister(address, widthBytes)
    case None => Err(UnknownRegister)
    case Some(register) =>
      if register.area != EepromArea || register.access != ReadWrite then Err(NotAllowed(register))
      else Ok(register)
  }

  // ------------------------------------------------------------------------- the gates

  lemma {:induction false} FindIsMember(registers: seq<Register>, address: u8, widthBytes: u8)
    ensures match Find(registers, address, widthBytes)
            case Some(r) => r in registers && r.address == address && r.widthBytes == widthBytes
            case None => forall r :: r in registers ==> r.address != address || r.widthBytes != widthBytes
    decreases |registers|
  {
    if registers != [] {
      FindIsMember(registers[1..], address, widthBytes);
      assert registers == [registers[0]] + registers[1..];
    }
  }

  predicate Covers(r: Register, a: int) { r.address <= a < r.address + r.widthBytes as int }

  /** The bytes of the registers kept in EEPROM. */
  ghost predicate EepromByte(a: int) {
    exists r :: r in KnownRegisters() && r.area == EepromArea && Covers(r, a)
  }

  /** Registers of the map do not overlap: two that share a byte are the same. */
  lemma RegistersDisjoint(r: Register, s: Register, a: int)
    requires r in KnownRegisters() && s in KnownRegisters() && Covers(r, a) && Covers(s, a)
    ensures r == s
  {
  }

  /** The bytes a run-time write may reach hold no EEPROM byte. */
  lemma RuntimeGateSparesEeprom(address: u8, widthBytes: u8, a: int)
    requires RuntimeWritable(address, widthBytes).Ok? && address <= a < address as int + widthBytes
    ensures !EepromByte(a)
  {
    FindIsMember(KnownRegisters(), address, widthBytes);
    var register := RuntimeWritable(address, widthBytes).value;
    assert Covers(register, a);
    if EepromByte(a) {
      var r :| r in KnownRegisters() && r.area == EepromArea && Covers(r, a);
      RegistersDisjoint(register, r, a);
    }
  }

  /** The persistent gate opens exactly for the read-write EEPROM registers; no register is
      open to both gates. */
  lemma PersistentGate(address: u8, widthBytes: u8)
    ensures PersistentWritable(address, widthBytes).Ok? <==>
              exists r :: r in KnownRegisters() && r.area == EepromArea && r.access == ReadWrite
                          && r.address == address && r.widthBytes == widthBytes
    ensures PersistentWritable(address, widthBytes).Ok? ==> RuntimeWritable(address, widthBytes).Err?
    ensures PersistentWritable(address, widthBytes).Ok? ==>
              address as int + widthBytes <= LOCK_MARK.address
              && forall a :: address <= a < address as int + widthBytes ==> EepromByte(a)
  {
    FindIsMember(KnownRegisters(), address, widthBytes);
    if PersistentWritable(address, widthBytes).Ok? {
      var register := PersistentWritable(address, widthBytes).value;
      forall a | address <= a < address as int + widthBytes
        ensures EepromByte(a)
      {
        assert Covers(register, a);
      }
    } else if r: Register :| r in KnownRegisters() && r.area == EepromArea && r.access == ReadWrite
                             && r.address == address && r.widthBytes == widthBytes {
      var found := LookupRegister(address, widthBytes).value;
      assert Covers(r, r.address) && Covers(found, r.address);
      RegistersDisjoint(r, found, r.address);
    }
  }

  /** Which addresses the gates let through: at run time the torque switch, the goal, the torque
      limit, the lock and the telemetry block; in a profile the status return level and the
      largest torque. */
  lemma GateAddresses(address: u8, widthBytes: u8)
    ensures RuntimeWritable(address, widthBytes).Ok? <==>
              (widthBytes == 1 && (address == 40 || address == 55))
              || (widthBytes == 2 && (address == 42 || address == 48))
              || (widthBytes == 15 && address == 56)
    ensures PersistentWritable(address, widthBytes).Ok? <==>
              (widthBytes == 1 && address == 8) || (widthBytes == 2 && address == 16)
  {
    FindIsMember(KnownRegisters(), address, widthBytes);
    EveryRegister();
    hide Find, KnownRegisters;
    var known := KnownRegisters();
    assert STATUS_RETURN_LEVEL in known && MAX_TORQUE_LIMIT in known && TORQUE_ENABLE in known;
    assert GOAL_POSITION in known && TORQUE_LIMIT in known && LOCK_MARK in known && PRESENT_TELEMETRY in known;
  }

  lemma EveryRegister()
    ensures forall r :: r in KnownRegisters() <==>
              r == Register(8, 1, EepromArea, ReadWrite) || r == Register(16, 2, EepromArea, ReadWrite)
              || r == Register(40, 1, Sram, ReadWrite) || r == Register(42, 2, Sram, ReadWrite)
              || r == Register(48, 2, Sram, ReadWrite) || r == Register(55, 1, Sram, ReadWrite)
              || r == Register(56, 15, Sram, ReadOnly)
  {
    var known := KnownRegisters();
    assert known[0] in known && known[1] in known && known[2] in known && known[3] in known;
    assert known[4] in known && known[5] in known && known[6] in known;
  }

  // -------------------------------------------------------------------------- the memory

  const MEMORY_SIZE := 256

  /** The bytes of each servo on the bus. */
  type Memory = map<u8, Bytes>

  function Patch(cells: Bytes, address: nat, bytes: Bytes): Bytes
    requires address + |bytes| <= |cells|
  {
    cells[..address] + bytes + cells[address + |bytes|..]
  }

  /** Only the given cells have changed, on any servo. */
  ghost predicate TouchesOnly(before: Memory, after: Memory, cells: set<int>) {
    && after.Keys == before.Keys
    && forall id :: id in before ==>
         && |after[id]| == |before[id]|
         && forall a :: 0 <= a < |before[id]| && a !in cells ==> after[id][a] == before[id][a]
  }

  predicate Within(a: int, address: int, widthBytes: nat) { address <= a < address + widthBytes }

  ghost function Span(address: int, widthBytes: nat): set<int> {
    set a | address <= a < address + widthBytes && Within(a, address, widthBytes)
  }

  lemma TouchesTrans(m0: Memory, m1: Memory, m2: Memory, cells: set<int>)
    requires TouchesOnly(m0, m1, cells) && TouchesOnly(m1, m2, cells)
    ensures TouchesOnly(m0, m2, cells)
  {
  }

  lemma TouchesMore(m0: Memory, m1: Memory, cells: set<int>, more: set<int>)
    requires TouchesOnly(m0, m1, cells) && cells <= more
    ensures TouchesOnly(m0, m1, more)
  {
  }

  datatype LockOp = LockOp(servoId: u8, locked: bool)

  class StsBus {
    /** What the servos hold, and every attempt to move an EEPROM lock, in order. */
    var memory: Memory
    var locks: seq<LockOp>

    ghost predicate Valid()
      reads this
    {
      forall id :: id in memory ==> |memory[id]| == MEMORY_SIZE
    }

    constructor (memory: Memory)
      requires forall id :: id in memory ==> |memory[id]| == MEMORY_SIZE
      ensures Valid() && this.memory == memory && locks == []
    {
      this.memory := memory;
      locks := [];
    }

    /** A write: confirmed or not, taken or not, it touches only the bytes it addresses, and
        only on the servo it addresses. */
    method WriteRegister(id: u8, address: u8, bytes: Bytes) returns (ok: bool)
      requires Valid() && address as int + |bytes| <= MEMORY_SIZE
      modifies this`memory
      ensures Valid() && TouchesOnly(old(memory), memory, Span(address, |bytes|))
      ensures forall other :: other in memory && other != id ==> memory[other] == old(memory)[other]
    {
      ok := *;
      if id in memory {
        var left: Bytes := *;
        if |left| == |bytes| {
          memory := memory[id := Patch(memory[id], address, left)];
        }
      }
    }

    /** A read fails, or tells what the servo holds. */
    method ReadRegister(id: u8, address: u8, widthBytes: u8) returns (r: Option<Bytes>)
      requires Valid() && address as int + widthBytes <= MEMORY_SIZE
      ensures r.Some? ==> id in memory && r.value == memory[id][address..address as int + widthBytes]
    {
      var heard := *;
      if heard && id in memory {
        return Some(memory[id][address..address as int + widthBytes]);
      }
      return None;
    }

    /** `write_runtime_byte` and `write_runtime_word`. */
    method WriteRuntime(id: u8, address: u8, bytes: Bytes) returns (ok: bool)
      requires Valid() && 1 <= |bytes| <= 2
      modifies this`memory
      ensures Valid() && TouchesOnly(old(memory), memory, Span(address, |bytes|))
      ensures RuntimeWritable(address, |bytes|).Err? ==> !ok && memory == old(memory)
      ensures forall other :: other in memory && other != id ==> memory[other] == old(memory)[other]
      ensures forall servo, a :: servo in memory && 0 <= a < MEMORY_SIZE && EepromByte(a) ==>
                memory[servo][a] == old(memory)[servo][a]
    {
      if RuntimeWritable(address, |bytes|).Err? {
        return false;
      }
      FindIsMember(KnownRegisters(), address, |bytes|);
      ok := WriteRegister(id, address, bytes);
      forall servo, a | servo in memory && 0 <= a < MEMORY_SIZE && EepromByte(a)
        ensures memory[servo][a] == old(memory)[servo][a]
      {
        if a in Span(address, |bytes|) {
          RuntimeGateSparesEeprom(address, |bytes|, a);
        }
      }
    }

    /** `set_eeprom_write_lock`: the write counts only once read back. */
    method SetEepromWriteLock(id: u8, locked: bool) returns (ok: bool)
      requires Valid()
      modifies this
      ensures Valid() && TouchesOnly(old(memory), memory, {55})
      ensures forall other :: other in memory && other != id ==> memory[other] == old(memory)[other]
      ensures locks == old(locks) + [LockOp(id, locked)]
      ensures ok ==> Shows(memory, id, locked)
    {
      locks := locks + [LockOp(id, locked)];
      ok := WriteRuntime(id, LOCK_MARK.address, [if locked then 1 else 0]);
      assert Span(55, 1) == {55};
      if !ok {
        return;
      }
      var observed := ReadRegister(id, LOCK_MARK.address, 1);
      ok := observed.Some? && (observed.value[0] != 0) == locked;
    }
  }

  /** Whatever a run-time write may do to the servos. */
  datatype RuntimeWrite = RuntimeWrite(address: u8, widthBytes: u8)

  ghost predicate MayBecome(before: Memory, after: Memory, w: RuntimeWrite) {
    if RuntimeWritable(w.address, w.widthBytes).Err? then after == before
    else TouchesOnly(before, after, Span(w.address, w.widthBytes))
  }

  /** A run: the writes, and the memory before each and after the last. */
  ghost predicate RuntimeRun(states: seq<Memory>, writes: seq<RuntimeWrite>) {
    |states| == |writes| + 1 && forall k :: 0 <= k < |writes| ==> MayBecome(states[k], states[k + 1], writes[k])
  }

  lemma WriteSparesEeprom(before: Memory, after: Memory, w: RuntimeWrite, id: u8, a: nat)
    requires MayBecome(before, after, w) && id in before && a < |before[id]| && EepromByte(a)
    ensures id in after && |after[id]| == |before[id]| && after[id][a] == before[id][a]
  {
    if RuntimeWritable(w.address, w.widthBytes).Ok? && a in Span(w.address, w.widthBytes) {
      RuntimeGateSparesEeprom(w.address, w.widthBytes, a);
    }
  }

  /** No sequence of run-time writes, whatever the servos make of them, changes a byte at an
      EEPROM address. */
  lemma {:induction false} RuntimeRunSparesEeprom(states: seq<Memory>, writes: seq<RuntimeWrite>, n: nat, id: u8,
                                                  a: nat)
    requires RuntimeRun(states, writes) && n <= |writes|
    requires id in states[0] && a < |states[0][id]| && EepromByte(a)
    ensures id in states[n] && |states[n][id]| == |states[0][id]| && states[n][id][a] == states[0][id][a]
    decreases n
  {
    hide EepromByte, MayBecome;
    if n > 0 {
      RuntimeRunSparesEeprom(states, writes, n - 1, id, a);
      WriteSparesEeprom(states[n - 1], states[n], writes[n - 1], id, a);
    }
  }

  /** A servo is there, and its EEPROM lock byte says locked or not. */
  ghost predicate Shows(memory: Memory, id: u8, locked: bool) {
    id in memory && |memory[id]| > 55 && (memory[id][55] != 0) == locked
  }

  // -------------------------------------------------------------- the profile's entries

  datatype Width = U8 | U16

  datatype Entry = Entry(address: u8, width: Width, value: u16)

  function WidthBytes(w: Width): u8 { if w == U8 then 1 else 2 }

  function EntryBytes(e: Entry): Bytes
    requires e.width == U8 ==> e.value < 256
  {
    if e.width == U8 then [e.value] else Le16(e.value)
  }

  /** The entry's value fits, and the persistent gate lets it through. */
  predicate Writable(e: Entry) {
    (e.width == U8 ==> e.value < 256) && PersistentWritable(e.address, WidthBytes(e.width)).Ok?
  }

  /** What a profile may hold: a byte at address 8, a word at address 16. */
  lemma WritableIff(e: Entry)
    ensures Writable(e) <==> (e.width == U8 && e.address == 8 && e.value < 256) || (e.width == U16 && e.address == 16)
  {
    GateAddresses(e.address, WidthBytes(e.width));
  }

  ghost function CellsOf(e: Entry): set<int> { Span(e.address, WidthBytes(e.width)) }

  ghost predicate Holds(memory: Memory, id: u8, e: Entry) {
    && Writable(e) && id in memory && e.address as int + WidthBytes(e.width) <= |memory[id]|
    && memory[id][e.address..e.address as int + WidthBytes(e.width)] == EntryBytes(e)
  }

  /** A servo's registers read the entry's value, the low byte first. */
  predicate Reads(memory: Memory, id: u8, e: Entry) {
    && id in memory && e.address as int + WidthBytes(e.width) <= |memory[id]|
    && (e.width == U8 ==> memory[id][e.address] == e.value)
    && (e.width == U16 ==> memory[id][e.address] as int + 0x100 * memory[id][e.address + 1] as int == e.value)
  }

  /** What is held is what is read. */
  lemma HeldIsRead(memory: Memory, id: u8, e: Entry)
    requires Holds(memory, id, e)
    ensures Reads(memory, id, e)
  {
    var (lo, cells) := (e.address as int, memory[id]);
    if e.width == U8 {
      assert cells[lo..lo + 1] == [cells[lo]];
    } else {
      assert cells[lo..lo + 2] == [cells[lo], cells[lo + 1]];
      LowByteFirst(e.value);
    }
  }

  lemma LowByteFirst(v: u16)
    ensures Le16(v)[0] as int + 0x100 * Le16(v)[1] as int == v
  {
  }

  lemma WritableCells(e: Entry)
    requires Writable(e)
    ensures e.address as int + WidthBytes(e.width) <= 55
    ensures 55 !in CellsOf(e)
  {
    PersistentGate(e.address, WidthBytes(e.width));
  }

  /** An entry outlives writes to other cells. */
  lemma HoldsOn(before: Memory, after: Memory, cells: set<int>, id: u8, e: Entry)
    requires TouchesOnly(before, after, cells) && cells !! CellsOf(e) && Holds(before, id, e)
    ensures Holds(after, id, e)
  {
    var (lo, hi) := (e.address as int, e.address as int + WidthBytes(e.width));
    forall a | lo <= a < hi
      ensures after[id][a] == before[id][a]
    {
      assert a in CellsOf(e);
    }
    assert after[id][lo..hi] == before[id][lo..hi];
  }

  /** No lock has moved. */
  ghost predicate SameLocks(before: Memory, after: Memory) {
    forall id, locked :: Shows(before, id, locked) ==> Shows(after, id, locked)
  }

  lemma LocksApart(before: Memory, after: Memory, e: Entry)
    requires Writable(e) && TouchesOnly(before, after, CellsOf(e))
    ensures SameLocks(before, after)
  {
    WritableCells(e);
  }

  /** `write_and_verify_eeprom_entry`. */
  method WriteAndVerify(bus: StsBus, id: u8, e: Entry) returns (ok: bool)
    requires bus.Valid()
    modifies bus`memory
    ensures bus.Valid() && TouchesOnly(old(bus.memory), bus.memory, CellsOf(e))
    ensures !Writable(e) ==> !ok && bus.memory == old(bus.memory)
    ensures forall other :: other in bus.memory && other != id ==> bus.memory[other] == old(bus.memory)[other]
    ensures ok ==> Holds(bus.memory, id, e) && Reads(bus.memory, id, e)
    ensures SameLocks(old(bus.memory), bus.memory)
  {
    if e.width == U8 && e.value >= 256 {
      return false;
    }
    if PersistentWritable(e.address, WidthBytes(e.width)).Err? {
      return false;
    }
    WritableCells(e);
    ok := bus.WriteRegister(id, e.address, EntryBytes(e));
    LocksApart(old(bus.memory), bus.memory, e);
    if !ok {
      return;
    }
    var observed := bus.ReadRegister(id, e.address, WidthBytes(e.width));
    ok := observed.Some? && observed.value == EntryBytes(e);
    if ok {
      HeldIsRead(bus.memory, id, e);
    }
  }

  // ------------------------------------------------------------------------- the procedure

  datatype ApplyError =
    | NoEntries
    | UnlockFailed(unlockIndex: nat)
    | EntryFailed(relockFailed: Option<nat>)
    | RelockFailed(relockIndex: nat)

  ghost function LockOps(ids: seq<u8>, locked: bool): seq<LockOp>
    decreases |ids|
  {
    if ids == [] then [] else LockOps(ids[..|ids| - 1], locked) + [LockOp(ids[|ids| - 1], locked)]
  }

  /** The lock operations of a pass that ended well, or failed at number `failed`. */
  ghost function LockAttempts(ids: seq<u8>, locked: bool, failed: Option<nat>): seq<LockOp>
    requires failed.Some? ==> failed.value < |ids|
  {
    if failed.None? then LockOps(ids, locked) else LockOps(ids[..failed.value + 1], locked)
  }

  /** The servos a pass has tried to lock or unlock. */
  ghost function Tried(ids: seq<u8>, failed: Option<nat>): seq<u8>
    requires failed.Some? ==> failed.value < |ids|
  {
    if failed.None? then ids else ids[..failed.value + 1]
  }

  /** What a pass leaves behind: every servo it tried shows the lock state, save the one it
      failed at, whose lock is in doubt. */
  ghost predicate PassShows(memory: Memory, ids: seq<u8>, locked: bool, failed: Option<nat>)
    requires failed.Some? ==> failed.value < |ids|
  {
    forall id :: id in Tried(ids, failed) && (failed.Some? ==> id != ids[failed.value]) ==> Shows(memory, id, locked)
  }

  /** Servos that a pass has not come to are as they were. */
  ghost predicate UntriedKept(before: Memory, after: Memory, ids: seq<u8>, failed: Option<nat>)
    requires failed.Some? ==> failed.value < |ids|
  {
    forall id :: id in before && id !in Tried(ids, failed) ==> id in after && after[id] == before[id]
  }

  lemma PassBegins(memory: Memory, ids: seq<u8>, locked: bool)
    ensures PassShows(memory, ids[..0], locked, None) && UntriedKept(memory, memory, ids[..0], None)
  {
  }

  /** One more servo tried: it shows the state, or the pass ends there. */
  lemma PassGoesOn(first: Memory, before: Memory, after: Memory, ids: seq<u8>, i: nat, locked: bool, ok: bool)
    requires i < |ids| && PassShows(before, ids[..i], locked, None) && UntriedKept(first, before, ids[..i], None)
    requires after.Keys == before.Keys && forall id :: id in after && id != ids[i] ==> after[id] == before[id]
    requires ok ==> Shows(after, ids[i], locked)
    ensures ok ==> PassShows(after, ids[..i + 1], locked, None) && UntriedKept(first, after, ids[..i + 1], None)
    ensures !ok ==> PassShows(after, ids, locked, Some(i)) && UntriedKept(first, after, ids, Some(i))
  {
    forall id | id in ids[..i + 1] && id != ids[i]
      ensures Shows(after, id, locked)
    {
      assert id in ids[..i];
      assert Shows(before, id, locked);
    }
    forall id | id in first && id !in ids[..i + 1]
      ensures id in after && after[id] == first[id]
    {
      assert ids[i] in ids[..i + 1] && id !in ids[..i];
    }
  }

  method SetAllLocks(bus: StsBus, ids: seq<u8>, locked: bool) returns (failed: Option<nat>)
    requires bus.Valid()
    modifies bus
    ensures bus.Valid() && TouchesOnly(old(bus.memory), bus.memory, {55})
    ensures failed.Some? ==> failed.value < |ids|
    ensures bus.locks == old(bus.locks) + LockAttempts(ids, locked, failed)
    ensures PassShows(bus.memory, ids, locked, failed)
    ensures UntriedKept(old(bus.memory), bus.memory, ids, failed)
  {
    hide PassShows, UntriedKept, Shows;
    PassBegins(bus.memory, ids, locked);
    for i := 0 to |ids|
      invariant bus.Valid() && TouchesOnly(old(bus.memory), bus.memory, {55})
      invariant bus.locks == old(bus.locks) + LockOps(ids[..i], locked)
      invariant PassShows(bus.memory, ids[..i], locked, None)
      invariant UntriedKept(old(bus.memory), bus.memory, ids[..i], None)
    {
      ghost var before := bus.memory;
      var ok := bus.SetEepromWriteLock(ids[i], locked);
      assert ids[..i + 1][..i] == ids[..i];
      TouchesTrans(old(bus.memory), before, bus.memory, {55});
      PassGoesOn(old(bus.memory), before, bus.memory, ids, i, locked, ok);
      if !ok {
        return Some(i);
      }
    }
    assert ids[..|ids|] == ids;
    return None;
  }

  ghost predicate Disjoint(e: Entry, f: Entry) { CellsOf(e) !! CellsOf(f) }

  /** No entry from `k + 1` up to `n` writes to the cells of entry `k`. */
  ghost predicate LastOfItsCells(entries: seq<Entry>, k: nat, n: nat)
    requires k < |entries| && n <= |entries|
  {
    forall j :: k < j < n ==> Disjoint(entries[j], entries[k])
  }

  /** Of the first `n` entries, all could be written, and those not written over since are held
      by every servo. */
  ghost predicate Applied(memory: Memory, ids: seq<u8>, entries: seq<Entry>, n: nat)
    requires n <= |entries|
  {
    forall k, id :: 0 <= k < n && id in ids && LastOfItsCells(entries, k, n) ==> Holds(memory, id, entries[k])
  }

  /** Every servo reads every entry not written over by a later one. */
  ghost predicate AllRead(memory: Memory, ids: seq<u8>, entries: seq<Entry>) {
    forall k, id :: 0 <= k < |entries| && id in ids && LastOfItsCells(entries, k, |entries|) ==>
      Reads(memory, id, entries[k])
  }

  lemma AppliedIsRead(memory: Memory, ids: seq<u8>, entries: seq<Entry>)
    requires Applied(memory, ids, entries, |entries|)
    ensures AllRead(memory, ids, entries)
  {
    forall k, id | 0 <= k < |entries| && id in ids && LastOfItsCells(entries, k, |entries|)
      ensures Reads(memory, id, entries[k])
    {
      HeldIsRead(memory, id, entries[k]);
    }
  }

  ghost predicate AllWritable(entries: seq<Entry>, n: nat)
    requires n <= |entries|
  {
    forall k :: 0 <= k < n ==> Writable(entries[k])
  }

  ghost function CellsOfAll(entries: seq<Entry>, n: nat): set<int>
    requires n <= |entries|
  {
    set k, a | 0 <= k < n && a in CellsOf(entries[k]) :: a
  }

  /** Part-way through entry `n`: it is held by the first servos, and it has written over only
      its own cells. */
  lemma EntryAdvances(before: Memory, after: Memory, ids: seq<u8>, entries: seq<Entry>, n: nat)
    requires n < |entries| && Applied(before, ids, entries, n)
    requires TouchesOnly(before, after, CellsOf(entries[n]))
    requires forall id :: id in ids ==> Holds(after, id, entries[n])
    ensures Applied(after, ids, entries, n + 1)
  {
    forall k, id | 0 <= k < n && id in ids && LastOfItsCells(entries, k, n + 1)
      ensures Holds(after, id, entries[k])
    {
      assert Disjoint(entries[n], entries[k]);
      assert LastOfItsCells(entries, k, n);
      HoldsOn(before, after, CellsOf(entries[n]), id, entries[k]);
    }
  }

  method ApplyEntry(bus: StsBus, ids: seq<u8>, e: Entry) returns (ok: bool)
    requires bus.Valid()
    modifies bus`memory
    ensures bus.Valid() && TouchesOnly(old(bus.memory), bus.memory, CellsOf(e))
    ensures ok ==> forall id :: id in ids ==> Holds(bus.memory, id, e)
    ensures ok && ids != [] ==> Writable(e)
    ensures SameLocks(old(bus.memory), bus.memory)
  {
    for i := 0 to |ids|
      invariant bus.Valid() && TouchesOnly(old(bus.memory), bus.memory, CellsOf(e))
      invariant SameLocks(old(bus.memory), bus.memory)
      invariant forall id :: id in ids[..i] ==> Holds(bus.memory, id, e)
    {
      ghost var before := bus.memory;
      ok := WriteAndVerify(bus, ids[i], e);
      TouchesTrans(old(bus.memory), before, bus.memory, CellsOf(e));
      if !ok {
        return;
      }
      forall id | id in ids[..i + 1]
        ensures Holds(bus.memory, id, e)
      {
        if id != ids[i] {
          assert id in ids[..i] && id in bus.memory;
          assert bus.memory[id] == before[id];
        }
      }
    }
    assert ids[..|ids|] == ids;
    if ids != [] {
      assert ids[0] in ids && Holds(bus.memory, ids[0], e);
    }
    ok := true;
  }

  method ApplyEntries(bus: StsBus, ids: seq<u8>, entries: seq<Entry>) returns (ok: bool)
    requires bus.Valid()
    modifies bus`memory
    ensures bus.Valid() && TouchesOnly(old(bus.memory), bus.memory, CellsOfAll(entries, |entries|))
    ensures ok ==> Applied(bus.memory, ids, entries, |entries|) && AllRead(bus.memory, ids, entries)
    ensures ok && ids != [] ==> AllWritable(entries, |entries|)
    ensures SameLocks(old(bus.memory), bus.memory)
  {
    for n := 0 to |entries|
      invariant SameLocks(old(bus.memory), bus.memory)
      invariant bus.Valid() && TouchesOnly(old(bus.memory), bus.memory, CellsOfAll(entries, |entries|))
      invariant Applied(bus.memory, ids, entries, n)
      invariant ids != [] ==> AllWritable(entries, n)
    {
      ghost var before := bus.memory;
      ok := ApplyEntry(bus, ids, entries[n]);
      TouchesMore(before, bus.memory, CellsOf(entries[n]), CellsOfAll(entries, |entries|));
      TouchesTrans(old(bus.memory), before, bus.memory, CellsOfAll(entries, |entries|));
      if !ok {
        return;
      }
      EntryAdvances(before, bus.memory, ids, entries, n);
    }
    AppliedIsRead(bus.memory, ids, entries);
    ok := true;
  }

  /** Relocking leaves the profile in place. */
  lemma AppliedOn(before: Memory, after: Memory, ids: seq<u8>, entries: seq<Entry>)
    requires Applied(before, ids, entries, |entries|) && TouchesOnly(before, after, {55})
    ensures Applied(after, ids, entries, |entries|)
  {
    forall k, id | 0 <= k < |entries| && id in ids && LastOfItsCells(entries, k, |entries|)
      ensures Holds(after, id, entries[k])
    {
      WritableCells(entries[k]);
      HoldsOn(before, after, {55}, id, entries[k]);
    }
  }

  /** What an outcome says about the lock attempts: an error while unlocking leaves without
      relocking; every other exit has tried to relock the servos in order, up to the first
      failure. */
  ghost predicate LockDiscipline(r: Result<(), ApplyError>, ids: seq<u8>, attempts: seq<LockOp>) {
    match r
    case Ok(_) => attempts == LockOps(ids, false) + LockOps(ids, true)
    case Err(NoEntries) => attempts == []
    case Err(UnlockFailed(i)) => i < |ids| && attempts == LockAttempts(ids, false, Some(i))
    case Err(EntryFailed(relock)) =>
      && (relock.Some? ==> relock.value < |ids|)
      && attempts == LockOps(ids, false) + LockAttempts(ids, true, relock)
    case Err(RelockFailed(j)) =>
      j < |ids| && attempts == LockOps(ids, false) + LockAttempts(ids, true, Some(j))
  }

  /** Where every exit leaves the locks. The servo that a pass failed at is in doubt; of the
      others, an error while unlocking leaves those tried unlocked and the rest untouched; an
      error while relocking leaves those tried locked and the rest unlocked; any other exit
      leaves all locked. */
  ghost predicate LocksLeft(r: Result<(), ApplyError>, before: Memory, after: Memory, ids: seq<u8>) {
    match r
    case Ok(_) => PassShows(after, ids, true, None)
    case Err(NoEntries) => after == before
    case Err(UnlockFailed(i)) =>
      i < |ids| && PassShows(after, ids, false, Some(i)) && UntriedKept(before, after, ids, Some(i))
    case Err(EntryFailed(None)) => PassShows(after, ids, true, None)
    case Err(EntryFailed(Some(j))) => RelockedUpTo(after, ids, j)
    case Err(RelockFailed(j)) => RelockedUpTo(after, ids, j)
  }

  ghost predicate RelockedUpTo(memory: Memory, ids: seq<u8>, j: nat) {
    && j < |ids| && PassShows(memory, ids, true, Some(j))
    && forall id :: id in ids && id !in Tried(ids, Some(j)) ==> Shows(memory, id, false)
  }

  lemma StillUnlocked(unlocked: Memory, written: Memory, after: Memory, ids: seq<u8>, j: nat)
    requires j < |ids| && PassShows(unlocked, ids, false, None) && SameLocks(unlocked, written)
    requires PassShows(after, ids, true, Some(j)) && UntriedKept(written, after, ids, Some(j))
    ensures RelockedUpTo(after, ids, j)
  {
    forall id | id in ids && id !in Tried(ids, Some(j))
      ensures Shows(after, id, false)
    {
      assert Shows(unlocked, id, false);
      assert Shows(written, id, false);
    }
  }

  method ApplyEeprom(bus: StsBus, ids: seq<u8>, entries: seq<Entry>)
    returns (r: Result<(), ApplyError>, ghost attempts: seq<LockOp>)
    requires bus.Valid()
    modifies bus
    ensures bus.Valid() && TouchesOnly(old(bus.memory), bus.memory, CellsOfAll(entries, |entries|) + {55})
    ensures entries == [] <==> r == Err(NoEntries)
    ensures bus.locks == old(bus.locks) + attempts && LockDiscipline(r, ids, attempts)
    ensures LocksLeft(r, old(bus.memory), bus.memory, ids)
    ensures r.Ok? ==> Applied(bus.memory, ids, entries, |entries|) && AllRead(bus.memory, ids, entries)
    ensures r.Ok? && ids != [] ==> AllWritable(entries, |entries|)
  {
    ghost var cells := CellsOfAll(entries, |entries|) + {55};
    attempts := [];
    if entries == [] {
      return Err(NoEntries), attempts;
    }
    var unlockFailed := SetAllLocks(bus, ids, false);
    attempts := LockAttempts(ids, false, unlockFailed);
    TouchesMore(old(bus.memory), bus.memory, {55}, cells);
    if unlockFailed.Some? {
      return Err(UnlockFailed(unlockFailed.value)), attempts;
    }
    ghost var unlocked := bus.memory;
    var applied := ApplyEntries(bus, ids, entries);
    ghost var written := bus.memory;
    TouchesMore(unlocked, written, CellsOfAll(entries, |entries|), cells);
    TouchesTrans(old(bus.memory), unlocked, written, cells);
    var relockFailed := SetAllLocks(bus, ids, true);
    attempts := attempts + LockAttempts(ids, true, relockFailed);
    TouchesMore(written, bus.memory, {55}, cells);
    TouchesTrans(old(bus.memory), written, bus.memory, cells);
    if relockFailed.Some? {
      StillUnlocked(unlocked, written, bus.memory, ids, relockFailed.value);
      return Err(if applied then RelockFailed(relockFailed.value) else EntryFailed(relockFailed)), attempts;
    }
    if !applied {
      return Err(EntryFailed(None)), attempts;
    }
    AppliedOn(written, bus.memory, ids, entries);
    AppliedIsRead(bus.memory, ids, entries);
    return Ok(()), attempts;
  }

  // ------------------------------------------------------------- what a profile promises

  /** No two entries claim different values for the same bytes. */
  ghost predicate Consistent(entries: seq<Entry>) {
    forall j, k :: 0 <= j < |entries| && 0 <= k < |entries| ==>
      Disjoint(entries[j], entries[k]) || SameEntry(entries[j], entries[k])
  }

  lemma OverlapIsSameRegister(e: Entry, f: Entry)
    requires Writable(e) && Writable(f) && !Disjoint(e, f)
    ensures e.address == f.address && e.width == f.width
  {
    var a :| a in CellsOf(e) && a in CellsOf(f);
    FindIsMember(KnownRegisters(), e.address, WidthBytes(e.width));
    FindIsMember(KnownRegisters(), f.address, WidthBytes(f.width));
    var r := LookupRegister(e.address, WidthBytes(e.width)).value;
    var s := LookupRegister(f.address, WidthBytes(f.width)).value;
    RegistersDisjoint(r, s, a);
  }

  lemma SameBytes(e: Entry, f: Entry)
    requires Writable(e) && Writable(f) && e.address == f.address && e.width == f.width
    ensures EntryBytes(e) == EntryBytes(f) <==> e.value == f.value
  {
    if e.width == U16 {
      Le16RoundTrip(e.value);
      Le16RoundTrip(f.value);
    }
  }

  /** Every entry has a last one over its cells. */
  lemma {:induction false} SomeLast(entries: seq<Entry>, k: nat)
    requires k < |entries| && AllWritable(entries, |entries|)
    ensures exists l :: k <= l < |entries| && LastOfItsCells(entries, l, |entries|)
                        && entries[l].address == entries[k].address && entries[l].width == entries[k].width
    decreases |entries| - k
  {
    if !LastOfItsCells(entries, k, |entries|) {
      var j :| k < j < |entries| && !Disjoint(entries[j], entries[k]);
      OverlapIsSameRegister(entries[j], entries[k]);
      SomeLast(entries, j);
    }
  }

  ghost predicate HoldsAll(memory: Memory, id: u8, entries: seq<Entry>) {
    forall k :: 0 <= k < |entries| ==> Holds(memory, id, entries[k])
  }

  ghost predicate SameEntry(e: Entry, f: Entry) { e.address == f.address && e.width == f.width && e.value == f.value }

  lemma HeldAreConsistent(memory: Memory, entries: seq<Entry>, id: u8)
    requires HoldsAll(memory, id, entries)
    ensures Consistent(entries)
  {
    forall j, k | 0 <= j < |entries| && 0 <= k < |entries|
      ensures Disjoint(entries[j], entries[k]) || SameEntry(entries[j], entries[k])
    {
      assert Holds(memory, id, entries[j]) && Holds(memory, id, entries[k]);
      if !Disjoint(entries[j], entries[k]) {
        OverlapIsSameRegister(entries[j], entries[k]);
        SameBytes(entries[j], entries[k]);
      }
    }
  }

  lemma ConsistentAreHeld(memory: Memory, ids: seq<u8>, entries: seq<Entry>, id: u8, k: nat)
    requires Applied(memory, ids, entries, |entries|) && id in ids && AllWritable(entries, |entries|)
    requires Consistent(entries) && k < |entries|
    ensures Holds(memory, id, entries[k])
  {
    SomeLast(entries, k);
    var l :| k <= l < |entries| && LastOfItsCells(entries, l, |entries|)
             && entries[l].address == entries[k].address && entries[l].width == entries[k].width;
    hide Writable;
    assert Holds(memory, id, entries[l]);
    SharedCell(entries[l], entries[k]);
    assert entries[l] == entries[k];
  }

  lemma SharedCell(e: Entry, f: Entry)
    requires e.address == f.address && e.width == f.width
    ensures !Disjoint(e, f)
  {
    assert e.address in CellsOf(e) && e.address in CellsOf(f);
  }

  /** After a successful run every servo holds every entry exactly when the profile is
      consistent; otherwise the last entry of each register has won. */
  lemma AllHeldIffConsistent(memory: Memory, ids: seq<u8>, entries: seq<Entry>, id: u8)
    requires Applied(memory, ids, entries, |entries|) && id in ids && AllWritable(entries, |entries|)
    ensures HoldsAll(memory, id, entries) <==> Consistent(entries)
  {
    if HoldsAll(memory, id, entries) {
      HeldAreConsistent(memory, entries, id);
    }
    if Consistent(entries) {
      forall k | 0 <= k < |entries|
        ensures Holds(memory, id, entries[k])
      {
        ConsistentAreHeld(memory, ids, entries, id, k);
      }
    }
  }
}
