/** RAM with its decode cache (lib/Core.cpp, lib/Core.h, lib/DecodeCache.cpp): every operation that
    changes memory, breakpoints or cache entries keeps each cached entry equal to a fresh decode. */
module CoreMemory {
  import opened Arith
  import opened DecodeTable

  /** `write16le`, `write32le`: the bytes of a value, lowest first. */
  function Bytes16(value: nat): seq<byte> { [(value % 256) as byte, (value / 256 % 256) as byte] }

  function Bytes32(value: nat): seq<byte> { Bytes16(value % 0x1_0000) + Bytes16(value / 0x1_0000) }

  /** `read16le`, `read32le`: the value of bytes in memory, lowest first. */
  function Read16(m: seq<byte>, at: nat): nat
    requires at + 2 <= |m|
  {
    m[at] as nat + 0x100 * m[at + 1] as nat
  }

  function Read32(m: seq<byte>, at: nat): nat
    requires at + 4 <= |m|
  {
    m[at] as nat + 0x100 * m[at + 1] as nat + 0x1_0000 * m[at + 2] as nat + 0x100_0000 * m[at + 3] as nat
  }

  lemma Reads16(value: nat)
    ensures Read16(Bytes16(value), 0) == value % 0x1_0000
  {
    SplitHalfword(value);
  }

  lemma SplitHalfword(value: nat)
    ensures value % 256 + 0x100 * (value / 256 % 256) == value % 0x1_0000
  {
    var high, low := value / 0x1_0000, value % 0x1_0000;
    assert value / 256 == 0x100 * high + low / 256 && value % 256 == low % 256;
    LowPart(high, low / 256);
  }

  lemma LowPart(high: nat, low: nat)
    requires low < 0x100
    ensures (0x100 * high + low) % 256 == low
  {
  }

  lemma Reads32(value: nat)
    ensures Read16(Bytes32(value), 0) == value % 0x1_0000 && Read32(Bytes32(value), 0) == value % 0x1_0000_0000
  {
    var low, high := value % 0x1_0000, value / 0x1_0000;
    Reads16(low);
    Reads16(high);
    SplitWord(value);
  }

  lemma SplitWord(value: nat)
    ensures value % 0x1_0000 + 0x1_0000 * (value / 0x1_0000 % 0x1_0000) == value % 0x1_0000_0000
  {
    var half, low := value / 0x1_0000, value % 0x1_0000;
    var top, high := half / 0x1_0000, half % 0x1_0000;
    assert value == 0x1_0000_0000 * top + (0x1_0000 * high + low);
    WordPart(top, 0x1_0000 * high + low);
  }

  lemma WordPart(top: nat, low: nat)
    requires low < 0x1_0000_0000
    ensures (0x1_0000_0000 * top + low) % 0x1_0000_0000 == low
  {
  }

  /** Where bytes have been written, they are read. */
  lemma ReadsPatch(m: seq<byte>, at: nat, data: seq<byte>)
    requires at + |data| <= |m|
    ensures |data| >= 2 ==> Read16(Patch(m, at, data), at) == Read16(data, 0)
    ensures |data| >= 4 ==> Read32(Patch(m, at, data), at) == Read32(data, 0)
  {
  }

  lemma StoredShort(m: seq<byte>, at: nat, value: nat)
    requires at + 2 <= |m|
    ensures var n := Patch(m, at, Bytes16(value));
      Read16(n, at) == value % 0x1_0000 && n[at] as nat == value % 0x100
  {
    Reads16(value);
    ReadsPatch(m, at, Bytes16(value));
  }

  lemma StoredWord(m: seq<byte>, at: nat, value: nat)
    requires at + 4 <= |m|
    ensures var n := Patch(m, at, Bytes32(value));
      && Read32(n, at) == value % 0x1_0000_0000 && Read16(n, at) == value % 0x1_0000
      && n[at] as nat == value % 0x100
  {
    Reads32(value);
    ReadsPatch(m, at, Bytes32(value));
    LowOfLow(value);
  }

  lemma LowOfLow(value: nat)
    ensures value % 0x1_0000 % 256 == value % 256
  {
    SplitHalfword(value);
    LowPart(value / 256 % 256, value % 256);
  }

  class Core {
    const base: nat
    const decoder: Decoder
    const memory: array<byte>
    const opcode: array<Entry>
    const invalidationInfo: array<Mark>
    var breakpoints: set<nat>

    /** The halfwords with a breakpoint on them. */
    ghost function BreakpointPcs(): set<nat>
      reads this
    {
      set pc: nat | pc < opcode.Length && base + 2 * pc in breakpoints
    }

    /** The marks find every cached entry. */
    ghost predicate Indexed()
      reads this, memory, opcode, invalidationInfo
    {
      && base % 4 == 0 && opcode.Length % 2 == 0
      && memory.Length == 2 * opcode.Length && invalidationInfo.Length == opcode.Length
      && Local(decoder)
      && Marked(opcode[..], invalidationInfo[..])
    }

    predicate BreakpointsInRam()
      reads this
    {
      forall a | a in breakpoints :: base <= a < base + memory.Length && a % 2 == 0
    }

    /** Every cached entry is what decoding memory and breakpoints afresh would give. */
    ghost predicate Valid()
      reads this, memory, opcode, invalidationInfo
    {
      Indexed() && BreakpointsInRam() && Coherent(decoder, memory[..], BreakpointPcs(), opcode[..])
    }

    /** `initCache`: every entry decodes on demand and no halfword is marked. */
    constructor (b: nat, d: Decoder, data: seq<byte>)
      requires b % 4 == 0 && |data| % 4 == 0 && Local(d)
      ensures Valid() && fresh(memory) && fresh(opcode) && fresh(invalidationInfo)
      ensures base == b && decoder == d && memory[..] == data && breakpoints == {}
      ensures forall pc | 0 <= pc < opcode.Length :: opcode[pc] == Decode
    {
      base, decoder, breakpoints := b, d, {};
      memory := new byte[|data|](i requires 0 <= i < |data| => data[i]);
      opcode := new Entry[|data| / 2](_ => Decode);
      invalidationInfo := new Mark[|data| / 2](_ => NoMark);
      new;
      assert memory[..] == data;
      assert forall pc: nat | pc < |opcode[..]| :: opcode[..][pc] == Decode;
    }

    /** `invalidateSlowPath`: walk back along the marks, dropping entries. The walk never leaves the table. */
    method InvalidateSlowPath(i: nat)
      requires Indexed() && i < opcode.Length
      modifies opcode, invalidationInfo
      ensures Indexed() && Fewer(old(opcode[..]), opcode[..]) && Free(opcode[..], i)
      ensures i > 0 && old(invalidationInfo[i]) == CurrentAndPrevious ==> Free(opcode[..], i - 1)
      ensures Dropped(old(opcode[..]), opcode[..], old(invalidationInfo[..]), i, i)
    {
      ghost var table, marks := opcode[..], invalidationInfo[..];
      ghost var lo := Stop(marks, i);
      var k := i;
      var info := invalidationInfo[k];
      opcode[k] := Decode;
      invalidationInfo[k] := NoMark;
      while info == CurrentAndPrevious
        invariant lo <= k <= i && info == marks[k]
        invariant opcode[..] == Cleared(table, k, i + 1)
        invariant invalidationInfo[..] == Unmarked(marks, k, i + 1)
        decreases k
      {
        k := k - 1;
        info := invalidationInfo[k];
        opcode[k] := Decode;
        invalidationInfo[k] := NoMark;
      }
      assert k == lo;
      WalkClears(table, marks, i);
      WalkDrops(table, marks, i);
    }

    /** `invalidateByte` and `invalidateShort`: the halfword at i, if anything is marked there. */
    method InvalidateShort(i: nat) returns (invalidated: bool)
      requires Indexed() && i < opcode.Length
      modifies opcode, invalidationInfo
      ensures Indexed() && Fewer(old(opcode[..]), opcode[..]) && Free(opcode[..], i)
      ensures Dropped(old(opcode[..]), opcode[..], old(invalidationInfo[..]), i, i)
      ensures invalidated <==> old(invalidationInfo[i]) != NoMark
      ensures !invalidated ==> invalidationInfo[..] == old(invalidationInfo[..])
    {
      if invalidationInfo[i] == NoMark {
        UnmarkedIsFree(opcode[..], invalidationInfo[..], i);
        return false;
      }
      InvalidateSlowPath(i);
      return true;
    }

    /** `invalidateWordSlowPath`: both halfwords in one walk, by making the upper one point back first. */
    method InvalidateWordSlowPath(i: nat)
      requires Indexed() && i + 1 < opcode.Length
        && !(invalidationInfo[i] == NoMark && invalidationInfo[i + 1] == NoMark)
      modifies opcode, invalidationInfo
      ensures Dropped(old(opcode[..]), opcode[..], old(invalidationInfo[..]), i, i + 1)
      ensures Indexed() && Fewer(old(opcode[..]), opcode[..]) && Free(opcode[..], i) && Free(opcode[..], i + 1)
    {
      if invalidationInfo[i + 1] == NoMark {
        UnmarkedIsFree(opcode[..], invalidationInfo[..], i + 1);
        ghost var table := opcode[..];
        assert !Covers(table, i + 1, i + 1);
        InvalidateSlowPath(i);
        FewerFree(table, opcode[..], i + 1);
        return;
      }
      PointBackTracks(opcode[..], invalidationInfo[..], i + 1);
      ghost var marks := invalidationInfo[..][i + 1 := CurrentAndPrevious];
      invalidationInfo[i + 1] := CurrentAndPrevious;
      assert invalidationInfo[..] == marks;
      InvalidateSlowPath(i + 1);
      WordDrops(old(opcode[..]), opcode[..], old(invalidationInfo[..]), i);
    }

    /** `invalidateWord` for a word-aligned address whose lower halfword is i. */
    method InvalidateWord(i: nat) returns (invalidated: bool)
      requires Indexed() && i + 1 < opcode.Length
      modifies opcode, invalidationInfo
      ensures Dropped(old(opcode[..]), opcode[..], old(invalidationInfo[..]), i, i + 1)
      ensures invalidated <==> old(invalidationInfo[i]) != NoMark || old(invalidationInfo[i + 1]) != NoMark
      ensures !invalidated ==> invalidationInfo[..] == old(invalidationInfo[..])
      ensures Indexed() && Fewer(old(opcode[..]), opcode[..]) && Free(opcode[..], i) && Free(opcode[..], i + 1)
    {
      if invalidationInfo[i] == NoMark && invalidationInfo[i + 1] == NoMark {
        UnmarkedIsFree(opcode[..], invalidationInfo[..], i);
        UnmarkedIsFree(opcode[..], invalidationInfo[..], i + 1);
        return false;
      }
      InvalidateWordSlowPath(i);
      return true;
    }

    /** Copy bytes into memory. */
    method Copy(at: nat, data: seq<byte>)
      requires at + |data| <= memory.Length
      modifies memory
      ensures memory[..] == Patch(old(memory[..]), at, data)
    {
      for k := 0 to |data|
        invariant memory[..] == Patch(old(memory[..]), at, data[..k])
      {
        memory[at + k] := data[k];
      }
    }

    /** `loadByte`, `loadShort` and `loadWord` on RAM. */
    function LoadByte(address: nat): nat
      requires base <= address < base + memory.Length
      reads memory
    {
      memory[address - base] as nat
    }

    function LoadShort(address: nat): nat
      requires base <= address && address + 2 <= base + memory.Length
      reads memory
    {
      Read16(memory[..], address - base)
    }

    function LoadWord(address: nat): nat
      requires base <= address && address + 4 <= base + memory.Length
      reads memory
    {
      Read32(memory[..], address - base)
    }

    method StoreByte(value: byte, address: nat)
      requires Valid() && base <= address < base + memory.Length
      modifies memory, opcode, invalidationInfo
      ensures Valid() && memory[..] == Patch(old(memory[..]), address - base, [value])
      ensures LoadByte(address) == value as nat
      ensures Dropped(old(opcode[..]), opcode[..], old(invalidationInfo[..]),
        (address - base) / 2, (address - base) / 2)
    {
      ghost var before, table := memory[..], opcode[..];
      var at := address - base;
      Copy(at, [value]);
      var _ := InvalidateShort(at / 2);
      PatchIsSafe(decoder, before, at, [value], BreakpointPcs(), table, opcode[..], invalidationInfo[..]);
    }

    method StoreShort(value: nat, address: nat)
      requires Valid() && base <= address && address + 2 <= base + memory.Length && (address - base) % 2 == 0
      modifies memory, opcode, invalidationInfo
      ensures Valid() && memory[..] == Patch(old(memory[..]), address - base, Bytes16(value))
      ensures LoadShort(address) == value % 0x1_0000 && LoadByte(address) == value % 0x100
      ensures Dropped(old(opcode[..]), opcode[..], old(invalidationInfo[..]),
        (address - base) / 2, (address - base) / 2)
    {
      PutShort(address - base, Bytes16(value));
      StoredShort(old(memory[..]), address - base, value);
    }

    method PutShort(at: nat, data: seq<byte>)
      requires Valid() && |data| == 2 && at + 2 <= memory.Length && at % 2 == 0
      modifies memory, opcode, invalidationInfo
      ensures Valid() && memory[..] == Patch(old(memory[..]), at, data)
      ensures Dropped(old(opcode[..]), opcode[..], old(invalidationInfo[..]), at / 2, at / 2)
    {
      ghost var before, table := memory[..], opcode[..];
      Copy(at, data);
      var _ := InvalidateShort(at / 2);
      PatchIsSafe(decoder, before, at, data, BreakpointPcs(), table, opcode[..], invalidationInfo[..]);
    }

    method StoreWord(value: nat, address: nat)
      requires Valid() && base <= address && address + 4 <= base + memory.Length && (address - base) % 4 == 0
      modifies memory, opcode, invalidationInfo
      ensures Valid() && memory[..] == Patch(old(memory[..]), address - base, Bytes32(value))
      ensures LoadWord(address) == value % 0x1_0000_0000
      ensures LoadShort(address) == value % 0x1_0000 && LoadByte(address) == value % 0x100
      ensures Dropped(old(opcode[..]), opcode[..], old(invalidationInfo[..]),
        (address - base) / 2, (address - base) / 2 + 1)
    {
      PutWord(address - base, Bytes32(value));
      StoredWord(old(memory[..]), address - base, value);
    }

    static lemma Halves(at: nat)
      requires at % 4 == 0
      ensures (at + 5) / 2 == at / 2 + 2
    {
      var k := at / 4;
      assert at == 4 * k;
      assert at / 2 == 2 * k && (at + 5) / 2 == 2 * k + 2;
    }

    method PutWord(at: nat, data: seq<byte>)
      requires Valid() && |data| == 4 && at + 4 <= memory.Length && at % 4 == 0
      modifies memory, opcode, invalidationInfo
      ensures Valid() && memory[..] == Patch(old(memory[..]), at, data)
      ensures Dropped(old(opcode[..]), opcode[..], old(invalidationInfo[..]), at / 2, at / 2 + 1)
    {
      ghost var before, table := memory[..], opcode[..];
      var i := at / 2;
      Halves(at);
      Copy(at, data);
      var _ := InvalidateWord(i);
      assert FreeBetween(opcode[..], i, i + 2);
      PatchIsSafe(decoder, before, at, data, BreakpointPcs(), table, opcode[..], invalidationInfo[..]);
    }

    /** The halfwords touched by the bytes from `begin` up to `at`. */
    static function Touched(begin: nat, at: nat): nat { if at == begin then begin / 2 else (at + 1) / 2 }

    static lemma TouchedWord(begin: nat, at: nat)
      requires begin <= at && at % 4 == 0
      ensures (at + 4) % 4 == 0 && Touched(begin, at) == at / 2 && Touched(begin, at + 4) == at / 2 + 2
    {
      var k := at / 4;
      assert at == 4 * k;
      assert at / 2 == 2 * k && (at + 1) / 2 == 2 * k && (at + 5) / 2 == 2 * k + 2;
    }

    /** What a partly invalidated range reports: nothing as long as it met no mark, and then it changed none. */
    ghost predicate Reports(invalidated: bool, marks: seq<Mark>, lo: nat, hi: nat)
      reads invalidationInfo
    {
      && hi <= |marks| && (invalidated <==> !Clean(marks, lo, hi))
      && (!invalidated ==> invalidationInfo[..] == marks)
    }

    /** The byte loops of `invalidateRange`, up to the end or to a word boundary. */
    method InvalidateBytes(begin: nat, from: nat, end: nat, toWord: bool, before: bool,
                           ghost table: seq<Entry>, ghost marks: seq<Mark>)
      returns (at: nat, invalidated: bool)
      requires Indexed() && begin <= from <= end <= memory.Length && Fewer(table, opcode[..])
      requires FreeBetween(opcode[..], begin / 2, Touched(begin, from))
      requires Reports(before, marks, begin / 2, Touched(begin, from)) && |marks| == opcode.Length
      modifies opcode, invalidationInfo
      ensures Indexed() && Fewer(table, opcode[..]) && from <= at <= end
      ensures FreeBetween(opcode[..], begin / 2, Touched(begin, at))
      ensures Reports(invalidated, marks, begin / 2, Touched(begin, at))
      ensures at == end || (toWord && at % 4 == 0)
    {
      at, invalidated := from, before;
      while at < end && !(toWord && at % 4 == 0)
        invariant Indexed() && Fewer(table, opcode[..]) && from <= at <= end
        invariant FreeBetween(opcode[..], begin / 2, Touched(begin, at))
        invariant Reports(invalidated, marks, begin / 2, Touched(begin, at))
      {
        ghost var t := opcode[..];
        var hit := InvalidateShort(at / 2);
        ExtendFree(table, t, opcode[..], begin / 2, at / 2, at / 2 + 1);
        invalidated := invalidated || hit;
        at := at + 1;
      }
    }

    /** One word of a range. */
    method InvalidateWordOf(at: nat, before: bool, ghost table: seq<Entry>, ghost marks: seq<Mark>, ghost lo: nat)
      returns (invalidated: bool)
      requires Indexed() && at + 3 < memory.Length && at % 4 == 0 && Fewer(table, opcode[..])
      requires lo <= at / 2 && FreeBetween(opcode[..], lo, at / 2)
      requires Reports(before, marks, lo, at / 2) && |marks| == opcode.Length
      modifies opcode, invalidationInfo
      ensures Indexed() && Fewer(table, opcode[..]) && FreeBetween(opcode[..], lo, at / 2 + 2)
      ensures Reports(invalidated, marks, lo, at / 2 + 2)
    {
      ghost var t := opcode[..];
      var hit := InvalidateWord(at / 2);
      ExtendFree(table, t, opcode[..], lo, at / 2, at / 2 + 2);
      invalidated := before || hit;
    }

    /** `invalidateRange` on offsets from the word-aligned RAM base: bytes up to a word boundary, then
        words, then the remaining bytes. It reports whether any halfword of the range was marked. */
    method InvalidateRange(begin: nat, end: nat) returns (invalidated: bool)
      requires Indexed() && begin < end <= memory.Length
      modifies opcode, invalidationInfo
      ensures Indexed() && Fewer(old(opcode[..]), opcode[..])
      ensures FreeBetween(opcode[..], begin / 2, (end + 1) / 2)
      ensures invalidated <==> !Clean(old(invalidationInfo[..]), begin / 2, (end + 1) / 2)
    {
      ghost var table, marks := opcode[..], invalidationInfo[..];
      var at;
      at, invalidated := InvalidateBytes(begin, begin, end, true, false, table, marks);
      while at + 3 < end
        invariant begin <= at <= end && Indexed() && Fewer(table, opcode[..])
        invariant FreeBetween(opcode[..], begin / 2, Touched(begin, at))
        invariant Reports(invalidated, marks, begin / 2, Touched(begin, at))
        invariant at == end || at % 4 == 0
      {
        TouchedWord(begin, at);
        invalidated := InvalidateWordOf(at, invalidated, table, marks, begin / 2);
        at := at + 4;
      }
      at, invalidated := InvalidateBytes(begin, at, end, false, invalidated, table, marks);
    }

    /** `writeMemory`: refuses ranges that do not end before the last byte of RAM. */
    method WriteMemory(address: nat, src: seq<byte>) returns (ok: bool)
      requires Valid()
      modifies memory, opcode, invalidationInfo
      ensures Valid() && Fewer(old(opcode[..]), opcode[..])
      ensures ok <==> src == [] || (base <= address && address + |src| < base + memory.Length)
      ensures ok && src != [] ==> memory[..] == Patch(old(memory[..]), address - base, src)
      ensures !ok || src == [] ==> memory[..] == old(memory[..])
    {
      if src == [] { return true; }
      if address < base || address + |src| >= base + memory.Length { return false; }
      ghost var before, table := memory[..], opcode[..];
      Copy(address - base, src);
      var _ := InvalidateRange(address - base, address - base + |src|);
      PatchIsSafe(decoder, before, address - base, src, BreakpointPcs(), table, opcode[..], invalidationInfo[..]);
      return true;
    }

    /** `setBreakpoint` on RAM. */
    method SetBreakpoint(address: nat) returns (ok: bool)
      requires Valid()
      modifies this, opcode, invalidationInfo
      ensures Valid() && Fewer(old(opcode[..]), opcode[..])
      ensures ok <==> address % 2 == 0 && base <= address < base + memory.Length
      ensures breakpoints == if ok then old(breakpoints) + {address} else old(breakpoints)
    {
      if address % 2 == 1 || address < base || address >= base + memory.Length { return false; }
      if address !in breakpoints {
        ghost var pcs, table := BreakpointPcs(), opcode[..];
        breakpoints := breakpoints + {address};
        var i := (address - base) / 2;
        var _ := InvalidateShort(i);
        BreakpointIsSafe(decoder, memory[..], pcs, BreakpointPcs(), i, table, opcode[..], invalidationInfo[..]);
      }
      return true;
    }

    /** `unsetBreakpoint` on RAM: a breakpoint that was not set is no change. */
    method UnsetBreakpoint(address: nat)
      requires Valid()
      modifies this, opcode, invalidationInfo
      ensures Valid() && Fewer(old(opcode[..]), opcode[..]) && breakpoints == old(breakpoints) - {address}
    {
      if address in breakpoints {
        ghost var pcs, table := BreakpointPcs(), opcode[..];
        breakpoints := breakpoints - {address};
        var i := (address - base) / 2;
        var _ := InvalidateShort(i);
        BreakpointIsSafe(decoder, memory[..], pcs, BreakpointPcs(), i, table, opcode[..], invalidationInfo[..]);
      }
    }

    /** `clearBreakpoints` leaves the decode cache alone, so a cached breakpoint outlives it: the cache stays right
        exactly if nothing is cached where a breakpoint was. */
    method ClearBreakpoints()
      requires Valid() && NoneDecoded(decoder, memory[..], BreakpointPcs())
      modifies this
      ensures breakpoints == {} && Indexed()
      ensures Valid() <==> forall pc: nat | pc < opcode.Length && pc in old(BreakpointPcs()) :: opcode[pc] == Decode
    {
      ghost var pcs := BreakpointPcs();
      breakpoints := {};
      assert BreakpointPcs() == {};
      ClearingIff(decoder, memory[..], pcs, opcode[..]);
    }

    /** `setOpcode`: install an entry and mark what it covers. */
    method SetOpcode(pc: nat, code: seq<Instr>)
      requires Valid() && pc < opcode.Length
      requires code != [] && (|code| == 1 || forall k | 0 <= k < |code| :: code[k].size > 0)
      requires Matches(decoder, memory[..], BreakpointPcs(), pc, code) && pc + Cover(Cached(code)) <= opcode.Length
      modifies opcode, invalidationInfo
      ensures Valid() && opcode[..] == old(opcode[..])[pc := Cached(code)]
    {
      ghost var table, marks := opcode[..], invalidationInfo[..];
      var size := Total(code);
      opcode[pc] := Cached(code);
      if invalidationInfo[pc] == NoMark {
        invalidationInfo[pc] := Current;
      }
      var i := 1;
      while i < size
        invariant 1 <= i <= Max1(size)
        invariant opcode[..] == table[pc := Cached(code)]
        invariant invalidationInfo[..] == Marking(marks, pc, i)
      {
        invalidationInfo[pc + i] := CurrentAndPrevious;
        i := i + 1;
      }
      assert invalidationInfo[..] == Marking(marks, pc, size);
      InstallTracks(table, marks, pc, Cached(code));
    }

    /** The DECODE pseudo instruction: decode at pc and cache the result. */
    method DecodeAt(pc: nat)
      requires Valid() && pc < opcode.Length
      modifies opcode, invalidationInfo
      ensures Valid()
      ensures opcode[..] == old(opcode[..])[pc := Cached([Fetch(decoder, memory[..], BreakpointPcs(), pc)])]
    {
      var instr := if base + 2 * pc in breakpoints then BREAKPOINT else decoder(memory[..], pc);
      assert Inside(decoder, memory[..], pc);
      assert instr == Fetch(decoder, memory[..], BreakpointPcs(), pc);
      assert Total([instr]) == instr.size + Total([instr][1..]);
      assert Matches(decoder, memory[..], BreakpointPcs(), pc + instr.size, [instr][1..]);
      SetOpcode(pc, [instr]);
    }

    /** `getFragmentToCompile`: decode instructions from pc up to and including a branch, or up to one that
        cannot be compiled or the end of RAM. It gives up on an instruction that switches to dual issue. */
    method GetFragment(pc: nat, compilable: Instr -> bool, mayBranch: Instr -> bool, dualEntry: Instr -> bool)
      returns (code: seq<Instr>, gaveUp: bool)
      requires Valid() && pc < opcode.Length
      requires forall i: Instr | compilable(i) :: i.size > 0
      ensures Matches(decoder, memory[..], BreakpointPcs(), pc, code) && pc + Total(code) <= opcode.Length
      ensures forall k | 0 <= k < |code| ::
                compilable(code[k]) && !dualEntry(code[k]) && (mayBranch(code[k]) ==> k == |code| - 1)
      ensures pc + Total(code) == opcode.Length || (code != [] && mayBranch(code[|code| - 1])) ||
              var next := Fetch(decoder, memory[..], BreakpointPcs(), pc + Total(code));
              dualEntry(next) || !compilable(next)
      ensures gaveUp <==> pc + Total(code) < opcode.Length && !(code != [] && mayBranch(code[|code| - 1]))
                          && dualEntry(Fetch(decoder, memory[..], BreakpointPcs(), pc + Total(code)))
    {
      code, gaveUp := [], false;
      var next, branch := pc, false;
      while next < opcode.Length && !branch
        invariant next == pc + Total(code) <= opcode.Length
        invariant Matches(decoder, memory[..], BreakpointPcs(), pc, code)
        invariant forall k | 0 <= k < |code| :: compilable(code[k]) && !dualEntry(code[k])
        invariant forall k | 0 <= k < |code| :: mayBranch(code[k]) ==> branch && k == |code| - 1
        invariant branch ==> code != [] && mayBranch(code[|code| - 1])
        decreases opcode.Length - next, !branch
      {
        var instr := if base + 2 * next in breakpoints then BREAKPOINT else decoder(memory[..], next);
        if dualEntry(instr) { return code, true; }
        if !compilable(instr) { break; }
        assert Inside(decoder, memory[..], next);
        AppendInstr(decoder, memory[..], BreakpointPcs(), pc, code, instr);
        code := code + [instr];
        branch := mayBranch(instr);
        next := next + instr.size;
      }
    }

    /** `compileOneFragment`: install a fragment of any length as one entry, unless one is compiled at pc already. */
    method CompileFragment(pc: nat, compiled: bool,
                           compilable: Instr -> bool, mayBranch: Instr -> bool, dualEntry: Instr -> bool)
      returns (code: seq<Instr>, gaveUp: bool)
      requires Valid() && pc < opcode.Length
      requires forall i: Instr | compilable(i) :: i.size > 0
      modifies opcode, invalidationInfo
      ensures Valid() && Matches(decoder, memory[..], BreakpointPcs(), pc, code) && (compiled ==> code == [])
      ensures !compiled && code == [] ==>
                var first := Fetch(decoder, memory[..], BreakpointPcs(), pc); dualEntry(first) || !compilable(first)
      ensures opcode[..] == if gaveUp || code == [] then old(opcode[..]) else old(opcode[..])[pc := Cached(code)]
    {
      code, gaveUp := [], false;
      if compiled { return; }
      code, gaveUp := GetFragment(pc, compilable, mayBranch, dualEntry);
      if !gaveUp && code != [] { SetOpcode(pc, code); }
    }

    /** `resetCaches`: after it nothing is cached. */
    method ResetCaches()
      requires Valid()
      modifies opcode, invalidationInfo
      ensures Valid() && forall pc | 0 <= pc < opcode.Length :: opcode[pc] == Decode
    {
      ghost var table := opcode[..];
      var i := 0;
      while i < opcode.Length
        invariant 0 <= i <= opcode.Length && i % 2 == 0 && Indexed() && Fewer(table, opcode[..])
        invariant forall k: nat | k < i :: Free(opcode[..], k)
      {
        ghost var t := opcode[..];
        var _ := InvalidateWord(i);
        StayFree(table, t, opcode[..]);
        i := i + 2;
      }
      FewerCoherent(decoder, memory[..], BreakpointPcs(), table, opcode[..]);
      forall pc | 0 <= pc < opcode.Length ensures opcode[pc] == Decode {
        assert Free(opcode[..], pc) && !Covers(opcode[..], pc, pc);
      }
    }
  }

  /** A core on which a breakpoint has been set, decoded and cleared with all others: the cache is wrong about it. */
  method CachedBreakpointOutlives(d: Decoder, data: seq<byte>) returns (core: Core)
    requires Local(d) && |data| % 4 == 0 && data != [] && d(data, 0) != BREAKPOINT
    ensures fresh(core) && core.breakpoints == {} && !core.Valid()
    ensures core.opcode.Length > 0 && core.opcode[0] == Cached([BREAKPOINT])
  {
    core := new Core(0, d, data);
    var ok := core.SetBreakpoint(0);
    core.DecodeAt(0);
    core.ClearBreakpoints();
  }
}
