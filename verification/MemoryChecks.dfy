/** Dropping alignment checks that earlier ones make superfluous (lib/JITOptimize.cpp). */
module MemoryChecks {
  import opened Options

  /** A memory access at base + offset + size * index. */
  datatype Access = Access(base: nat, size: nat, offset: nat, index: Option<nat>)

  /** An instruction of a straight-line fragment: the access whose check may be placed early, and the registers it
      writes. */
  datatype Instr = Instr(access: Option<Access>, defs: seq<nat>)

  const REGISTERS: nat := 23
  const ADDRESSES: nat := 0x1_0000_0000

  predicate Size(s: nat) { s == 1 || s == 2 || s == 4 || s == 8 }

  /** Is x a multiple of a size? */
  predicate Aligned(x: nat, size: nat)
    requires Size(size)
  {
    if size == 8 then x % 8 == 0 else if size == 4 then x % 4 == 0 else if size == 2 then x % 2 == 0 else true
  }

  lemma AlignedIs(x: nat, size: nat)
    requires Size(size)
    ensures Aligned(x, size) <==> x % size == 0
  {
  }

  predicate ValidInstr(i: Instr) {
    && (i.access.Some? ==>
          var a := i.access.value;
          && a.base < REGISTERS && Size(a.size) && Aligned(a.offset, a.size)
          && (a.index.Some? ==> a.index.value < REGISTERS))
    && forall k | 0 <= k < |i.defs| :: i.defs[k] < REGISTERS
  }

  predicate ValidFragment(f: seq<Instr>) { forall k | 0 <= k < |f| :: ValidInstr(f[k]) }

  // ---- Placing the checks ----

  type Alignments = seq<nat>

  predicate ValidAlignments(m: Alignments) { |m| == REGISTERS && forall r | 0 <= r < REGISTERS :: Size(m[r]) }

  /** Does the access still need its alignment checked, with these alignments known? */
  predicate Checked(m: Alignments, i: Instr)
    requires ValidAlignments(m) && ValidInstr(i)
  {
    i.access.Some? && i.access.value.size > 1 && !Aligned(m[i.access.value.base], i.access.value.size)
  }

  function Forget(m: Alignments, defs: seq<nat>): (r: Alignments)
    requires ValidAlignments(m) && forall k | 0 <= k < |defs| :: defs[k] < REGISTERS
    ensures ValidAlignments(r)
    ensures forall x | 0 <= x < REGISTERS :: r[x] == if x in defs then 1 else m[x]
  {
    if defs == [] then m else Forget(m, defs[..|defs| - 1])[defs[|defs| - 1] := 1]
  }

  function Next(m: Alignments, i: Instr): (r: Alignments)
    requires ValidAlignments(m) && ValidInstr(i)
    ensures ValidAlignments(r)
  {
    Forget(if Checked(m, i) then m[i.access.value.base := i.access.value.size] else m, i.defs)
  }

  /** The alignments known before the k-th instruction. */
  function Known(f: seq<Instr>, k: nat): (m: Alignments)
    requires ValidFragment(f) && k <= |f|
    ensures ValidAlignments(m)
    decreases k
  {
    if k == 0 then seq(REGISTERS, _ => 1) else Next(Known(f, k - 1), f[k - 1])
  }

  /** Does the k-th instruction keep its alignment check? */
  predicate Kept(f: seq<Instr>, k: nat)
    requires ValidFragment(f) && k < |f|
  {
    Checked(Known(f, k), f[k])
  }

  /** Which of the first n instructions do. */
  function KeptAmong(f: seq<Instr>, n: nat): (s: seq<bool>)
    requires ValidFragment(f) && n <= |f|
    ensures |s| == n && forall k | 0 <= k < n :: s[k] == Kept(f, k)
    decreases n
  {
    if n == 0 then [] else KeptAmong(f, n - 1) + [Kept(f, n - 1)]
  }

  /** The inner loop: `MemoryCheckState::update`. */
  method Update(m: array<nat>, defs: seq<nat>)
    requires ValidAlignments(m[..]) && forall k | 0 <= k < |defs| :: defs[k] < REGISTERS
    modifies m
    ensures m[..] == Forget(old(m[..]), defs)
  {
    for i := 0 to |defs|
      invariant m[..] == Forget(old(m[..]), defs[..i])
    {
      m[defs[i]] := 1;
      assert defs[..i + 1][..i] == defs[..i];
    }
    assert defs[..|defs|] == defs;
  }

  /** One turn of the outer loop. */
  method PlaceCheck(m: array<nat>, i: Instr) returns (check: bool)
    requires ValidAlignments(m[..]) && ValidInstr(i)
    modifies m
    ensures check == Checked(old(m[..]), i) && m[..] == Next(old(m[..]), i)
  {
    check := false;
    if i.access.Some? && i.access.value.size > 1 {
      var base, size := i.access.value.base, i.access.value.size;
      AlignedIs(m[base], size);
      check := m[base] % size != 0;
      if check { m[base] := size; }
    }
    Update(m, i.defs);
  }

  /** `placeMemoryChecks`, for the alignment flag: which instructions keep their check. */
  method PlaceMemoryChecks(f: seq<Instr>) returns (checks: seq<bool>)
    requires ValidFragment(f)
    ensures checks == KeptAmong(f, |f|)
  {
    var minAlignment := new nat[REGISTERS](_ => 1);
    checks := [];
    for i := 0 to |f|
      invariant checks == KeptAmong(f, i) && minAlignment[..] == Known(f, i)
    {
      var check := PlaceCheck(minAlignment, f[i]);
      checks := checks + [check];
    }
  }

  // ---- Running the fragment ----

  type Registers = seq<nat>

  /** Registers before each instruction and after the last; an instruction changes only what it writes. */
  predicate Run(f: seq<Instr>, regs: seq<Registers>) {
    && |regs| == |f| + 1
    && (forall k | 0 <= k <= |f| :: |regs[k]| == REGISTERS)
    && forall k, r | 0 <= k < |f| && 0 <= r < REGISTERS && r !in f[k].defs :: regs[k + 1][r] == regs[k][r]
  }

  /** The address an access uses, in 32 bits. */
  function Address(regs: Registers, a: Access): nat
    requires |regs| == REGISTERS && a.base < REGISTERS && (a.index.Some? ==> a.index.value < REGISTERS)
  {
    (regs[a.base] + a.offset + if a.index.Some? then a.size * regs[a.index.value] else 0) % ADDRESSES
  }

  /** What an alignment check tests: the address without the scaled register. */
  predicate Passes(regs: Registers, a: Access)
    requires |regs| == REGISTERS && a.base < REGISTERS && Size(a.size)
  {
    Aligned((regs[a.base] + a.offset) % ADDRESSES, a.size)
  }

  lemma Sum8(x: nat, q: nat)
    ensures (x + 8 * q) % 8 == x % 8
  {
  }

  lemma Sum4(x: nat, q: nat)
    ensures (x + 4 * q) % 4 == x % 4
  {
  }

  lemma Sum2(x: nat, q: nat)
    ensures (x + 2 * q) % 2 == x % 2
  {
  }

  lemma AlignedSum(x: nat, y: nat, size: nat)
    requires Size(size) && Aligned(y, size)
    ensures Aligned(x + y, size) <==> Aligned(x, size)
  {
    if size == 8 { Sum8(x, y / 8); } else if size == 4 { Sum4(x, y / 4); } else if size == 2 { Sum2(x, y / 2); }
  }

  lemma AlignedWrap(x: nat, size: nat)
    requires Size(size)
    ensures Aligned(x % ADDRESSES, size) <==> Aligned(x, size)
  {
    var p := 0x2000_0000 * (x / ADDRESSES);
    WrapSplits(x);
    Multiple8(p, size);
    AlignedSum(x % ADDRESSES, 8 * p, size);
  }

  lemma WrapSplits(x: nat)
    ensures x == x % ADDRESSES + 8 * (0x2000_0000 * (x / ADDRESSES))
  {
  }

  lemma Multiple8(p: nat, size: nat)
    requires Size(size)
    ensures Aligned(8 * p, size)
  {
    if size == 8 { Sum8(0, p); } else if size == 4 { Sum4(0, 2 * p); } else if size == 2 { Sum2(0, 4 * p); }
  }

  lemma AlignedMultiple(size: nat, i: nat)
    requires Size(size)
    ensures Aligned(size * i, size)
  {
    if size == 8 { Sum8(0, i); } else if size == 4 { Sum4(0, i); } else if size == 2 { Sum2(0, i); }
  }

  lemma PassesIs(regs: Registers, a: Access)
    requires |regs| == REGISTERS && a.base < REGISTERS && Size(a.size) && Aligned(a.offset, a.size)
    ensures Passes(regs, a) <==> Aligned(regs[a.base], a.size)
  {
    AlignedSum(regs[a.base], a.offset, a.size);
    AlignedWrap(regs[a.base] + a.offset, a.size);
  }

  lemma AddressAligned(regs: Registers, a: Access)
    requires |regs| == REGISTERS && a.base < REGISTERS && (a.index.Some? ==> a.index.value < REGISTERS)
    requires Size(a.size) && Aligned(a.offset, a.size)
    ensures Aligned(Address(regs, a), a.size) <==> Aligned(regs[a.base], a.size)
  {
    var x := regs[a.base];
    var y := if a.index.Some? then a.size * regs[a.index.value] else 0;
    if a.index.Some? { AlignedMultiple(a.size, regs[a.index.value]); }
    AlignedSum(x, a.offset, a.size);
    AlignedSum(x + a.offset, y, a.size);
    AlignedWrap(x + a.offset + y, a.size);
  }

  // ---- Soundness ----

  /** The known alignments are true of the registers. */
  predicate Truthful(m: Alignments, regs: Registers)
    requires ValidAlignments(m) && |regs| == REGISTERS
  {
    forall r | 0 <= r < REGISTERS :: Aligned(regs[r], m[r])
  }

  /** All checks kept before the k-th instruction pass. */
  predicate PassedUpTo(f: seq<Instr>, regs: seq<Registers>, k: nat)
    requires ValidFragment(f) && Run(f, regs) && k <= |f|
  {
    forall i | 0 <= i < k && Kept(f, i) :: Passes(regs[i], f[i].access.value)
  }

  lemma StepTruthful(m: Alignments, i: Instr, before: Registers, after: Registers)
    requires ValidAlignments(m) && ValidInstr(i) && |before| == |after| == REGISTERS && Truthful(m, before)
    requires Checked(m, i) ==> Passes(before, i.access.value)
    requires forall r | 0 <= r < REGISTERS && r !in i.defs :: after[r] == before[r]
    ensures Truthful(Next(m, i), after)
  {
    if Checked(m, i) { PassesIs(before, i.access.value); }
    forall r | 0 <= r < REGISTERS ensures Aligned(after[r], Next(m, i)[r]) {
      assert Aligned(before[r], m[r]);
    }
  }

  lemma {:induction false} KnownIsTrue(f: seq<Instr>, regs: seq<Registers>, k: nat)
    requires ValidFragment(f) && Run(f, regs) && k <= |f| && PassedUpTo(f, regs, k)
    ensures Truthful(Known(f, k), regs[k])
    decreases k
  {
    if k != 0 {
      assert PassedUpTo(f, regs, k - 1);
      KnownIsTrue(f, regs, k - 1);
      assert Checked(Known(f, k - 1), f[k - 1]) == Kept(f, k - 1);
      StepTruthful(Known(f, k - 1), f[k - 1], regs[k - 1], regs[k]);
    }
  }

  lemma AlignedLess(x: nat, m: nat, size: nat)
    requires Size(m) && Size(size) && Aligned(x, m) && Aligned(m, size)
    ensures Aligned(x, size)
  {
  }

  /** If every check kept so far passes, the access is aligned, whether or not its own check was kept. */
  lemma DroppingIsSound(f: seq<Instr>, regs: seq<Registers>, k: nat)
    requires ValidFragment(f) && Run(f, regs) && k < |f| && f[k].access.Some? && PassedUpTo(f, regs, k + 1)
    ensures Aligned(Address(regs[k], f[k].access.value), f[k].access.value.size)
  {
    var a := f[k].access.value;
    assert ValidInstr(f[k]);
    AddressAligned(regs[k], a);
    if Kept(f, k) {
      PassesIs(regs[k], a);
    } else {
      assert PassedUpTo(f, regs, k);
      KnownIsTrue(f, regs, k);
      assert Aligned(regs[k][a.base], Known(f, k)[a.base]);
      if a.size > 1 { AlignedLess(regs[k][a.base], Known(f, k)[a.base], a.size); }
    }
  }

  // ---- No check is kept in vain ----

  /** Register r is written by some instruction from i up to k. */
  predicate Written(f: seq<Instr>, r: nat, i: nat, k: nat)
    requires k <= |f|
  {
    exists j :: i <= j < k && r in f[j].defs
  }

  lemma AlignedOrder(a: nat, b: nat, c: nat)
    requires Size(a) && Size(b) && Size(c)
    ensures Aligned(a, b) || Aligned(b, a)
    ensures Aligned(c, b) && Aligned(b, a) ==> Aligned(c, a)
    ensures Aligned(a, a)
  {
  }

  /** Until a register is written again, what is known of it only grows. */
  lemma {:induction false} KnownGrows(f: seq<Instr>, r: nat, i: nat, k: nat)
    requires ValidFragment(f) && i <= k <= |f| && r < REGISTERS && !Written(f, r, i, k)
    ensures Aligned(Known(f, k)[r], Known(f, i)[r])
    decreases k
  {
    if i < k {
      KnownGrows(f, r, i, k - 1);
      assert r !in f[k - 1].defs;
      var m, n := Known(f, k - 1), Known(f, k);
      AlignedOrder(m[r], n[r], n[r]);
      AlignedOrder(Known(f, i)[r], m[r], n[r]);
    } else {
      AlignedOrder(Known(f, k)[r], 1, 1);
    }
  }

  lemma NextRemembers(m: Alignments, i: Instr)
    requires ValidAlignments(m) && ValidInstr(i) && Checked(m, i) && i.access.value.base !in i.defs
    ensures Next(m, i)[i.access.value.base] == i.access.value.size
  {
  }

  lemma CheckIsRemembered(f: seq<Instr>, i: nat, k: nat)
    requires ValidFragment(f) && i < k <= |f| && Kept(f, i) && !Written(f, f[i].access.value.base, i, k)
    ensures Aligned(Known(f, k)[f[i].access.value.base], f[i].access.value.size)
  {
    var b := f[i].access.value.base;
    assert b !in f[i].defs;
    NextRemembers(Known(f, i), f[i]);
    var n := i + 1;
    assert Known(f, n) == Next(Known(f, i), f[i]);
    KnownGrows(f, b, n, k);
  }

  /** A run in which only register b is not zero: it has the value v from its last write before k on. */
  function Witness(f: seq<Instr>, b: nat, k: nat, v: nat): (regs: seq<Registers>)
    requires k <= |f| && b < REGISTERS
    ensures |regs| == |f| + 1
    ensures forall i | 0 <= i <= |f| :: |regs[i]| == REGISTERS
    ensures forall i, r | 0 <= i <= |f| && 0 <= r < REGISTERS ::
      regs[i][r] == if r == b && !Written(f, b, i, k) then v else 0
  {
    seq(|f| + 1, i requires 0 <= i <= |f| =>
      seq(REGISTERS, r requires 0 <= r < REGISTERS => if r == b && !Written(f, b, i, k) then v else 0))
  }

  lemma WitnessRuns(f: seq<Instr>, b: nat, k: nat, v: nat)
    requires k <= |f| && b < REGISTERS
    ensures Run(f, Witness(f, b, k, v))
  {
    var regs := Witness(f, b, k, v);
    forall i, r | 0 <= i < |f| && 0 <= r < REGISTERS && r !in f[i].defs ensures regs[i + 1][r] == regs[i][r] {
      if r == b && Written(f, b, i, k) {
        var j :| i <= j < k && b in f[j].defs;
        assert j != i;
      }
    }
  }

  /** A kept check is not implied by those before it: some run passes them all and then misses alignment. */
  lemma KeptIsNeeded(f: seq<Instr>, k: nat) returns (regs: seq<Registers>)
    requires ValidFragment(f) && k < |f| && Kept(f, k)
    ensures Run(f, regs) && PassedUpTo(f, regs, k)
    ensures !Aligned(Address(regs[k], f[k].access.value), f[k].access.value.size)
  {
    var a := f[k].access.value;
    assert ValidInstr(f[k]);
    var v := Known(f, k)[a.base];
    regs := Witness(f, a.base, k, v);
    WitnessRuns(f, a.base, k, v);
    forall i | 0 <= i < k && Kept(f, i) ensures Passes(regs[i], f[i].access.value) {
      var c := f[i].access.value;
      assert ValidInstr(f[i]);
      if c.base == a.base && !Written(f, a.base, i, k) { CheckIsRemembered(f, i, k); }
      PassesIs(regs[i], c);
    }
    AddressAligned(regs[k], a);
  }
}
