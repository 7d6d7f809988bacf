/** Cached decodes and the marks that track which halfwords they depend on (lib/DecodeCache.cpp,
    lib/Core.cpp), as functions on sequences indexed by halfword. */
module DecodeTable {
  import opened Arith

  newtype byte = x: int | 0 <= x < 256

  /** A decoded instruction with its size in halfwords; pseudo instructions report size 0. */
  datatype Instr = Instr(op: nat, size: nat)

  const BREAKPOINT: Instr := Instr(0, 0)

  /** An entry of the opcode table: decode on demand, or the code of a run of instructions
      (one for a cached decode, any number for a compiled fragment). */
  datatype Entry = Decode | Cached(code: seq<Instr>)

  datatype Mark = NoMark | Current | CurrentAndPrevious

  /** Decodes the instruction at a halfword index of a memory. */
  type Decoder = (seq<byte>, nat) -> Instr

  function Total(code: seq<Instr>): nat
    decreases |code|
  {
    if code == [] then 0 else code[0].size + Total(code[1..])
  }

  /** The halfwords an entry at an index claims: at least its own. */
  function Cover(e: Entry): nat
    requires e.Cached?
  {
    if Total(e.code) == 0 then 1 else Total(e.code)
  }

  predicate Covers(table: seq<Entry>, pc: nat, i: nat)
    requires pc < |table|
  {
    table[pc].Cached? && pc <= i < pc + Cover(table[pc])
  }

  /** The halfword at index i is the same in both memories. */
  predicate SameHalfword(m: seq<byte>, n: seq<byte>, i: nat) {
    && 2 * i + 1 < |m| == |n|
    && m[2 * i] == n[2 * i] && m[2 * i + 1] == n[2 * i + 1]
  }

  /** The instruction decoded at pc lies inside memory. */
  predicate Inside(decoder: Decoder, m: seq<byte>, pc: nat) {
    2 * pc + 1 < |m| ==> 2 * (pc + Max1(decoder(m, pc).size)) <= |m|
  }

  /** Memories that agree on the halfwords the decoder reports as its size decode alike. */
  ghost predicate Respects(decoder: Decoder, m: seq<byte>, n: seq<byte>, pc: nat) {
    2 * pc + 1 < |m| && (forall i: nat | pc <= i < pc + Max1(decoder(m, pc).size) :: SameHalfword(m, n, i))
    ==> decoder(m, pc) == decoder(n, pc)
  }

  /** The decoder stays inside memory and reads only the halfwords it reports as its size. */
  ghost predicate Local(decoder: Decoder) {
    && (forall m: seq<byte>, pc: nat :: Inside(decoder, m, pc))
    && (forall m: seq<byte>, n: seq<byte>, pc: nat :: Respects(decoder, m, n, pc))
  }

  lemma LocalDecoderExists()
    ensures exists decoder: Decoder :: Local(decoder)
  {
    var decoder: Decoder := (m, pc) => Instr(1, 1);
    assert Local(decoder);
  }

  /** `instructionDecode`: a breakpoint hides the instruction under it. */
  function Fetch(decoder: Decoder, m: seq<byte>, breakpoints: set<nat>, pc: nat): Instr {
    if pc in breakpoints then BREAKPOINT else decoder(m, pc)
  }

  /** Decoding from pc on gives exactly this code. */
  predicate Matches(decoder: Decoder, m: seq<byte>, breakpoints: set<nat>, pc: nat, code: seq<Instr>)
    decreases |code|
  {
    code == [] || (2 * pc + 1 < |m| && Fetch(decoder, m, breakpoints, pc) == code[0]
                   && Matches(decoder, m, breakpoints, pc + code[0].size, code[1..]))
  }

  /** An entry is either a single instruction or a fragment of instructions that all take up room. */
  predicate WellFormed(e: Entry) {
    e.Cached? ==> e.code != [] && (|e.code| == 1 || forall k | 0 <= k < |e.code| :: e.code[k].size > 0)
  }

  /** Every entry is what a fresh decode of memory and breakpoints would give. */
  ghost predicate Coherent(decoder: Decoder, m: seq<byte>, breakpoints: set<nat>, table: seq<Entry>) {
    forall pc: nat | pc < |table| && table[pc].Cached? ::
      WellFormed(table[pc]) && Matches(decoder, m, breakpoints, pc, table[pc].code)
  }

  /** The marks find every entry: its own halfword is marked and the others it covers point back. */
  predicate Tracked(marks: seq<Mark>, pc: nat, cover: nat) {
    && pc + cover <= |marks| && pc < |marks| && marks[pc] != NoMark
    && (forall j: nat | pc < j < pc + cover :: marks[j] == CurrentAndPrevious)
  }

  ghost predicate Marked(table: seq<Entry>, marks: seq<Mark>) {
    && |table| == |marks| && (marks != [] ==> marks[0] != CurrentAndPrevious)
    && (forall pc: nat | pc < |table| && table[pc].Cached? :: Tracked(marks, pc, Cover(table[pc])))
  }

  /** Where the backward walk from i stops. */
  function Stop(marks: seq<Mark>, i: nat): (lo: nat)
    requires i < |marks| && marks[0] != CurrentAndPrevious
    ensures lo <= i && marks[lo] != CurrentAndPrevious
    ensures forall j: nat | lo < j <= i :: marks[j] == CurrentAndPrevious
    decreases i
  {
    if marks[i] == CurrentAndPrevious then Stop(marks, i - 1) else i
  }

  function Cleared(table: seq<Entry>, lo: nat, hi: nat): (r: seq<Entry>)
    requires lo <= hi <= |table|
    ensures |r| == |table| && forall k | 0 <= k < |r| :: r[k] == if lo <= k < hi then Decode else table[k]
  {
    table[..lo] + seq(hi - lo, _ => Decode) + table[hi..]
  }

  function Unmarked(marks: seq<Mark>, lo: nat, hi: nat): (r: seq<Mark>)
    requires lo <= hi <= |marks|
    ensures |r| == |marks| && forall k | 0 <= k < |r| :: r[k] == if lo <= k < hi then NoMark else marks[k]
  {
    marks[..lo] + seq(hi - lo, _ => NoMark) + marks[hi..]
  }

  /** `after` is `before` with some entries dropped. */
  predicate Fewer(before: seq<Entry>, after: seq<Entry>) {
    |after| == |before| && forall k | 0 <= k < |after| :: after[k] == before[k] || after[k] == Decode
  }

  /** No entry depends on halfword i. */
  ghost predicate Free(table: seq<Entry>, i: nat) {
    forall pc: nat | pc < |table| :: !Covers(table, pc, i)
  }

  /** The halfwords after pc up to i all point back. */
  predicate Linked(marks: seq<Mark>, pc: nat, i: nat) {
    forall k: nat | pc < k <= i < |marks| :: marks[k] == CurrentAndPrevious
  }

  /** Exactly these entries are dropped when halfwords i to j are invalidated: those on the halfwords
      themselves, and those below that a chain of back-pointing marks links to i. */
  ghost predicate Dropped(before: seq<Entry>, after: seq<Entry>, marks: seq<Mark>, i: nat, j: nat) {
    && |after| == |before|
    && forall pc: nat | pc < |after| ::
         after[pc] == if i <= pc <= j || (pc < i && Linked(marks, pc, i)) then Decode else before[pc]
  }

  lemma WalkDrops(table: seq<Entry>, marks: seq<Mark>, i: nat)
    requires |table| == |marks| && i < |marks| && marks[0] != CurrentAndPrevious
    ensures Dropped(table, Cleared(table, Stop(marks, i), i + 1), marks, i, i)
  {
    var lo := Stop(marks, i);
    forall pc: nat | pc < i
      ensures Linked(marks, pc, i) <==> lo <= pc
    {
      if pc < lo { assert marks[lo] != CurrentAndPrevious; }
    }
  }

  /** Pointing the upper halfword back first makes one walk drop the entries of both. */
  lemma WordDrops(before: seq<Entry>, after: seq<Entry>, marks: seq<Mark>, i: nat)
    requires i + 1 < |marks| == |before| && Dropped(before, after, marks[i + 1 := CurrentAndPrevious], i + 1, i + 1)
    ensures Dropped(before, after, marks, i, i + 1)
  {
    var m := marks[i + 1 := CurrentAndPrevious];
    forall pc: nat | pc < i
      ensures Linked(m, pc, i + 1) <==> Linked(marks, pc, i)
    {
      if Linked(m, pc, i + 1) {
        forall k: nat | pc < k <= i ensures marks[k] == CurrentAndPrevious { assert m[k] == marks[k]; }
      }
    }
  }

  /** A halfword without a mark has no entry on it, which is what the fast checks rely on. */
  lemma UnmarkedIsFree(table: seq<Entry>, marks: seq<Mark>, i: nat)
    requires Marked(table, marks) && i < |marks| && marks[i] == NoMark
    ensures Free(table, i)
  {
    forall pc: nat | pc < |table|
      ensures !Covers(table, pc, i)
    {
      assert table[pc].Cached? ==> Tracked(marks, pc, Cover(table[pc]));
    }
  }

  /** Clearing the walk from i drops every entry on a halfword the walk passed, keeps the marks of all others, and never
      lets a chain run off the front. */
  lemma WalkClears(table: seq<Entry>, marks: seq<Mark>, i: nat)
    requires Marked(table, marks) && i < |marks|
    ensures var lo := Stop(marks, i); var t := Cleared(table, lo, i + 1);
            && Marked(t, Unmarked(marks, lo, i + 1)) && Fewer(table, t)
            && forall j: nat | lo <= j <= i :: Free(t, j)
  {
    var lo := Stop(marks, i);
    var t, u := Cleared(table, lo, i + 1), Unmarked(marks, lo, i + 1);
    forall pc: nat | pc < |t| && t[pc].Cached?
      ensures Tracked(u, pc, Cover(t[pc])) && forall j: nat | lo <= j <= i :: !Covers(t, pc, j)
    {
      assert Tracked(marks, pc, Cover(table[pc]));
    }
  }

  /** Nothing an entry at pc depends on differs: same halfwords, same breakpoints. */
  ghost predicate Agree(m: seq<byte>, bps: set<nat>, n: seq<byte>, bps': set<nat>, pc: nat, cover: nat) {
    |m| == |n| && forall i: nat | pc <= i < pc + cover :: SameHalfword(m, n, i) && (i in bps <==> i in bps')
  }

  lemma FetchLocal(decoder: Decoder, m: seq<byte>, bps: set<nat>, n: seq<byte>, bps': set<nat>, pc: nat)
    requires Local(decoder) && 2 * pc + 1 < |m|
    requires Agree(m, bps, n, bps', pc, Max1(Fetch(decoder, m, bps, pc).size))
    ensures Fetch(decoder, n, bps', pc) == Fetch(decoder, m, bps, pc)
  {
    assert SameHalfword(m, n, pc) && Respects(decoder, m, n, pc);
  }

  lemma {:induction false} FragmentLocal(decoder: Decoder, m: seq<byte>, bps: set<nat>, n: seq<byte>, bps': set<nat>,
                                         pc: nat, code: seq<Instr>)
    requires Local(decoder) && Matches(decoder, m, bps, pc, code)
    requires forall k | 0 <= k < |code| :: code[k].size > 0
    requires Agree(m, bps, n, bps', pc, Total(code))
    ensures Matches(decoder, n, bps', pc, code)
    decreases |code|
  {
    if code != [] {
      FetchLocal(decoder, m, bps, n, bps', pc);
      FragmentLocal(decoder, m, bps, n, bps', pc + code[0].size, code[1..]);
    }
  }

  /** An entry stays right as long as nothing it covers changes. */
  lemma EntryLocal(decoder: Decoder, m: seq<byte>, bps: set<nat>, n: seq<byte>, bps': set<nat>, pc: nat, e: Entry)
    requires Local(decoder) && e.Cached? && WellFormed(e) && Matches(decoder, m, bps, pc, e.code)
    requires Agree(m, bps, n, bps', pc, Cover(e))
    ensures Matches(decoder, n, bps', pc, e.code)
  {
    if |e.code| == 1 {
      assert Total(e.code) == e.code[0].size + Total(e.code[1..]);
      FetchLocal(decoder, m, bps, n, bps', pc);
      assert Matches(decoder, n, bps', pc + e.code[0].size, e.code[1..]);
    } else {
      FragmentLocal(decoder, m, bps, n, bps', pc, e.code);
    }
  }

  /** Changing memory and breakpoints only where no entry looks keeps the table coherent. */
  lemma ChangeIsSafe(decoder: Decoder, m: seq<byte>, bps: set<nat>, n: seq<byte>, bps': set<nat>, table: seq<Entry>)
    requires Local(decoder) && Coherent(decoder, m, bps, table) && |m| == |n| == 2 * |table|
    requires forall pc: nat | pc < |table| && table[pc].Cached? :: pc + Cover(table[pc]) <= |table|
    requires forall i: nat | i < |table| && !(SameHalfword(m, n, i) && (i in bps <==> i in bps')) :: Free(table, i)
    ensures Coherent(decoder, n, bps', table)
  {
    forall pc: nat | pc < |table| && table[pc].Cached?
      ensures Matches(decoder, n, bps', pc, table[pc].code)
    {
      forall i: nat | pc <= i < pc + Cover(table[pc])
        ensures SameHalfword(m, n, i) && (i in bps <==> i in bps')
      {
        assert Covers(table, pc, i);
      }
      EntryLocal(decoder, m, bps, n, bps', pc, table[pc]);
    }
  }

  lemma FewerCoherent(decoder: Decoder, m: seq<byte>, bps: set<nat>, table: seq<Entry>, t: seq<Entry>)
    requires Coherent(decoder, m, bps, table) && Fewer(table, t)
    ensures Coherent(decoder, m, bps, t)
  {
  }

  lemma FewerFree(table: seq<Entry>, t: seq<Entry>, i: nat)
    requires Free(table, i) && Fewer(table, t)
    ensures Free(t, i)
  {
    forall pc: nat | pc < |t| ensures !Covers(t, pc, i) { assert !Covers(table, pc, i); }
  }

  /** Dropping more entries frees no halfword less. */
  lemma StayFree(a: seq<Entry>, b: seq<Entry>, c: seq<Entry>)
    requires Fewer(a, b) && Fewer(b, c)
    ensures Fewer(a, c) && forall i: nat | Free(b, i) :: Free(c, i)
  {
    forall i: nat | Free(b, i) ensures Free(c, i) { FewerFree(b, c, i); }
  }

  ghost predicate FreeBetween(table: seq<Entry>, lo: nat, hi: nat) {
    forall i: nat | lo <= i < hi :: Free(table, i)
  }

  /** Freeing halfwords i up to j extends a stretch of free halfwords that reaches i. */
  lemma ExtendFree(a: seq<Entry>, b: seq<Entry>, c: seq<Entry>, lo: nat, i: nat, j: nat)
    requires Fewer(a, b) && Fewer(b, c) && FreeBetween(b, lo, i) && FreeBetween(c, i, j)
    ensures Fewer(a, c) && FreeBetween(c, lo, j)
  {
    StayFree(a, b, c);
  }

  predicate Clean(marks: seq<Mark>, lo: nat, hi: nat)
    requires hi <= |marks|
  {
    forall i: nat | lo <= i < hi :: marks[i] == NoMark
  }

  /** Memory itself holds no breakpoint pseudo instruction where one is set. */
  predicate NoneDecoded(decoder: Decoder, m: seq<byte>, bps: set<nat>) {
    forall pc | pc in bps :: decoder(m, pc) != BREAKPOINT
  }

  /** Fragments hold no breakpoints, so they look the same without them. */
  lemma {:induction false} FragmentHasNone(decoder: Decoder, m: seq<byte>, bps: set<nat>, pc: nat, code: seq<Instr>)
    requires Matches(decoder, m, bps, pc, code) && forall k | 0 <= k < |code| :: code[k].size > 0
    ensures Matches(decoder, m, {}, pc, code)
    decreases |code|
  {
    if code != [] { FragmentHasNone(decoder, m, bps, pc + code[0].size, code[1..]); }
  }

  /** Forgetting all breakpoints keeps the table coherent iff nothing is cached where one was. */
  lemma ClearingIff(decoder: Decoder, m: seq<byte>, bps: set<nat>, table: seq<Entry>)
    requires Coherent(decoder, m, bps, table) && NoneDecoded(decoder, m, bps)
    ensures Coherent(decoder, m, {}, table) <==> forall pc: nat | pc < |table| && pc in bps :: table[pc] == Decode
  {
    forall pc: nat | pc < |table| && table[pc].Cached?
      ensures Matches(decoder, m, {}, pc, table[pc].code) <==> pc !in bps
    {
      var code := table[pc].code;
      if |code| == 1 {
        assert code[1..] == [];
      } else {
        FragmentHasNone(decoder, m, bps, pc, code);
      }
    }
  }

  /** `setOpcode` on the marks: mark the first halfword, point the others back. */
  function Marking(marks: seq<Mark>, pc: nat, size: nat): (r: seq<Mark>)
    requires pc + Max1(size) <= |marks|
    ensures |r| == |marks|
    ensures forall k | 0 <= k < |r| ::
              r[k] == if pc < k < pc + size then CurrentAndPrevious
                      else if k == pc && marks[pc] == NoMark then Current else marks[k]
  {
    seq(|marks|, k requires 0 <= k < |marks| =>
      if pc < k < pc + size then CurrentAndPrevious else if k == pc && marks[pc] == NoMark then Current else marks[k])
  }

  /** Installing an entry tracks it and keeps every other entry tracked. */
  lemma InstallTracks(table: seq<Entry>, marks: seq<Mark>, pc: nat, e: Entry)
    requires Marked(table, marks) && e.Cached? && pc + Cover(e) <= |marks|
    ensures Marked(table[pc := e], Marking(marks, pc, Total(e.code)))
  {
    var t, u := table[pc := e], Marking(marks, pc, Total(e.code));
    forall q: nat | q < |t| && t[q].Cached?
      ensures Tracked(u, q, Cover(t[q]))
    {
      assert q != pc ==> Tracked(marks, q, Cover(table[q]));
    }
  }

  /** `invalidateWordSlowPath` first makes the upper halfword point back, which keeps every entry tracked. */
  lemma PointBackTracks(table: seq<Entry>, marks: seq<Mark>, i: nat)
    requires Marked(table, marks) && 0 < i < |marks| && marks[i] != NoMark
    ensures Marked(table, marks[i := CurrentAndPrevious])
  {
    forall pc: nat | pc < |table| && table[pc].Cached?
      ensures Tracked(marks[i := CurrentAndPrevious], pc, Cover(table[pc]))
    {
      assert Tracked(marks, pc, Cover(table[pc]));
    }
  }

  lemma MarkedInside(table: seq<Entry>, marks: seq<Mark>)
    requires Marked(table, marks)
    ensures forall pc: nat | pc < |table| && table[pc].Cached? :: pc + Cover(table[pc]) <= |table|
  {
    forall pc: nat | pc < |table| && table[pc].Cached?
      ensures pc + Cover(table[pc]) <= |table|
    {
      assert Tracked(marks, pc, Cover(table[pc]));
    }
  }

  /** The bytes from `at` on replaced by `data`. */
  function Patch(m: seq<byte>, at: nat, data: seq<byte>): (n: seq<byte>)
    requires at + |data| <= |m|
    ensures |n| == |m| && forall k | 0 <= k < |n| :: n[k] == if at <= k < at + |data| then data[k - at] else m[k]
  {
    m[..at] + data + m[at + |data|..]
  }

  /** After a write that dropped every entry on a written halfword, what is left is still coherent. */
  lemma PatchIsSafe(decoder: Decoder, m: seq<byte>, at: nat, data: seq<byte>, bps: set<nat>,
                    table: seq<Entry>, t: seq<Entry>, marks: seq<Mark>)
    requires Local(decoder) && Coherent(decoder, m, bps, table) && |m| == 2 * |table| && at + |data| <= |m|
    requires Fewer(table, t) && Marked(t, marks)
    requires data != [] && FreeBetween(t, at / 2, (at + |data| + 1) / 2)
    ensures Coherent(decoder, Patch(m, at, data), bps, t)
  {
    FewerCoherent(decoder, m, bps, table, t);
    MarkedInside(t, marks);
    forall i: nat | i < |t| && !SameHalfword(m, Patch(m, at, data), i)
      ensures Free(t, i)
    {
      assert at / 2 <= i < (at + |data| + 1) / 2;
    }
    ChangeIsSafe(decoder, m, bps, Patch(m, at, data), bps, t);
  }

  /** Setting or clearing a breakpoint on a halfword no entry depends on. */
  lemma BreakpointIsSafe(decoder: Decoder, m: seq<byte>, bps: set<nat>, bps': set<nat>, i: nat,
                         table: seq<Entry>, t: seq<Entry>, marks: seq<Mark>)
    requires Local(decoder) && Coherent(decoder, m, bps, table) && |m| == 2 * |table|
    requires Fewer(table, t) && Marked(t, marks) && Free(t, i) && bps - {i} == bps' - {i}
    ensures Coherent(decoder, m, bps', t)
  {
    FewerCoherent(decoder, m, bps, table, t);
    MarkedInside(t, marks);
    forall k: nat | k < |t| && !(SameHalfword(m, m, k) && (k in bps <==> k in bps'))
      ensures Free(t, k)
    {
      assert k != i ==> (k in bps - {i} <==> k in bps' - {i});
    }
    ChangeIsSafe(decoder, m, bps, m, bps', t);
  }

  lemma {:induction false} AppendInstr(decoder: Decoder, m: seq<byte>, bps: set<nat>, pc: nat,
      code: seq<Instr>, x: Instr)
    requires Matches(decoder, m, bps, pc, code)
    requires 2 * (pc + Total(code)) + 1 < |m| && Fetch(decoder, m, bps, pc + Total(code)) == x
    ensures Matches(decoder, m, bps, pc, code + [x]) && Total(code + [x]) == Total(code) + x.size
    decreases |code|
  {
    if code == [] {
      assert code + [x] == [x] && [x][1..] == [];
      assert Matches(decoder, m, bps, pc + x.size, [x][1..]);
    } else {
      assert (code + [x])[1..] == code[1..] + [x];
      AppendInstr(decoder, m, bps, pc + code[0].size, code[1..], x);
    }
  }
}
