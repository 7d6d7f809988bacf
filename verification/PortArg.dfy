/** Port arguments such as `tile:XS1_PORT_8A[2:5]` (lib/PortArg.cpp): reading and printing. */
module PortArg {
  import opened Options

  /** The offsets are signed bytes; an end offset of -1 stands for the whole port. */
  datatype PortArg = PortArg(core: string, port: string, beginOffset: int, endOffset: int)

  // ---- Strings ----

  /** `find_first_of` and `find_last_of` for one character. */
  function First(s: string, c: char): (r: Option<nat>)
    ensures r.None? <==> c !in s
    ensures r.Some? ==> r.value < |s| && s[r.value] == c && c !in s[..r.value]
  {
    if s == [] then None
    else if s[0] == c then Some(0)
    else
      var r := First(s[1..], c);
      assert r.Some? ==> s[..r.value + 1] == [s[0]] + s[1..][..r.value];
      if r.None? then None else Some(r.value + 1)
  }

  function Last(s: string, c: char): (r: Option<nat>)
    ensures r.None? <==> c !in s
    ensures r.Some? ==> r.value < |s| && s[r.value] == c && c !in s[r.value + 1..]
  {
    if s == [] then None
    else if s[|s| - 1] == c then Some(|s| - 1)
    else
      var r := Last(s[..|s| - 1], c);
      assert r.Some? ==> s[r.value + 1..] == s[..|s| - 1][r.value + 1..] + [s[|s| - 1]];
      r
  }

  lemma {:induction false} FirstIs(a: string, c: char, b: string)
    requires c !in a
    ensures First(a + [c] + b, c) == Some(|a|)
  {
    if a == [] {
      assert a + [c] + b == [c] + b;
    } else {
      assert (a + [c] + b)[1..] == a[1..] + [c] + b;
      FirstIs(a[1..], c, b);
    }
  }

  lemma {:induction false} LastIs(a: string, c: char, b: string)
    requires c !in b
    ensures Last(a + [c] + b, c) == Some(|a|)
    decreases |b|
  {
    var s := a + [c] + b;
    if b == [] {
      assert s[|s| - 1] == c;
    } else {
      assert s[|s| - 1] == b[|b| - 1];
      assert s[..|s| - 1] == a + [c] + b[..|b| - 1];
      LastIs(a, c, b[..|b| - 1]);
    }
  }

  // ---- Numbers ----

  predicate IsDigit(c: char) { '0' <= c <= '9' }

  function Digit(c: char): nat
    requires IsDigit(c)
  {
    (c - '0') as nat
  }

  predicate AllDigits(s: string) { forall k | 0 <= k < |s| :: IsDigit(s[k]) }

  function Value(s: string): nat
    requires AllDigits(s)
  {
    if s == [] then 0 else 10 * Value(s[..|s| - 1]) + Digit(s[|s| - 1])
  }

  /** How `<<` prints an unsigned number. */
  function Decimal(n: nat): (s: string)
    ensures AllDigits(s) && s != []
  {
    if n < 10 then ['0' + n as char] else Decimal(n / 10) + ['0' + (n % 10) as char]
  }

  lemma {:induction false} DecimalValue(n: nat)
    ensures Value(Decimal(n)) == n
  {
    if n >= 10 {
      DecimalValue(n / 10);
      assert Decimal(n)[..|Decimal(n)| - 1] == Decimal(n / 10);
    }
  }

  predicate IsSpace(c: char) { c == ' ' || '\t' <= c <= '\r' }

  function SkipSpaces(s: string): string { if s != [] && IsSpace(s[0]) then SkipSpaces(s[1..]) else s }

  /** The characters up to a terminating zero. */
  function CString(s: string): string { match First(s, '\0') case None => s case Some(k) => s[..k] }

  /** The value of `strtol` in base 10 if it consumes the whole string: spaces, a sign and digits. Nothing at all
      counts as zero. */
  function StrToL(s: string): Option<int> {
    var t := SkipSpaces(s);
    var negative := t != [] && t[0] == '-';
    var u := if negative || (t != [] && t[0] == '+') then t[1..] else t;
    if s == [] then Some(0)
    else if u == [] || !AllDigits(u) then None
    else
      var v: int := Value(u);
      Some(if negative then -v else v)
  }

  function ParsePortOffset(s: string): (r: Option<int>)
    ensures r.Some? ==> 0 <= r.value <= 127
  {
    var v := StrToL(CString(s));
    if v.Some? && 0 <= v.value <= 127 then v else None
  }

  // ---- Which strings are offsets ----

  predicate AllSpaces(s: string) { forall k | 0 <= k < |s| :: IsSpace(s[k]) }

  /** Spaces, a sign or none, and digits of a value up to 127; after a minus sign the value is zero. */
  predicate Reads(s: string, spaces: string, sign: string, digits: string, n: int) {
    && s == spaces + sign + digits && AllSpaces(spaces) && (sign == "" || sign == "+" || sign == "-")
    && digits != "" && AllDigits(digits) && Value(digits) == n <= 127 && (sign == "-" ==> n == 0)
  }

  ghost predicate IsOffset(s: string, n: int) {
    (s == "" && n == 0) || exists spaces, sign, digits :: Reads(s, spaces, sign, digits, n)
  }

  lemma {:induction false} SpacesSkipped(spaces: string, t: string)
    requires AllSpaces(spaces) && t != [] && !IsSpace(t[0])
    ensures SkipSpaces(spaces + t) == t
  {
    if spaces == [] {
      assert spaces + t == t;
    } else {
      assert (spaces + t)[1..] == spaces[1..] + t;
      SpacesSkipped(spaces[1..], t);
    }
  }

  lemma {:induction false} SkipsSpaces(s: string) returns (spaces: string)
    ensures s == spaces + SkipSpaces(s) && AllSpaces(spaces)
  {
    if s != [] && IsSpace(s[0]) {
      var rest := SkipsSpaces(s[1..]);
      spaces := [s[0]] + rest;
      assert s == [s[0]] + s[1..];
      assert spaces + SkipSpaces(s) == [s[0]] + (rest + SkipSpaces(s[1..]));
    } else {
      spaces := "";
    }
  }

  lemma OffsetIsParsed(s: string, spaces: string, sign: string, digits: string, n: int)
    requires Reads(s, spaces, sign, digits, n)
    ensures StrToL(s) == Some(n)
  {
    var t := sign + digits;
    assert spaces + sign + digits == spaces + t;
    assert IsDigit(digits[0]) && t[0] == (if sign == "" then digits[0] else sign[0]);
    SpacesSkipped(spaces, t);
    assert sign != "" ==> t[1..] == digits;
    assert sign == "" ==> t == digits;
  }

  lemma ParsedIsOffset(s: string, n: int)
    requires StrToL(s) == Some(n) && 0 <= n <= 127
    ensures IsOffset(s, n)
  {
    if s != "" {
      var spaces := SkipsSpaces(s);
      var t := SkipSpaces(s);
      if t[0] == '-' || t[0] == '+' {
        assert s == spaces + t[..1] + t[1..];
        assert t[..1] == (if t[0] == '-' then "-" else "+");
        assert Reads(s, spaces, t[..1], t[1..], n);
      } else {
        assert s == spaces + "" + t;
        assert Reads(s, spaces, "", t, n);
      }
    }
  }

  /** A string is an offset exactly if, up to its first zero, it is empty or reads as one. */
  lemma OffsetIff(s: string, n: int)
    ensures ParsePortOffset(s) == Some(n) <==> IsOffset(CString(s), n)
  {
    var t := CString(s);
    if ParsePortOffset(s) == Some(n) { ParsedIsOffset(t, n); }
    if t != "" && IsOffset(t, n) {
      var spaces, sign, digits :| Reads(t, spaces, sign, digits, n);
      OffsetIsParsed(t, spaces, sign, digits, n);
    }
  }

  lemma StrToLDigits(u: string)
    requires u != [] && AllDigits(u)
    ensures StrToL(u) == Some(Value(u))
  {
    assert IsDigit(u[0]);
    assert SkipSpaces(u) == u;
  }

  lemma CStringDigits(u: string)
    requires AllDigits(u)
    ensures CString(u) == u
  {
    assert '\0' !in u;
  }

  lemma DecimalParses(n: nat)
    ensures ParsePortOffset(Decimal(n)) == if n <= 127 then Some(n) else None
  {
    CStringDigits(Decimal(n));
    StrToLDigits(Decimal(n));
    DecimalValue(n);
  }

  // ---- Parsing ----

  /** A value stored in a signed byte. */
  function SignedByte(x: int): int
    requires 0 <= x <= 128
  {
    if x == 128 then -128 else x
  }

  /** The bounds in the brackets. */
  function ParseIndex(index: string): Option<(int, int)> {
    match First(index, ':')
    case None =>
      var lower := ParsePortOffset(index);
      if lower.None? then None else Some((lower.value, SignedByte(lower.value + 1)))
    case Some(pos) =>
      if pos == 0 || pos + 1 == |index| then None
      else
        var lower := ParsePortOffset(index[..pos]);
        var upper := ParsePortOffset(index[pos + 1..]);
        if lower.None? || upper.None? || upper.value <= lower.value then None else Some((lower.value, upper.value))
  }

  /** The core, if one is named, and the port. */
  function ParseName(port: string): Option<(string, string)> {
    match First(port, ':')
    case None => Some(("", port))
    case Some(pos) => if pos == 0 then None else Some((port[..pos], port[pos + 1..]))
  }

  /** `PortArg::parse` */
  function Parse(s: string): Option<PortArg> {
    if s == [] then None
    else if s[|s| - 1] == ']' then
      var open := Last(s[..|s| - 1], '[');
      if open.None? || open.value + 1 == |s| - 1 then None
      else
        var bounds := ParseIndex(s[open.value + 1..|s| - 1]);
        var name := ParseName(s[..open.value]);
        if bounds.None? || name.None? then None
        else Some(PortArg(name.value.0, name.value.1, bounds.value.0, bounds.value.1))
    else
      var name := ParseName(s);
      if name.None? then None else Some(PortArg(name.value.0, name.value.1, 0, -1))
  }

  // ---- Printing ----

  function DumpName(core: string, port: string): string { if core == "" then port else core + ":" + port }

  /** A signed byte converted to an unsigned number. */
  function Unsigned(x: int): nat
    requires -0x1_0000_0000 <= x
  {
    if x < 0 then x + 0x1_0000_0000 else x
  }

  function DumpIndex(begin: int, end: int): string
    requires -128 <= begin && -128 <= end
  {
    Decimal(Unsigned(begin)) + if end != begin + 1 then ":" + Decimal(Unsigned(end)) else ""
  }

  /** `PortArg::dump` */
  function Dump(a: PortArg): string
    requires -128 <= a.beginOffset && -128 <= a.endOffset
  {
    DumpName(a.core, a.port)
    + if a.beginOffset != 0 || a.endOffset != -1 then "[" + DumpIndex(a.beginOffset, a.endOffset) + "]" else ""
  }

  // ---- The round trip ----

  lemma DigitsPlain(s: string)
    requires AllDigits(s)
    ensures ':' !in s && '[' !in s && ']' !in s
  {
  }

  lemma NameRoundTrip(core: string, port: string)
    requires ':' !in core && (core == "" ==> ':' !in port)
    ensures ParseName(DumpName(core, port)) == Some((core, port))
  {
    if core != "" {
      var s := core + ":" + port;
      FirstIs(core, ':', port);
      assert s[..|core|] == core && s[|core| + 1..] == port;
    }
  }

  /** What `parse` can produce as bounds. */
  predicate Bounds(begin: int, end: int) { 0 <= begin <= 127 && (begin < end <= 127 || (begin == 127 && end == -128)) }

  lemma RangeIndex(b: string, e: string)
    requires ':' !in b && b != [] && e != []
    ensures var lower, upper := ParsePortOffset(b), ParsePortOffset(e);
      ParseIndex(b + ":" + e) ==
        if lower.None? || upper.None? || upper.value <= lower.value then None else Some((lower.value, upper.value))
  {
    var s := b + [':'] + e;
    FirstIs(b, ':', e);
    assert s[..|b|] == b && s[|b| + 1..] == e;
  }

  lemma IndexRoundTrip(begin: int, end: int)
    requires Bounds(begin, end)
    ensures ParseIndex(DumpIndex(begin, end)) == if end == -128 then None else Some((begin, end))
  {
    DecimalParses(begin);
    if end == begin + 1 {
      SingleIndex(Decimal(begin));
      assert DumpIndex(begin, end) == Decimal(begin);
    } else {
      DecimalParses(Unsigned(end));
      RangeDump(Decimal(begin), Decimal(Unsigned(end)));
    }
  }

  lemma SingleIndex(b: string)
    requires AllDigits(b)
    ensures ParseIndex(b) ==
      var lower := ParsePortOffset(b); if lower.None? then None else Some((lower.value, SignedByte(lower.value + 1)))
  {
    DigitsPlain(b);
  }

  lemma RangeDump(b: string, e: string)
    requires AllDigits(b) && b != [] && e != []
    ensures var lower, upper := ParsePortOffset(b), ParsePortOffset(e);
      ParseIndex(b + (":" + e)) ==
        if lower.None? || upper.None? || upper.value <= lower.value then None else Some((lower.value, upper.value))
  {
    DigitsPlain(b);
    RangeIndex(b, e);
    Associates(b, ":", e);
  }

  lemma Associates(a: string, b: string, c: string)
    ensures a + (b + c) == a + b + c
  {
  }

  lemma IndexPlain(begin: int, end: int)
    requires Bounds(begin, end)
    ensures '[' !in DumpIndex(begin, end) && DumpIndex(begin, end) != []
  {
    DigitsPlain(Decimal(begin));
    DigitsPlain(Decimal(Unsigned(end)));
  }

  /** Every result of `parse`: what its parts are like, and the text without the brackets. */
  lemma ParsedIs(s: string)
    requires Parse(s).Some?
    ensures var a := Parse(s).value;
      && ':' !in a.core && (a.core == "" ==> ':' !in a.port)
      && (Bounds(a.beginOffset, a.endOffset) ||
          (a.beginOffset == 0 && a.endOffset == -1 && s == DumpName(a.core, a.port) && s[|s| - 1] != ']'))
  {
    var port := if s[|s| - 1] == ']' then s[..Last(s[..|s| - 1], '[').value] else s;
    NameParts(port);
  }

  lemma NameParts(port: string)
    ensures ParseName(port).Some? ==>
      var n := ParseName(port).value;
      ':' !in n.0 && (n.0 == "" ==> ':' !in n.1) && DumpName(n.0, n.1) == port
  {
    if First(port, ':').Some? {
      var k := First(port, ':').value;
      assert port == port[..k] + ":" + port[k + 1..];
    }
  }

  lemma WithIndex(name: string, index: string)
    requires '[' !in index && index != []
    ensures Parse(name + "[" + index + "]") ==
      if ParseIndex(index).None? || ParseName(name).None? then None
      else Some(PortArg(ParseName(name).value.0, ParseName(name).value.1,
                        ParseIndex(index).value.0, ParseIndex(index).value.1))
  {
    var s := name + "[" + index + "]";
    var body := name + ['['] + index;
    assert s[|s| - 1] == ']' && s[..|s| - 1] == body;
    LastIs(name, '[', index);
    assert s[|name| + 1..|s| - 1] == index && s[..|name|] == name;
  }

  /** The core comes first, then the port, and in the brackets the lower bound and then the upper one. */
  lemma RangeOfPort(core: string, port: string, b: string, e: string)
    requires core != "" && ':' !in core && b != "" && e != "" && ':' !in b && '[' !in b && '[' !in e
    ensures var lower, upper := ParsePortOffset(b), ParsePortOffset(e);
      Parse(core + ":" + port + "[" + (b + ":" + e) + "]") ==
        if lower.None? || upper.None? || upper.value <= lower.value then None
        else Some(PortArg(core, port, lower.value, upper.value))
  {
    NameRoundTrip(core, port);
    RangeIndex(b, e);
    WithIndex(core + ":" + port, b + ":" + e);
  }

  /** Without brackets it is the whole port. */
  lemma WholePort(core: string, port: string)
    requires core != "" && ':' !in core && (port != "" ==> port[|port| - 1] != ']')
    ensures Parse(core + ":" + port) == Some(PortArg(core, port, 0, -1))
  {
    var s := core + ":" + port;
    NameRoundTrip(core, port);
    assert s[|s| - 1] == if port == "" then ':' else port[|port| - 1];
  }

  lemma IndexedRoundTrip(a: PortArg)
    requires ':' !in a.core && (a.core == "" ==> ':' !in a.port) && Bounds(a.beginOffset, a.endOffset)
    ensures Parse(Dump(a)) == if a.endOffset == -128 then None else Some(a)
  {
    var name, index := DumpName(a.core, a.port), DumpIndex(a.beginOffset, a.endOffset);
    NameRoundTrip(a.core, a.port);
    IndexPlain(a.beginOffset, a.endOffset);
    IndexRoundTrip(a.beginOffset, a.endOffset);
    WithIndex(name, index);
    Regroup(name, index);
  }

  lemma Regroup(name: string, index: string)
    ensures name + ("[" + index + "]") == name + "[" + index + "]"
  {
  }

  /** Printing a parsed argument and parsing it again gives it back, unless the end offset overflowed its byte; then
      the printed text does not even parse. */
  lemma RoundTrip(s: string)
    requires Parse(s).Some?
    ensures var a := Parse(s).value;
      && a.beginOffset >= -128 && a.endOffset >= -128
      && Parse(Dump(a)) == if a.endOffset == -128 then None else Some(a)
  {
    ParsedIs(s);
    var a := Parse(s).value;
    if Bounds(a.beginOffset, a.endOffset) {
      IndexedRoundTrip(a);
    } else {
      assert Dump(a) == DumpName(a.core, a.port) + "" == s;
    }
  }

  lemma IndexOverflows(index: string)
    requires ParseIndex(index).Some?
    ensures ParseIndex(index).value.1 == -128 <==> ':' !in index && ParsePortOffset(index) == Some(127)
  {
  }

  /** The end offset overflows for a single offset of 127, and only then. */
  lemma OverflowIff(name: string, index: string)
    requires '[' !in index && index != [] && ParseIndex(index).Some? && ParseName(name).Some?
    ensures var a := Parse(name + "[" + index + "]");
      a.Some? && (a.value.endOffset == -128 <==> ':' !in index && ParsePortOffset(index) == Some(127))
  {
    WithIndex(name, index);
    IndexOverflows(index);
  }

  /** Such an argument exists. */
  lemma OverflowExample()
    ensures Parse("p" + "[" + Decimal(127) + "]") == Some(PortArg("", "p", 127, -128))
  {
    DecimalParses(127);
    DigitsPlain(Decimal(127));
    assert ':' !in "p";
    WithIndex("p", Decimal(127));
  }
}
