/** C argument and environment arrays: reading them into a command and laying a command out again. */
module RawExecs {
  import opened Common
  import opened Envs
  import opened Execs

  const EQUALS: byte := 61

  /** One slot of a pointer array: NULL or the address of a byte. */
  datatype Ptr = Null | At(address: nat)

  /** Memory as the code sees it: bytes that strings live in and slots that pointer arrays live in. */
  datatype Memory = Memory(bytes: Bytes, slots: seq<Ptr>)

  /** `RawExec`: the address of the program string and the first slots of argv and envp. */
  datatype RawExec = RawExec(prog: nat, argv: nat, envp: nat)

  // ---------------------------------------------------------------------------------------------
  // Strings in memory
  // ---------------------------------------------------------------------------------------------

  /** `CStr::from_ptr`: the bytes up to the NUL, if there is one before memory ends. */
  function CStr(bytes: Bytes, p: nat): (s: Option<Bytes>)
    ensures s.Some? ==> 0 !in s.value && p + |s.value| < |bytes|
    decreases |bytes| - p
  {
    if p >= |bytes| then None
    else if bytes[p] == 0 then Some([])
    else
      match CStr(bytes, p + 1)
      case None => None
      case Some(rest) => Some([bytes[p]] + rest)
  }

  /** The strings of a NULL-terminated array. */
  function CStrings(m: Memory, slot: nat): Option<seq<Bytes>>
    decreases |m.slots| - slot
  {
    if slot >= |m.slots| then None
    else
      match m.slots[slot]
      case Null => Some([])
      case At(p) =>
        match (CStr(m.bytes, p), CStrings(m, slot + 1))
        case (Some(s), Some(rest)) => Some([s] + rest)
        case _ => None
  }

  lemma {:induction false} StringAt(m: Memory, slot: nat, i: nat)
    requires CStrings(m, slot).Some? && i <= |CStrings(m, slot).value|
    ensures slot + i < |m.slots|
    ensures m.slots[slot + i].Null? <==> i == |CStrings(m, slot).value|
    ensures i < |CStrings(m, slot).value| ==>
      CStr(m.bytes, m.slots[slot + i].address) == Some(CStrings(m, slot).value[i])
    decreases i
  {
    if i > 0 {
      StringAt(m, slot + 1, i - 1);
    }
  }

  /** `collect_c_str_array`: counts to the NULL, then collects that many strings. The caller passes
      a NULL-terminated array of C strings. */
  method CollectCStrArray(m: Memory, strs: nat) returns (collected: seq<Bytes>)
    requires CStrings(m, strs).Some?
    ensures collected == CStrings(m, strs).value
  {
    ghost var expected := CStrings(m, strs).value;
    var count, cur := 0, strs;
    StringAt(m, strs, 0);
    while !m.slots[cur].Null?
      invariant cur == strs + count < |m.slots| && count <= |expected|
      invariant m.slots[cur].Null? <==> count == |expected|
      decreases |expected| - count
    {
      count := count + 1;
      cur := cur + 1;
      StringAt(m, strs, count);
    }
    collected := [];
    for i := 0 to count
      invariant collected == expected[..i]
    {
      StringAt(m, strs, i);
      collected := collected + [CStr(m.bytes, m.slots[strs + i].address).value];
    }
  }

  // ---------------------------------------------------------------------------------------------
  // Entries
  // ---------------------------------------------------------------------------------------------

  function EqualsAt(b: Bytes): (p: nat)
    ensures p <= |b| && EQUALS !in b[..p] && (p < |b| ==> b[p] == EQUALS)
  {
    if b == [] || b[0] == EQUALS then 0
    else
      var p := EqualsAt(b[1..]);
      assert b[..p + 1] == [b[0]] + b[1..][..p];
      p + 1
  }

  /** An environment string, split at its first `=`. */
  function ParseEntry(b: Bytes): Entry {
    var p := EqualsAt(b);
    if p < |b| then (b[..p], Some(b[p + 1..])) else (b, None)
  }

  function PrintEntry(e: Entry): Bytes {
    match e.1
    case None => e.0
    case Some(value) => e.0 + [EQUALS] + value
  }

  lemma PrintParsed(b: Bytes)
    ensures PrintEntry(ParseEntry(b)) == b
    ensures EQUALS !in ParseEntry(b).0
  {
  }

  /** The first `=` is where the bytes before hold none. */
  lemma {:induction false} EqualsAtIs(b: Bytes, n: nat)
    requires n < |b| && EQUALS !in b[..n] && b[n] == EQUALS
    ensures EqualsAt(b) == n
  {
    if n > 0 {
      assert b[..n][0] == b[0];
      assert b[1..][..n - 1] == b[..n][1..];
      EqualsAtIs(b[1..], n - 1);
    }
  }

  lemma {:induction false} NoEquals(b: Bytes)
    requires EQUALS !in b
    ensures EqualsAt(b) == |b|
  {
    if b != [] {
      NoEquals(b[1..]);
    }
  }

  lemma ParsePrinted(e: Entry)
    ensures ParseEntry(PrintEntry(e)) == e <==> EQUALS !in e.0
  {
    hide EqualsAt;
    var b := PrintEntry(e);
    PrintParsed(b);
    if EQUALS !in e.0 {
      if e.1.Some? {
        assert b[..|e.0|] == e.0 && b[|e.0| + 1..] == e.1.value;
        EqualsAtIs(b, |e.0|);
      } else {
        NoEquals(b);
      }
    }
  }

  function ParseEntries(strings: seq<Bytes>): (r: seq<Entry>)
    ensures |r| == |strings| && forall i :: 0 <= i < |r| ==> r[i] == ParseEntry(strings[i])
  {
    seq(|strings|, i requires 0 <= i < |strings| => ParseEntry(strings[i]))
  }

  function PrintEntries(envs: seq<Entry>): (r: seq<Bytes>)
    ensures |r| == |envs| && forall i :: 0 <= i < |r| ==> r[i] == PrintEntry(envs[i])
  {
    seq(|envs|, i requires 0 <= i < |envs| => PrintEntry(envs[i]))
  }

  // ---------------------------------------------------------------------------------------------
  // Laying out
  // ---------------------------------------------------------------------------------------------

  /** What a C reader sees of a string that may hold NULs. */
  function UpToNul(s: Bytes): (t: Bytes)
    ensures t <= s && 0 !in t
    ensures |t| < |s| ==> s[|t|] == 0
  {
    if s == [] || s[0] == 0 then [] else [s[0]] + UpToNul(s[1..])
  }

  lemma UpToNulIsWhole(s: Bytes)
    ensures UpToNul(s) == s <==> 0 !in s
  {
    if UpToNul(s) != s {
      assert s[|UpToNul(s)|] == 0;
    }
  }

  /** `to_c_str`: the string and a NUL in memory of its own. */
  function Place(m: Memory, s: Bytes): (Memory, nat) {
    (m.(bytes := m.bytes + s + [0]), |m.bytes|)
  }

  function PlaceAll(bytes: Bytes, strs: seq<Bytes>): (Bytes, seq<Ptr>)
    decreases |strs|
  {
    if strs == [] then (bytes, [Null])
    else
      var (bytes', slots) := PlaceAll(bytes + strs[0] + [0], strs[1..]);
      (bytes', [At(|bytes|)] + slots)
  }

  function PlaceArray(m: Memory, strs: seq<Bytes>): (Memory, nat) {
    var (bytes, slots) := PlaceAll(m.bytes, strs);
    (Memory(bytes, m.slots + slots), |m.slots|)
  }

  /** `to_c_str_array`: pushes a NUL onto every string, collects the pointers, ends with NULL. */
  method ToCStrArray(m: Memory, strs: seq<Bytes>) returns (m': Memory, array': nat)
    ensures (m', array') == PlaceArray(m, strs)
  {
    var bytes: Bytes := m.bytes;
    var ptrs: seq<Ptr> := [];
    ghost var all := PlaceAll(bytes, strs);
    assert strs[0..] == strs;
    for i := 0 to |strs|
      invariant all.0 == PlaceAll(bytes, strs[i..]).0
      invariant all.1 == ptrs + PlaceAll(bytes, strs[i..]).1
    {
      ghost var next := PlaceAll(bytes + strs[i] + [0], strs[i + 1..]);
      assert strs[i..][1..] == strs[i + 1..];
      assert PlaceAll(bytes, strs[i..]) == (next.0, [At(|bytes|)] + next.1);
      ptrs := ptrs + [At(|bytes|)];
      bytes := bytes + strs[i] + [0];
    }
    ptrs := ptrs + [Null];
    return Memory(bytes, m.slots + ptrs), |m.slots|;
  }

  lemma {:induction false} CStrInside(before: Bytes, s: Bytes, rest: Bytes, i: nat)
    requires i <= |s|
    ensures CStr(before + s + [0] + rest, |before| + i) == Some(UpToNul(s[i..]))
    decreases |s| - i
  {
    var b := before + s + [0] + rest;
    if i < |s| {
      assert b[|before| + i] == s[i] && s[i..][1..] == s[i + 1..];
      CStrInside(before, s, rest, i + 1);
    } else {
      assert b[|before| + i] == 0;
    }
  }

  /** A string that is in memory stays what it is when memory grows behind it. */
  lemma {:induction false} CStrGrows(bytes: Bytes, more: Bytes, p: nat)
    requires CStr(bytes, p).Some?
    ensures CStr(bytes + more, p) == CStr(bytes, p)
    decreases |bytes| - p
  {
    if bytes[p] != 0 {
      CStrGrows(bytes, more, p + 1);
    }
  }

  lemma {:induction false} PlaceAllGrows(bytes: Bytes, strs: seq<Bytes>)
    ensures bytes <= PlaceAll(bytes, strs).0
    decreases |strs|
  {
    if strs != [] {
      PlaceAllGrows(bytes + strs[0] + [0], strs[1..]);
    }
  }

  function CutAll(strs: seq<Bytes>): (r: seq<Bytes>)
    ensures |r| == |strs| && forall i :: 0 <= i < |r| ==> r[i] == UpToNul(strs[i])
  {
    seq(|strs|, i requires 0 <= i < |strs| => UpToNul(strs[i]))
  }

  lemma PlacedOneMore(bytes: Bytes, strs: seq<Bytes>)
    requires strs != []
    ensures var next := PlaceAll(bytes + strs[0] + [0], strs[1..]);
      PlaceAll(bytes, strs) == (next.0, [At(|bytes|)] + next.1)
  {
  }

  lemma CStrAtEnd(before: Bytes, s: Bytes, whole: Bytes)
    requires before + s + [0] <= whole
    ensures CStr(whole, |before|) == Some(UpToNul(s))
  {
    hide CStr, UpToNul;
    var head := before + s + [0];
    assert whole == before + s + [0] + whole[|head|..];
    CStrInside(before, s, whole[|head|..], 0);
    assert s[0..] == s;
  }

  /** The first string of a laid-out array, and where the others are. */
  lemma FirstPlaced(bytes: Bytes, strs: seq<Bytes>)
    requires strs != []
    ensures var next := PlaceAll(bytes + strs[0] + [0], strs[1..]);
      && PlaceAll(bytes, strs) == (next.0, [At(|bytes|)] + next.1)
      && CStr(next.0, |bytes|) == Some(UpToNul(strs[0]))
  {
    hide PlaceAll, CStr, UpToNul;
    PlacedOneMore(bytes, strs);
    PlaceAllGrows(bytes + strs[0] + [0], strs[1..]);
    CStrAtEnd(bytes, strs[0], PlaceAll(bytes + strs[0] + [0], strs[1..]).0);
  }

  lemma OneMoreString(m: Memory, slot: nat, p: nat, s: Bytes, rest: seq<Bytes>)
    requires slot < |m.slots| && m.slots[slot] == At(p)
    requires CStr(m.bytes, p) == Some(s) && CStrings(m, slot + 1) == Some(rest)
    ensures CStrings(m, slot) == Some([s] + rest)
  {
    hide CStr;
  }

  /** Reading a laid-out array gives every string up to its first NUL. */
  lemma {:induction false} PlacedStrings(bytes: Bytes, strs: seq<Bytes>, slots: seq<Ptr>, tail: seq<Ptr>)
    ensures var (bytes', ptrs) := PlaceAll(bytes, strs);
      CStrings(Memory(bytes', slots + ptrs + tail), |slots|) == Some(CutAll(strs))
    decreases |strs|
  {
    var (bytes', ptrs) := PlaceAll(bytes, strs);
    var m := Memory(bytes', slots + ptrs + tail);
    if strs == [] {
      assert m.slots[|slots|] == Null;
    } else {
      hide PlaceAll, CStr, CStrings, UpToNul;
      FirstPlaced(bytes, strs);
      var next := PlaceAll(bytes + strs[0] + [0], strs[1..]);
      PlacedStrings(bytes + strs[0] + [0], strs[1..], slots + [At(|bytes|)], tail);
      assert m.slots == slots + [At(|bytes|)] + next.1 + tail;
      OneMoreString(m, |slots|, |bytes|, UpToNul(strs[0]), CutAll(strs[1..]));
      assert CutAll(strs) == [UpToNul(strs[0])] + CutAll(strs[1..]);
    }
  }

  lemma {:induction false} CStringsGrow(m: Memory, m': Memory, slot: nat)
    requires CStrings(m, slot).Some? && m.bytes <= m'.bytes && m.slots <= m'.slots
    ensures CStrings(m', slot) == CStrings(m, slot)
    decreases |m.slots| - slot
  {
    assert m'.slots[slot] == m.slots[slot];
    if m.slots[slot].At? {
      assert m'.bytes == m.bytes + m'.bytes[|m.bytes|..];
      CStrGrows(m.bytes, m'.bytes[|m.bytes|..], m.slots[slot].address);
      CStringsGrow(m, m', slot + 1);
    }
  }

  // ---------------------------------------------------------------------------------------------
  // Commands
  // ---------------------------------------------------------------------------------------------

  /** The strings a C reader finds. */
  datatype Strings = Strings(prog: Bytes, argv: seq<Bytes>, envp: seq<Bytes>)

  function ReadStrings(m: Memory, raw: RawExec): Option<Strings> {
    match (CStr(m.bytes, raw.prog), CStrings(m, raw.argv), CStrings(m, raw.envp))
    case (Some(prog), Some(argv), Some(envp)) => Some(Strings(prog, argv, envp))
    case _ => None
  }

  function CommandOf(s: Strings): Command {
    Command(s.prog, s.argv, ParseEntries(s.envp))
  }

  /** `to_exec`. */
  method ToExec(m: Memory, raw: RawExec) returns (c: Command)
    requires ReadStrings(m, raw).Some?
    ensures c == CommandOf(ReadStrings(m, raw).value)
  {
    var args := CollectCStrArray(m, raw.argv);
    var envs := CollectCStrArray(m, raw.envp);
    c := Command(CStr(m.bytes, raw.prog).value, args, ParseEntries(envs));
  }

  function RawOf(c: Command): (Memory, RawExec) {
    var (m1, prog) := Place(Memory([], []), c.program);
    var (m2, argv) := PlaceArray(m1, c.args);
    var (m3, envp) := PlaceArray(m2, PrintEntries(c.envs));
    (m3, RawExec(prog, argv, envp))
  }

  /** `from_exec`. */
  method FromExec(c: Command) returns (m: Memory, raw: RawExec)
    ensures (m, raw) == RawOf(c)
  {
    var (m1, prog) := Place(Memory([], []), c.program);
    var m2, argv := ToCStrArray(m1, c.args);
    var m3, envp := ToCStrArray(m2, PrintEntries(c.envs));
    return m3, RawExec(prog, argv, envp);
  }

  /** What a C reader finds of a laid-out command: everything, up to the first NUL of each string. */
  lemma LaidOut(c: Command)
    ensures var (m, raw) := RawOf(c);
      ReadStrings(m, raw) == Some(Strings(UpToNul(c.program), CutAll(c.args), CutAll(PrintEntries(c.envs))))
  {
    hide CStr, CStrings, PlaceAll;
    var (m1, prog) := Place(Memory([], []), c.program);
    var (bytes2, slots2) := PlaceAll(m1.bytes, c.args);
    var m2 := Memory(bytes2, m1.slots + slots2);
    var (bytes3, slots3) := PlaceAll(m2.bytes, PrintEntries(c.envs));
    var m3 := Memory(bytes3, m2.slots + slots3);
    PlaceAllGrows(m1.bytes, c.args);
    PlaceAllGrows(m2.bytes, PrintEntries(c.envs));
    var more := m3.bytes[|m1.bytes|..];
    assert m3.bytes == [] + c.program + [0] + more;
    CStrInside([], c.program, more, 0);
    assert c.program[0..] == c.program;
    PlacedStrings(m1.bytes, c.args, m1.slots, []);
    assert m1.slots + slots2 + [] == m2.slots;
    CStringsGrow(m2, m3, |m1.slots|);
    PlacedStrings(m2.bytes, PrintEntries(c.envs), m2.slots, []);
    assert m2.slots + slots3 + [] == m3.slots;
  }

  /** Reading a C block and laying it out again reproduces every string, byte for byte, in order. */
  lemma BlockRoundTrip(m: Memory, raw: RawExec)
    requires ReadStrings(m, raw).Some?
    ensures var (m', raw') := RawOf(CommandOf(ReadStrings(m, raw).value));
      ReadStrings(m', raw') == ReadStrings(m, raw)
  {
    var s := ReadStrings(m, raw).value;
    var c := CommandOf(s);
    LaidOut(c);
    ArrayHasNoNul(m, raw.argv);
    ArrayHasNoNul(m, raw.envp);
    hide RawOf, UpToNul, ParseEntry, PrintEntry, CStr, CStrings;
    UpToNulIsWhole(s.prog);
    assert CutAll(s.argv) == s.argv by {
      forall i | 0 <= i < |s.argv|
        ensures UpToNul(s.argv[i]) == s.argv[i]
      {
        UpToNulIsWhole(s.argv[i]);
      }
    }
    assert CutAll(PrintEntries(c.envs)) == s.envp by {
      forall i | 0 <= i < |s.envp|
        ensures UpToNul(PrintEntry(c.envs[i])) == s.envp[i]
      {
        PrintParsed(s.envp[i]);
        UpToNulIsWhole(s.envp[i]);
      }
    }
  }

  lemma {:induction false} ArrayHasNoNul(m: Memory, slot: nat)
    requires CStrings(m, slot).Some?
    ensures forall i :: 0 <= i < |CStrings(m, slot).value| ==> 0 !in CStrings(m, slot).value[i]
    decreases |m.slots| - slot
  {
    if m.slots[slot].At? {
      ArrayHasNoNul(m, slot + 1);
    }
  }

  /** No string holds a NUL and no variable name holds a `=`. */
  ghost predicate Representable(c: Command) {
    && 0 !in c.program
    && (forall i :: 0 <= i < |c.args| ==> 0 !in c.args[i])
    && (forall i :: 0 <= i < |c.envs| ==> 0 !in PrintEntry(c.envs[i]) && EQUALS !in c.envs[i].0)
  }

  /** Laying a command out and reading it again is the identity exactly on representable commands. */
  lemma CommandRoundTrip(c: Command)
    ensures var (m, raw) := RawOf(c);
      && ReadStrings(m, raw).Some?
      && (CommandOf(ReadStrings(m, raw).value) == c <==> Representable(c))
  {
    LaidOut(c);
    hide RawOf, UpToNul, ParseEntry, PrintEntry, ReadStrings;
    var printed := PrintEntries(c.envs);
    var c' := Command(UpToNul(c.program), CutAll(c.args), ParseEntries(CutAll(printed)));
    UpToNulIsWhole(c.program);
    forall i | 0 <= i < |c.args|
      ensures c'.args[i] == c.args[i] <==> 0 !in c.args[i]
    {
      UpToNulIsWhole(c.args[i]);
    }
    forall i | 0 <= i < |c.envs|
      ensures c'.envs[i] == c.envs[i] <==> 0 !in PrintEntry(c.envs[i]) && EQUALS !in c.envs[i].0
    {
      EntryRoundTrip(c.envs[i]);
    }
    if c' == c {
      assert forall i :: 0 <= i < |c.args| ==> c'.args[i] == c.args[i];
      assert forall i :: 0 <= i < |c.envs| ==> c'.envs[i] == c.envs[i];
    }
    if Representable(c) {
      assert c'.args == c.args && c'.envs == c.envs;
    }
  }

  lemma EntryRoundTrip(e: Entry)
    ensures ParseEntry(UpToNul(PrintEntry(e))) == e <==> 0 !in PrintEntry(e) && EQUALS !in e.0
  {
    hide ParseEntry, PrintEntry, UpToNul;
    UpToNulIsWhole(PrintEntry(e));
    ParsePrinted(e);
    PrintParsed(UpToNul(PrintEntry(e)));
  }

  // ---------------------------------------------------------------------------------------------
  // Byte by byte
  // ---------------------------------------------------------------------------------------------

  /** A name ends at the first equals sign, byte 61. */
  lemma EntryBytes(name: Bytes, value: Bytes)
    requires 61 !in name
    ensures ParseEntry(name + [61] + value) == (name, Some(value)) && ParseEntry(name) == (name, None)
    ensures PrintEntry((name, Some(value))) == name + [61] + value && PrintEntry((name, None)) == name
    ensures ParseEntry([65, 61, 98]) == ([65], Some([98]))
  {
    ParsePrinted((name, Some(value)));
    ParsePrinted((name, None));
    ParsePrinted(([65], Some([98])));
    assert PrintEntry(([65], Some([98]))) == [65, 61, 98];
  }

  /** A C string is the bytes up to the first zero. */
  lemma {:induction false} CStrExactly(bytes: Bytes, p: nat, s: Bytes)
    ensures CStr(bytes, p) == Some(s) <==>
      p + |s| < |bytes| && bytes[p..p + |s|] == s && 0 !in s && bytes[p + |s|] == 0
    decreases |bytes| - p
  {
    if p < |bytes| && bytes[p] != 0 {
      if s != [] {
        CStrExactly(bytes, p + 1, s[1..]);
        assert s == [s[0]] + s[1..];
        assert p + |s| <= |bytes| ==> bytes[p..p + |s|] == [bytes[p]] + bytes[p + 1..p + |s|];
      }
    } else if p < |bytes| && s != [] {
      assert p + |s| <= |bytes| ==> bytes[p..p + |s|][0] == bytes[p];
    }
  }

  /** Program, arguments and environment are read where the three addresses say, and handed on in this order. */
  lemma ReadsItsArrays(m: Memory, raw: RawExec)
    requires ReadStrings(m, raw).Some?
    ensures var s := ReadStrings(m, raw).value;
      && CStr(m.bytes, raw.prog) == Some(s.prog)
      && CStrings(m, raw.argv) == Some(s.argv) && CStrings(m, raw.envp) == Some(s.envp)
      && CommandOf(s).program == s.prog && CommandOf(s).args == s.argv && |CommandOf(s).envs| == |s.envp|
      && forall i :: 0 <= i < |s.envp| ==> CommandOf(s).envs[i] == ParseEntry(s.envp[i])
  {
    hide CStr, CStrings, ParseEntry;
  }
}
