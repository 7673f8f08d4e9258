/** The scan of `/proc/meminfo`, which stops as soon as it has counted 16 lines. */
module MemInfo {
  import opened Collections

  datatype Field =
    | KernelStack | PageTables | KGSLAlloc | IONTotal | IONInUse | FreeCma | SwapTotal | SwapFree
    | ZramInUse | SwapCached | Buffers | Shmem | Slab | Total | Free | Cached

  const NUM_EXTRAM_MEMINFO := 16

  function Fields(): set<Field> {
    {KernelStack, PageTables, KGSLAlloc, IONTotal, IONInUse, FreeCma, SwapTotal, SwapFree} +
    {ZramInUse, SwapCached, Buffers, Shmem, Slab, Total, Free, Cached}
  }

  // ---------------------------------------------------------------- lines

  function Lower(c: char): char {
    if 'A' <= c <= 'Z' then (c as int + 32) as char else c
  }

  function LowerCase(line: string): (r: string)
    ensures |r| == |line| && forall i :: 0 <= i < |line| ==> r[i] == Lower(line[i])
  {
    seq(|line|, i requires 0 <= i < |line| => Lower(line[i]))
  }

  predicate StartsWith(line: string, prefix: string) {
    prefix <= line
  }

  /** The test for one field, by itself. */
  predicate Names(line: string, f: Field) {
    match f
    case KernelStack => StartsWith(line, "KernelStack:")
    case PageTables => StartsWith(line, "PageTables:")
    case KGSLAlloc => StartsWith(LowerCase(line), "kgslalloc:") || StartsWith(LowerCase(line), "kgsl_alloc:")
    case IONTotal => StartsWith(line, "IonTotal:") || StartsWith(line, "ION_ALLOC:")
    case IONInUse => StartsWith(LowerCase(line), "ioninuse:")
    case FreeCma => StartsWith(line, "FreeCma:") || StartsWith(line, "CmaFree:")
    case SwapTotal => StartsWith(line, "SwapTotal:")
    case SwapFree => StartsWith(line, "SwapFree:")
    case ZramInUse => StartsWith(line, "ZramAlloc:")
    case SwapCached => StartsWith(line, "SwapCached:")
    case Buffers => StartsWith(line, "Buffers:")
    case Shmem => StartsWith(line, "Shmem:")
    case Slab => StartsWith(line, "Slab:")
    case Total => StartsWith(line, "MemTotal:")
    case Free => StartsWith(line, "MemFree:")
    case Cached => StartsWith(line, "Cached:")
  }

  /** The chain of tests, in the order of the code. */
  function Recognise(line: string): Option<Field> {
    if Names(line, KernelStack) then Some(KernelStack)
    else if Names(line, PageTables) then Some(PageTables)
    else if Names(line, KGSLAlloc) then Some(KGSLAlloc)
    else if Names(line, IONTotal) then Some(IONTotal)
    else if Names(line, IONInUse) then Some(IONInUse)
    else if Names(line, FreeCma) then Some(FreeCma)
    else if Names(line, SwapTotal) then Some(SwapTotal)
    else if Names(line, SwapFree) then Some(SwapFree)
    else if Names(line, ZramInUse) then Some(ZramInUse)
    else if Names(line, SwapCached) then Some(SwapCached)
    else if Names(line, Buffers) then Some(Buffers)
    else if Names(line, Shmem) then Some(Shmem)
    else if Names(line, Slab) then Some(Slab)
    else if Names(line, Total) then Some(Total)
    else if Names(line, Free) then Some(Free)
    else if Names(line, Cached) then Some(Cached)
    else None
  }

  /** The field a line may be about, by a few of its letters in lower case. */
  function Tell(a: char, b: char, d: char, e: char): Field {
    if a == 'k' then if b == 'e' then KernelStack else KGSLAlloc
    else if a == 'p' then PageTables
    else if a == 'i' then if d == 'i' then IONInUse else IONTotal
    else if a == 'f' then FreeCma
    else if a == 'c' then if b == 'm' then FreeCma else Cached
    else if a == 's' then
      if b == 'w' then if e == 't' then SwapTotal else if e == 'f' then SwapFree else SwapCached
      else if b == 'h' then Shmem
      else Slab
    else if a == 'z' then ZramInUse
    else if a == 'b' then Buffers
    else if d == 't' then Total
    else Free
  }

  function TellLine(line: string): Field
    requires |line| >= 5
  {
    Tell(Lower(line[0]), Lower(line[1]), Lower(line[3]), Lower(line[4]))
  }

  lemma LettersTell(line: string, prefix: string)
    requires |prefix| >= 5 && (StartsWith(line, prefix) || StartsWith(LowerCase(line), prefix))
    ensures |line| >= 5
    ensures StartsWith(line, prefix) ==> TellLine(line) == TellLine(prefix)
    ensures StartsWith(LowerCase(line), prefix) ==> TellLine(line) == Tell(prefix[0], prefix[1], prefix[3], prefix[4])
  {
    var low := LowerCase(line);
    if StartsWith(line, prefix) {
      assert forall i :: 0 <= i < |prefix| ==> line[i] == prefix[i];
    }
    if StartsWith(low, prefix) {
      assert forall i :: 0 <= i < |prefix| ==> low[i] == prefix[i];
    }
  }

  lemma SwapNames(line: string, f: Field)
    requires f == SwapTotal || f == SwapFree || f == SwapCached
    requires Names(line, f)
    ensures |line| >= 5 && TellLine(line) == f
  {
    var prefix := if f == SwapTotal then "SwapTotal:" else if f == SwapFree then "SwapFree:" else "SwapCached:";
    LettersTell(line, prefix);
  }

  lemma DeviceNames(line: string, f: Field)
    requires f == KGSLAlloc || f == IONTotal || f == IONInUse || f == FreeCma
    requires Names(line, f)
    ensures |line| >= 5 && TellLine(line) == f
  {
    var prefix :=
      if f == KGSLAlloc then if StartsWith(LowerCase(line), "kgslalloc:") then "kgslalloc:" else "kgsl_alloc:"
      else if f == IONTotal then if StartsWith(line, "IonTotal:") then "IonTotal:" else "ION_ALLOC:"
      else if f == IONInUse then "ioninuse:"
      else if StartsWith(line, "FreeCma:") then "FreeCma:" else "CmaFree:";
    LettersTell(line, prefix);
  }

  lemma KernelNames(line: string, f: Field)
    requires f == KernelStack || f == PageTables || f == ZramInUse || f == Buffers
    requires Names(line, f)
    ensures |line| >= 5 && TellLine(line) == f
  {
    var prefix := match f
      case KernelStack => "KernelStack:"
      case PageTables => "PageTables:"
      case ZramInUse => "ZramAlloc:"
      case _ => "Buffers:";
    LettersTell(line, prefix);
  }

  lemma MemNames(line: string, f: Field)
    requires f == Shmem || f == Slab || f == Total || f == Free || f == Cached
    requires Names(line, f)
    ensures |line| >= 5 && TellLine(line) == f
  {
    var prefix := match f
      case Shmem => "Shmem:"
      case Slab => "Slab:"
      case Total => "MemTotal:"
      case Free => "MemFree:"
      case _ => "Cached:";
    LettersTell(line, prefix);
  }

  /** No line passes two of the tests, so the order of the chain does not matter. */
  lemma TestsAreExclusive(line: string, f: Field, g: Field)
    requires Names(line, f) && Names(line, g)
    ensures f == g
  {
    hide *;
    NamesTell(line, f);
    NamesTell(line, g);
  }

  lemma NamesTell(line: string, f: Field)
    requires Names(line, f)
    ensures |line| >= 5 && TellLine(line) == f
  {
    hide Names;
    if f == SwapTotal || f == SwapFree || f == SwapCached {
      SwapNames(line, f);
    } else if f == KGSLAlloc || f == IONTotal || f == IONInUse || f == FreeCma {
      DeviceNames(line, f);
    } else if f == KernelStack || f == PageTables || f == ZramInUse || f == Buffers {
      KernelNames(line, f);
    } else {
      MemNames(line, f);
    }
  }

  lemma AllFields(f: Field)
    ensures f in Fields()
  {
    match f {
      case _ =>
    }
  }

  lemma RecogniseIs(line: string)
    ensures forall f :: Recognise(line) == Some(f) <==> Names(line, f)
  {
    hide Names;
    forall f ensures Recognise(line) == Some(f) <==> Names(line, f) {
      AllFields(f);
      if Names(line, f) && Recognise(line).Some? {
        TestsAreExclusive(line, f, Recognise(line).value);
      }
    }
  }

  // ---------------------------------------------------------------- values

  function SkipWord(s: string): string {
    if s != "" && !IsSpace(s[0]) then SkipWord(s[1..]) else s
  }

  function SkipSpaces(s: string): string {
    if s != "" && IsSpace(s[0]) then SkipSpaces(s[1..]) else s
  }

  function FirstWord(s: string): string {
    if s != "" && !IsSpace(s[0]) then [s[0]] + FirstWord(s[1..]) else ""
  }

  function Digits(s: string, value: nat): Option<nat> {
    if s == "" then Some(value)
    else if '0' <= s[0] <= '9' then Digits(s[1..], 10 * value + (s[0] as int - '0' as int))
    else None
  }

  /** `Long.parseLong`; None where it throws. */
  function ParseLong(s: string): Option<int> {
    var signed := s != "" && (s[0] == '-' || s[0] == '+');
    var digits := if signed then s[1..] else s;
    if digits == "" then None
    else match Digits(digits, 0)
      case None => None
      case Some(n) =>
        var value := if signed && s[0] == '-' then 0 - n as int else n as int;
        if -0x8000_0000_0000_0000 <= value < 0x8000_0000_0000_0000 then Some(value) else None
  }

  /** `getValue(line)`: the second word of the line as a number; None where it throws. */
  function GetValue(line: string): Option<int> {
    ParseLong(FirstWord(SkipSpaces(SkipWord(line))))
  }

  // ---------------------------------------------------------------- the scan

  /** Every field occurs in one line at most. */
  ghost predicate AtMostOnce(lines: seq<string>) {
    forall i, j :: 0 <= i < j < |lines| && Recognise(lines[i]).Some? ==> Recognise(lines[i]) != Recognise(lines[j])
  }

  /** The fields recognised in some lines. */
  function Seen(lines: seq<string>): set<Field> {
    set i | 0 <= i < |lines| && Recognise(lines[i]).Some? :: Recognise(lines[i]).value
  }

  function Zeros(): map<Field, int> {
    map f: Field | f in Fields() :: 0
  }

  /** A scan of all lines, which only an exception ends early. */
  function FullScan(values: map<Field, int>, lines: seq<string>): map<Field, int>
    decreases |lines|
  {
    if lines == [] then values
    else match Recognise(lines[0])
      case None => FullScan(values, lines[1..])
      case Some(f) =>
        match GetValue(lines[0])
        case None => values
        case Some(v) => FullScan(values[f := v], lines[1..])
  }

  lemma ScanStep(values: map<Field, int>, lines: seq<string>, i: nat)
    requires i < |lines|
    ensures FullScan(values, lines[i..]) ==
      match Recognise(lines[i])
      case None => FullScan(values, lines[i + 1..])
      case Some(f) =>
        match GetValue(lines[i])
        case None => values
        case Some(v) => FullScan(values[f := v], lines[i + 1..])
  {
    assert lines[i..][1..] == lines[i + 1..];
  }

  lemma NotSeenAgain(lines: seq<string>, i: nat, j: nat)
    requires AtMostOnce(lines) && i <= j < |lines| && Recognise(lines[j]).Some?
    ensures Recognise(lines[j]).value !in Seen(lines[..i])
  {
    hide Recognise;
    forall k | 0 <= k < i ensures Recognise(lines[..i][k]) != Recognise(lines[j]) {
      assert lines[..i][k] == lines[k];
    }
  }

  lemma SeenStep(lines: seq<string>, i: nat)
    requires i < |lines|
    ensures Seen(lines[..i + 1]) == Seen(lines[..i]) + if Recognise(lines[i]).Some? then {Recognise(lines[i]).value}
      else {}
    ensures AtMostOnce(lines) && Recognise(lines[i]).Some? ==> Recognise(lines[i]).value !in Seen(lines[..i])
  {
    hide Recognise;
    var before, after := lines[..i], lines[..i + 1];
    forall f ensures f in Seen(after) <==> f in Seen(before) || Recognise(lines[i]) == Some(f) {
      if k :| 0 <= k < |after| && Recognise(after[k]) == Some(f) {
        if k < i { assert before[k] == after[k]; }
      }
      if f in Seen(before) {
        var k :| 0 <= k < |before| && Recognise(before[k]) == Some(f);
        assert after[k] == before[k];
      }
      if Recognise(lines[i]) == Some(f) { assert after[i] == lines[i]; }
    }
    if AtMostOnce(lines) && Recognise(lines[i]).Some? {
      NotSeenAgain(lines, i, i);
    }
  }

  /** The number of fields recognised in the first `i` lines. */
  ghost function Count(lines: seq<string>, i: nat): nat
    requires i <= |lines|
  {
    |Seen(lines[..i])|
  }

  lemma CountStep(lines: seq<string>, i: nat)
    requires i < |lines| && AtMostOnce(lines)
    ensures Count(lines, i + 1) == Count(lines, i) + if Recognise(lines[i]).Some? then 1 else 0
  {
    SeenStep(lines, i);
    hide Recognise, Seen, AtMostOnce;
    assert Seen(lines[..i]) + {} == Seen(lines[..i]);
  }

  lemma {:induction false} NothingRecognised(values: map<Field, int>, lines: seq<string>)
    requires forall i :: 0 <= i < |lines| ==> Recognise(lines[i]).None?
    ensures FullScan(values, lines) == values
    decreases |lines|
  {
    hide Recognise;
    if lines != [] {
      NothingRecognised(values, lines[1..]);
    }
  }

  /** The pigeonholes: once 16 lines were recognised, all fields were seen, and no line is left. */
  lemma NothingIsLeft(values: map<Field, int>, lines: seq<string>, i: nat)
    requires AtMostOnce(lines) && i <= |lines| && Count(lines, i) == NUM_EXTRAM_MEMINFO
    ensures FullScan(values, lines[i..]) == values
  {
    hide Recognise, FullScan;
    CountedAll(Seen(lines[..i]));
    forall j | i <= j < |lines| ensures Recognise(lines[j]).None? {
      if Recognise(lines[j]).Some? {
        NotSeenAgain(lines, i, j);
      }
    }
    NothingRecognised(values, lines[i..]);
  }

  lemma CountedAll(seen: set<Field>)
    requires |seen| == NUM_EXTRAM_MEMINFO
    ensures forall f: Field :: f in seen
  {
    hide Fields;
    forall f: Field ensures f in seen {
      FieldsButOne(f);
      if f !in seen {
        forall g | g in seen ensures g in Fields() - {f} { AllFields(g); }
        SubsetSize(seen, Fields() - {f});
      }
    }
  }

  lemma FieldsButOne(f: Field)
    ensures |Fields() - {f}| == 15
  {
    AllFields(f);
    var a := {KernelStack, PageTables, KGSLAlloc, IONTotal, IONInUse, FreeCma, SwapTotal, SwapFree};
    var b := {ZramInUse, SwapCached, Buffers, Shmem, Slab, Total, Free, Cached};
    assert |a| == 8 && |b| == 8 && a !! b;
    assert |a + b| == |a| + |b|;
  }

  lemma {:induction false} SubsetSize(a: set<Field>, b: set<Field>)
    requires a <= b
    ensures |a| <= |b|
    decreases a
  {
    if x :| x in a {
      SubsetSize(a - {x}, b - {x});
    }
  }

  /** If every value can be read, each field gets the number in its own line, and keeps its value
      without a line. */
  lemma FullScanFinds(values: map<Field, int>, lines: seq<string>, i: nat, f: Field)
    requires AtMostOnce(lines) && f in values && i <= |lines|
    requires forall j :: 0 <= j < |lines| && Recognise(lines[j]).Some? ==> GetValue(lines[j]).Some?
    ensures f in FullScan(values, lines[i..])
    ensures (forall j :: i <= j < |lines| ==> !Names(lines[j], f)) ==> FullScan(values, lines[i..])[f] == values[f]
    ensures forall j :: i <= j < |lines| && Names(lines[j], f) ==>
      GetValue(lines[j]) == Some(FullScan(values, lines[i..])[f])
    decreases |lines| - i
  {
    if i < |lines| {
      hide Names, GetValue, Recognise;
      ScanStep(values, lines, i);
      RecogniseIs(lines[i]);
      var r := Recognise(lines[i]);
      var next := if r.Some? then values[r.value := GetValue(lines[i]).value] else values;
      FullScanFinds(next, lines, i + 1, f);
      if r == Some(f) {
        forall j | i < j < |lines| ensures !Names(lines[j], f) {
          RecogniseIs(lines[j]);
          assert Recognise(lines[i]) != Recognise(lines[j]);
        }
      }
    } else {
      assert lines[i..] == [];
    }
  }

  class Statics {
    var values: map<Field, int>

    constructor ()
      ensures values == map[]
    {
      values := map[];
    }

    /** `readExtraMemInfo`. If every field occurs once at most, stopping after 16 recognised lines
        leaves what the scan of the whole file would. */
    method ReadExtraMemInfo(lines: seq<string>)
      modifies this
      ensures AtMostOnce(lines) ==> values == FullScan(Zeros(), lines)
    {
      hide Recognise, GetValue, Scanning, FullScan, Zeros, Count, AtMostOnce;
      values := Zeros();
      var count := 0;
      var i := 0;
      ScanStart(lines);
      while i < |lines| && count < NUM_EXTRAM_MEMINFO
        invariant 0 <= i <= |lines| && count <= NUM_EXTRAM_MEMINFO
        invariant Scanning(lines, i, count, values)
      {
        var line := lines[i];
        ScanningStep(lines, i, count, values);
        var field := Recognise(line);
        if field.Some? {
          var value := GetValue(line);
          if value.None? {
            return;
          }
          values := values[field.value := value.value];
          count := count + 1;
        }
        i := i + 1;
      }
      ScanEnd(lines, i, count, values);
    }
  }

  /** The loop has read `i` lines and recognised `count` of them: what is left gives the same result. */
  ghost predicate Scanning(lines: seq<string>, i: nat, count: int, values: map<Field, int>)
    requires i <= |lines|
  {
    && (AtMostOnce(lines) ==> count == Count(lines, i))
    && FullScan(Zeros(), lines) == FullScan(values, lines[i..])
  }

  lemma ScanStart(lines: seq<string>)
    ensures Scanning(lines, 0, 0, Zeros())
  {
    NothingSeen(lines);
    hide AtMostOnce, Count, FullScan;
  }

  lemma ScanningStep(lines: seq<string>, i: nat, count: int, values: map<Field, int>)
    requires i < |lines| && Scanning(lines, i, count, values)
    ensures var (r, value) := (Recognise(lines[i]), GetValue(lines[i]));
      && (r.None? ==> Scanning(lines, i + 1, count, values))
      && (r.Some? && value.None? ==> values == FullScan(Zeros(), lines))
      && (r.Some? && value.Some? ==> Scanning(lines, i + 1, count + 1, values[r.value := value.value]))
  {
    hide Recognise, GetValue, AtMostOnce, Count, FullScan;
    ScanStep(values, lines, i);
    if AtMostOnce(lines) {
      CountStep(lines, i);
    }
  }

  lemma ScanEnd(lines: seq<string>, i: nat, count: int, values: map<Field, int>)
    requires i <= |lines| && Scanning(lines, i, count, values) && (i < |lines| ==> count == NUM_EXTRAM_MEMINFO)
    ensures AtMostOnce(lines) ==> values == FullScan(Zeros(), lines)
  {
    hide AtMostOnce, Count, FullScan;
    if i == |lines| {
      NothingToScan(values, lines);
    } else if AtMostOnce(lines) {
      NothingIsLeft(values, lines, i);
    }
  }

  lemma NothingSeen(lines: seq<string>)
    ensures Count(lines, 0) == 0 && lines[0..] == lines
  {
  }

  lemma NothingToScan(values: map<Field, int>, lines: seq<string>)
    ensures FullScan(values, lines[|lines|..]) == values
  {
  }
}
