/** The lines of `/proc/meminfo` as they are written: labels, and numbers in decimal. */
module MeminfoText {
  import opened Collections
  import opened MemInfo

  // ---------------------------------------------------------------- numbers

  function Digit(d: nat): char
    requires d < 10
  {
    "0123456789"[d]
  }

  /** A number in decimal. */
  function Decimal(n: nat): (text: string)
    ensures text != "" && forall i :: 0 <= i < |text| ==> '0' <= text[i] <= '9'
  {
    (if n < 10 then "" else Decimal(n / 10)) + [Digit(n % 10)]
  }

  function Text(n: int): string {
    if n < 0 then "-" + Decimal(-n) else Decimal(n)
  }

  predicate IsLong(n: int) {
    -0x8000_0000_0000_0000 <= n <= 0x7FFF_FFFF_FFFF_FFFF
  }

  lemma {:induction false} DigitsConcat(a: string, b: string, value: nat)
    ensures Digits(a + b, value) == match Digits(a, value) { case None => None case Some(n) => Digits(b, n) }
  {
    if a == "" {
      assert a + b == b;
    } else {
      assert (a + b)[1..] == a[1..] + b && (a + b)[0] == a[0];
      if '0' <= a[0] <= '9' {
        DigitsConcat(a[1..], b, 10 * value + (a[0] as int - '0' as int));
      }
    }
  }

  lemma {:induction false} DecimalIsRead(n: nat)
    ensures Digits(Decimal(n), 0) == Some(n)
  {
    var last := [Digit(n % 10)];
    if n >= 10 {
      DecimalIsRead(n / 10);
      DigitsConcat(Decimal(n / 10), last, 0);
    } else {
      assert "" + last == last;
    }
    assert last[1..] == "";
    assert Digits(last, n / 10) == Some(n);
  }

  lemma {:induction false} NoDigits(s: string, value: nat, i: nat)
    requires i < |s| && !('0' <= s[i] <= '9')
    ensures Digits(s, value).None?
  {
    if '0' <= s[0] <= '9' {
      NoDigits(s[1..], 10 * value + (s[0] as int - '0' as int), i - 1);
    }
  }

  /** The decimal text of a number is read as the number if a long can hold it, with a `+` in front too, and is an
      error otherwise. */
  lemma TextIsRead(n: int)
    ensures ParseLong(Text(n)) == if IsLong(n) then Some(n) else None
    ensures n >= 0 ==> ParseLong("+" + Text(n)) == ParseLong(Text(n))
  {
    var digits := Decimal(if n < 0 then -n else n);
    DecimalIsRead(if n < 0 then -n else n);
    assert ("-" + digits)[1..] == digits && ("+" + digits)[1..] == digits;
    assert digits[0] != '-' && digits[0] != '+';
    hide Digits, Decimal;
  }

  /** Anything else in a word is an error: no text at all, a sign alone, a character that is no digit. */
  lemma OtherTextIsError(s: string)
    requires s == "" || s == "-" || s == "+" || exists i :: 1 <= i < |s| && !('0' <= s[i] <= '9')
    ensures ParseLong(s) == None
  {
    if i :| 1 <= i < |s| && !('0' <= s[i] <= '9') {
      var signed := s[0] == '-' || s[0] == '+';
      if signed {
        NoDigits(s[1..], 0, i - 1);
      } else {
        NoDigits(s, 0, i);
      }
    }
    hide Digits;
  }

  // ---------------------------------------------------------------- words

  predicate NoSpace(s: string) {
    forall i :: 0 <= i < |s| ==> !IsSpace(s[i])
  }

  predicate AllSpace(s: string) {
    forall i :: 0 <= i < |s| ==> IsSpace(s[i])
  }

  /** A word, white space, another word, and the end of the line or white space and anything. */
  ghost predicate Reads(line: string, word: string, spaces: string, second: string, rest: string) {
    && line == word + spaces + second + rest
    && NoSpace(word) && spaces != "" && AllSpace(spaces) && NoSpace(second) && (rest == "" || IsSpace(rest[0]))
  }

  lemma {:induction false} SkipWordIs(word: string, rest: string)
    requires NoSpace(word) && (rest == "" || IsSpace(rest[0]))
    ensures SkipWord(word + rest) == rest && FirstWord(word + rest) == word
  {
    if word == "" {
      assert word + rest == rest;
    } else {
      assert (word + rest)[1..] == word[1..] + rest && (word + rest)[0] == word[0];
      SkipWordIs(word[1..], rest);
      assert word == [word[0]] + word[1..];
    }
  }

  lemma {:induction false} SkipSpacesIs(spaces: string, rest: string)
    requires AllSpace(spaces) && (rest == "" || !IsSpace(rest[0]))
    ensures SkipSpaces(spaces + rest) == rest
  {
    if spaces == "" {
      assert spaces + rest == rest;
    } else {
      assert (spaces + rest)[1..] == spaces[1..] + rest && (spaces + rest)[0] == spaces[0];
      SkipSpacesIs(spaces[1..], rest);
    }
  }

  /** The value of a line is that of its second word. */
  lemma ValueIsSecond(line: string, word: string, spaces: string, second: string, rest: string)
    requires Reads(line, word, spaces, second, rest) && second != ""
    ensures GetValue(line) == ParseLong(second)
  {
    var tail := second + rest;
    assert line == word + (spaces + tail);
    assert (spaces + tail)[0] == spaces[0] && tail[0] == second[0];
    SkipWordIs(word, spaces + tail);
    SkipSpacesIs(spaces, tail);
    SkipWordIs(second, rest);
    hide ParseLong, SkipWord, SkipSpaces, FirstWord;
  }

  /** A line without a second word is an error. */
  lemma NoSecondWord(word: string, spaces: string)
    requires NoSpace(word) && AllSpace(spaces)
    ensures GetValue(word + spaces) == None
  {
    SkipWordIs(word, spaces);
    SkipSpacesIs(spaces, "");
    assert spaces + "" == spaces;
    hide SkipWord, SkipSpaces;
  }

  /** The line holds this number, in decimal, as its second word. */
  ghost predicate Holds(line: string, n: int) {
    exists word, spaces, rest :: Reads(line, word, spaces, Text(n), rest)
  }

  /** A line that holds a number has it as its value, and is an error if a long cannot hold it. */
  lemma ValueIs(line: string, n: int)
    requires Holds(line, n)
    ensures GetValue(line) == if IsLong(n) then Some(n) else None
  {
    var word, spaces, rest :| Reads(line, word, spaces, Text(n), rest);
    ValueIsSecond(line, word, spaces, Text(n), rest);
    TextIsRead(n);
    hide GetValue, ParseLong, Reads;
  }

  /** For instance. */
  lemma SlabOfTwelve()
    ensures Holds("Slab: 12 kB", 12) && Holds("Slab: -12", -12) && Holds("Slab:\t0", 0)
  {
    assert Decimal(12) == Decimal(1) + ['2'] == "12";
    assert Reads("Slab: 12 kB", "Slab:", " ", Text(12), " kB");
    assert Reads("Slab: -12", "Slab:", " ", Text(-12), "");
    assert Reads("Slab:\t0", "Slab:", "\t", Text(0), "");
  }

  // ---------------------------------------------------------------- labels

  /** The labels of a field. Those of `KGSLAlloc` and `IONInUse` count in capitals too. */
  function Labels(f: Field): seq<string> {
    match f
    case KernelStack => ["KernelStack:"]
    case PageTables => ["PageTables:"]
    case KGSLAlloc => ["kgslalloc:", "kgsl_alloc:", "KgslAlloc:", "KGSL_ALLOC:", "KGSLALLOC:"]
    case IONTotal => ["IonTotal:", "ION_ALLOC:"]
    case IONInUse => ["ioninuse:", "IonInUse:", "IONINUSE:"]
    case FreeCma => ["FreeCma:", "CmaFree:"]
    case SwapTotal => ["SwapTotal:"]
    case SwapFree => ["SwapFree:"]
    case ZramInUse => ["ZramAlloc:"]
    case SwapCached => ["SwapCached:"]
    case Buffers => ["Buffers:"]
    case Shmem => ["Shmem:"]
    case Slab => ["Slab:"]
    case Total => ["MemTotal:"]
    case Free => ["MemFree:"]
    case Cached => ["Cached:"]
  }

  /** A line with a label is recognised as the line of its field. */
  lemma LabelIsRecognised(f: Field, k: nat, rest: string)
    requires k < |Labels(f)|
    ensures Recognise(Labels(f)[k] + rest) == Some(f)
  {
    var name := Labels(f)[k];
    var line := name + rest;
    assert Names(line, f) by {
      if f == KGSLAlloc || f == IONInUse {
        LowerStarts(name, rest);
        LowerLabels();
      } else {
        assert StartsWith(line, name);
      }
    }
    RecogniseIs(line);
    hide Names, Recognise;
  }

  lemma LowerStarts(name: string, rest: string)
    ensures StartsWith(LowerCase(name + rest), LowerCase(name))
  {
  }

  lemma LowerIs(s: string, low: string)
    requires |s| == |low| && forall i :: 0 <= i < |s| ==> Lower(s[i]) == low[i]
    ensures LowerCase(s) == low
  {
  }

  lemma LowerLabels()
    ensures LowerCase("kgslalloc:") == LowerCase("KgslAlloc:") == LowerCase("KGSLALLOC:") == "kgslalloc:"
    ensures LowerCase("kgsl_alloc:") == LowerCase("KGSL_ALLOC:") == "kgsl_alloc:"
    ensures LowerCase("ioninuse:") == LowerCase("IonInUse:") == LowerCase("IONINUSE:") == "ioninuse:"
  {
    hide LowerCase;
    LowerIs("kgslalloc:", "kgslalloc:");
    LowerIs("KgslAlloc:", "kgslalloc:");
    LowerIs("KGSLALLOC:", "kgslalloc:");
    LowerIs("kgsl_alloc:", "kgsl_alloc:");
    LowerIs("KGSL_ALLOC:", "kgsl_alloc:");
    LowerIs("ioninuse:", "ioninuse:");
    LowerIs("IonInUse:", "ioninuse:");
    LowerIs("IONINUSE:", "ioninuse:");
  }

  // ---------------------------------------------------------------- the scan

  /** Each line of a field holds a number that a long can hold. */
  ghost predicate WellWritten(lines: seq<string>) {
    forall j :: 0 <= j < |lines| && Recognise(lines[j]).Some? ==> exists n :: IsLong(n) && Holds(lines[j], n)
  }

  lemma WellWrittenIs(lines: seq<string>)
    requires WellWritten(lines)
    ensures forall j :: 0 <= j < |lines| && Recognise(lines[j]).Some? ==> GetValue(lines[j]).Some?
  {
    hide *;
    forall j | 0 <= j < |lines| && Recognise(lines[j]).Some? ensures GetValue(lines[j]).Some? {
      WellWrittenAt(lines, j);
    }
  }

  lemma WellWrittenAt(lines: seq<string>, j: nat)
    requires WellWritten(lines) && j < |lines| && Recognise(lines[j]).Some?
    ensures GetValue(lines[j]).Some?
  {
    hide Recognise, Holds, GetValue;
    var n :| IsLong(n) && Holds(lines[j], n);
    ValueIs(lines[j], n);
  }

  /** If the lines are well written and no field is repeated, a field is left with the number that its line was
      written with, and with 0 if there is no such line. */
  lemma ScanFinds(lines: seq<string>, f: Field)
    requires AtMostOnce(lines) && WellWritten(lines)
    ensures f in FullScan(Zeros(), lines)
    ensures forall j, n :: 0 <= j < |lines| && Recognise(lines[j]) == Some(f) && Holds(lines[j], n) ==>
      FullScan(Zeros(), lines)[f] == n
    ensures (forall j :: 0 <= j < |lines| ==> Recognise(lines[j]) != Some(f)) ==> FullScan(Zeros(), lines)[f] == 0
  {
    hide *;
    WellWrittenIs(lines);
    ZerosIs(f);
    FullScanFinds(Zeros(), lines, 0, f);
    assert lines[0..] == lines;
    forall j | 0 <= j < |lines| ensures Recognise(lines[j]) == Some(f) <==> Names(lines[j], f) {
      RecogniseIs(lines[j]);
    }
    forall j, n | 0 <= j < |lines| && Recognise(lines[j]) == Some(f) && Holds(lines[j], n)
      ensures FullScan(Zeros(), lines)[f] == n
    {
      ValueIs(lines[j], n);
      WellWrittenAt(lines, j);
    }
  }

  lemma ZerosIs(f: Field)
    ensures f in Zeros() && Zeros()[f] == 0
  {
    AllFields(f);
    hide Fields;
  }

  /** A number that no long can hold, like any other error in a value, ends the scan: what was read before it is
      kept, and the lines behind it are not read. */
  lemma {:induction false} ErrorEndsScan(values: map<Field, int>, lines: seq<string>, i: nat)
    requires i < |lines| && Recognise(lines[i]).Some? && GetValue(lines[i]).None?
    ensures FullScan(values, lines) == FullScan(values, lines[..i])
    decreases i
  {
    hide Recognise, GetValue;
    if i == 0 {
      assert lines[..0] == [];
    } else {
      assert lines[..i][0] == lines[0] && lines[..i][1..] == lines[1..][..i - 1];
      var r := Recognise(lines[0]);
      if r.None? {
        ErrorEndsScan(values, lines[1..], i - 1);
      } else if GetValue(lines[0]).Some? {
        ErrorEndsScan(values[r.value := GetValue(lines[0]).value], lines[1..], i - 1);
      }
    }
  }

  lemma TooLongEndsScan(values: map<Field, int>, lines: seq<string>, i: nat, n: int)
    requires i < |lines| && Recognise(lines[i]).Some? && Holds(lines[i], n) && !IsLong(n)
    ensures FullScan(values, lines) == FullScan(values, lines[..i])
  {
    ValueIs(lines[i], n);
    hide *;
    ErrorEndsScan(values, lines, i);
  }
}
