/** Merging kernel configurations: `replace_conf` rewrites the lines that mention a key, and the
    release script runs it twice, whitelist over remove list and the result over the defconfig. */
module ConfigMerge {
  import opened Collections

  // ---------------------------------------------------------------- text

  function SplitOn(s: string, separators: set<char>): (r: seq<string>)
    ensures |r| > 0
  {
    if s == "" then [""]
    else
      var rest := SplitOn(s[1..], separators);
      if s[0] in separators then [""] + rest else [[s[0]] + rest[0]] + rest[1..]
  }

  /** `re.split('=| ', item)` */
  function Tokens(item: string): seq<string> {
    SplitOn(item, {'=', ' '})
  }

  /** `line.split("=")` */
  function Fields(line: string): (r: seq<string>)
    ensures |r| > 0
  {
    SplitOn(line, {'='})
  }

  predicate Mentions(item: string, key: string) {
    key in Tokens(item)
  }

  function StripLeft(s: string): (r: string)
    ensures |r| <= |s| && (r != "" ==> !IsSpace(r[0]))
  {
    if s != "" && IsSpace(s[0]) then StripLeft(s[1..]) else s
  }

  function StripRight(s: string): (r: string)
    ensures |r| <= |s| && r == s[..|r|] && (r != "" ==> !IsSpace(r[|r| - 1]))
  {
    if s != "" && IsSpace(s[|s| - 1]) then StripRight(s[..|s| - 1]) else s
  }

  /** `s.strip()` */
  function Strip(s: string): (r: string)
    ensures r != "" ==> !IsSpace(r[0]) && !IsSpace(r[|r| - 1])
  {
    StripRight(StripLeft(s))
  }

  /** `f.readlines()`: the lines with their line ends, which the last one may lack. */
  function ReadLines(text: string): seq<string> {
    if text == "" then []
    else
      var rest := ReadLines(text[1..]);
      if text[0] == '\n' || rest == [] then [[text[0]]] + rest else [[text[0]] + rest[0]] + rest[1..]
  }

  /** `"".join(contents)` */
  function Join(contents: seq<string>): string {
    if contents == [] then "" else contents[0] + Join(contents[1..])
  }

  /** A piece of text with no line end inside. */
  predicate OneLine(line: string) {
    line != "" && '\n' !in line[..|line| - 1]
  }

  /** A line with its line end, and no other. */
  predicate Terminated(line: string) {
    OneLine(line) && line[|line| - 1] == '\n'
  }

  ghost predicate AllTerminated(lines: seq<string>) {
    forall i :: 0 <= i < |lines| ==> Terminated(lines[i])
  }

  // ---------------------------------------------------------------- one setting

  /** `contents.index(item)` */
  function IndexOf(contents: seq<string>, item: string): (loc: nat)
    requires item in contents
    ensures loc < |contents| && contents[loc] == item && item !in contents[..loc]
  {
    if contents[0] == item then 0
    else
      var loc := IndexOf(contents[1..], item);
      assert contents[..loc + 1] == [contents[0]] + contents[1..][..loc];
      loc + 1
  }

  lemma NoneBefore(contents: seq<string>, item: string, loc: nat, k: nat)
    requires loc <= |contents| && k < |contents| && contents[k] == item && item !in contents[..loc]
    ensures loc <= k
  {
    assert forall j :: 0 <= j < loc ==> contents[..loc][j] == contents[j];
  }

  function Replaced(contents: seq<string>, key: string, newString: string): seq<string> {
    seq(|contents|, i requires 0 <= i < |contents| => if Mentions(contents[i], key) then newString else contents[i])
  }

  predicate Found(contents: seq<string>, key: string) {
    exists item | item in contents :: Mentions(item, key)
  }

  function Apply(contents: seq<string>, key: string, newString: string): seq<string> {
    if Found(contents, key) then Replaced(contents, key, newString) else contents + [newString]
  }

  /** The inner loop, which changes the list it goes over and looks for the place by value: it
      replaces every line that mentions the key and no other, whatever the lines are. If an equal line
      stands further up, that one was replaced already, so both are the new string. */
  method ReplaceItems(contents: seq<string>, key: string, newString: string) returns (now: seq<string>, isFound: bool)
    ensures now == Replaced(contents, key, newString) && isFound == Found(contents, key)
    ensures !isFound ==> now == contents
  {
    now, isFound := contents, false;
    hide Mentions, Tokens;
    for k := 0 to |contents|
      invariant |now| == |contents| && now[k..] == contents[k..]
      invariant forall i :: 0 <= i < k ==> now[i] == if Mentions(contents[i], key) then newString else contents[i]
      invariant isFound <==> exists i :: 0 <= i < k && Mentions(contents[i], key)
      invariant !isFound ==> now == contents
    {
      var item := now[k];
      assert item == contents[k] by { assert now[k..][0] == contents[k..][0]; }
      if Mentions(item, key) {
        var loc := IndexOf(now, item);
        NoneBefore(now, item, loc, k);
        now := now[loc := newString];
        isFound := true;
      }
    }
  }

  // ---------------------------------------------------------------- a list of settings

  function Key(line: string): string {
    Fields(line)[0]
  }

  /** What a setting becomes. Without a `=` in it, `substring[1]` would be an IndexError. */
  function NewString(line: string, replace: bool): string {
    if replace && |Fields(line)| > 1 && Fields(line)[1] == "n" then "# " + Strip(Key(line)) + " is not set\n"
    else line + "\n"
  }

  /** The setting in a line, unless the line is empty or a comment. */
  function Setting(item: string): Option<string> {
    var line := Strip(item);
    if line == "" || line[0] == '#' then None else Some(line)
  }

  /** The settings of a file. */
  function Settings(lines: seq<string>): seq<string> {
    if lines == [] then []
    else
      var rest := Settings(lines[..|lines| - 1]);
      match Setting(lines[|lines| - 1])
      case None => rest
      case Some(line) => rest + [line]
  }

  /** Every setting in its turn. */
  function Merge(contents: seq<string>, settings: seq<string>, replace: bool): seq<string> {
    if settings == [] then contents
    else
      var line := settings[|settings| - 1];
      Apply(Merge(contents, settings[..|settings| - 1], replace), Key(line), NewString(line, replace))
  }

  /** Some setting has no `=` where one is needed. */
  predicate Malformed(settings: seq<string>, replace: bool) {
    replace && exists line | line in settings :: |Fields(line)| == 1
  }

  lemma SettingsStep(lines: seq<string>, i: nat)
    requires i < |lines|
    ensures var line := Strip(lines[i]);
      Settings(lines[..i + 1]) == if line == "" || line[0] == '#' then Settings(lines[..i])
        else Settings(lines[..i]) + [line]
  {
    assert lines[..i + 1][..i] == lines[..i];
  }

  lemma {:induction false} SettingsStay(lines: seq<string>, i: nat, line: string)
    requires i <= |lines| && line in Settings(lines[..i])
    ensures line in Settings(lines)
    decreases |lines| - i
  {
    if i == |lines| {
      assert lines[..i] == lines;
    } else {
      SettingsStep(lines, i);
      SettingsStay(lines, i + 1, line);
    }
  }

  /** One setting more. */
  lemma MergeStep(contents: seq<string>, settings: seq<string>, line: string, replace: bool)
    ensures Malformed(settings + [line], replace) <==> Malformed(settings, replace) || (replace && |Fields(line)| == 1)
    ensures var now, newString := Merge(contents, settings, replace), NewString(line, replace);
      Merge(contents, settings + [line], replace) ==
      if Found(now, Fields(line)[0]) then Replaced(now, Fields(line)[0], newString) else now + [newString]
  {
    hide Fields;
    assert (settings + [line])[..|settings|] == settings;
    assert (settings + [line])[|settings|] == line;
    assert forall s :: s in settings + [line] <==> s in settings || s == line;
  }

  lemma NewStringIs(line: string, replace: bool)
    requires replace ==> |Fields(line)| > 1
    ensures NewString(line, replace) ==
      if replace && Fields(line)[1] == "n" then "# " + Strip(Fields(line)[0]) + " is not set\n" else line + "\n"
  {
  }

  lemma MalformedStays(lines: seq<string>, line: string)
    requires line in Settings(lines) && |Fields(line)| == 1
    ensures Malformed(Settings(lines), true)
  {
    hide Fields, Settings;
  }

  /** One line of the key file more. */
  lemma ReadStep(source: seq<string>, lines: seq<string>, i: nat, replace: bool)
    requires i < |lines|
    ensures var line := Strip(lines[i]); var settings, more := Settings(lines[..i]), Settings(lines[..i + 1]);
      if line == "" || line[0] == '#' then more == settings
      else
        var now, newString := Merge(source, settings, replace), NewString(line, replace);
        && (replace && |Fields(line)| == 1 ==> Malformed(Settings(lines), replace))
        && (!(replace && |Fields(line)| == 1) ==> Malformed(more, replace) == Malformed(settings, replace))
        && Merge(source, more, replace) ==
           if Found(now, Fields(line)[0]) then Replaced(now, Fields(line)[0], newString) else now + [newString]
  {
    var line := Strip(lines[i]);
    SettingsStep(lines, i);
    hide *;
    if !(line == "" || line[0] == '#') {
      MergeStep(source, Settings(lines[..i]), line, replace);
      SettingsStay(lines, i + 1, line);
      if replace && |Fields(line)| == 1 {
        MalformedStays(lines, line);
      }
    }
  }

  lemma NoSettings(contents: seq<string>, replace: bool)
    ensures Settings([]) == [] && !Malformed([], replace) && Merge(contents, [], replace) == contents
  {
  }

  // ---------------------------------------------------------------- which lines a merge keeps

  /** One setting, for any lines: its own string is there afterwards, and the lines that do not mention
      its key. */
  lemma ApplyContains(contents: seq<string>, key: string, newString: string, item: string)
    ensures item in Apply(contents, key, newString) <==> item == newString || (item in contents && !Mentions(item, key))
  {
    hide Mentions;
    if Found(contents, key) {
      var now := Replaced(contents, key, newString);
      var k :| 0 <= k < |contents| && Mentions(contents[k], key);
      assert now[k] == newString;
      if item in contents && !Mentions(item, key) {
        var i :| 0 <= i < |contents| && contents[i] == item;
        assert now[i] == item;
      }
    }
  }

  /** So a key that some line mentioned is mentioned after another was set exactly if the new line
      mentions it, or some line did that does not mention the other. */
  lemma ApplyFindsIff(contents: seq<string>, key: string, newString: string, k: string)
    ensures Found(Apply(contents, key, newString), k) <==>
      || Mentions(newString, k)
      || exists i :: 0 <= i < |contents| && Mentions(contents[i], k) && !Mentions(contents[i], key)
  {
    hide Mentions, Apply;
    forall item ensures item in Apply(contents, key, newString) <==>
      item == newString || (item in contents && !Mentions(item, key))
    {
      ApplyContains(contents, key, newString, item);
    }
  }

  /** None of the settings from the `from`-th on has a key that the line mentions. */
  ghost predicate LeftAlone(item: string, settings: seq<string>, from: nat) {
    forall m :: from <= m < |settings| ==> !Mentions(item, Key(settings[m]))
  }

  /** The `j`-th setting is written as this line, which no later setting replaces. */
  ghost predicate LeavesLine(settings: seq<string>, replace: bool, j: nat, item: string)
    requires j < |settings|
  {
    NewString(settings[j], replace) == item && LeftAlone(item, settings, j + 1)
  }

  /** The `j`-th setting leaves the line it writes. */
  ghost predicate LeavesOwn(settings: seq<string>, replace: bool, j: nat)
    requires j < |settings|
  {
    LeavesLine(settings, replace, j, NewString(settings[j], replace))
  }

  /** A whole merge, for any lines and settings: a line is in the result exactly if it was there and no
      setting has a key it mentions, or some setting wrote it and none after that one has. */
  lemma {:induction false} MergeContains(contents: seq<string>, settings: seq<string>, replace: bool, item: string)
    ensures item in Merge(contents, settings, replace) <==>
      || (item in contents && LeftAlone(item, settings, 0))
      || exists j :: 0 <= j < |settings| && LeavesLine(settings, replace, j, item)
  {
    hide *;
    MergeUnfolds(contents, settings, replace);
    if settings == [] {
      assert LeftAlone(item, settings, 0) by { NothingLeft(item, settings); }
    } else {
      var n := |settings| - 1;
      MergeContains(contents, settings[..n], replace, item);
      ApplyContains(Merge(contents, settings[..n], replace), Key(settings[n]), NewString(settings[n], replace), item);
      LeftAloneStep(item, settings, 0);
      LeavesStep(settings, replace, item);
    }
  }

  lemma MergeUnfolds(contents: seq<string>, settings: seq<string>, replace: bool)
    ensures settings == [] ==> Merge(contents, settings, replace) == contents
    ensures settings != [] ==>
      Merge(contents, settings, replace) == Apply(Merge(contents, settings[..|settings| - 1], replace),
        Key(settings[|settings| - 1]), NewString(settings[|settings| - 1], replace))
  {
  }

  lemma NothingLeft(item: string, settings: seq<string>)
    ensures LeftAlone(item, settings, |settings|)
  {
  }

  lemma LeftAloneStep(item: string, settings: seq<string>, from: nat)
    requires from < |settings|
    ensures var n := |settings| - 1;
      LeftAlone(item, settings, from) <==> LeftAlone(item, settings[..n], from) && !Mentions(item, Key(settings[n]))
  {
    hide Mentions, Key;
  }

  /** What the last setting changes: it writes its own line and takes those that mention its key. */
  lemma LeavesStep(settings: seq<string>, replace: bool, item: string)
    requires settings != []
    ensures var n := |settings| - 1;
      (exists j :: 0 <= j < |settings| && LeavesLine(settings, replace, j, item)) <==>
        || NewString(settings[n], replace) == item
        || (!Mentions(item, Key(settings[n])) && exists j :: 0 <= j < n && LeavesLine(settings[..n], replace, j, item))
  {
    hide Mentions, Key, NewString, LeftAlone;
    var n := |settings| - 1;
    forall j | 0 <= j < n
      ensures LeavesLine(settings, replace, j, item) <==>
        LeavesLine(settings[..n], replace, j, item) && !Mentions(item, Key(settings[n]))
    {
      LeftAloneStep(item, settings, j + 1);
    }
    NothingLeft(item, settings);
    assert LeavesLine(settings, replace, n, item) <==> NewString(settings[n], replace) == item;
  }

  /** Which keys a merged file mentions, for any lines and settings. */
  lemma MergeFindsIff(contents: seq<string>, settings: seq<string>, replace: bool, k: string)
    ensures Found(Merge(contents, settings, replace), k) <==>
      || (exists i :: 0 <= i < |contents| && Mentions(contents[i], k) && LeftAlone(contents[i], settings, 0))
      || (exists j ::
            0 <= j < |settings| && LeavesOwn(settings, replace, j) && Mentions(NewString(settings[j], replace), k))
  {
    hide Mentions, Key, NewString, Merge, LeftAlone;
    forall item ensures item in Merge(contents, settings, replace) <==>
      || (item in contents && LeftAlone(item, settings, 0))
      || exists j :: 0 <= j < |settings| && LeavesLine(settings, replace, j, item)
    {
      MergeContains(contents, settings, replace, item);
    }
  }

  /** Exactly when a setting is lost: a later setting has a key that its line mentions, and neither that
      one nor any after it writes the same line. */
  lemma SettingIsLostIff(contents: seq<string>, settings: seq<string>, replace: bool, j: nat)
    requires j < |settings|
    ensures var item := NewString(settings[j], replace);
      item !in Merge(contents, settings, replace) <==>
        exists m :: j < m < |settings| && LosesLine(settings, replace, m, item)
  {
    var item := NewString(settings[j], replace);
    MergeContains(contents, settings, replace, item);
    hide Merge, NewString, Key, Mentions;
    if !(exists m :: j < m < |settings| && LosesLine(settings, replace, m, item)) {
      var last := LastWriter(settings, replace, j, item);
      forall m | last < m < |settings| ensures !Mentions(item, Key(settings[m])) {
        assert LosesLine(settings, replace, m, item) <==> Mentions(item, Key(settings[m]));
      }
      assert LeavesLine(settings, replace, last, item);
    }
  }

  ghost predicate LosesLine(settings: seq<string>, replace: bool, m: nat, item: string)
    requires m < |settings|
  {
    Mentions(item, Key(settings[m])) && forall n :: m <= n < |settings| ==> NewString(settings[n], replace) != item
  }

  lemma {:induction false} LastWriter(settings: seq<string>, replace: bool, j: nat, item: string) returns (last: nat)
    requires j < |settings| && NewString(settings[j], replace) == item
    ensures j <= last < |settings| && NewString(settings[last], replace) == item
    ensures forall n :: last < n < |settings| ==> NewString(settings[n], replace) != item
    decreases |settings| - j
  {
    hide NewString;
    if n :| j < n < |settings| && NewString(settings[n], replace) == item {
      last := LastWriter(settings, replace, n, item);
    } else {
      last := j;
    }
  }

  /** No setting has a key that the line mentions. */
  ghost predicate Spared(item: string, settings: seq<string>) {
    forall line :: line in settings ==> !Mentions(item, Key(line))
  }

  /** A merge loses no place: behind the lines of the file it only adds some. A spared line stays as it was,
      and every other line is a setting that was written. */
  lemma {:induction false} MergedLine(lines: seq<string>, settings: seq<string>, replace: bool, i: nat)
    requires i < |Merge(lines, settings, replace)|
    ensures |lines| <= |Merge(lines, settings, replace)|
    ensures var item := Merge(lines, settings, replace)[i];
      if i < |lines| && Spared(lines[i], settings) then item == lines[i]
      else exists line :: line in settings && item == NewString(line, replace)
    decreases |settings|
  {
    if settings != [] {
      var n := |settings| - 1;
      var before, line := settings[..n], settings[n];
      var now := Merge(lines, before, replace);
      MergeUnfolds(lines, settings, replace);
      MergedLonger(lines, before, replace);
      ApplyAt(now, Key(line), NewString(line, replace), i);
      assert forall l :: l in settings <==> l in before || l == line by { assert settings == before + [line]; }
      hide Mentions, Key, NewString, Merge, Apply;
      if i < |now| {
        MergedLine(lines, before, replace, i);
      }
    } else {
      assert Merge(lines, settings, replace) == lines;
    }
  }

  lemma {:induction false} MergedLonger(lines: seq<string>, settings: seq<string>, replace: bool)
    ensures |lines| <= |Merge(lines, settings, replace)|
    decreases |settings|
  {
    hide *;
    MergeUnfolds(lines, settings, replace);
    if settings != [] {
      var n := |settings| - 1;
      MergedLonger(lines, settings[..n], replace);
      ApplyLonger(Merge(lines, settings[..n], replace), Key(settings[n]), NewString(settings[n], replace));
    }
  }

  lemma ApplyLonger(contents: seq<string>, key: string, newString: string)
    ensures |contents| <= |Apply(contents, key, newString)|
  {
  }

  lemma ApplyAt(contents: seq<string>, key: string, newString: string, i: nat)
    requires i < |Apply(contents, key, newString)|
    ensures Apply(contents, key, newString)[i] ==
      if i < |contents| && !Mentions(contents[i], key) then contents[i] else newString
  {
    hide Mentions;
    if i < |contents| && Mentions(contents[i], key) {
      FoundAt(contents, i, key);
    }
  }

  lemma FoundAt(contents: seq<string>, i: nat, key: string)
    requires i < |contents| && Mentions(contents[i], key)
    ensures Found(contents, key)
  {
    hide Mentions;
  }

  /** Lines that mention none of the keys set stay where they are, as they are. */
  lemma OtherLinesStay(contents: seq<string>, settings: seq<string>, replace: bool, i: nat)
    requires i < |contents| && Spared(contents[i], settings)
    ensures |contents| <= |Merge(contents, settings, replace)| && Merge(contents, settings, replace)[i] == contents[i]
  {
    MergedLonger(contents, settings, replace);
    MergedLine(contents, settings, replace, i);
  }

  // ---------------------------------------------------------------- the last setting of a key

  /** The last setting of a key. */
  function Last(settings: seq<string>, key: string): Option<string> {
    if settings == [] then None
    else if Key(settings[|settings| - 1]) == key then Some(settings[|settings| - 1])
    else Last(settings[..|settings| - 1], key)
  }

  function LastString(settings: seq<string>, key: string, replace: bool): string {
    match Last(settings, key)
    case Some(line) => NewString(line, replace)
    case None => ""
  }

  lemma {:induction false} LastIn(settings: seq<string>, key: string)
    ensures Last(settings, key).Some? <==> exists line :: line in settings && Key(line) == key
    ensures Last(settings, key).Some? ==> Last(settings, key).value in settings && Key(Last(settings, key).value) == key
  {
    hide Key;
    if settings != [] {
      var n := |settings| - 1;
      LastIn(settings[..n], key);
      assert settings == settings[..n] + [settings[n]];
      assert settings[n] in settings;
    }
  }

  lemma {:induction false} LastAt(settings: seq<string>, key: string) returns (m: nat)
    requires Last(settings, key).Some?
    ensures m < |settings| && Last(settings, key) == Some(settings[m]) && Key(settings[m]) == key
    ensures forall j :: m < j < |settings| ==> Key(settings[j]) != key
  {
    hide Key;
    m := |settings| - 1;
    if Key(settings[m]) != key {
      m := LastAt(settings[..m], key);
    }
  }

  /** The lines of a file that mention the key, and there are some, are all this one. */
  ghost predicate Says(lines: seq<string>, key: string, w: string) {
    Found(lines, key) && forall item :: item in lines && Mentions(item, key) ==> item == w
  }

  ghost predicate IsLast(settings: seq<string>, m: nat, key: string)
    requires m < |settings|
  {
    Key(settings[m]) == key && forall j :: m < j < |settings| ==> Key(settings[j]) != key
  }

  /** The line of the `m`-th setting is left, by itself or written again, and no later setting leaves another
      line that mentions its key. */
  ghost predicate Wins(settings: seq<string>, replace: bool, m: nat)
    requires m < |settings|
  {
    var key, w := Key(settings[m]), NewString(settings[m], replace);
    && (exists j :: m <= j < |settings| && Mentions(w, key) && LeavesLine(settings, replace, j, w))
    && (forall j :: m < j < |settings| && Rival(settings, replace, m, j) ==> NewString(settings[j], replace) == w)
  }

  ghost predicate LastWins(settings: seq<string>, replace: bool, key: string) {
    exists m :: 0 <= m < |settings| && IsLast(settings, m, key) && Wins(settings, replace, m)
  }

  /** Exactly when the last setting of a key is all that the merged file says of the key. What the file said
      before does not matter. */
  lemma LastSettingWinsIff(contents: seq<string>, settings: seq<string>, replace: bool, m: nat)
    requires m < |settings| && IsLast(settings, m, Key(settings[m]))
    ensures Says(Merge(contents, settings, replace), Key(settings[m]), NewString(settings[m], replace))
      <==> Wins(settings, replace, m)
  {
    var merged, key, w := Merge(contents, settings, replace), Key(settings[m]), NewString(settings[m], replace);
    hide Merge, NewString, Key, Mentions, LeftAlone, LeavesLine;
    forall item ensures item in merged && Mentions(item, key) <==> Leaver(settings, replace, m, item) {
      MentionsAfter(contents, settings, replace, m, item);
    }
    LeaverIs(settings, replace, m);
    RivalsAre(settings, replace, m);
    hide Leaver, Rival;
  }

  /** The `m`-th setting or a later one leaves this line, which mentions the key of the `m`-th. */
  ghost predicate Leaver(settings: seq<string>, replace: bool, m: nat, item: string)
    requires m < |settings|
  {
    exists j :: m <= j < |settings| && Mentions(item, Key(settings[m])) && LeavesLine(settings, replace, j, item)
  }

  lemma LeaverIs(settings: seq<string>, replace: bool, m: nat)
    requires m < |settings|
    ensures var w := NewString(settings[m], replace); Leaver(settings, replace, m, w) <==>
      exists j :: m <= j < |settings| && Mentions(w, Key(settings[m])) && LeavesLine(settings, replace, j, w)
  {
    hide NewString, Key, Mentions, LeavesLine;
  }

  lemma RivalsAre(settings: seq<string>, replace: bool, m: nat)
    requires m < |settings|
    ensures var w := NewString(settings[m], replace);
      (forall item :: Leaver(settings, replace, m, item) ==> item == w) <==>
      (forall j :: m < j < |settings| && Rival(settings, replace, m, j) ==> NewString(settings[j], replace) == w)
  {
    var w := NewString(settings[m], replace);
    assert forall j, item {:trigger LeavesLine(settings, replace, j, item)} ::
      0 <= j < |settings| && LeavesLine(settings, replace, j, item) ==> NewString(settings[j], replace) == item;
    hide NewString, Key, Mentions, LeavesLine;
    if forall item :: Leaver(settings, replace, m, item) ==> item == w {
      forall j | m < j < |settings| && Rival(settings, replace, m, j) ensures NewString(settings[j], replace) == w {
        assert Leaver(settings, replace, m, NewString(settings[j], replace));
      }
    }
    if forall j :: m < j < |settings| && Rival(settings, replace, m, j) ==> NewString(settings[j], replace) == w {
      forall item | Leaver(settings, replace, m, item) ensures item == w {
        var j :| m <= j < |settings| && Mentions(item, Key(settings[m])) && LeavesLine(settings, replace, j, item);
        assert j > m ==> Rival(settings, replace, m, j);
      }
    }
  }

  /** A later setting leaves a line that mentions the key of the `m`-th. */
  ghost predicate Rival(settings: seq<string>, replace: bool, m: nat, j: nat)
    requires m < |settings| && j < |settings|
  {
    Mentions(NewString(settings[j], replace), Key(settings[m])) && LeavesOwn(settings, replace, j)
  }

  /** Lines that mention a key, after its last setting: only that one, or a later one, wrote them. */
  lemma MentionsAfter(contents: seq<string>, settings: seq<string>, replace: bool, m: nat, item: string)
    requires m < |settings|
    ensures item in Merge(contents, settings, replace) && Mentions(item, Key(settings[m])) <==>
      Leaver(settings, replace, m, item)
  {
    MergeContains(contents, settings, replace, item);
    hide Merge, NewString, Key, Mentions;
    if Mentions(item, Key(settings[m])) {
      assert forall from: nat {:trigger LeftAlone(item, settings, from)} :: LeftAlone(item, settings, from) ==>
        from > m;
      if item in Merge(contents, settings, replace) {
        var j :| 0 <= j < |settings| && LeavesLine(settings, replace, j, item);
      }
    }
  }

  // ---------------------------------------------------------------- what a merge comes to

  /** The line mentions at most one of the keys. */
  ghost predicate Clean(item: string, keys: set<string>) {
    forall k, l :: k in keys && l in keys && Mentions(item, k) && Mentions(item, l) ==> k == l
  }

  /** A setting of one of the keys that becomes a line which mentions this key and no other. */
  ghost predicate Sound(line: string, replace: bool, keys: set<string>) {
    Key(line) in keys && Mentions(NewString(line, replace), Key(line)) && Clean(NewString(line, replace), keys)
  }

  ghost predicate AllSound(settings: seq<string>, replace: bool, keys: set<string>) {
    forall line :: line in settings ==> Sound(line, replace, keys)
  }

  /** The key of the first setting that finds the line. */
  function Owner(item: string, settings: seq<string>): Option<string> {
    if settings == [] then None
    else
      var before, key := Owner(item, settings[..|settings| - 1]), Key(settings[|settings| - 1]);
      if before.Some? then before else if Mentions(item, key) then Some(key) else None
  }

  predicate Owned(contents: seq<string>, settings: seq<string>, key: string) {
    exists item | item in contents :: Owner(item, settings) == Some(key)
  }

  /** Once a setting has found a line, the line is the last setting of that setting's key. */
  function Override(item: string, settings: seq<string>, replace: bool): string {
    match Owner(item, settings)
    case None => item
    case Some(key) => LastString(settings, key, replace)
  }

  function Overridden(contents: seq<string>, settings: seq<string>, replace: bool): seq<string> {
    seq(|contents|, i requires 0 <= i < |contents| => Override(contents[i], settings, replace))
  }

  /** The keys that find no line, in the order they are first set. */
  function NewKeys(contents: seq<string>, settings: seq<string>): seq<string> {
    if settings == [] then []
    else
      var key, before := Key(settings[|settings| - 1]), NewKeys(contents, settings[..|settings| - 1]);
      if key in before || Owned(contents, settings, key) then before else before + [key]
  }

  function Added(contents: seq<string>, settings: seq<string>, replace: bool): seq<string> {
    var keys := NewKeys(contents, settings);
    seq(|keys|, i requires 0 <= i < |keys| => LastString(settings, keys[i], replace))
  }

  lemma AddedAre(contents: seq<string>, settings: seq<string>, replace: bool)
    ensures |Overridden(contents, settings, replace)| == |contents|
    ensures |Added(contents, settings, replace)| == |NewKeys(contents, settings)|
    ensures forall i :: 0 <= i < |contents| ==>
      Overridden(contents, settings, replace)[i] == Override(contents[i], settings, replace)
    ensures forall i :: 0 <= i < |NewKeys(contents, settings)| ==>
      Added(contents, settings, replace)[i] == LastString(settings, NewKeys(contents, settings)[i], replace)
  {
  }

  lemma OwnerStep(item: string, settings: seq<string>)
    requires settings != []
    ensures var before, key := Owner(item, settings[..|settings| - 1]), Key(settings[|settings| - 1]);
      Owner(item, settings) == if before.Some? then before else if Mentions(item, key) then Some(key) else None
  {
  }

  lemma {:induction false} OwnerIs(item: string, settings: seq<string>)
    ensures Owner(item, settings).None? <==> Spared(item, settings)
    ensures Owner(item, settings).Some? ==>
      Mentions(item, Owner(item, settings).value) && Last(settings, Owner(item, settings).value).Some?
  {
    hide Mentions, Key;
    if settings != [] {
      var n := |settings| - 1;
      OwnerIs(item, settings[..n]);
      assert settings == settings[..n] + [settings[n]];
    }
  }

  lemma OwnedAt(contents: seq<string>, settings: seq<string>, key: string)
    ensures Owned(contents, settings, key) <==>
      exists i :: 0 <= i < |contents| && Owner(contents[i], settings) == Some(key)
  {
    hide Owner;
  }

  /** The lines found by one key stay the same, once it has been set. */
  lemma OwnedStep(contents: seq<string>, settings: seq<string>, key: string)
    requires settings != [] && (Last(settings[..|settings| - 1], key).Some? || key != Key(settings[|settings| - 1]))
    ensures Owned(contents, settings, key) <==> Owned(contents, settings[..|settings| - 1], key)
  {
    var before := settings[..|settings| - 1];
    LastIn(before, key);
    forall item ensures Owner(item, settings) == Some(key) <==> Owner(item, before) == Some(key) {
      OwnerStep(item, settings);
      OwnerIs(item, before);
    }
    hide Owner, Mentions, Key, Last;
  }

  /** What an overridden line mentions. */
  lemma OverrideMentions(item: string, settings: seq<string>, replace: bool, keys: set<string>, k: string)
    requires AllSound(settings, replace, keys) && k in keys
    ensures Mentions(Override(item, settings, replace), k) <==>
      if Owner(item, settings).Some? then Owner(item, settings) == Some(k) else Mentions(item, k)
  {
    OwnerIs(item, settings);
    hide Mentions, NewString, Key, Owner, Last;
    if Owner(item, settings).Some? {
      var key := Owner(item, settings).value;
      LastIn(settings, key);
      assert Sound(Last(settings, key).value, replace, keys);
    }
  }

  lemma {:induction false} NewKeysAre(contents: seq<string>, settings: seq<string>)
    ensures forall key :: key in NewKeys(contents, settings) <==>
      Last(settings, key).Some? && !Owned(contents, settings, key)
    ensures Distinct(NewKeys(contents, settings))
  {
    if settings != [] {
      var before, k := settings[..|settings| - 1], Key(settings[|settings| - 1]);
      var known := NewKeys(contents, before);
      NewKeysAre(contents, before);
      hide Key, Owned, Distinct;
      forall key ensures key in NewKeys(contents, settings) <==>
        Last(settings, key).Some? && !Owned(contents, settings, key)
      {
        if key != k || Last(before, key).Some? {
          OwnedStep(contents, settings, key);
        }
      }
      if k !in known { OneMoreDifferent(known, k); }
    }
  }

  lemma OneMoreDifferent(s: seq<string>, x: string)
    requires Distinct(s) && x !in s
    ensures Distinct(s + [x])
  {
  }

  /** The keys of a merged file: what is overridden, and what is added. */
  lemma ClosedFormFound(contents: seq<string>, settings: seq<string>, replace: bool, keys: set<string>, k: string)
    requires AllSound(settings, replace, keys) && k in keys
    ensures var added, newKeys := Added(contents, settings, replace), NewKeys(contents, settings);
      |added| == |newKeys| && forall i :: 0 <= i < |added| ==> (Mentions(added[i], k) <==> newKeys[i] == k)
  {
    var added, newKeys := Added(contents, settings, replace), NewKeys(contents, settings);
    NewKeysAre(contents, settings);
    AddedAre(contents, settings, replace);
    hide Mentions, NewString, Key, NewKeys, Owned, Last;
    forall i | 0 <= i < |added| ensures Mentions(added[i], k) <==> newKeys[i] == k {
      assert newKeys[i] in newKeys;
      LastIn(settings, newKeys[i]);
      assert Sound(Last(settings, newKeys[i]).value, replace, keys);
    }
  }

  lemma FoundIn(a: seq<string>, b: seq<string>, k: string)
    ensures Found(a + b, k) <==> Found(a, k) || Found(b, k)
    ensures Found(a, k) <==> exists i :: 0 <= i < |a| && Mentions(a[i], k)
  {
    hide Mentions;
    assert forall x :: x in a + b <==> x in a || x in b;
  }

  /** Setting by setting, a merge of any lines comes to this: a line becomes the last setting of the first key
      that finds it, and the keys that find no line are put behind, in the order they are first set. */
  lemma {:induction false} MergeIs(contents: seq<string>, settings: seq<string>, replace: bool, keys: set<string>)
    requires AllSound(settings, replace, keys)
    ensures Merge(contents, settings, replace)
      == Overridden(contents, settings, replace) + Added(contents, settings, replace)
  {
    if settings == [] {
      assert Overridden(contents, settings, replace) == contents;
      assert Added(contents, settings, replace) == [];
    } else {
      var n := |settings| - 1;
      MergeIs(contents, settings[..n], replace, keys);
      assert Sound(settings[n], replace, keys);
      ClosedFormStep(contents, settings, replace, keys);
    }
  }

  lemma OverrideStep(contents: seq<string>, settings: seq<string>, replace: bool, keys: set<string>)
    requires settings != [] && AllSound(settings, replace, keys)
    ensures var before, line := settings[..|settings| - 1], settings[|settings| - 1];
      Overridden(contents, settings, replace)
        == Replaced(Overridden(contents, before, replace), Key(line), NewString(line, replace))
  {
    var before, line := settings[..|settings| - 1], settings[|settings| - 1];
    var a := Overridden(contents, before, replace);
    assert Sound(line, replace, keys);
    ReplacedAre(a, Key(line), NewString(line, replace));
    AddedAre(contents, before, replace);
    AddedAre(contents, settings, replace);
    forall i | 0 <= i < |contents|
      ensures Override(contents[i], settings, replace) == if Mentions(a[i], Key(line)) then NewString(line, replace)
        else a[i]
    {
      OverrideOne(contents[i], settings, replace, keys);
    }
    hide *;
    assert Overridden(contents, settings, replace) == Replaced(a, Key(line), NewString(line, replace));
  }

  lemma OverrideOne(item: string, settings: seq<string>, replace: bool, keys: set<string>)
    requires settings != [] && AllSound(settings, replace, keys)
    ensures var before, line := settings[..|settings| - 1], settings[|settings| - 1];
      var was := Override(item, before, replace);
      Override(item, settings, replace) == if Mentions(was, Key(line)) then NewString(line, replace) else was
  {
    var before, line := settings[..|settings| - 1], settings[|settings| - 1];
    assert Sound(line, replace, keys);
    OverrideMentions(item, before, replace, keys, Key(line));
    OwnerStep(item, settings);
    hide Owner, Mentions, Key, NewString, LastString;
    if Owner(item, settings).Some? {
      LastStringStep(settings, Owner(item, settings).value, replace);
    }
  }

  lemma AddedStep(contents: seq<string>, settings: seq<string>, replace: bool, keys: set<string>)
    requires settings != [] && AllSound(settings, replace, keys)
    ensures var before, line := settings[..|settings| - 1], settings[|settings| - 1];
      Added(contents, settings, replace)
        == Replaced(Added(contents, before, replace), Key(line), NewString(line, replace))
        + if Key(line) in NewKeys(contents, before) || Owned(contents, settings, Key(line)) then []
          else [NewString(line, replace)]
  {
    var before, line := settings[..|settings| - 1], settings[|settings| - 1];
    var k, s := Key(line), NewString(line, replace);
    var known, more := NewKeys(contents, before), NewKeys(contents, settings);
    assert Sound(line, replace, keys);
    ClosedFormFound(contents, before, replace, keys, k);
    AddedAre(contents, before, replace);
    AddedAre(contents, settings, replace);
    NewKeysAre(contents, before);
    assert more == if k in known || Owned(contents, settings, k) then known else known + [k];
    forall i | 0 <= i < |more|
      ensures LastString(settings, more[i], replace) == if more[i] == k then s else LastString(before, more[i], replace)
    {
      LastStringStep(settings, more[i], replace);
    }
    hide *;
    var parts :=
      Replaced(Added(contents, before, replace), k, s) + if k in known || Owned(contents, settings, k) then [] else [s];
    ReplacedAre(Added(contents, before, replace), k, s);
    assert |parts| == |Added(contents, settings, replace)|;
    assert forall i :: 0 <= i < |parts| ==> parts[i] == Added(contents, settings, replace)[i];
  }

  lemma LastStringStep(settings: seq<string>, key: string, replace: bool)
    requires settings != []
    ensures LastString(settings, key, replace) ==
      if key == Key(settings[|settings| - 1]) then NewString(settings[|settings| - 1], replace)
      else LastString(settings[..|settings| - 1], key, replace)
  {
    hide Key, NewString;
  }

  lemma ReplacedAre(contents: seq<string>, key: string, newString: string)
    ensures |Replaced(contents, key, newString)| == |contents|
    ensures forall i :: 0 <= i < |contents| ==>
      Replaced(contents, key, newString)[i] == if Mentions(contents[i], key) then newString else contents[i]
  {
    hide Mentions;
  }

  lemma ReplacedParts(a: seq<string>, b: seq<string>, key: string, newString: string)
    ensures Replaced(a + b, key, newString) == Replaced(a, key, newString) + Replaced(b, key, newString)
    ensures !Found(a, key) ==> Replaced(a, key, newString) == a
  {
    hide Mentions;
    if !Found(a, key) {
      forall i | 0 <= i < |a| ensures !Mentions(a[i], key) {
        assert a[i] in a;
      }
    }
  }

  lemma ClosedFormStep(contents: seq<string>, settings: seq<string>, replace: bool, keys: set<string>)
    requires settings != [] && AllSound(settings, replace, keys)
    ensures var before, line := settings[..|settings| - 1], settings[|settings| - 1];
      var were := Overridden(contents, before, replace) + Added(contents, before, replace);
      Apply(were, Key(line), NewString(line, replace))
      == Overridden(contents, settings, replace) + Added(contents, settings, replace)
  {
    var before, line := settings[..|settings| - 1], settings[|settings| - 1];
    var k, s := Key(line), NewString(line, replace);
    var a, b := Overridden(contents, before, replace), Added(contents, before, replace);
    MergedFound(contents, settings, replace, keys);
    OverrideStep(contents, settings, replace, keys);
    AddedStep(contents, settings, replace, keys);
    ReplacedParts(a, b, k, s);
    ReplacedParts(b, [], k, s);
    FoundIn(a, b, k);
    hide Mentions, Key, NewString, Overridden, Added, Found, Replaced, NewKeys, Owned, AllSound;
    if !Found(a + b, k) {
      assert a + b + [s] == a + (b + [s]);
    } else {
      assert Replaced(b, k, s) + [] == Replaced(b, k, s);
    }
  }

  lemma MergedFound(contents: seq<string>, settings: seq<string>, replace: bool, keys: set<string>)
    requires settings != [] && AllSound(settings, replace, keys)
    ensures var before, key := settings[..|settings| - 1], Key(settings[|settings| - 1]);
      Found(Overridden(contents, before, replace) + Added(contents, before, replace), key)
      <==> Owned(contents, settings, key) || key in NewKeys(contents, before)
  {
    var before, k := settings[..|settings| - 1], Key(settings[|settings| - 1]);
    var a, b := Overridden(contents, before, replace), Added(contents, before, replace);
    assert Sound(settings[|settings| - 1], replace, keys);
    ClosedFormFound(contents, before, replace, keys, k);
    AddedAre(contents, before, replace);
    FoundIn(a, b, k);
    FoundIn(b, [], k);
    OwnedAt(contents, settings, k);
    forall i | 0 <= i < |contents| ensures Mentions(a[i], k) <==> Owner(contents[i], settings) == Some(k) {
      OverrideMentions(contents[i], before, replace, keys, k);
      OwnerStep(contents[i], settings);
    }
    hide *;
  }

  /** If the settings are sound, every key that is set is in the merged file, and all lines that mention it
      are its last setting, whatever the file was before. */
  lemma LastSettingWins(contents: seq<string>, settings: seq<string>, replace: bool, keys: set<string>, key: string)
    requires AllSound(settings, replace, keys) && Last(settings, key).Some?
    ensures var merged := Merge(contents, settings, replace);
      && Found(merged, key)
      && (forall i :: 0 <= i < |merged| && Mentions(merged[i], key) ==> merged[i] == LastString(settings, key, replace))
  {
    var m := SoundWins(settings, replace, keys, key);
    LastSettingWinsIff(contents, settings, replace, m);
    assert LastString(settings, key, replace) == NewString(settings[m], replace);
    hide Mentions, NewString, Key, Merge, Found, AllSound, Wins, LastString;
  }

  /** The last of sound settings wins. */
  lemma SoundWins(settings: seq<string>, replace: bool, keys: set<string>, key: string) returns (m: nat)
    requires AllSound(settings, replace, keys) && Last(settings, key).Some?
    ensures m < |settings| && Last(settings, key) == Some(settings[m]) && IsLast(settings, m, key)
    ensures Wins(settings, replace, m) && LastWins(settings, replace, key)
  {
    m := LastAt(settings, key);
    forall j | m <= j < |settings| ensures Sound(settings[j], replace, keys) {
    }
    hide Mentions, NewString, Key, AllSound;
    assert LeavesLine(settings, replace, m, NewString(settings[m], replace));
    forall j | m < j < |settings| ensures !Rival(settings, replace, m, j) {
    }
  }

  /** Merging the same settings once more changes nothing. */
  lemma MergeIsIdempotent(contents: seq<string>, settings: seq<string>, replace: bool, keys: set<string>)
    requires AllSound(settings, replace, keys)
    ensures var merged := Merge(contents, settings, replace); Merge(merged, settings, replace) == merged
  {
    var merged := Merge(contents, settings, replace);
    MergeIs(merged, settings, replace, keys);
    AddedAre(merged, settings, replace);
    NewKeysAre(merged, settings);
    forall i | 0 <= i < |merged| ensures Override(merged[i], settings, replace) == merged[i] {
      OwnerIs(merged[i], settings);
      if Owner(merged[i], settings).Some? {
        LastSettingWins(contents, settings, replace, keys, Owner(merged[i], settings).value);
      }
    }
    if NewKeys(merged, settings) != [] {
      var key := NewKeys(merged, settings)[0];
      assert key in NewKeys(merged, settings);
      KeyIsOwned(contents, settings, replace, keys, key);
    }
    hide *;
    assert Overridden(merged, settings, replace) == merged;
  }

  lemma KeyIsOwned(contents: seq<string>, settings: seq<string>, replace: bool, keys: set<string>, key: string)
    requires AllSound(settings, replace, keys) && Last(settings, key).Some?
    ensures Owned(Merge(contents, settings, replace), settings, key)
  {
    var merged := Merge(contents, settings, replace);
    LastSettingWins(contents, settings, replace, keys, key);
    LastIn(settings, key);
    var i :| 0 <= i < |merged| && Mentions(merged[i], key);
    OwnerIs(merged[i], settings);
    assert Sound(Last(settings, key).value, replace, keys);
    var owner := Owner(merged[i], settings);
    assert owner.Some?;
    LastIn(settings, owner.value);
    assert Sound(Last(settings, owner.value).value, replace, keys);
    hide Mentions, NewString, Key, Merge, Owner, Last;
  }

  // ---------------------------------------------------------------- two stages

  ghost predicate SetsKey(item: string, key: string) {
    Setting(item).Some? && Key(Setting(item).value) == key
  }

  lemma {:induction false} SettingAt(lines: seq<string>, line: string) returns (i: nat)
    requires line in Settings(lines)
    ensures i < |lines| && Setting(lines[i]) == Some(line)
  {
    hide Setting;
    i := |lines| - 1;
    if Setting(lines[i]) != Some(line) {
      i := SettingAt(lines[..i], line);
    }
  }

  lemma {:induction false} SettingIn(lines: seq<string>, i: nat)
    requires i < |lines| && Setting(lines[i]).Some?
    ensures Setting(lines[i]).value in Settings(lines)
  {
    hide Setting;
    if i < |lines| - 1 {
      SettingIn(lines[..|lines| - 1], i);
    }
  }

  lemma SettingsAre(lines: seq<string>)
    ensures forall line :: line in Settings(lines) ==> exists i :: 0 <= i < |lines| && Setting(lines[i]) == Some(line)
    ensures forall i :: 0 <= i < |lines| && Setting(lines[i]).Some? ==> Setting(lines[i]).value in Settings(lines)
  {
    hide Setting, Settings;
    forall line | line in Settings(lines) ensures exists i :: 0 <= i < |lines| && Setting(lines[i]) == Some(line) {
      var i := SettingAt(lines, line);
    }
    forall i | 0 <= i < |lines| && Setting(lines[i]).Some? ensures Setting(lines[i]).value in Settings(lines) {
      SettingIn(lines, i);
    }
  }

  /** A setting that was written unchanged is read back. */
  lemma WrittenIsRead(item: string)
    requires Setting(item).Some?
    ensures Setting(NewString(Setting(item).value, false)) == Setting(item)
  {
    var line := Setting(item).value;
    var long := line + "\n";
    assert StripLeft(long) == long;
    assert long[..|long| - 1] == line;
    assert StripRight(long) == StripRight(line) == line;
  }

  lemma LastSetting(lines: seq<string>, key: string)
    requires lines != []
    ensures Last(Settings(lines), key) ==
      if SetsKey(lines[|lines| - 1], key) then Setting(lines[|lines| - 1])
        else Last(Settings(lines[..|lines| - 1]), key)
  {
    var n := |lines| - 1;
    if Setting(lines[n]).Some? {
      assert Settings(lines)[..|Settings(lines)| - 1] == Settings(lines[..n]);
    }
  }

  lemma ReadBack(white: seq<string>, line: string)
    requires line in Settings(white)
    ensures Setting(NewString(line, false)) == Some(line)
  {
    SettingsAre(white);
    var i :| 0 <= i < |white| && Setting(white[i]) == Some(line);
    WrittenIsRead(white[i]);
  }

  /** Every setting of the merged file is one of the two files'. */
  lemma MergedSettings(lines: seq<string>, white: seq<string>)
    ensures forall line :: line in Settings(Merge(lines, Settings(white), false)) ==>
      line in Settings(white) || line in Settings(lines)
  {
    var settings := Settings(white);
    var merged := Merge(lines, settings, false);
    SettingsAre(lines);
    SettingsAre(merged);
    hide Setting, Settings, Merge, NewString;
    forall i | 0 <= i < |merged| && Setting(merged[i]).Some?
      ensures var line := Setting(merged[i]).value; line in settings || line in Settings(lines)
    {
      MergedLine(lines, settings, false, i);
      if !(i < |lines| && Spared(lines[i], settings)) {
        var line :| line in settings && merged[i] == NewString(line, false);
        ReadBack(white, line);
      }
    }
  }

  /** What the whitelist leaves of the remove list. */
  ghost function Kept(lines: seq<string>, settings: seq<string>): seq<string> {
    if lines == [] then []
    else
      Kept(lines[..|lines| - 1], settings) + if Spared(lines[|lines| - 1], settings) then [lines[|lines| - 1]] else []
  }

  /** The line keeps another setting of the key than `w`, although the whitelist's setting `w` found a line;
      but behind it, it found none, and no spared line sets `w`. */
  ghost predicate StaleAt(lines: seq<string>, settings: seq<string>, key: string, w: string, i: nat)
    requires i < |lines|
  {
    && SetsKey(lines[i], key) && Setting(lines[i]) != Some(w) && Spared(lines[i], settings)
    && Owned(lines, settings, key) && forall j :: i < j < |lines| ==> !Resets(lines[j], settings, key, w)
  }

  /** The merge makes the line one that sets `w`, or leaves it so. */
  ghost predicate Resets(item: string, settings: seq<string>, key: string, w: string) {
    Owner(item, settings) == Some(key) || (Spared(item, settings) && Setting(item) == Some(w))
  }

  /** Behind a line, `w` is set. */
  ghost predicate SetLater(lines: seq<string>, w: string, i: nat) {
    exists j :: i < j < |lines| && Setting(lines[j]) == Some(w)
  }

  /** The line sets the key to something else than `w`, and `w` is not set behind it. */
  ghost predicate Beats(lines: seq<string>, key: string, w: string, i: nat)
    requires i < |lines|
  {
    SetsKey(lines[i], key) && Setting(lines[i]) != Some(w) && !SetLater(lines, w, i)
  }

  /** The last setting of a key is `w` exactly if no other setting of it beats `w`. */
  lemma {:induction false} LastIsIff(lines: seq<string>, key: string, w: string, at: nat)
    requires Key(w) == key && at < |lines| && Setting(lines[at]) == Some(w)
    ensures Last(Settings(lines), key) == Some(w) <==> forall i :: 0 <= i < |lines| ==> !Beats(lines, key, w, i)
  {
    hide Setting, Key, Settings, Last;
    LastSetting(lines, key);
    var n := |lines| - 1;
    if Setting(lines[n]) == Some(w) {
      assert forall i :: 0 <= i < n ==> SetLater(lines, w, i);
    } else if SetsKey(lines[n], key) {
      assert Beats(lines, key, w, n);
    } else {
      hide SetLater, SetsKey;
      LastIsIff(lines[..n], key, w, at);
      forall i | 0 <= i < n ensures Beats(lines[..n], key, w, i) <==> Beats(lines, key, w, i) {
        LaterWithout(lines, w, i);
      }
    }
  }

  lemma LaterWithout(lines: seq<string>, w: string, i: nat)
    requires i < |lines| - 1 && Setting(lines[|lines| - 1]) != Some(w)
    ensures SetLater(lines[..|lines| - 1], w, i) <==> SetLater(lines, w, i)
  {
    hide Setting;
    var less := lines[..|lines| - 1];
    if j :| i < j < |lines| && Setting(lines[j]) == Some(w) {
      assert Setting(less[j]) == Some(w);
    }
    if j :| i < j < |less| && Setting(less[j]) == Some(w) {
      assert Setting(lines[j]) == Some(w);
    }
  }

  /** What the lines of the merged file set, one by one. */
  lemma MergedAt(lines: seq<string>, white: seq<string>, keys: set<string>, key: string, i: nat)
    requires AllSound(Settings(white), false, keys) && i < |Merge(lines, Settings(white), false)|
    ensures var settings := Settings(white);
      var merged, last := Merge(lines, settings, false), Last(settings, key);
      && |lines| <= |merged|
      && (i < |lines| && Spared(lines[i], settings) ==> merged[i] == lines[i])
      && (i < |lines| && Owner(lines[i], settings) == Some(key) ==> Setting(merged[i]) == last && last.Some?)
      && (i < |lines| && !Spared(lines[i], settings) && Owner(lines[i], settings) != Some(key) ==>
        !SetsKey(merged[i], key))
      && (i >= |lines| && SetsKey(merged[i], key) ==> Setting(merged[i]) == last && !Owned(lines, settings, key))
  {
    var settings := Settings(white);
    var merged := Merge(lines, settings, false);
    MergeIs(lines, settings, false, keys);
    AddedAre(lines, settings, false);
    NewKeysAre(lines, settings);
    if i < |lines| {
      OwnerIs(lines[i], settings);
      if Owner(lines[i], settings).Some? {
        LastReadBack(white, Owner(lines[i], settings).value);
      }
    } else {
      var k := NewKeys(lines, settings)[i - |lines|];
      assert k in NewKeys(lines, settings);
      LastReadBack(white, k);
    }
    hide Merge, Settings, Owner, Owned, Last, Setting, Key, NewString, Mentions, Spared, NewKeys, Overridden, Added,
      AllSound;
  }

  lemma LastReadBack(white: seq<string>, key: string)
    requires Last(Settings(white), key).Some?
    ensures Setting(LastString(Settings(white), key, false)) == Last(Settings(white), key)
    ensures Key(Last(Settings(white), key).value) == key
  {
    LastIn(Settings(white), key);
    ReadBack(white, Last(Settings(white), key).value);
    hide Setting, Key, Settings, Last, NewString;
  }

  /** The exact condition: a key of the whitelist has the whitelist's last setting in the temporary list
      unless some line of the remove list is stale. */
  lemma WhitelistWinsIff(lines: seq<string>, white: seq<string>, keys: set<string>, key: string)
    requires AllSound(Settings(white), false, keys) && Last(Settings(white), key).Some?
    ensures Last(Settings(Merge(lines, Settings(white), false)), key) == Last(Settings(white), key) <==>
      forall i :: 0 <= i < |lines| ==> !StaleAt(lines, Settings(white), key, Last(Settings(white), key).value, i)
  {
    var settings := Settings(white);
    var merged := Merge(lines, settings, false);
    var w := Last(settings, key).value;
    LastIn(settings, key);
    var at := WhitelistAt(lines, white, keys, key);
    LastIsIff(merged, key, w, at);
    MergedLonger(lines, settings, false);
    forall i | 0 <= i < |merged|
      ensures Beats(merged, key, w, i) <==> i < |lines| && StaleAt(lines, settings, key, w, i)
    {
      StaleIff(lines, white, keys, key, at, i);
    }
    hide *;
  }

  /** Where the whitelist's last setting stands in the merged file. */
  lemma WhitelistAt(lines: seq<string>, white: seq<string>, keys: set<string>, key: string) returns (at: nat)
    requires AllSound(Settings(white), false, keys) && Last(Settings(white), key).Some?
    ensures at < |Merge(lines, Settings(white), false)|
    ensures Setting(Merge(lines, Settings(white), false)[at]) == Last(Settings(white), key)
    ensures if Owned(lines, Settings(white), key) then at < |lines| else at >= |lines|
  {
    hide *;
    var settings := Settings(white);
    MergedLonger(lines, settings, false);
    OwnedAt(lines, settings, key);
    if Owned(lines, settings, key) {
      at :| 0 <= at < |lines| && Owner(lines[at], settings) == Some(key);
      MergedAt(lines, white, keys, key, at);
    } else {
      NewKeysAre(lines, settings);
      MergeIs(lines, settings, false, keys);
      AddedAre(lines, settings, false);
      var k :| 0 <= k < |NewKeys(lines, settings)| && NewKeys(lines, settings)[k] == key;
      at := |lines| + k;
      LastReadBack(white, key);
    }
  }

  lemma StaleIff(lines: seq<string>, white: seq<string>, keys: set<string>, key: string, at: nat, i: nat)
    requires AllSound(Settings(white), false, keys) && Last(Settings(white), key).Some?
    requires at < |Merge(lines, Settings(white), false)| && i < |Merge(lines, Settings(white), false)|
    requires Setting(Merge(lines, Settings(white), false)[at]) == Last(Settings(white), key)
    requires if Owned(lines, Settings(white), key) then at < |lines| else at >= |lines|
    ensures Beats(Merge(lines, Settings(white), false), key, Last(Settings(white), key).value, i) <==>
      i < |lines| && StaleAt(lines, Settings(white), key, Last(Settings(white), key).value, i)
  {
    var settings := Settings(white);
    var merged, w := Merge(lines, settings, false), Last(settings, key).value;
    LastIn(settings, key);
    MergedLonger(lines, settings, false);
    hide *;
    forall j | 0 <= j < |merged|
      ensures j < |lines| && Owner(lines[j], settings) == Some(key) ==> Setting(merged[j]) == Some(w)
      ensures j < |lines| && Spared(lines[j], settings) ==>
        merged[j] == lines[j] && Owner(lines[j], settings) != Some(key)
      ensures j < |lines| && !Spared(lines[j], settings) && Owner(lines[j], settings) != Some(key) ==>
        !SetsKey(merged[j], key)
      ensures j >= |lines| && SetsKey(merged[j], key) ==> Setting(merged[j]) == Some(w) && !Owned(lines, settings, key)
    {
      MergedAt(lines, white, keys, key, j);
      if j < |lines| { OwnerIs(lines[j], settings); }
    }
    BeatsIsStale(lines, merged, settings, key, w, at, i);
  }

  /** The same, from what the two files are line by line. */
  lemma BeatsIsStale(lines: seq<string>, merged: seq<string>, settings: seq<string>, key: string, w: string, at: nat,
      i: nat)
    requires |lines| <= |merged| && i < |merged| && at < |merged| && Setting(merged[at]) == Some(w) && Key(w) == key
    requires if Owned(lines, settings, key) then at < |lines| else at >= |lines|
    requires forall j :: 0 <= j < |lines| && Owner(lines[j], settings) == Some(key) ==> Setting(merged[j]) == Some(w)
    requires forall j :: 0 <= j < |lines| && Spared(lines[j], settings) ==>
      merged[j] == lines[j] && Owner(lines[j], settings) != Some(key)
    requires forall j :: 0 <= j < |lines| && !Spared(lines[j], settings) && Owner(lines[j], settings) != Some(key) ==>
      !SetsKey(merged[j], key)
    requires forall j :: |lines| <= j < |merged| && SetsKey(merged[j], key) ==>
      Setting(merged[j]) == Some(w) && !Owned(lines, settings, key)
    ensures Beats(merged, key, w, i) <==> i < |lines| && StaleAt(lines, settings, key, w, i)
  {
    hide Setting, Key, Owner, Owned, Spared;
    if i < |lines| && SetsKey(lines[i], key) && Setting(lines[i]) != Some(w) && Spared(lines[i], settings) {
      if Owned(lines, settings, key) {
        if j :| i < j < |merged| && Setting(merged[j]) == Some(w) {
          assert SetsKey(merged[j], key);
          assert j < |lines| && (Owner(lines[j], settings) == Some(key) || Spared(lines[j], settings));
        }
        if j :| i < j < |lines| && Resets(lines[j], settings, key, w) {
          assert Setting(merged[j]) == Some(w);
        }
      } else {
        assert SetLater(merged, w, i);
      }
    }
  }

  /** A key that the whitelist does not set: what its kept lines set remains. */
  lemma FirstStageLeaves(lines: seq<string>, white: seq<string>, keys: set<string>, key: string)
    requires AllSound(Settings(white), false, keys) && Last(Settings(white), key).None?
    ensures Last(Settings(Merge(lines, Settings(white), false)), key)
      == Last(Settings(Kept(lines, Settings(white))), key)
  {
    var settings := Settings(white);
    var merged := Merge(lines, settings, false);
    MergedLonger(lines, settings, false);
    hide *;
    forall i | 0 <= i < |merged|
      ensures if i < |lines| && Spared(lines[i], settings) then merged[i] == lines[i] else !SetsKey(merged[i], key)
    {
      MergedAt(lines, white, keys, key, i);
      if i >= |lines| && SetsKey(merged[i], key) { SetsIs(merged[i], key); }
    }
    SameLast(lines, settings, merged, key);
  }

  lemma SetsIs(item: string, key: string)
    ensures SetsKey(item, key) ==> Setting(item).Some?
  {
  }

  /** A file that has the spared lines in their places, and otherwise does not set the key. */
  lemma {:induction false} SameLast(lines: seq<string>, settings: seq<string>, merged: seq<string>, key: string)
    requires |lines| <= |merged|
    requires forall i :: 0 <= i < |merged| ==>
      if i < |lines| && Spared(lines[i], settings) then merged[i] == lines[i] else !SetsKey(merged[i], key)
    ensures Last(Settings(merged), key) == Last(Settings(Kept(lines, settings)), key)
    decreases |merged|
  {
    hide Setting, Key, Spared, Settings, Last;
    if merged != [] {
      var n := |merged| - 1;
      LastSetting(merged, key);
      if |lines| < |merged| {
        SameLast(lines, settings, merged[..n], key);
      } else {
        var kept := Kept(lines[..n], settings);
        SameLast(lines[..n], settings, merged[..n], key);
        if Spared(lines[n], settings) {
          LastSetting(kept + [lines[n]], key);
          assert (kept + [lines[n]])[..|kept|] == kept;
        } else {
          assert kept + [] == kept;
        }
      }
    }
  }

  /** The first stage, `replace_conf(TMP_CONF, TMP_CONF, whitelist)`, keeps the layers apart for a key: a key of
      the whitelist has no stale line, and the kept lines say of another key what all of them did. */
  ghost predicate Layered(lines: seq<string>, settings: seq<string>, key: string) {
    if Last(settings, key).Some? then forall i :: 0 <= i < |lines| ==>
      !StaleAt(lines, settings, key, Last(settings, key).value, i)
    else Last(Settings(lines), key).Some? ==> Survives(lines, settings, key, Last(Settings(lines), key).value)
  }

  /** The setting `w` is in a spared line, and behind it no spared line sets the key to something else. */
  ghost predicate Survives(lines: seq<string>, settings: seq<string>, key: string, w: string) {
    exists i :: 0 <= i < |lines| && SurvivesAt(lines, settings, key, w, i)
  }

  ghost predicate SurvivesAt(lines: seq<string>, settings: seq<string>, key: string, w: string, i: nat)
    requires i < |lines|
  {
    && Spared(lines[i], settings) && Setting(lines[i]) == Some(w)
    && forall j :: i < j < |lines| && Spared(lines[j], settings) && SetsKey(lines[j], key) ==>
      Setting(lines[j]) == Some(w)
  }

  lemma {:induction false} KeptLastIff(lines: seq<string>, settings: seq<string>, key: string, w: string)
    requires Key(w) == key
    ensures Last(Settings(Kept(lines, settings)), key) == Some(w) <==> Survives(lines, settings, key, w)
  {
    hide Setting, Key, Spared, Settings, Last;
    if lines == [] {
      NoneSet(key);
    } else {
      var n := |lines| - 1;
      var less, kept := lines[..n], Kept(lines[..n], settings);
      KeptLastIff(less, settings, key, w);
      if Spared(lines[n], settings) {
        LastSetting(kept + [lines[n]], key);
        assert (kept + [lines[n]])[..|kept|] == kept;
        if SetsKey(lines[n], key) {
          assert Setting(lines[n]) == Some(w) ==> SurvivesAt(lines, settings, key, w, n);
        }
      } else {
        assert kept + [] == kept;
      }
      if !(Spared(lines[n], settings) && SetsKey(lines[n], key)) {
        assert Setting(lines[n]) == Some(w) ==> SetsKey(lines[n], key);
        forall i | 0 <= i < n
          ensures SurvivesAt(lines, settings, key, w, i) <==> SurvivesAt(less, settings, key, w, i)
        {
          assert forall j :: 0 <= j < n ==> less[j] == lines[j];
        }
      }
    }
  }

  lemma NoneSet(key: string)
    ensures Last(Settings([]), key) == None
  {
  }

  /** Exactly when the first stage does what it is for, for any remove list: the temporary list holds the
      whitelist's last setting of the key, or else the remove list's. */
  lemma FirstStageIff(lines: seq<string>, white: seq<string>, keys: set<string>, key: string)
    requires AllSound(Settings(white), false, keys)
    ensures Last(Settings(Merge(lines, Settings(white), false)), key) ==
      (if Last(Settings(white), key).Some? then Last(Settings(white), key) else Last(Settings(lines), key))
      <==> Layered(lines, Settings(white), key)
  {
    var settings := Settings(white);
    if Last(settings, key).Some? {
      WhitelistWinsIff(lines, white, keys, key);
    } else {
      FirstStageLeaves(lines, white, keys, key);
      if Last(Settings(lines), key).Some? {
        LastIn(Settings(lines), key);
        KeptLastIff(lines, settings, key, Last(Settings(lines), key).value);
      } else {
        KeptSetsLess(lines, settings, key);
      }
    }
    hide Merge, Settings, Last;
  }

  lemma {:induction false} KeptSetsLess(lines: seq<string>, settings: seq<string>, key: string)
    requires Last(Settings(lines), key).None?
    ensures Last(Settings(Kept(lines, settings)), key).None?
  {
    hide Setting, Key, Spared, Settings, Last;
    if lines == [] {
      NoneSet(key);
    } else {
      var n := |lines| - 1;
      var kept := Kept(lines[..n], settings);
      LastSetting(lines, key);
      SetsIs(lines[n], key);
      KeptSetsLess(lines[..n], settings, key);
      if Spared(lines[n], settings) {
        LastSetting(kept + [lines[n]], key);
        assert (kept + [lines[n]])[..|kept|] == kept;
      } else {
        assert kept + [] == kept;
      }
    }
  }

  /** So it is for lists like the ones there are: each line that sets a key mentions it, and no other. */
  lemma PlainIsLayered(lines: seq<string>, settings: seq<string>, keys: set<string>, key: string)
    requires key in keys && (forall line :: line in settings ==> Key(line) in keys)
    requires forall i :: 0 <= i < |lines| && SetsKey(lines[i], key) ==> Mentions(lines[i], key) && Clean(lines[i], keys)
    ensures Layered(lines, settings, key)
  {
    LastIn(settings, key);
    hide Mentions, Key, Settings, Last;
    if Last(settings, key).Some? {
      hide Setting;
    } else if Last(Settings(lines), key).Some? {
      var w := Last(Settings(lines), key).value;
      LastIn(Settings(lines), key);
      var i := LastSetAt(lines, key);
      assert Spared(lines[i], settings) by { hide Setting; }
      hide Setting;
      assert SurvivesAt(lines, settings, key, w, i);
    }
  }

  lemma {:induction false} LastSetAt(lines: seq<string>, key: string) returns (i: nat)
    requires Last(Settings(lines), key).Some?
    ensures i < |lines| && SetsKey(lines[i], key) && Setting(lines[i]) == Last(Settings(lines), key)
    ensures forall j :: i < j < |lines| ==> !SetsKey(lines[j], key)
  {
    hide Setting, Key, Settings, Last;
    if lines == [] {
      NoneSet(key);
    }
    LastSetting(lines, key);
    i := |lines| - 1;
    if !SetsKey(lines[i], key) {
      i := LastSetAt(lines[..i], key);
    }
  }

  /** Exactly when both stages do what they are for, for any source and remove list: the temporary list has the
      whitelist's last setting of the key, or else the remove list's, and this is all that the result says of
      the key, with `=n` as "is not set". */
  lemma LayeredOverrideIff(source: seq<string>, remove: seq<string>, white: seq<string>, keys: set<string>, key: string)
    requires AllSound(Settings(white), false, keys)
    ensures var temp := Settings(Merge(remove, Settings(white), false));
      var wanted := Wanted(remove, white, key);
      wanted.Some? ==>
        (Last(temp, key) == wanted && Says(Merge(source, temp, true), key, NewString(wanted.value, true))
         <==> Layered(remove, Settings(white), key) && LastWins(temp, true, key))
  {
    var temp := Settings(Merge(remove, Settings(white), false));
    FirstStageIff(remove, white, keys, key);
    hide *;
    WantedIs(remove, white, key);
    if Wanted(remove, white, key).Some? && Last(temp, key) == Wanted(remove, white, key) {
      var m := LastAt(temp, key);
      LastWinsAt(temp, true, m, key);
      LastSettingWinsIff(source, temp, true, m);
    }
  }

  /** The last setting of the key in the whitelist, or else in the remove list. */
  function Wanted(remove: seq<string>, white: seq<string>, key: string): Option<string> {
    if Last(Settings(white), key).Some? then Last(Settings(white), key) else Last(Settings(remove), key)
  }

  lemma WantedIs(remove: seq<string>, white: seq<string>, key: string)
    ensures Wanted(remove, white, key) ==
      if Last(Settings(white), key).Some? then Last(Settings(white), key) else Last(Settings(remove), key)
  {
  }

  lemma LastWinsAt(settings: seq<string>, replace: bool, m: nat, key: string)
    requires m < |settings| && Key(settings[m]) == key && forall j :: m < j < |settings| ==> Key(settings[j]) != key
    ensures IsLast(settings, m, key) && (LastWins(settings, replace, key) <==> Wins(settings, replace, m))
  {
    hide Key, Wins;
    forall k | 0 <= k < |settings| && IsLast(settings, k, key) ensures k == m {
    }
  }

  /** So it is, for any source, when the settings of both lists are sound and the layers are kept apart. */
  lemma LayeredOverride(source: seq<string>, remove: seq<string>, white: seq<string>, keys: set<string>, key: string)
    requires AllSound(Settings(white), false, keys) && AllSound(Settings(white), true, keys)
      && AllSound(Settings(remove), true, keys)
    requires Layered(remove, Settings(white), key) && Wanted(remove, white, key).Some?
    ensures Says(Merge(source, Settings(Merge(remove, Settings(white), false)), true), key,
      NewString(Wanted(remove, white, key).value, true))
  {
    var temp := Settings(Merge(remove, Settings(white), false));
    MergedSettings(remove, white);
    assert AllSound(temp, true, keys) by { hide Sound, Settings, Merge; }
    hide *;
    FirstStageIff(remove, white, keys, key);
    WantedIs(remove, white, key);
    LayeredOverrideIff(source, remove, white, keys, key);
    var m := SoundWins(temp, true, keys, key);
  }

  /** Lines that mention no key of either list keep their place and text through both stages, whatever the
      three files are. */
  lemma LayersLeaveOthers(source: seq<string>, remove: seq<string>, white: seq<string>, i: nat)
    requires i < |source| && Spared(source[i], Settings(white)) && Spared(source[i], Settings(remove))
    ensures var result := Merge(source, Settings(Merge(remove, Settings(white), false)), true);
      |source| <= |result| && result[i] == source[i]
  {
    var settings := Settings(Merge(remove, Settings(white), false));
    MergedSettings(remove, white);
    assert Spared(source[i], settings);
    OtherLinesStay(source, settings, true, i);
  }

  // ---------------------------------------------------------------- which lines are sound

  lemma {:induction false} FirstToken(key: string, rest: string, separators: set<char>, c: char)
    requires c in separators && forall i :: 0 <= i < |key| ==> key[i] !in separators
    ensures SplitOn(key + [c] + rest, separators) == [key] + SplitOn(rest, separators)
  {
    if key == "" {
      assert (key + [c] + rest)[1..] == rest;
    } else {
      FirstToken(key[1..], rest, separators, c);
      assert (key + [c] + rest)[1..] == key[1..] + [c] + rest;
      assert key == [key[0]] + key[1..];
      assert ([key[1..]] + SplitOn(rest, separators))[1..] == SplitOn(rest, separators);
    }
  }

  lemma KeyUnfolds(line: string)
    requires |Fields(line)| > 1
    ensures line != ""
    ensures line[0] == '=' ==> Key(line) == ""
    ensures line[0] != '=' ==> |Fields(line[1..])| > 1 && Key(line) == [line[0]] + Key(line[1..])
  {
  }

  /** A line with a `=` begins with its key, and the key has no `=`. */
  lemma {:induction false} KeyIsFirst(line: string)
    requires |Fields(line)| > 1
    ensures Key(line) + ['='] <= line
    ensures forall i :: 0 <= i < |Key(line)| ==> Key(line)[i] != '='
  {
    KeyUnfolds(line);
    hide *;
    if line[0] != '=' {
      KeyIsFirst(line[1..]);
      assert line == [line[0]] + line[1..];
    }
  }

  lemma NothingToStrip(key: string)
    requires forall i :: 0 <= i < |key| ==> !IsSpace(key[i])
    ensures Strip(key) == key
  {
  }

  /** A setting `key=...` whose key has no white space becomes a line that mentions the key, also where
      it is written as "is not set". */
  lemma SettingMentionsItsKey(line: string, replace: bool)
    requires |Fields(line)| > 1 && forall i :: 0 <= i < |Key(line)| ==> !IsSpace(Key(line)[i])
    ensures Mentions(NewString(line, replace), Key(line))
  {
    KeyIsFirst(line);
    if replace && Fields(line)[1] == "n" {
      NothingToStrip(Key(line));
      NotSetMentions(Key(line));
    } else {
      var rest := line[|Key(line)| + 1..];
      assert line == Key(line) + ['='] + rest;
      KeyMentions(Key(line), rest + "\n");
      assert line + "\n" == Key(line) + ['='] + (rest + "\n");
    }
  }

  lemma KeyMentions(key: string, rest: string)
    requires forall i :: 0 <= i < |key| ==> key[i] != '=' && !IsSpace(key[i])
    ensures Mentions(key + ['='] + rest, key)
  {
    FirstToken(key, rest, {'=', ' '}, '=');
  }

  lemma NotSetMentions(key: string)
    requires forall i :: 0 <= i < |key| ==> key[i] != '=' && !IsSpace(key[i])
    ensures Mentions("# " + key + " is not set\n", key)
  {
    MiddleMentions("#", key, "is not set\n");
    assert "# " == "#" + [' '] && " is not set\n" == [' '] + "is not set\n";
  }

  lemma MiddleMentions(first: string, key: string, tail: string)
    requires forall i :: 0 <= i < |first| ==> first[i] != '=' && !IsSpace(first[i])
    requires forall i :: 0 <= i < |key| ==> key[i] != '=' && !IsSpace(key[i])
    ensures Mentions((first + [' ']) + key + ([' '] + tail), key)
  {
    FirstToken(first, key + [' '] + tail, {'=', ' '}, ' ');
    FirstToken(key, tail, {'=', ' '}, ' ');
    hide *;
    assert (first + [' ']) + key + ([' '] + tail) == first + [' '] + (key + [' '] + tail);
    SecondToken(first + [' '] + (key + [' '] + tail), first, key, SplitOn(tail, {'=', ' '}));
  }

  lemma SecondToken(item: string, first: string, key: string, others: seq<string>)
    requires SplitOn(item, {'=', ' '}) == [first] + ([key] + others)
    ensures Mentions(item, key)
  {
    assert ([first] + ([key] + others))[1] == key;
  }

  // ---------------------------------------------------------------- files

  lemma {:induction false} ReadBlock(line: string, rest: string)
    requires Terminated(line)
    ensures ReadLines(line + rest) == [line] + ReadLines(rest)
  {
    assert (line + rest)[1..] == line[1..] + rest;
    if |line| == 1 {
      assert line[1..] + rest == rest && line == [line[0]];
    } else {
      assert line[1..][..|line| - 2] == line[..|line| - 1][1..];
      assert line[..|line| - 1][0] != '\n';
      ReadBlock(line[1..], rest);
      assert line == [line[0]] + line[1..];
      assert ([line[1..]] + ReadLines(rest))[1..] == ReadLines(rest);
    }
  }

  lemma ReadUnfolds(text: string)
    requires text != ""
    ensures var rest := ReadLines(text[1..]);
      ReadLines(text) == if text[0] == '\n' || rest == [] then [[text[0]]] + rest else [[text[0]] + rest[0]] + rest[1..]
  {
  }

  lemma JoinUnfolds(line: string, rest: seq<string>)
    ensures Join([line] + rest) == line + Join(rest)
  {
    assert ([line] + rest)[1..] == rest;
  }

  lemma JoinMoves(c: string, rest: seq<string>)
    requires rest != []
    ensures Join([c + rest[0]] + rest[1..]) == c + Join(rest)
  {
    hide *;
    assert rest == [rest[0]] + rest[1..];
    JoinUnfolds(rest[0], rest[1..]);
    JoinUnfolds(c + rest[0], rest[1..]);
    assert c + (rest[0] + Join(rest[1..])) == c + rest[0] + Join(rest[1..]);
  }

  /** A text is the concatenation of its lines. */
  lemma {:induction false} LinesOfText(text: string)
    ensures Join(ReadLines(text)) == text
  {
    if text != "" {
      hide *;
      var rest := ReadLines(text[1..]);
      LinesOfText(text[1..]);
      ReadUnfolds(text);
      var c := [text[0]];
      assert c + text[1..] == text;
      if text[0] == '\n' || rest == [] {
        JoinUnfolds(c, rest);
      } else {
        JoinMoves(c, rest);
      }
    }
  }

  /** Only the last line of a text may lack its line end, and does so if the text does. */
  lemma {:induction false} LinesAreTerminated(text: string)
    ensures var lines := ReadLines(text);
      && AllLines(lines) && FrontTerminated(lines) && (text != "" ==> lines != [])
        && (Ended(text) ==> AllTerminated(lines))
  {
    if text != "" {
      LinesAreTerminated(text[1..]);
      ReadUnfolds(text);
      assert Ended(text) && text[0] != '\n' ==> text[1..] != "";
      assert Ended(text) ==> Ended(text[1..]);
      hide ReadLines, Ended, AllLines, AllTerminated, FrontTerminated;
      OneLineMore(text[0], ReadLines(text[1..]));
    }
  }

  lemma OneCharMore(c: char, line: string)
    requires c != '\n' && OneLine(line)
    ensures OneLine([c] + line) && (Terminated(line) ==> Terminated([c] + line))
  {
    var longer := [c] + line;
    assert longer[..|longer| - 1] == [c] + line[..|line| - 1];
  }

  lemma OneLineMore(c: char, rest: seq<string>)
    requires AllLines(rest) && FrontTerminated(rest)
    ensures var lines := if c == '\n' || rest == [] then [[c]] + rest else [[c] + rest[0]] + rest[1..];
      && AllLines(lines) && FrontTerminated(lines)
      && ((c == '\n' || rest != []) && AllTerminated(rest) ==> AllTerminated(lines))
  {
    assert OneLine([c]) && (c == '\n' ==> Terminated([c]));
    if c != '\n' && rest != [] {
      OneCharMore(c, rest[0]);
    }
    hide OneLine, Terminated;
  }

  ghost predicate AllLines(lines: seq<string>) {
    forall i :: 0 <= i < |lines| ==> OneLine(lines[i])
  }

  ghost predicate FrontTerminated(lines: seq<string>) {
    forall i :: 0 <= i < |lines| - 1 ==> Terminated(lines[i])
  }

  ghost predicate Ended(text: string) {
    text == "" || text[|text| - 1] == '\n'
  }

  lemma {:induction false} LastLine(line: string)
    requires OneLine(line)
    ensures ReadLines(line) == [line]
  {
    if |line| == 1 {
      assert line == [line[0]] && ReadLines(line[1..]) == [];
    } else {
      assert line[1..][..|line| - 2] == line[..|line| - 1][1..];
      assert line[..|line| - 1][0] != '\n';
      LastLine(line[1..]);
      assert line == [line[0]] + line[1..];
    }
  }

  /** Written lines are read back as they were exactly if all of them but the last have their line
      ends. Otherwise a line runs into the next one. */
  lemma {:induction false} WrittenLinesIff(lines: seq<string>)
    requires AllLines(lines)
    ensures ReadLines(Join(lines)) == lines <==> FrontTerminated(lines)
  {
    if ReadLines(Join(lines)) == lines {
      LinesAreTerminated(Join(lines));
    }
    if FrontTerminated(lines) {
      WrittenLines(lines);
    }
  }

  lemma {:induction false} WrittenLines(lines: seq<string>)
    requires AllLines(lines) && FrontTerminated(lines)
    ensures ReadLines(Join(lines)) == lines
  {
    if |lines| == 1 {
      LastLine(lines[0]);
      assert Join(lines) == lines[0] + Join([]) == lines[0];
    } else if lines != [] {
      WrittenLines(lines[1..]);
      ReadBlock(lines[0], Join(lines[1..]));
    }
  }

  lemma {:induction false} NoSeparator(s: string, separators: set<char>)
    requires forall i :: 0 <= i < |s| ==> s[i] !in separators
    ensures SplitOn(s, separators) == [s]
  {
    if s != "" {
      NoSeparator(s[1..], separators);
      assert s == [s[0]] + s[1..];
    }
  }

  // ---------------------------------------------------------------- line ends

  lemma {:induction false} StripLeftIs(s: string)
    ensures StripLeft(s) == s[|s| - |StripLeft(s)|..]
  {
    if s != "" && IsSpace(s[0]) {
      StripLeftIs(s[1..]);
    }
  }

  /** Stripping leaves a slice, which has no line end if the line has none but its last character. */
  lemma StripIs(s: string)
    ensures forall c :: c in Strip(s) ==> c in s
    ensures OneLine(s) ==> '\n' !in Strip(s)
  {
    StripLeftIs(s);
    var t, r := StripLeft(s), Strip(s);
    var a := |s| - |t|;
    assert r == t[..|r|];
    assert forall k :: 0 <= k < |r| ==> r[k] == t[k] == s[a + k];
    if OneLine(s) {
      forall k | 0 <= k < |r| ensures r[k] != '\n' {
        if a + k < |s| - 1 {
          assert s[..|s| - 1][a + k] == r[k];
        }
      }
    }
  }

  lemma {:induction false} FieldChars(s: string, separators: set<char>)
    ensures forall i, c :: 0 <= i < |SplitOn(s, separators)| && c in SplitOn(s, separators)[i] ==> c in s
  {
    if s != "" {
      FieldChars(s[1..], separators);
      assert s == [s[0]] + s[1..];
    }
  }

  lemma NewStringIsTerminated(line: string, replace: bool)
    requires '\n' !in line
    ensures Terminated(NewString(line, replace))
  {
    FieldChars(line, {'='});
    StripIs(Key(line));
    var s := NewString(line, replace);
    if s == line + "\n" {
      assert s[..|s| - 1] == line;
    } else {
      assert s[..|s| - 1] == "# " + Strip(Key(line)) + " is not set";
    }
  }

  lemma SettingsHaveNoEnds(text: string)
    ensures forall line :: line in Settings(ReadLines(text)) ==> '\n' !in line
  {
    var lines := ReadLines(text);
    LinesAreTerminated(text);
    SettingsAre(lines);
    forall line | line in Settings(lines) ensures '\n' !in line {
      var i :| 0 <= i < |lines| && Setting(lines[i]) == Some(line);
      StripIs(lines[i]);
    }
  }

  lemma {:induction false} MergeKeepsEnds(contents: seq<string>, settings: seq<string>, replace: bool)
    requires AllTerminated(contents) && forall line :: line in settings ==> '\n' !in line
    ensures AllTerminated(Merge(contents, settings, replace))
  {
    if settings != [] {
      MergeKeepsEnds(contents, settings[..|settings| - 1], replace);
      NewStringIsTerminated(settings[|settings| - 1], replace);
      hide Terminated, Mentions, Found, NewString, Key;
    }
  }

  /** A merged file is read back as the lines that were merged, if the source ends with a line end. */
  lemma MergedIsReadBack(source: string, text: string, replace: bool)
    requires Ended(source)
    ensures var merged := Merge(ReadLines(source), Settings(ReadLines(text)), replace);
      ReadLines(Join(merged)) == merged && Ended(Join(merged))
  {
    LinesAreTerminated(source);
    SettingsHaveNoEnds(text);
    var merged := Merge(ReadLines(source), Settings(ReadLines(text)), replace);
    MergeKeepsEnds(ReadLines(source), Settings(ReadLines(text)), replace);
    hide Merge, Settings, ReadLines;
    WrittenLines(merged);
    JoinIsEnded(merged);
  }

  lemma {:induction false} JoinIsEnded(lines: seq<string>)
    requires AllTerminated(lines)
    ensures Ended(Join(lines))
  {
    if lines != [] {
      JoinIsEnded(lines[1..]);
    }
  }

  lemma TwoFields(key: string, value: string, separators: set<char>)
    requires '=' in separators && (forall c :: c in key ==> c !in separators)
      && (forall c :: c in value ==> c !in separators)
    ensures SplitOn(key + ['='] + value, separators) == [key, value]
  {
    FirstToken(key, value, separators, '=');
    NoSeparator(value, separators);
  }

  lemma SettingAB()
    ensures Key("B=y") == "B" && NewString("B=y", true) == "B=y\n" && !Mentions("A=y", "B")
  {
    assert "A" + ['='] + "y" == "A=y" && "B" + ['='] + "y" == "B=y";
    TwoFields("A", "y", {'=', ' '});
    TwoFields("B", "y", {'='});
  }

  /** Such a file: the new setting runs into the last line and is lost. */
  lemma UnterminatedFileLosesSetting()
    ensures Merge(["A=y"], ["B=y"], true) == ["A=y", "B=y\n"]
    ensures ReadLines("A=y") == ["A=y"] && ReadLines(Join(["A=y", "B=y\n"])) == ["A=yB=y\n"]
  {
    SettingAB();
    LastLine("A=y");
    LastLine("A=yB=y\n");
    assert Join(["B=y\n"]) == "B=y\n" + "";
    assert Join(["A=y", "B=y\n"]) == "A=yB=y\n" by {
      JoinUnfolds("A=y", ["B=y\n"]);
      assert ["A=y"] + ["B=y\n"] == ["A=y", "B=y\n"];
    }
    AppendsNew(["A=y"], "B=y", true);
  }

  lemma AppendsNew(lines: seq<string>, line: string, replace: bool)
    requires forall i :: 0 <= i < |lines| ==> !Mentions(lines[i], Key(line))
    ensures Merge(lines, [line], replace) == lines + [NewString(line, replace)]
  {
    FoundIn(lines, [], Key(line));
    MergeStep(lines, [], line, replace);
    NoSettings(lines, replace);
    assert [] + [line] == [line];
  }

  /** The source ends with a line end, or nothing is added to it, or its last line is overridden. */
  ghost predicate ReadsBack(source: string, settings: seq<string>, replace: bool) {
    var lines := ReadLines(source);
    || Ended(source) || |Merge(lines, settings, replace)| == |lines|
    || (lines != [] && !Spared(lines[|lines| - 1], settings))
  }

  /** Exactly then a merged file is read back as the lines that were merged. */
  lemma MergedIsReadBackIff(source: string, text: string, replace: bool)
    ensures var settings := Settings(ReadLines(text));
      var merged := Merge(ReadLines(source), settings, replace);
      ReadLines(Join(merged)) == merged <==> ReadsBack(source, settings, replace)
  {
    var lines, settings := ReadLines(source), Settings(ReadLines(text));
    var merged := Merge(lines, settings, replace);
    LinesAreTerminated(source);
    if Ended(source) {
      MergedIsReadBack(source, text, replace);
    } else {
      JoinOfTerminated(source);
      SettingsHaveNoEnds(text);
      MergeEnds(lines, settings, replace);
      hide Merge, Settings, ReadLines, Join, Spared, AllLines, FrontTerminated, Terminated;
      WrittenLinesIff(merged);
    }
  }

  /** A text that does not end with a line end: neither does its last line. */
  lemma JoinOfTerminated(text: string)
    requires !Ended(text)
    ensures ReadLines(text) != [] && !Terminated(ReadLines(text)[|ReadLines(text)| - 1])
  {
    var lines := ReadLines(text);
    LinesOfText(text);
    LinesAreTerminated(text);
    if Terminated(lines[|lines| - 1]) {
      JoinIsEnded(lines);
    }
  }

  lemma MergeEnds(lines: seq<string>, settings: seq<string>, replace: bool)
    requires forall line :: line in settings ==> '\n' !in line
    requires AllLines(lines) && FrontTerminated(lines) && lines != [] && !Terminated(lines[|lines| - 1])
    ensures AllLines(Merge(lines, settings, replace))
    ensures FrontTerminated(Merge(lines, settings, replace)) <==>
      |Merge(lines, settings, replace)| == |lines| || !Spared(lines[|lines| - 1], settings)
  {
    var merged, n := Merge(lines, settings, replace), |lines| - 1;
    MergedLonger(lines, settings, replace);
    hide Merge, Spared, Terminated, OneLine, NewString;
    forall i | 0 <= i < |merged|
      ensures if i == n && Spared(lines[n], settings) then merged[i] == lines[i] else Terminated(merged[i])
    {
      MergedLine(lines, settings, replace, i);
      if !(i < |lines| && Spared(lines[i], settings)) {
        var line :| line in settings && merged[i] == NewString(line, replace);
        NewStringIsTerminated(line, replace);
      }
    }
    TerminatedIsLine(lines, merged);
  }

  lemma TerminatedIsLine(lines: seq<string>, merged: seq<string>)
    ensures forall i :: 0 <= i < |merged| && Terminated(merged[i]) ==> OneLine(merged[i])
  {
  }

  lemma OnlyB()
    ensures !Found(["B=y\n"], "A")
  {
    assert "B" + ['='] + "y\n" == "B=y\n";
    TwoFields("B", "y\n", {'=', ' '});
  }

  /** The value of `A` mentions `B`, and the line of `A` is lost when `B` is set, be it by the same list or by
      a whitelist over a remove list. */
  lemma AmbiguousLineLosesKey()
    ensures Merge([], ["A=B x", "B=y"], false) == ["B=y\n"] && !Found(["B=y\n"], "A")
    ensures Merge(["A=B x\n"], ["B=y"], false) == ["B=y\n"]
  {
    OnlyB();
    var ab := "A=B x\n";
    assert Tokens(ab) == ["A", "B", "x\n"] by {
      assert ab == "A" + ['='] + ("B" + [' '] + "x\n");
      FirstToken("A", "B" + [' '] + "x\n", {'=', ' '}, '=');
      FirstToken("B", "x\n", {'=', ' '}, ' ');
      NoSeparator("x\n", {'=', ' '});
    }
    assert Mentions(ab, "B") by { assert Tokens(ab)[1] == "B"; }
    SettingAB();
    assert NewString("A=B x", false) == ab && NewString("B=y", false) == "B=y\n";
    hide *;
    AppendsNew([], "A=B x", false);
    assert [] + [ab] == [ab];
    ReplacesOne(ab, "A=B x", "B=y");
    MergeOne([ab], "B=y", 0);
    assert [ab][0 := "B=y\n"] == ["B=y\n"];
  }

  /** A remove list with a setting that is indented by a tab: the line does not mention its key, and the
      whitelist's setting ends up in front of it. */
  lemma TabIndentedSettingWins()
    ensures Merge(["K=a\n", "\tK=b\n"], ["K=c"], false) == ["K=c\n", "\tK=b\n"]
    ensures Setting("\tK=b\n") == Some("K=b") && Key("K=b") == "K"
  {
    TokensOfK();
    FieldsOfK();
    StripsTo();
    var lines := ["K=a\n", "\tK=b\n"];
    MergeOne(lines, "K=c", 0);
  }

  lemma TokensOfK()
    ensures Mentions("K=a\n", "K") && !Mentions("\tK=b\n", "K")
  {
    assert "K" + ['='] + "a\n" == "K=a\n" && "\tK" + ['='] + "b\n" == "\tK=b\n";
    TwoFields("K", "a\n", {'=', ' '});
    TwoFields("\tK", "b\n", {'=', ' '});
    assert Tokens("K=a\n")[0] == "K";
  }

  lemma FieldsOfK()
    ensures Key("K=c") == "K" && Key("K=b") == "K" && NewString("K=c", false) == "K=c\n"
  {
    assert "K" + ['='] + "c" == "K=c" && "K" + ['='] + "b" == "K=b";
    TwoFields("K", "c", {'='});
    TwoFields("K", "b", {'='});
  }

  lemma StripsTo()
    ensures Strip("\tK=b\n") == "K=b"
  {
    var t := "K=b\n";
    assert "\tK=b\n"[1..] == t;
    assert StripLeft(t) == t && StripLeft("\tK=b\n") == t;
    assert t[..3] == "K=b";
    assert StripRight("K=b") == "K=b";
  }

  lemma MergeOne(lines: seq<string>, line: string, i: nat)
    requires i < |lines| && Mentions(lines[i], Key(line)) && forall j :: 0 <= j < |lines| && j != i ==>
      !Mentions(lines[j], Key(line))
    ensures Merge(lines, [line], false) == lines[i := NewString(line, false)]
  {
    hide Mentions, NewString;
    FoundIn(lines, [], Key(line));
    MergeStep(lines, [], line, false);
    NoSettings(lines, false);
    assert [] + [line] == [line];
  }

  lemma ReplacesOne(item: string, first: string, second: string)
    requires Merge([], [first], false) == [item] && Mentions(item, Key(second))
    ensures Merge([], [first, second], false) == [NewString(second, false)]
  {
    MergeStep([], [first], second, false);
    assert [first] + [second] == [first, second];
    assert item in [item];
  }

  const TMP_CONF := "device/htc/common/temp-list.cfg"

  function TextOf(files: map<string, string>, name: string): string {
    if name in files then files[name] else ""
  }

  /** The settings of a file; none if there is no such file. */
  function SettingsOf(files: map<string, string>, name: string): seq<string> {
    Settings(ReadLines(TextOf(files, name)))
  }

  /** The temporary list: the whitelist over the remove list. */
  function TempList(files: map<string, string>, removeList: string, whitelist: string): string
    requires removeList in files
  {
    Join(Merge(ReadLines(files[removeList]), SettingsOf(files, whitelist), false))
  }

  /** The files after the main program: the target is merged from the source, if there is one and every
      setting can be read; otherwise it stays as it was. */
  function Released(files: map<string, string>, removeList: string, whitelist: string, srcFile: string,
      tgtFile: string): map<string, string>
    requires removeList in files
  {
    var list := TempList(files[TMP_CONF := files[removeList]], removeList, whitelist);
    (if srcFile in files && !Malformed(Settings(ReadLines(list)), srcFile != tgtFile)
     then files[tgtFile := Join(Merge(ReadLines(files[srcFile]), Settings(ReadLines(list)), srcFile != tgtFile))]
     else files) - {TMP_CONF}
  }

  lemma ReleasedIs(files: map<string, string>, removeList: string, whitelist: string, srcFile: string, tgtFile: string)
    requires removeList in files
    ensures var list := TempList(files[TMP_CONF := files[removeList]], removeList, whitelist);
      Released(files, removeList, whitelist, srcFile, tgtFile) ==
      (if srcFile in files && !Malformed(Settings(ReadLines(list)), srcFile != tgtFile)
       then files[tgtFile := Join(Merge(ReadLines(files[srcFile]), Settings(ReadLines(list)), srcFile != tgtFile))]
       else files) - {TMP_CONF}
  {
  }

  lemma NoWhitelist(text: string)
    ensures Join(Merge(ReadLines(text), [], false)) == text
  {
    LinesOfText(text);
  }

  class Files {
    var files: map<string, string>

    constructor (files: map<string, string>)
      ensures this.files == files
    {
      this.files := files;
    }

    /** `replace_conf`. The target is written at the end, or not at all. */
    method ReplaceConf(srcFile: string, tgtFile: string, keyFile: string) returns (ok: bool)
      modifies this
      ensures ok == (srcFile in old(files) && keyFile in old(files) &&
        !Malformed(Settings(ReadLines(old(files)[keyFile])), srcFile != tgtFile))
      ensures !ok ==> files == old(files)
      ensures ok ==> files == old(files)[tgtFile :=
        Join(Merge(ReadLines(old(files)[srcFile]), Settings(ReadLines(old(files)[keyFile])), srcFile != tgtFile))]
    {
      hide *;
      if srcFile !in files {
        return false;
      }
      ghost var source := ReadLines(files[srcFile]);
      var contents := ReadLines(files[srcFile]);
      var replace := srcFile != tgtFile;
      if keyFile !in files {
        return false;
      }
      var lines := ReadLines(files[keyFile]);
      NoSettings(source, replace);
      assert lines[..0] == [] && lines[..|lines|] == lines;
      for i := 0 to |lines|
        invariant files == old(files) && !Malformed(Settings(lines[..i]), replace)
        invariant contents == Merge(source, Settings(lines[..i]), replace)
      {
        var line := Strip(lines[i]);
        ReadStep(source, lines, i, replace);
        if line == "" || line[0] == '#' {
          continue;
        }
        var substring := Fields(line);
        if replace && |substring| == 1 {
          return false;
        }
        NewStringIs(line, replace);
        var newString := if replace && substring[1] == "n" then "# " + Strip(substring[0]) + " is not set\n"
          else line + "\n";
        var now, isFound := ReplaceItems(contents, substring[0], newString);
        contents := now;
        if !isFound {
          contents := contents + [newString];
        }
      }
      files := files[tgtFile := Join(contents)];
      return true;
    }

    /** The main program, from the copy of the remove list to the removal of the temporary list. It
        gives up if there is no remove list. */
    method Release(removeList: string, whitelist: string, srcFile: string, tgtFile: string) returns (started: bool)
      requires TMP_CONF != removeList && TMP_CONF != srcFile && TMP_CONF != tgtFile
      modifies this
      ensures started <==> removeList in old(files)
      ensures !started ==> files == old(files)
      ensures started ==> files == Released(old(files), removeList, whitelist, srcFile, tgtFile)
    {
      if removeList !in files {
        return false;
      }
      ghost var before := files;
      files := files[TMP_CONF := files[removeList]];
      NeverMalformed(SettingsOf(files, whitelist));
      TempListIs(files, removeList, whitelist);
      hide *;
      ghost var list := TempList(files, removeList, whitelist);
      if whitelist in files {
        var ok := ReplaceConf(TMP_CONF, TMP_CONF, whitelist);
      }
      assert files == before[TMP_CONF := list];
      if srcFile in files {
        var ok := ReplaceConf(srcFile, tgtFile, TMP_CONF);
      }
      ReleaseEnds(before, removeList, whitelist, srcFile, tgtFile, list, files);
      files := files - {TMP_CONF};
      return true;
    }
  }

  lemma ReleaseEnds(before: map<string, string>, removeList: string, whitelist: string, srcFile: string,
      tgtFile: string, list: string, after: map<string, string>)
    requires removeList in before && TMP_CONF != srcFile && TMP_CONF != tgtFile
    requires list == TempList(before[TMP_CONF := before[removeList]], removeList, whitelist)
    requires after == if srcFile in before && !Malformed(Settings(ReadLines(list)), srcFile != tgtFile)
                      then before[TMP_CONF := list][tgtFile :=
                        Join(Merge(ReadLines(before[srcFile]), Settings(ReadLines(list)), srcFile != tgtFile))]
                      else before[TMP_CONF := list]
    ensures after - {TMP_CONF} == Released(before, removeList, whitelist, srcFile, tgtFile)
  {
    ReleasedIs(before, removeList, whitelist, srcFile, tgtFile);
    hide *;
    if srcFile in before && !Malformed(Settings(ReadLines(list)), srcFile != tgtFile) {
      WithoutTemp(before, TMP_CONF, list, tgtFile,
        Join(Merge(ReadLines(before[srcFile]), Settings(ReadLines(list)), srcFile != tgtFile)));
    } else {
      WithoutTemp(before, TMP_CONF, list, tgtFile, "");
    }
  }

  lemma TempListIs(files: map<string, string>, removeList: string, whitelist: string)
    requires removeList in files
    ensures TempList(files, removeList, whitelist)
      == Join(Merge(ReadLines(files[removeList]), SettingsOf(files, whitelist), false))
    ensures SettingsOf(files, whitelist) == if whitelist in files then Settings(ReadLines(files[whitelist])) else []
    ensures Join(Merge(ReadLines(files[removeList]), [], false)) == files[removeList]
  {
    NoWhitelist(files[removeList]);
  }

  lemma WithoutTemp(files: map<string, string>, temp: string, list: string, name: string, text: string)
    requires name != temp
    ensures files[temp := list] - {temp} == files - {temp}
    ensures files[temp := list][name := text] - {temp} == files[name := text] - {temp}
  {
  }

  lemma NeverMalformed(settings: seq<string>)
    ensures !Malformed(settings, false)
  {
  }

  lemma {:induction false} TokenChars(s: string, separators: set<char>, t: string)
    requires t in SplitOn(s, separators)
    ensures forall c :: c in t ==> c !in separators
  {
    if s != "" {
      var rest := SplitOn(s[1..], separators);
      if s[0] in separators {
        if t != "" {
          assert t in rest;
          TokenChars(s[1..], separators, t);
        }
      } else if t == [s[0]] + rest[0] {
        TokenChars(s[1..], separators, rest[0]);
      } else {
        assert t in rest[1..];
        TokenChars(s[1..], separators, t);
      }
    }
  }

  lemma {:induction false} OneField(s: string, separators: set<char>)
    requires |SplitOn(s, separators)| == 1
    ensures SplitOn(s, separators) == [s]
  {
    if s != "" {
      OneField(s[1..], separators);
      assert s == [s[0]] + s[1..];
    }
  }

  /** A setting that becomes a line which mentions its key has a `=`. */
  lemma SoundHasFields(line: string, keys: set<string>)
    requires Sound(line, true, keys)
    ensures |Fields(line)| > 1
  {
    if |Fields(line)| == 1 {
      OneField(line, {'='});
      assert line in SplitOn(line, {'='});
      TokenChars(line, {'='}, line);
      TokenChars(line + "\n", {'=', ' '}, line);
      NoSeparator(line + "\n", {'=', ' '});
    }
  }

  lemma SoundIsWellFormed(settings: seq<string>, keys: set<string>)
    requires AllSound(settings, true, keys)
    ensures !Malformed(settings, true)
  {
    forall line | line in settings ensures |Fields(line)| != 1 {
      SoundHasFields(line, keys);
    }
    hide Fields;
  }

  lemma StageIsWellFormed(remove: seq<string>, white: seq<string>)
    requires !Malformed(Settings(white), true) && !Malformed(Settings(remove), true)
    ensures !Malformed(Settings(Merge(remove, Settings(white), false)), true)
  {
    MergedSettings(remove, white);
    hide Fields, Settings, Merge;
  }

  /** The settings of the temporary list. */
  function Stage(files: map<string, string>, removeList: string, whitelist: string): seq<string>
    requires removeList in files
  {
    Settings(Merge(ReadLines(files[removeList]), SettingsOf(files, whitelist), false))
  }

  /** The names are those of different files where they must be, every setting can be read, and both the
      temporary list and the target are read back as they were merged. */
  ghost predicate Releasable(files: map<string, string>, removeList: string, whitelist: string, srcFile: string,
      tgtFile: string) {
    && removeList in files && srcFile in files && srcFile != tgtFile
    && TMP_CONF != removeList && TMP_CONF != whitelist && TMP_CONF != tgtFile
    && !Malformed(SettingsOf(files, whitelist), true) && !Malformed(SettingsOf(files, removeList), true)
    && ReadsBack(files[removeList], SettingsOf(files, whitelist), false)
    && ReadsBack(files[srcFile], Stage(files, removeList, whitelist), true)
  }

  /** What the main program leaves in the target, read back as lines. */
  function Target(files: map<string, string>, removeList: string, whitelist: string, srcFile: string,
      tgtFile: string): seq<string>
    requires removeList in files && tgtFile in Released(files, removeList, whitelist, srcFile, tgtFile)
  {
    ReadLines(Released(files, removeList, whitelist, srcFile, tgtFile)[tgtFile])
  }

  /** It is the merge of the lines. */
  lemma ReleasedLines(files: map<string, string>, removeList: string, whitelist: string, srcFile: string,
      tgtFile: string)
    requires Releasable(files, removeList, whitelist, srcFile, tgtFile)
    ensures tgtFile in Released(files, removeList, whitelist, srcFile, tgtFile)
    ensures Target(files, removeList, whitelist, srcFile, tgtFile) ==
      Merge(ReadLines(files[srcFile]), Stage(files, removeList, whitelist), true)
  {
    var remove, white := ReadLines(files[removeList]), ReadLines(TextOf(files, whitelist));
    var copied := files[TMP_CONF := files[removeList]];
    var list := TempList(copied, removeList, whitelist);
    assert list == Join(Merge(remove, Settings(white), false)) by {
      assert copied[removeList] == files[removeList] && TextOf(copied, whitelist) == TextOf(files, whitelist);
    }
    MergedIsReadBackIff(files[removeList], TextOf(files, whitelist), false);
    assert Settings(ReadLines(list)) == Stage(files, removeList, whitelist);
    MergedIsReadBackIff(files[srcFile], list, true);
    StageIsWellFormed(remove, white);
    ReleasedIs(files, removeList, whitelist, srcFile, tgtFile);
    hide Merge, ReadLines, Settings, Join, Released, Malformed, TempList, ReadsBack, TextOf;
  }

  /** Every source line that mentions no key of either list is in its place as it was. */
  lemma ReleaseLeavesOthers(files: map<string, string>, removeList: string, whitelist: string, srcFile: string,
      tgtFile: string, i: nat)
    requires Releasable(files, removeList, whitelist, srcFile, tgtFile) && i < |ReadLines(files[srcFile])|
    requires Spared(ReadLines(files[srcFile])[i], SettingsOf(files, whitelist))
    requires Spared(ReadLines(files[srcFile])[i], SettingsOf(files, removeList))
    ensures tgtFile in Released(files, removeList, whitelist, srcFile, tgtFile)
    ensures var result := Target(files, removeList, whitelist, srcFile, tgtFile);
      i < |result| && result[i] == ReadLines(files[srcFile])[i]
  {
    ReleasedLines(files, removeList, whitelist, srcFile, tgtFile);
    LayersLeaveOthers(ReadLines(files[srcFile]), ReadLines(files[removeList]), ReadLines(TextOf(files, whitelist)), i);
    assert TextOf(files, removeList) == files[removeList];
    hide Merge, ReadLines, Settings, Released, Target, Releasable, Spared;
  }

  /** Every key for which the layers are kept apart, and whose last setting wins, is overridden in layers. */
  lemma ReleaseIsLayered(files: map<string, string>, removeList: string, whitelist: string, srcFile: string,
      tgtFile: string, keys: set<string>, key: string)
    requires Releasable(files, removeList, whitelist, srcFile, tgtFile)
    requires AllSound(SettingsOf(files, whitelist), false, keys)
    requires Layered(ReadLines(files[removeList]), SettingsOf(files, whitelist), key)
    requires LastWins(Stage(files, removeList, whitelist), true, key)
    ensures tgtFile in Released(files, removeList, whitelist, srcFile, tgtFile)
    ensures var wanted := Wanted(ReadLines(files[removeList]), ReadLines(TextOf(files, whitelist)), key);
      wanted.Some? ==>
        Says(Target(files, removeList, whitelist, srcFile, tgtFile), key, NewString(wanted.value, true))
  {
    ReleasedLines(files, removeList, whitelist, srcFile, tgtFile);
    var source, remove, white :=
      ReadLines(files[srcFile]), ReadLines(files[removeList]), ReadLines(TextOf(files, whitelist));
    LayeredOverrideIff(source, remove, white, keys, key);
    hide Merge, ReadLines, Settings, Released, Target, Releasable, Layered, AllSound, Last, Says, NewString, LastWins;
  }
}
