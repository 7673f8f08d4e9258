/** The lines of a kernel configuration as they are written: what a line sets, what it mentions, and what is
    written for a setting. */
module ConfigText {
  import opened Collections
  import opened ConfigMerge

  predicate AllSpace(s: string) {
    forall i :: 0 <= i < |s| ==> IsSpace(s[i])
  }

  /** Text that begins and ends with something else than white space. */
  predicate Tight(t: string) {
    t != "" && !IsSpace(t[0]) && !IsSpace(t[|t| - 1])
  }

  // ---------------------------------------------------------------- strip

  lemma {:induction false} StripLeftOf(pre: string, t: string)
    requires AllSpace(pre) && (t == "" || !IsSpace(t[0]))
    ensures StripLeft(pre + t) == t
  {
    if pre == "" {
      assert pre + t == t;
    } else {
      assert (pre + t)[1..] == pre[1..] + t && (pre + t)[0] == pre[0];
      StripLeftOf(pre[1..], t);
    }
  }

  lemma {:induction false} StripRightOf(t: string, post: string)
    requires AllSpace(post) && (t == "" || !IsSpace(t[|t| - 1]))
    ensures StripRight(t + post) == t
  {
    if post == "" {
      assert t + post == t;
    } else {
      var s := t + post;
      assert s[..|s| - 1] == t + post[..|post| - 1] && s[|s| - 1] == post[|post| - 1];
      StripRightOf(t, post[..|post| - 1]);
    }
  }

  /** Stripping takes the white space off both ends, and nothing else. */
  lemma StripOf(pre: string, t: string, post: string)
    requires AllSpace(pre) && AllSpace(post) && (t == "" || Tight(t))
    ensures Strip(pre + t + post) == t
  {
    if t == "" {
      assert pre + t + post == pre + post;
      assert AllSpace(pre + post);
      StripLeftOf(pre + post, "");
      assert pre + post + "" == pre + post;
    } else {
      assert pre + t + post == pre + (t + post) && (t + post)[0] == t[0];
      StripLeftOf(pre, t + post);
      StripRightOf(t, post);
    }
  }

  // ---------------------------------------------------------------- settings

  /** A line sets what stands in it between white space, unless that begins with `#`; a blank line sets nothing. */
  lemma SettingOf(pre: string, t: string, post: string)
    requires AllSpace(pre) && AllSpace(post) && (t == "" || Tight(t))
    ensures Setting(pre + t + post) == if t == "" || t[0] == '#' then None else Some(t)
  {
    StripOf(pre, t, post);
    hide Strip;
  }

  /** The settings of a file are those of its lines, in order. */
  lemma {:induction false} SettingsConcat(a: seq<string>, b: seq<string>)
    ensures Settings(a + b) == Settings(a) + Settings(b)
    decreases |b|
  {
    if b == [] {
      assert a + b == a;
    } else {
      var n := |b| - 1;
      assert (a + b)[..|a + b| - 1] == a + b[..n] && (a + b)[|a + b| - 1] == b[n];
      SettingsConcat(a, b[..n]);
      hide Setting;
      if Setting(b[n]).Some? {
        Associative(Settings(a), Settings(b[..n]), [Setting(b[n]).value]);
      }
    }
  }

  lemma SettingsOfOne(item: string)
    ensures Settings([item]) == if Setting(item).Some? then [Setting(item).value] else []
  {
    assert [item][..0] == [];
    hide Setting;
  }

  // ---------------------------------------------------------------- pieces between separators

  /** `t` stands in `s` between separators, the ends of `s` included, and has none inside. */
  ghost predicate Piece(s: string, separators: set<char>, t: string, a: string, b: string) {
    && s == a + t + b && (forall i :: 0 <= i < |t| ==> t[i] !in separators)
    && (a == "" || a[|a| - 1] in separators) && (b == "" || b[0] in separators)
  }

  /** Splitting finds exactly these pieces. */
  lemma {:induction false} PieceIsFound(s: string, separators: set<char>, t: string, a: string, b: string)
    requires Piece(s, separators, t, a, b)
    ensures t in SplitOn(s, separators) && (a == "" ==> SplitOn(s, separators)[0] == t)
    decreases |a|
  {
    if a == "" {
      assert s == t + b;
      FirstPiece(t, b, separators);
    } else {
      var rest := SplitOn(s[1..], separators);
      assert s[0] == a[0] && s[1..] == a[1..] + t + b;
      PieceIsFound(s[1..], separators, t, a[1..], b);
      if s[0] !in separators {
        assert a[1..] != "";
        LaterPiece(s[1..], separators, t, a[1..], b);
      }
    }
  }

  lemma {:induction false} FirstPiece(t: string, b: string, separators: set<char>)
    requires (forall i :: 0 <= i < |t| ==> t[i] !in separators) && (b == "" || b[0] in separators)
    ensures SplitOn(t + b, separators)[0] == t
  {
    if t == "" {
      assert t + b == b;
    } else {
      assert (t + b)[1..] == t[1..] + b && (t + b)[0] == t[0];
      FirstPiece(t[1..], b, separators);
      assert t == [t[0]] + t[1..];
    }
  }

  /** One that does not stand at the beginning is not the first. */
  lemma {:induction false} LaterPiece(s: string, separators: set<char>, t: string, a: string, b: string)
    requires Piece(s, separators, t, a, b) && a != ""
    ensures t in SplitOn(s, separators)[1..]
    decreases |a|
  {
    var rest := SplitOn(s[1..], separators);
    assert s[0] == a[0] && s[1..] == a[1..] + t + b;
    if s[0] in separators {
      PieceIsFound(s[1..], separators, t, a[1..], b);
      assert ([""] + rest)[1..] == rest;
    } else {
      assert a[1..] != "";
      LaterPiece(s[1..], separators, t, a[1..], b);
      assert ([[s[0]] + rest[0]] + rest[1..])[1..] == rest[1..];
    }
  }

  lemma {:induction false} FoundIsPiece(s: string, separators: set<char>, k: nat) returns (a: string, b: string)
    requires k < |SplitOn(s, separators)|
    ensures Piece(s, separators, SplitOn(s, separators)[k], a, b) && (k == 0 <==> a == "")
    decreases |s|
  {
    if s == "" {
      a, b := "", "";
    } else {
      var rest := SplitOn(s[1..], separators);
      SplitUnfolds(s, separators);
      hide SplitOn, Piece;
      if s[0] in separators && k == 0 {
        a, b := "", s;
        PieceAtStart(s, separators);
      } else {
        var i := if s[0] in separators then k - 1 else k;
        a, b := FoundIsPiece(s[1..], separators, i);
        PieceLater(s, separators, rest[i], a, b);
        a := if k == 0 then "" else [s[0]] + a;
      }
    }
  }

  lemma SplitUnfolds(s: string, separators: set<char>)
    requires s != ""
    ensures var rest, all := SplitOn(s[1..], separators), SplitOn(s, separators);
      if s[0] in separators then |all| == |rest| + 1 && all[0] == "" && forall k :: 0 < k < |all| ==>
        all[k] == rest[k - 1]
      else |all| == |rest| && all[0] == [s[0]] + rest[0] && forall k :: 0 < k < |all| ==> all[k] == rest[k]
  {
  }

  lemma PieceAtStart(s: string, separators: set<char>)
    requires s != "" && s[0] in separators
    ensures Piece(s, separators, "", "", s)
  {
    assert s == "" + "" + s;
  }

  /** One more character in front: it ends the text before the piece, or it begins the piece. */
  lemma PieceLater(s: string, separators: set<char>, t: string, a: string, b: string)
    requires s != "" && Piece(s[1..], separators, t, a, b)
    ensures a != "" || s[0] in separators ==> Piece(s, separators, t, [s[0]] + a, b)
    ensures a == "" && s[0] !in separators ==> Piece(s, separators, [s[0]] + t, "", b)
  {
    assert s == [s[0]] + (a + t + b);
    assert s == ([s[0]] + a) + t + b;
    if a == "" {
      assert s == "" + ([s[0]] + t) + b;
    }
  }

  /** A line mentions a key exactly if the key stands in it between `=`, blanks and the ends. */
  lemma MentionsIff(item: string, key: string)
    ensures Mentions(item, key) <==> exists a, b :: Piece(item, {'=', ' '}, key, a, b)
  {
    if Mentions(item, key) {
      var k :| 0 <= k < |Tokens(item)| && Tokens(item)[k] == key;
      var a, b := FoundIsPiece(item, {'=', ' '}, k);
    }
    if a, b :| Piece(item, {'=', ' '}, key, a, b) {
      PieceIsFound(item, {'=', ' '}, key, a, b);
    }
  }

  // ---------------------------------------------------------------- keys and values

  lemma {:induction false} FieldsOf(key: string, rest: string)
    requires '=' !in key
    ensures Fields(key + "=" + rest) == [key] + Fields(rest)
  {
    FirstToken(key, rest, {'='}, '=');
  }

  /** What is before the first `=` is the key, and a line without one is a key. */
  lemma KeyOf(key: string, rest: string)
    requires '=' !in key
    ensures Key(key + "=" + rest) == key && Key(key) == key
    ensures |Fields(key + "=" + rest)| > 1 && |Fields(key)| == 1
  {
    FieldsOf(key, rest);
    NoSeparator(key, {'='});
  }

  lemma {:induction false} FieldsCount(line: string)
    ensures |Fields(line)| > 1 <==> '=' in line
  {
    if '=' in line {
      var i := IndexOfEquals(line);
      assert line == line[..i] + "=" + line[i + 1..];
      KeyOf(line[..i], line[i + 1..]);
    } else {
      NoSeparator(line, {'='});
    }
  }

  lemma {:induction false} IndexOfEquals(line: string) returns (i: nat)
    requires '=' in line
    ensures i < |line| && line[i] == '=' && '=' !in line[..i]
  {
    if line[0] == '=' {
      i := 0;
    } else {
      i := IndexOfEquals(line[1..]);
      assert line[..i + 1] == [line[0]] + line[1..][..i];
      i := i + 1;
    }
  }

  /** The value of a setting ends at the next `=`, if there is one. */
  lemma ValueOf(key: string, value: string, rest: string)
    requires '=' !in key && '=' !in value
    ensures |Fields(key + "=" + value)| > 1 && Fields(key + "=" + value)[1] == value
    ensures |Fields(key + "=" + value + "=" + rest)| > 1 && Fields(key + "=" + value + "=" + rest)[1] == value
  {
    FieldsOf(key, value);
    NoSeparator(value, {'='});
    assert key + "=" + value + "=" + rest == key + "=" + (value + "=" + rest);
    FieldsOf(key, value + "=" + rest);
    FieldsOf(value, rest);
  }

  /** What is written for a setting: that its key is not set, if source and target differ and the value is `n`, and
      the setting itself in every other case; with a line end. */
  lemma WrittenAs(key: string, value: string)
    requires '=' !in key && '=' !in value
    ensures NewString(key + "=" + value, true) ==
      if value == "n" then "# " + Strip(key) + " is not set\n" else key + "=" + value + "\n"
    ensures NewString(key + "=" + value, false) == key + "=" + value + "\n"
    ensures Tight(key) ==> Strip(key) == key
  {
    KeyOf(key, value);
    ValueOf(key, value, "");
    if Tight(key) {
      assert "" + key + "" == key;
      StripOf("", key, "");
    }
    hide Fields, Strip;
  }

  /** A setting that says `n` is read back by the next merge as a comment, so that it sets nothing. */
  lemma NotSetSetsNothing(key: string)
    requires '=' !in key && Tight(key)
    ensures Setting(NewString(key + "=n", true)) == None
  {
    WrittenAs(key, "n");
    assert key + "=n" == key + "=" + "n";
    var t := "# " + key + " is not set";
    assert "" + t + "\n" == "# " + key + " is not set\n";
    assert t[0] == '#' && t[|t| - 1] == 't';
    SettingOf("", t, "\n");
    hide NewString, Setting;
  }

  /** The settings that raise an exception when source and target differ are those without a `=`. */
  lemma MalformedIff(settings: seq<string>, replace: bool)
    ensures Malformed(settings, replace) <==> replace && exists line :: line in settings && '=' !in line
  {
    forall line ensures |Fields(line)| == 1 <==> '=' !in line {
      FieldsCount(line);
    }
    hide Fields;
  }

  // ---------------------------------------------------------------- files

  lemma {:induction false} JoinConcat(a: seq<string>, b: seq<string>)
    ensures Join(a + b) == Join(a) + Join(b)
  {
    if a == [] {
      assert a + b == b;
    } else {
      assert (a + b)[1..] == a[1..] + b && (a + b)[0] == a[0];
      JoinConcat(a[1..], b);
    }
  }

  lemma JoinOne(line: string)
    ensures Join([line]) == line && Join([]) == ""
  {
    assert [line][1..] == [];
    assert line + "" == line;
  }

  /** The main program writes the target and removes the temporary list, and no other file changes; without a
      source, or with a setting that cannot be read, the target stays as it was. */
  lemma ReleasedOthers(files: map<string, string>, removeList: string, whitelist: string, srcFile: string,
      tgtFile: string, name: string)
    requires removeList in files && name != TMP_CONF
    ensures var after := Released(files, removeList, whitelist, srcFile, tgtFile);
      && TMP_CONF !in after
      && (name != tgtFile || srcFile !in files ==>
            (name in after <==> name in files) && (name in files ==> after[name] == files[name]))
  {
    ReleasedIs(files, removeList, whitelist, srcFile, tgtFile);
    hide TempList, Merge, ReadLines, Settings, Join, Released, Malformed;
  }

  /** The settings one after the other, each written as it is: on the lines that mention its key, or else at the
      end. */
  function AsWritten(contents: seq<string>, settings: seq<string>): seq<string>
    decreases |settings|
  {
    if settings == [] then contents
    else
      var line := settings[0];
      AsWritten(if exists item | item in contents :: Mentions(item, Key(line)) then
                  seq(|contents|, i requires 0 <= i < |contents| =>
                    if Mentions(contents[i], Key(line)) then line + "\n" else contents[i])
                else contents + [line + "\n"], settings[1..])
  }

  lemma {:induction false} MergeFront(contents: seq<string>, settings: seq<string>, replace: bool)
    requires settings != []
    ensures var first := Apply(contents, Key(settings[0]), NewString(settings[0], replace));
      Merge(contents, settings, replace) == Merge(first, settings[1..], replace)
    decreases |settings|
  {
    var n := |settings| - 1;
    hide Apply, Key, NewString;
    if n == 0 {
      assert settings[..0] == [] && settings[1..] == [];
    } else {
      MergeFront(contents, settings[..n], replace);
      assert settings[..n][1..] == settings[1..][..n - 1];
      assert settings[1..][n - 1] == settings[n] && settings[..n][0] == settings[0];
    }
  }

  lemma {:induction false} MergeAsWritten(contents: seq<string>, settings: seq<string>)
    ensures Merge(contents, settings, false) == AsWritten(contents, settings)
    decreases |settings|
  {
    if settings != [] {
      var line := settings[0];
      MergeFront(contents, settings, false);
      assert NewString(line, false) == line + "\n";
      assert Replaced(contents, Key(line), line + "\n") ==
        seq(|contents|, i requires 0 <= i < |contents| =>
          if Mentions(contents[i], Key(line)) then line + "\n" else contents[i]);
      hide Mentions, Key, Merge, NewString;
      MergeAsWritten(Apply(contents, Key(line), line + "\n"), settings[1..]);
    }
  }

  /** Where source and target are one file the settings are written as they are, `n` included, and none of them can
      be one that cannot be read. */
  lemma ReleasedInPlace(files: map<string, string>, removeList: string, whitelist: string, file: string)
    requires removeList in files && file in files && file != TMP_CONF
    ensures var after := Released(files, removeList, whitelist, file, file);
      var list := TempList(files[TMP_CONF := files[removeList]], removeList, whitelist);
      file in after && after[file] == Join(AsWritten(ReadLines(files[file]), Settings(ReadLines(list))))
  {
    ReleasedIs(files, removeList, whitelist, file, file);
    var list := TempList(files[TMP_CONF := files[removeList]], removeList, whitelist);
    MergeAsWritten(ReadLines(files[file]), Settings(ReadLines(list)));
    assert !Malformed(Settings(ReadLines(list)), false) by { MalformedIff(Settings(ReadLines(list)), false); }
    hide TempList, Merge, ReadLines, Settings, Join, Released, Malformed, AsWritten;
  }

  /** The temporary list is the remove list with the settings of the whitelist written into it as they are. */
  lemma TempListAsWritten(files: map<string, string>, removeList: string, whitelist: string)
    requires removeList in files
    ensures var white := if whitelist in files then Settings(ReadLines(files[whitelist])) else [];
      TempList(files, removeList, whitelist) == Join(AsWritten(ReadLines(files[removeList]), white))
  {
    assert ReadLines("") == [] && Settings([]) == [];
    MergeAsWritten(ReadLines(files[removeList]), SettingsOf(files, whitelist));
    hide Merge, ReadLines, Settings, Join, AsWritten;
  }
}
