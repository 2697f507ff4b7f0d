/** The parser of the list of required Secrets, and the two notations it reads back. */
module SecretsList {
  import opened Kube

  const K8S_SECRETS_KEY := "conjur.org/k8s-secrets"
  const K8S_SECRETS_ENV := "K8S_SECRETS"

  /** `strings.ReplaceAll(s, "- ", "")`. */
  function DropDashes(s: string): string {
    if |s| < 2 then s
    else if s[0] == '-' && s[1] == ' ' then DropDashes(s[2..])
    else [s[0]] + DropDashes(s[1..])
  }

  /** `strings.ReplaceAll(s, " ", "")`. */
  function DropSpaces(s: string): string {
    if s == "" then ""
    else if s[0] == ' ' then DropSpaces(s[1..])
    else [s[0]] + DropSpaces(s[1..])
  }

  /** `strings.Split` on one character. */
  function Split(s: string, c: char): (r: seq<string>)
    ensures |r| > 0
  {
    if s == "" then [""]
    else
      var rest := Split(s[1..], c);
      if s[0] == c then [""] + rest else [[s[0]] + rest[0]] + rest[1..]
  }

  function NonEmpty(items: seq<string>): seq<string> {
    if items == [] then []
    else NonEmpty(items[..|items| - 1]) + (if items[|items| - 1] != "" then [items[|items| - 1]] else [])
  }

  function SettingOf(settings: map<string, string>, key: string): string {
    if key in settings then settings[key] else ""
  }

  function Items(settings: map<string, string>): seq<string> {
    var annotation := SettingOf(settings, K8S_SECRETS_KEY);
    if annotation != "" then Split(DropDashes(annotation), '\n')
    else Split(DropSpaces(SettingOf(settings, K8S_SECRETS_ENV)), ',')
  }

  lemma {:induction false} NonEmptyLength(items: seq<string>)
    ensures |NonEmpty(items)| <= |items|
  {
    if items != [] { NonEmptyLength(items[..|items| - 1]); }
  }

  /** The in-place compaction keeps the non-empty items in order. */
  method Compact(items: array<string>) returns (writeIndex: nat)
    modifies items
    ensures writeIndex <= items.Length
    ensures items[..writeIndex] == NonEmpty(old(items[..]))
  {
    writeIndex := 0;
    ghost var all := items[..];
    for i := 0 to items.Length
      invariant writeIndex <= i
      invariant items[..writeIndex] == NonEmpty(all[..i])
      invariant forall j | i <= j < items.Length :: items[j] == all[j]
    {
      assert all[..i + 1][..i] == all[..i];
      var str := items[i];
      if str != "" {
        items[writeIndex] := str;
        writeIndex := writeIndex + 1;
        assert items[..writeIndex] == items[..writeIndex - 1] + [str];
      }
    }
    assert all[..items.Length] == all;
  }

  method ParseK8sSecretsList(settings: map<string, string>) returns (names: seq<string>)
    ensures names == NonEmpty(Items(settings))
  {
    var split := Items(settings);
    var items := new string[|split|](i requires 0 <= i < |split| => split[i]);
    assert items[..] == split;
    var writeIndex := Compact(items);
    return items[..writeIndex];
  }

  // ---- reading back what was printed ----

  predicate Free(s: string, c: char) {
    c !in s
  }

  function JoinWith(names: seq<string>, c: char): string {
    if names == [] then ""
    else if |names| == 1 then names[0]
    else names[0] + [c] + JoinWith(names[1..], c)
  }

  /** A YAML list, one `- name` line each. */
  function YamlList(names: seq<string>): string {
    if names == [] then "" else "- " + names[0] + "\n" + YamlList(names[1..])
  }

  function Lines(names: seq<string>): string {
    if names == [] then "" else names[0] + "\n" + Lines(names[1..])
  }

  lemma {:induction false} SplitHead(head: string, c: char, rest: string)
    requires Free(head, c)
    ensures Split(head + [c] + rest, c) == [head] + Split(rest, c)
    ensures Split(head, c) == [head]
  {
    var s := head + [c] + rest;
    if head == "" {
      assert s[1..] == rest;
    } else {
      SplitHead(head[1..], c, rest);
      assert s[1..] == head[1..] + [c] + rest;
      assert [head[0]] + head[1..] == head;
    }
  }

  lemma {:induction false} SplitJoin(names: seq<string>, c: char)
    requires forall name | name in names :: Free(name, c)
    requires names != []
    ensures Split(JoinWith(names, c), c) == names
  {
    assert names[0] in names;
    if |names| == 1 {
      SplitHead(names[0], c, "");
    } else {
      SplitHead(names[0], c, JoinWith(names[1..], c));
      SplitJoin(names[1..], c);
      assert [names[0]] + names[1..] == names;
    }
  }

  lemma {:induction false} SplitLines(names: seq<string>)
    requires forall name | name in names :: Free(name, '\n')
    ensures Split(Lines(names), '\n') == names + [""]
  {
    if names != [] {
      assert names[0] in names;
      SplitHead(names[0], '\n', Lines(names[1..]));
      SplitLines(names[1..]);
      assert names[0] + "\n" + Lines(names[1..]) == names[0] + ['\n'] + Lines(names[1..]);
      assert [names[0]] + (names[1..] + [""]) == names + [""];
    }
  }

  lemma {:induction false} NonEmptyAll(names: seq<string>)
    requires forall name | name in names :: name != ""
    ensures NonEmpty(names) == names
    ensures NonEmpty(names + [""]) == names
  {
    assert (names + [""])[..|names|] == names;
    if names != [] {
      var n := |names| - 1;
      assert names[n] in names;
      assert forall name | name in names[..n] :: name in names;
      NonEmptyAll(names[..n]);
      assert names[..n] + [names[n]] == names;
    }
  }

  lemma {:induction false} NoSpacesToDrop(s: string)
    requires Free(s, ' ')
    ensures DropSpaces(s) == s
  {
    if s != "" {
      NoSpacesToDrop(s[1..]);
      assert [s[0]] + s[1..] == s;
    }
  }

  lemma {:induction false} JoinFree(names: seq<string>, c: char, d: char)
    requires c != d && forall name | name in names :: Free(name, d)
    ensures Free(JoinWith(names, c), d)
  {
    if names != [] {
      assert names[0] in names;
      JoinFree(names[1..], c, d);
    }
  }

  lemma {:induction false} DropInLine(name: string, rest: string)
    requires Free(name, ' ') && Free(name, '\n')
    ensures DropDashes(name + "\n" + rest) == name + "\n" + DropDashes(rest)
  {
    var s := name + "\n" + rest;
    if name == "" {
      assert s[0] == '\n' && s[1..] == rest;
    } else {
      assert s[1] == if |name| > 1 then name[1] else '\n';
      assert s[1..] == name[1..] + "\n" + rest;
      DropInLine(name[1..], rest);
      assert [s[0]] + (name[1..] + "\n" + DropDashes(rest)) == name + "\n" + DropDashes(rest);
    }
  }

  lemma {:induction false} DropBullets(names: seq<string>)
    requires forall name | name in names :: Free(name, ' ') && Free(name, '\n')
    ensures DropDashes(YamlList(names)) == Lines(names)
  {
    if names != [] {
      assert names[0] in names;
      var s := YamlList(names);
      assert s[0] == '-' && s[1] == ' ' && s[2..] == names[0] + "\n" + YamlList(names[1..]);
      DropInLine(names[0], YamlList(names[1..]));
      DropBullets(names[1..]);
    }
  }

  /** Comma-joined names without commas or spaces are read back. */
  lemma CommaListRoundTrip(settings: map<string, string>, names: seq<string>)
    requires forall name | name in names :: name != "" && Free(name, ',') && Free(name, ' ')
    requires SettingOf(settings, K8S_SECRETS_KEY) == "" && SettingOf(settings, K8S_SECRETS_ENV) == JoinWith(names, ',')
    ensures NonEmpty(Items(settings)) == names
  {
    JoinFree(names, ',', ' ');
    NoSpacesToDrop(JoinWith(names, ','));
    NonEmptyAll(names);
    if names != [] {
      SplitJoin(names, ',');
    } else {
      assert NonEmpty([""]) == [];
    }
  }

  /** A YAML list of names without spaces or newlines is read back. */
  lemma YamlListRoundTrip(settings: map<string, string>, names: seq<string>)
    requires names != [] && forall name | name in names :: name != "" && Free(name, ' ') && Free(name, '\n')
    requires SettingOf(settings, K8S_SECRETS_KEY) == YamlList(names)
    ensures NonEmpty(Items(settings)) == names
  {
    DropBullets(names);
    SplitLines(names);
    NonEmptyAll(names);
    assert |YamlList(names)| >= 2;
  }

  /** Names joined by a comma and a space. */
  function SpacedList(names: seq<string>): string {
    if names == [] then ""
    else if |names| == 1 then names[0]
    else names[0] + ", " + SpacedList(names[1..])
  }

  lemma {:induction false} DropInPart(part: string, rest: string)
    requires Free(part, ' ')
    ensures DropSpaces(part + rest) == part + DropSpaces(rest)
  {
    var s := part + rest;
    if part == "" {
      assert s == rest;
    } else {
      assert s[1..] == part[1..] + rest;
      DropInPart(part[1..], rest);
      assert [s[0]] + (part[1..] + DropSpaces(rest)) == part + DropSpaces(rest);
    }
  }

  lemma {:induction false} DropInSpacedList(names: seq<string>)
    requires forall name | name in names :: Free(name, ' ')
    ensures DropSpaces(SpacedList(names)) == JoinWith(names, ',')
  {
    if |names| == 1 {
      assert names[0] in names;
      NoSpacesToDrop(names[0]);
    } else if names != [] {
      assert names[0] in names;
      var part, tail := names[0] + ",", SpacedList(names[1..]);
      assert SpacedList(names) == part + (" " + tail);
      DropInPart(part, " " + tail);
      assert (" " + tail)[1..] == tail;
      DropInSpacedList(names[1..]);
    }
  }

  /** A space after each comma changes nothing. */
  lemma SpacedListRoundTrip(settings: map<string, string>, names: seq<string>)
    requires forall name | name in names :: name != "" && Free(name, ',') && Free(name, ' ')
    requires SettingOf(settings, K8S_SECRETS_KEY) == "" && SettingOf(settings, K8S_SECRETS_ENV) == SpacedList(names)
    ensures NonEmpty(Items(settings)) == names
  {
    DropInSpacedList(names);
    NonEmptyAll(names);
    if names != [] {
      SplitJoin(names, ',');
    } else {
      assert NonEmpty([""]) == [];
    }
  }
}
