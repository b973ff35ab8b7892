/**
  The KEY=VALUE file format: loading and deleting in
  internal/credentials/envd_store.go, and the env case of formatCredentials
  with parseEnvFormat in cmd/wtmcpctl/cred_ops.go.
 */
module EnvFile {
  import opened Wrappers
  import Text

  /* ----- characters and lines ----- */

  // unicode.IsSpace
  predicate IsSpace(c: char) {
    var n := c as int;
    9 <= n <= 13 || n == 32 || n == 0x85 || n == 0xa0 || n == 0x1680 || 0x2000 <= n <= 0x200a
    || n == 0x2028 || n == 0x2029 || n == 0x202f || n == 0x205f || n == 0x3000
  }

  function TrimLeft(s: string): string {
    if s != "" && IsSpace(s[0]) then TrimLeft(s[1..]) else s
  }

  function TrimRight(s: string): string {
    if s != "" && IsSpace(s[|s| - 1]) then TrimRight(s[..|s| - 1]) else s
  }

  function Trim(s: string): string {
    TrimRight(TrimLeft(s))
  }

  function Lines(text: string): seq<string> {
    Text.Split(text, '\n')
  }

  function Join(lines: seq<string>): string {
    Text.Join(lines, '\n')
  }

  function Width(c: char): nat {
    if c < '\U{80}' then 1 else if c < '\U{800}' then 2 else if c < '\U{10000}' then 3 else 4
  }

  // Length in bytes.
  function Bytes(s: string): nat {
    if s == "" then 0 else Width(s[0]) + Bytes(s[1..])
  }

  // bufio.Scanner gives up on a line that fills its 64 KiB buffer.
  const MaxLine: nat := 65536

  predicate TooLong(line: string) {
    Bytes(line) >= MaxLine
  }

  /* ----- one line ----- */

  function StripExport(s: string): string {
    if |s| >= 7 && s[..7] == "export " then s[7..] else s
  }

  function Index(s: string, c: char): (i: nat)
    ensures i <= |s| && c !in s[..i] && (i < |s| ==> s[i] == c)
  {
    if s == "" || s[0] == c then 0
    else
      var i := Index(s[1..], c) + 1;
      assert s[..i] == [s[0]] + s[1..][..i - 1];
      i
  }

  function StripQuote(s: string, q: char): string {
    if |s| >= 2 && s[0] == q && s[|s| - 1] == q then s[1..|s| - 1] else s
  }

  function Unquote(s: string): string {
    StripQuote(StripQuote(s, '"'), '\'')
  }

  function ParseLine(line: string): Option<(string, string)> {
    ParseTrimmed(Trim(line))
  }

  function ParseTrimmed(trimmed: string): Option<(string, string)> {
    if trimmed == "" || trimmed[0] == '#' then None
    else
      var body := StripExport(trimmed);
      var idx := Index(body, '=');
      if idx == |body| then None
      else Some((Trim(body[..idx]), Unquote(Trim(body[idx + 1..]))))
  }

  /* ----- files ----- */

  function Assign(vars: map<string, string>, line: string): map<string, string> {
    match ParseLine(line)
    case None => vars
    case Some((k, v)) => vars[k := v]
  }

  function Vars(lines: seq<string>): map<string, string> {
    if lines == [] then map[] else Assign(Vars(lines[..|lines| - 1]), lines[|lines| - 1])
  }

  datatype Loaded = Loaded(vars: map<string, string>) | LineTooLong

  ghost function Load(text: string): Loaded {
    if exists line :: line in Lines(text) && TooLong(line) then LineTooLong else Loaded(Vars(Lines(text)))
  }

  predicate Assigns(line: string, key: string) {
    var p := ParseLine(line); p.Some? && p.value.0 == key
  }

  function Without(lines: seq<string>, key: string): seq<string> {
    if lines == [] then []
    else
      var last := lines[|lines| - 1];
      Without(lines[..|lines| - 1], key) + if Assigns(last, key) then [] else [last]
  }

  // bufio.ScanLines drops one carriage return.
  function DropCR(line: string): string {
    if line != "" && line[|line| - 1] == '\r' then line[..|line| - 1] else line
  }

  // A trailing space does not matter to Trim.
  lemma {:induction false} TrimOneLess(s: string)
    requires s != "" && IsSpace(s[|s| - 1])
    ensures Trim(s[..|s| - 1]) == Trim(s)
  {
    var init := s[..|s| - 1];
    if IsSpace(s[0]) {
      if init == "" {
        assert s[1..] == "";
      } else {
        assert s[1..][..|s| - 2] == init[1..];
        TrimOneLess(s[1..]);
      }
    } else {
      assert TrimLeft(s) == s && TrimLeft(init) == init;
    }
  }

  lemma TrimDropsCR(line: string)
    ensures Trim(DropCR(line)) == Trim(line)
  {
    if line != "" && line[|line| - 1] == '\r' {
      TrimOneLess(line);
    }
  }

  lemma LinesOfFirst(line: string, rest: string)
    requires '\n' !in line
    ensures Lines(line + "\n" + rest) == [line] + Lines(rest)
  {
    Text.SplitAtSeparator(line, '\n', rest);
    Text.SplitOfOne(line, '\n');
  }

  // The scanning loop of loadGroup and parseEnvFormat.
  method LoadGroup(text: string) returns (r: Loaded)
    ensures r == Load(text)
  {
    var lines := Lines(text);
    Text.PartsAreClean(text, '\n');
    var vars: map<string, string> := map[];
    var i := 0;
    while i < |lines|
      invariant 0 <= i <= |lines|
      invariant forall line :: line in lines[..i] ==> !TooLong(line)
      invariant vars == Vars(lines[..i])
    {
      assert lines[..i + 1] == lines[..i] + [lines[i]];
      assert lines[..i + 1][..i] == lines[..i];
      if TooLong(lines[i]) {
        return LineTooLong;
      }
      TrimDropsCR(lines[i]);
      var p := ScanLine(DropCR(lines[i]));
      if p.Some? {
        vars := vars[p.value.0 := p.value.1];
      }
      i := i + 1;
    }
    assert lines[..|lines|] == lines;
    return Loaded(vars);
  }

  method ScanLine(text: string) returns (p: Option<(string, string)>)
    ensures p == ParseLine(text)
  {
    var line := Trim(text);
    if line == "" || line[0] == '#' {
      return None;
    }
    line := StripExport(line);
    var idx := Index(line, '=');
    if idx == |line| {
      return None;
    }
    var key := Trim(line[..idx]);
    var value := Trim(line[idx + 1..]);
    if |value| >= 2 && value[0] == '"' && value[|value| - 1] == '"' {
      value := value[1..|value| - 1];
    }
    if |value| >= 2 && value[0] == '\'' && value[|value| - 1] == '\'' {
      value := value[1..|value| - 1];
    }
    return Some((key, value));
  }

  // The rewriting loop of Delete; None when the key is not found.
  method Delete(text: string, key: string) returns (r: Option<string>)
    ensures r == Deleted(text, key)
  {
    var lines := Lines(text);
    var newLines := [];
    var found := false;
    for i := 0 to |lines|
      invariant newLines == Without(lines[..i], key)
      invariant found <==> exists line :: line in lines[..i] && Assigns(line, key)
    {
      assert lines[..i + 1] == lines[..i] + [lines[i]];
      assert lines[..i + 1][..i] == lines[..i];
      var line := lines[i];
      var trimmed := Trim(line);
      if trimmed == "" || trimmed[0] == '#' {
        newLines := newLines + [line];
        continue;
      }
      var matchLine := StripExport(trimmed);
      var idx := Index(matchLine, '=');
      if idx == |matchLine| {
        newLines := newLines + [line];
        continue;
      }
      if Trim(matchLine[..idx]) == key {
        found := true;
        continue;
      }
      newLines := newLines + [line];
    }
    assert lines[..|lines|] == lines;
    if !found {
      return None;
    }
    return Some(Join(newLines));
  }

  ghost function Deleted(text: string, key: string): Option<string> {
    if exists line :: line in Lines(text) && Assigns(line, key) then Some(Join(Without(Lines(text), key))) else None
  }

  /* ----- deleting a key ----- */

  lemma AssignAndKey(vars: map<string, string>, line: string, key: string)
    ensures Assigns(line, key) ==> Assign(vars, line) - {key} == vars - {key}
    ensures !Assigns(line, key) ==> Assign(vars - {key}, line) == Assign(vars, line) - {key}
  {
  }

  lemma {:induction false} VarsWithout(lines: seq<string>, key: string)
    ensures Vars(Without(lines, key)) == Vars(lines) - {key}
  {
    if lines != [] {
      var n := |lines| - 1;
      VarsWithout(lines[..n], key);
      AssignAndKey(Vars(lines[..n]), lines[n], key);
      var kept := Without(lines[..n], key);
      VarsAppend(kept, lines[n]);
      assert kept + [] == kept;
    }
  }

  lemma VarsAppend(lines: seq<string>, line: string)
    ensures Vars(lines + [line]) == Assign(Vars(lines), line)
  {
    assert (lines + [line])[..|lines|] == lines;
  }

  lemma {:induction false} KeyAssigned(lines: seq<string>, key: string)
    ensures key in Vars(lines) <==> exists line :: line in lines && Assigns(line, key)
  {
    if lines != [] {
      var init, last := lines[..|lines| - 1], lines[|lines| - 1];
      KeyAssigned(init, key);
      KeyOfAssign(Vars(init), last, key);
      assert lines == init + [last];
      assert forall line :: line in lines <==> line in init || line == last;
    }
  }

  lemma KeyOfAssign(vars: map<string, string>, line: string, key: string)
    ensures key in Assign(vars, line) <==> key in vars || Assigns(line, key)
  {
  }

  lemma {:induction false} WithoutMembers(lines: seq<string>, key: string)
    ensures forall line :: line in Without(lines, key) <==> line in lines && !Assigns(line, key)
  {
    if lines != [] {
      var init, last := lines[..|lines| - 1], lines[|lines| - 1];
      WithoutMembers(init, key);
      assert lines == init + [last];
    }
  }

  // The file after the deletion has the lines that were kept.
  lemma RewrittenLines(text: string, key: string)
    requires Deleted(text, key).Some?
    ensures var lines := Lines(Deleted(text, key).value); var kept := Without(Lines(text), key);
            lines == if kept == [] then [""] else kept
  {
    Text.PartsAreClean(text, '\n');
    WithoutMembers(Lines(text), key);
    var kept := Without(Lines(text), key);
    if kept != [] {
      Text.SplitOfJoin(kept, '\n');
    }
  }

  // Deleting a key from any file that loads, then loading, gives the old
  // variables without the key; the key is reported missing exactly when it
  // was not among them.  On a file that does not load because of an overlong
  // line the deletion still works, and the result loads exactly when every
  // overlong line belonged to the key.
  lemma DeleteThenLoad(text: string, key: string)
    ensures Load(text).Loaded? ==>
              && (Deleted(text, key).None? <==> key !in Load(text).vars)
              && (Deleted(text, key).Some? ==> Load(Deleted(text, key).value) == Loaded(Load(text).vars - {key}))
    ensures Deleted(text, key).Some? ==>
              (Load(Deleted(text, key).value).Loaded? <==>
               forall line :: line in Lines(text) && TooLong(line) ==> Assigns(line, key))
  {
    var lines := Lines(text);
    KeyAssigned(lines, key);
    if Deleted(text, key).Some? {
      DeletedLines(text, key);
      KeptLoad(lines, key);
    }
  }

  // The rewritten file has the lines that were kept, as far as loading goes.
  lemma DeletedLines(text: string, key: string)
    requires Deleted(text, key).Some?
    ensures var after := Lines(Deleted(text, key).value); var kept := Without(Lines(text), key);
            && Vars(after) == Vars(kept)
            && forall line :: line in after && TooLong(line) <==> line in kept && TooLong(line)
  {
    RewrittenLines(text, key);
    if Without(Lines(text), key) == [] {
      assert [""][..0] == [];
      assert ParseLine("") == None && Vars([""]) == Assign(Vars([]), "");
      assert Bytes("") == 0;
    }
  }

  lemma KeptLoad(lines: seq<string>, key: string)
    ensures var kept := Without(lines, key);
            && Vars(kept) == Vars(lines) - {key}
            && forall line :: line in kept && TooLong(line) <==> line in lines && TooLong(line) && !Assigns(line, key)
  {
    VarsWithout(lines, key);
    WithoutMembers(lines, key);
  }

  /* ----- printing and parsing ----- */

  function EntryLine(k: string, v: string): string {
    k + "=" + v
  }

  function Format(creds: map<string, string>, keys: seq<string>): string
    requires forall k :: k in keys ==> k in creds
  {
    if keys == [] then "" else EntryLine(keys[0], creds[keys[0]]) + "\n" + Format(creds, keys[1..])
  }

  // The builder loop of formatCredentials over the sorted keys.
  method FormatEnv(creds: map<string, string>, keys: seq<string>) returns (text: string)
    requires forall k :: k in keys ==> k in creds
    ensures text == Format(creds, keys)
  {
    text := "";
    for i := 0 to |keys|
      invariant text + Format(creds, keys[i..]) == Format(creds, keys)
    {
      assert keys[i..][1..] == keys[i + 1..];
      text := text + (keys[i] + "=" + creds[keys[i]] + "\n");
    }
  }

  // An entry that survives being written and read back: one line of
  // acceptable length, nothing that trimming, comment, `export` or quote
  // handling would change.
  predicate Clean(k: string, v: string) {
    && '\n' !in k && '\n' !in v && !TooLong(EntryLine(k, v))
    && Trim(k) == k && '=' !in k && StripExport(k) == k && (k != "" ==> k[0] != '#')
    && Trim(v) == v && Unquote(v) == v
  }

  lemma {:induction false} TrimLeftBound(s: string)
    ensures |TrimLeft(s)| <= |s| && (|TrimLeft(s)| == |s| ==> TrimLeft(s) == s)
    ensures TrimLeft(s) == "" || !IsSpace(TrimLeft(s)[0])
    ensures forall c :: c in TrimLeft(s) ==> c in s
  {
    if s != "" && IsSpace(s[0]) {
      TrimLeftBound(s[1..]);
    }
  }

  lemma {:induction false} TrimRightBound(s: string)
    ensures TrimRight(s) <= s
    ensures forall c :: c in TrimRight(s) ==> c in s
  {
    if s != "" && IsSpace(s[|s| - 1]) {
      TrimRightBound(s[..|s| - 1]);
    }
  }

  lemma TrimBound(s: string)
    ensures |Trim(s)| <= |s| && (|Trim(s)| == |s| ==> Trim(s) == s && TrimLeft(s) == s)
    ensures forall c :: c in Trim(s) ==> c in s
  {
    TrimLeftBound(s);
    TrimRightBound(TrimLeft(s));
  }

  lemma {:induction false} TrimLeftOfEntry(k: string, v: string)
    ensures TrimLeft(EntryLine(k, v)) == EntryLine(TrimLeft(k), v)
  {
    var line := EntryLine(k, v);
    if k != "" && IsSpace(k[0]) {
      assert line[1..] == EntryLine(k[1..], v);
      TrimLeftOfEntry(k[1..], v);
    } else {
      assert line[0] == (if k == "" then '=' else k[0]);
    }
  }

  lemma {:induction false} TrimRightOfEntry(k: string, v: string)
    ensures TrimRight(EntryLine(k, v)) == EntryLine(k, TrimRight(v))
  {
    var line := EntryLine(k, v);
    if v != "" && IsSpace(v[|v| - 1]) {
      assert line[..|line| - 1] == EntryLine(k, v[..|v| - 1]);
      TrimRightOfEntry(k, v[..|v| - 1]);
    } else {
      assert line[|line| - 1] == (if v == "" then '=' else v[|v| - 1]);
    }
  }

  lemma ExportOfEntry(k: string, v: string)
    ensures StripExport(EntryLine(k, v)) == EntryLine(StripExport(k), v)
  {
    var line := EntryLine(k, v);
    if |k| < 7 {
      if |line| >= 7 {
        assert line[..7][|k|] == '=';
        assert '=' in line[..7] && '=' !in "export ";
      }
    } else {
      assert line[..7] == k[..7];
      assert line[7..] == EntryLine(k[7..], v);
    }
  }

  // Reading back the line of any entry: the key that comes out is the entry's
  // own or a shorter one.
  lemma ParseEntry(k: string, v: string)
    ensures var p := ParseLine(EntryLine(k, v));
            && (p.Some? ==> |p.value.0| < |k| || p.value.0 == k)
            && (p.Some? && p.value.0 == k ==>
                  '=' !in k && Trim(k) == k && StripExport(k) == k && (k != "" ==> k[0] != '#')
                  && p.value.1 == Unquote(Trim(TrimRight(v))))
            && ('=' !in k && Trim(k) == k && StripExport(k) == k && (k != "" ==> k[0] != '#') ==>
                  p == Some((k, Unquote(Trim(TrimRight(v))))))
  {
    var lk, rv := TrimLeft(k), TrimRight(v);
    TrimLeftBound(k);
    TrimLeftOfEntry(k, v);
    TrimRightOfEntry(lk, v);
    var trimmed := EntryLine(lk, rv);
    assert Trim(EntryLine(k, v)) == trimmed;
    assert trimmed[0] == (if lk == "" then '=' else lk[0]);
    TrimBound(k);
    if trimmed[0] != '#' {
      ExportOfEntry(lk, rv);
      ParseBody(StripExport(lk), rv);
      TrimBound(StripExport(lk));
    }
  }

  lemma ParseOwnEntry(k: string, v: string)
    requires '=' !in k && Trim(k) == k && StripExport(k) == k && (k != "" ==> k[0] != '#')
    ensures ParseLine(EntryLine(k, v)) == Some((k, Unquote(Trim(TrimRight(v)))))
  {
    ParseEntry(k, v);
  }

  // The split at the first equals sign.
  lemma ParseBody(k: string, v: string)
    ensures var body := EntryLine(k, v); var idx := Index(body, '=');
            && idx < |body|
            && ('=' !in k ==> body[..idx] == k && body[idx + 1..] == v)
            && ('=' in k ==> |Trim(body[..idx])| < |k|)
  {
    var body := EntryLine(k, v);
    var idx := Index(body, '=');
    IndexAtMost(body, '=', |k|);
    TrimBound(body[..idx]);
    assert forall i :: 0 <= i < |k| ==> body[i] == k[i];
    if '=' in k {
      var i :| 0 <= i < |k| && k[i] == '=';
      IndexAtMost(body, '=', i);
    }
  }

  lemma {:induction false} IndexAtMost(s: string, c: char, j: nat)
    requires j < |s| && s[j] == c
    ensures Index(s, c) <= j
  {
    if s[0] != c {
      IndexAtMost(s[1..], c, j - 1);
    }
  }

  /* ----- the round trip ----- */

  lemma CleanIffReadBack(k: string, v: string)
    requires '\n' !in k && '\n' !in v && !TooLong(EntryLine(k, v))
    ensures Clean(k, v) <==> ParseLine(EntryLine(k, v)) == Some((k, v))
  {
    ParseEntry(k, v);
    TrimRightBound(v);
    TrimBound(TrimRight(v));
    if ParseLine(EntryLine(k, v)) == Some((k, v)) {
      var t := Trim(TrimRight(v));
      assert |Unquote(t)| == |v| <= |t| <= |TrimRight(v)| <= |v|;
      assert TrimRight(v) == v;
    } else if Trim(v) == v {
      TrimBound(v);
      assert TrimRight(v) == v;
    }
  }

  ghost predicate Enumerates(creds: map<string, string>, keys: seq<string>) {
    && (forall k :: k in keys <==> k in creds)
    && (forall i, j :: 0 <= i < j < |keys| ==> keys[i] != keys[j])
  }

  ghost function EntryLines(creds: map<string, string>, keys: seq<string>): seq<string>
    requires forall k :: k in keys ==> k in creds
  {
    seq(|keys|, i requires 0 <= i < |keys| => EntryLine(keys[i], creds[keys[i]]))
  }

  lemma {:induction false} LinesOfFormat(creds: map<string, string>, keys: seq<string>)
    requires forall k :: k in keys ==> k in creds && '\n' !in k && '\n' !in creds[k]
    ensures Lines(Format(creds, keys)) == EntryLines(creds, keys) + [""]
  {
    if keys != [] {
      LinesOfFormat(creds, keys[1..]);
      LinesOfFirst(EntryLine(keys[0], creds[keys[0]]), Format(creds, keys[1..]));
      assert EntryLines(creds, keys) == [EntryLine(keys[0], creds[keys[0]])] + EntryLines(creds, keys[1..]);
    }
  }

  // Parsed keys and values never hold a newline.
  lemma {:induction false} ParsedHasNoNewline(lines: seq<string>)
    requires forall line :: line in lines ==> '\n' !in line
    ensures forall k :: k in Vars(lines) ==> '\n' !in k && '\n' !in Vars(lines)[k]
  {
    if lines != [] {
      var n := |lines| - 1;
      ParsedHasNoNewline(lines[..n]);
      PartsOfLine(lines[n]);
    }
  }

  lemma PartsOfLine(line: string)
    ensures var p := ParseLine(line); p.Some? ==> forall c :: c in p.value.0 || c in p.value.1 ==> c in line
  {
    TrimBound(line);
    var body := StripExport(Trim(line));
    var idx := Index(body, '=');
    if idx < |body| {
      TrimBound(body[..idx]);
      TrimBound(body[idx + 1..]);
      var value := Trim(body[idx + 1..]);
      assert forall c :: c in Unquote(value) ==> c in StripQuote(value, '"');
      assert forall c :: c in StripQuote(value, '"') ==> c in value;
      assert forall c :: c in body ==> c in Trim(line);
    }
  }

  function Picked(creds: map<string, string>, keys: seq<string>): map<string, string> {
    map k | k in creds && k in keys :: creds[k]
  }

  lemma PickedAppend(creds: map<string, string>, keys: seq<string>, k: string)
    requires k in creds
    ensures Picked(creds, keys + [k]) == Picked(creds, keys)[k := creds[k]]
  {
  }

  lemma EntryLinesAppend(creds: map<string, string>, keys: seq<string>, k: string)
    requires k in creds && forall j :: j in keys ==> j in creds
    ensures EntryLines(creds, keys + [k]) == EntryLines(creds, keys) + [EntryLine(k, creds[k])]
  {
  }

  // Clean entries are read back one by one.
  lemma {:induction false} CleanEntriesReadBack(creds: map<string, string>, keys: seq<string>)
    requires forall k :: k in keys ==> k in creds && Clean(k, creds[k])
    ensures Vars(EntryLines(creds, keys)) == Picked(creds, keys)
  {
    if keys != [] {
      var init, k := keys[..|keys| - 1], keys[|keys| - 1];
      assert keys == init + [k];
      CleanEntriesReadBack(creds, init);
      EntryLinesAppend(creds, init, k);
      VarsAppend(EntryLines(creds, init), EntryLine(k, creds[k]));
      CleanAssigns(Picked(creds, init), k, creds[k]);
      PickedAppend(creds, init, k);
    }
  }

  lemma CleanAssigns(vars: map<string, string>, k: string, v: string)
    requires Clean(k, v)
    ensures Assign(vars, EntryLine(k, v)) == vars[k := v]
  {
    CleanIffReadBack(k, v);
  }

  lemma OwnLine(creds: map<string, string>, keys: seq<string>, line: string)
    requires (forall k :: k in keys ==> k in creds) && line in EntryLines(creds, keys)
    ensures exists k :: k in keys && line == EntryLine(k, creds[k])
  {
    var i :| 0 <= i < |keys| && EntryLines(creds, keys)[i] == line;
    assert keys[i] in keys;
  }

  // When everything comes back, each key is read from its own line: a line
  // yields its own key or a shorter one, so the longest keys go first.
  lemma {:induction false} OwnKeyReadBack(creds: map<string, string>, keys: seq<string>, k: string, longest: nat)
    requires Enumerates(creds, keys) && Vars(EntryLines(creds, keys)) == creds
    requires k in creds && forall other :: other in creds ==> |other| <= longest
    ensures Assigns(EntryLine(k, creds[k]), k)
    decreases longest - |k|
  {
    KeyAssigned(EntryLines(creds, keys), k);
    var line :| line in EntryLines(creds, keys) && Assigns(line, k);
    OwnLine(creds, keys, line);
    var from :| from in keys && line == EntryLine(from, creds[from]);
    ParseEntry(from, creds[from]);
    if from != k {
      OwnKeyReadBack(creds, keys, from, longest);
    }
  }

  lemma {:induction false} LongestKey(creds: map<string, string>, keys: seq<string>) returns (longest: nat)
    ensures forall k :: k in keys ==> |k| <= longest
  {
    if keys == [] {
      longest := 0;
    } else {
      longest := LongestKey(creds, keys[1..]);
      longest := if |keys[0]| > longest then |keys[0]| else longest;
      assert keys == [keys[0]] + keys[1..];
    }
  }

  lemma {:induction false} OnlyAssigner(lines: seq<string>, i: nat, k: string)
    requires i < |lines| && Assigns(lines[i], k)
    requires forall j :: 0 <= j < |lines| && j != i ==> !Assigns(lines[j], k)
    ensures k in Vars(lines) && Vars(lines)[k] == ParseLine(lines[i]).value.1
  {
    if i < |lines| - 1 {
      OnlyAssigner(lines[..|lines| - 1], i, k);
    }
  }

  lemma ReadBackImpliesClean(creds: map<string, string>, keys: seq<string>, i: nat)
    requires Enumerates(creds, keys) && Vars(EntryLines(creds, keys)) == creds && i < |keys|
    requires '\n' !in keys[i] && '\n' !in creds[keys[i]] && !TooLong(EntryLine(keys[i], creds[keys[i]]))
    ensures Clean(keys[i], creds[keys[i]])
  {
    var lines, k := EntryLines(creds, keys), keys[i];
    var longest := LongestKey(creds, keys);
    forall j | 0 <= j < |keys| ensures Assigns(lines[j], keys[j]) {
      OwnKeyReadBack(creds, keys, keys[j], longest);
    }
    OnlyAssigner(lines, i, k);
    CleanIffReadBack(k, creds[k]);
  }

  lemma BlankLine(vars: map<string, string>)
    ensures Assign(vars, "") == vars && !TooLong("")
  {
    assert Trim("") == "" && Bytes("") == 0;
  }

  lemma CleanRoundTrips(creds: map<string, string>, keys: seq<string>)
    requires Enumerates(creds, keys) && forall k :: k in creds ==> Clean(k, creds[k])
    ensures Load(Format(creds, keys)) == Loaded(creds)
  {
    var entries := EntryLines(creds, keys);
    LinesOfFormat(creds, keys);
    CleanEntriesReadBack(creds, keys);
    assert Vars(entries) == creds;
    VarsAppend(entries, "");
    BlankLine(creds);
    forall line | line in entries ensures !TooLong(line) {
      OwnLine(creds, keys, line);
    }
  }

  lemma RoundTripsAreClean(creds: map<string, string>, keys: seq<string>)
    requires Enumerates(creds, keys) && Load(Format(creds, keys)) == Loaded(creds)
    ensures forall k :: k in creds ==> Clean(k, creds[k])
  {
    var text := Format(creds, keys);
    var entries := EntryLines(creds, keys);
    Text.PartsAreClean(text, '\n');
    ParsedHasNoNewline(Lines(text));
    LinesOfFormat(creds, keys);
    VarsAppend(entries, "");
    assert Vars(entries) == creds;
    forall i | 0 <= i < |keys| ensures !TooLong(EntryLine(keys[i], creds[keys[i]])) {
      assert entries[i] in Lines(text);
    }
    forall k | k in creds ensures Clean(k, creds[k]) {
      assert k in keys;
      var i :| 0 <= i < |keys| && keys[i] == k;
      ReadBackImpliesClean(creds, keys, i);
    }
  }

  // Writing a map in the env format and parsing the text gives the same map
  // back exactly when every entry is clean, in whatever order the keys were
  // written.
  lemma RoundTripIffClean(creds: map<string, string>, keys: seq<string>)
    requires Enumerates(creds, keys)
    ensures Load(Format(creds, keys)) == Loaded(creds) <==> forall k :: k in creds ==> Clean(k, creds[k])
  {
    if forall k :: k in creds ==> Clean(k, creds[k]) {
      CleanRoundTrips(creds, keys);
    } else if Load(Format(creds, keys)) == Loaded(creds) {
      RoundTripsAreClean(creds, keys);
    }
  }

  /* ----- an overlong line ----- */

  lemma {:induction false} BytesAtLeast(s: string)
    ensures Bytes(s) >= |s|
  {
    if s != "" {
      BytesAtLeast(s[1..]);
    }
  }

  // Two lines, of which the first is too long to load.  Deleting its key leaves
  // the second, which loads.
  lemma OverlongThenShort() returns (text: string)
    ensures Load(text).LineTooLong?
    ensures Deleted(text, "k").Some? && Load(Deleted(text, "k").value) == Loaded(map["o" := "v"])
  {
    var long := seq(MaxLine, _ => 'x');
    ShortName("k", long);
    ShortName("o", "v");
    ShortValue("v");
    LineIsShort("o", "v");
    var first, second := EntryLine("k", long), EntryLine("o", "v");
    BytesAtLeast(first);
    assert '\n' !in first && '\n' !in second;
    text := TwoLines(first, second, "k", "o", "v");
  }

  lemma TwoLines(first: string, second: string, key: string, k: string, v: string) returns (text: string)
    requires '\n' !in first && '\n' !in second && TooLong(first) && !TooLong(second)
    requires Assigns(first, key) && key != k && ParseLine(second) == Some((k, v))
    ensures Load(text).LineTooLong?
    ensures Deleted(text, key).Some? && Load(Deleted(text, key).value) == Loaded(map[k := v])
  {
    text := first + "\n" + second;
    LinesOfFirst(first, second);
    Text.SplitOfOne(second, '\n');
    assert Lines(text) == [first] + [second];
    assert first in Lines(text);
    DeletesFirst(text, first, second, key);
    VarsAppend([], second);
    assert [] + [second] == [second];
  }

  // One-letter names are read back.
  lemma ShortName(k: string, v: string)
    requires |k| == 1 && 'a' <= k[0] <= 'z'
    ensures ParseLine(EntryLine(k, v)) == Some((k, Unquote(Trim(TrimRight(v)))))
  {
    ShortValue(k);
    assert StripExport(k) == k && '=' !in k && k[0] != '#';
    ParseOwnEntry(k, v);
  }

  lemma ShortValue(v: string)
    requires |v| == 1 && 'a' <= v[0] <= 'z'
    ensures Trim(v) == v == TrimRight(v) && Unquote(v) == v
  {
    assert TrimLeft(v) == v;
    assert TrimRight(v) == v;
  }

  lemma LineIsShort(k: string, v: string)
    requires |k| == |v| == 1
    ensures !TooLong(EntryLine(k, v))
  {
    var line := EntryLine(k, v);
    assert line[1..][1..][1..] == "";
    assert Bytes(line) <= 4 + Bytes(line[1..]) <= 8 + Bytes(line[1..][1..]) <= 12 + Bytes("");
  }

  lemma DeletesFirst(text: string, first: string, second: string, key: string)
    requires Lines(text) == [first, second] && Assigns(first, key) && !Assigns(second, key) && '\n' !in second
    ensures Deleted(text, key).Some? && Lines(Deleted(text, key).value) == [second]
  {
    assert first in Lines(text);
    assert [first, second][..1] == [first] && [first][..0] == [] && Without([], key) == [];
    assert Without([first], key) == [];
    assert Without([first, second], key) == [second];
    Text.SplitOfOne(second, '\n');
  }
}
