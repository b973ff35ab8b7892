/**
  How an assignment may be written in an env.d file, and that loading and
  deleting (internal/credentials/envd_store.go) recognise exactly these forms.
 */
module EnvForms {
  import opened Wrappers
  import opened EnvFile

  /* ----- trimming, by what it leaves ----- */

  predicate Blank(s: string) {
    forall i :: 0 <= i < |s| ==> IsSpace(s[i])
  }

  predicate Bounded(s: string) {
    s != "" ==> !IsSpace(s[0]) && !IsSpace(s[|s| - 1])
  }

  ghost predicate BeginsIn(s: string, t: string, a: string) {
    Blank(a) && s == a + t && (t != "" ==> !IsSpace(t[0]))
  }

  lemma {:induction false} TrimLeftIff(s: string, t: string)
    ensures TrimLeft(s) == t <==> exists a :: BeginsIn(s, t, a)
  {
    if s != "" && IsSpace(s[0]) {
      TrimLeftIff(s[1..], t);
      if a :| BeginsIn(s[1..], t, a) {
        var b := [s[0]] + a;
        assert Blank(b) && s == b + t;
        assert BeginsIn(s, t, b);
      }
      if a :| BeginsIn(s, t, a) {
        assert a == "" ==> s == t;
        assert BeginsIn(s[1..], t, a[1..]);
      }
    } else {
      assert "" + s == s;
      assert TrimLeft(s) == t ==> BeginsIn(s, t, "");
      forall a | BeginsIn(s, t, a) ensures t == s {
        NoBlankInFront(s, t, a);
      }
    }
  }

  lemma NoBlankInFront(s: string, t: string, a: string)
    requires BeginsIn(s, t, a) && (s != "" ==> !IsSpace(s[0]))
    ensures t == s
  {
    assert s[..|a|] == a && s[|a|..] == t;
  }

  ghost predicate EndsIn(s: string, t: string, b: string) {
    Blank(b) && s == t + b && (t != "" ==> !IsSpace(t[|t| - 1]))
  }

  lemma {:induction false} TrimRightIff(s: string, t: string)
    ensures TrimRight(s) == t <==> exists b :: EndsIn(s, t, b)
  {
    if s != "" && IsSpace(s[|s| - 1]) {
      var init := s[..|s| - 1];
      TrimRightIff(init, t);
      if b :| EndsIn(init, t, b) {
        OneMoreBlank(s, t, b);
      }
      if b :| EndsIn(s, t, b) {
        OneLessBlank(s, t, b);
      }
    } else {
      assert s + "" == s;
      assert TrimRight(s) == t ==> EndsIn(s, t, "");
      forall b | EndsIn(s, t, b) ensures t == s {
        NoBlankAtEnd(s, t, b);
      }
    }
  }

  lemma OneMoreBlank(s: string, t: string, b: string)
    requires s != "" && IsSpace(s[|s| - 1]) && EndsIn(s[..|s| - 1], t, b)
    ensures EndsIn(s, t, b + [s[|s| - 1]])
  {
    assert s == s[..|s| - 1] + [s[|s| - 1]];
  }

  lemma OneLessBlank(s: string, t: string, b: string)
    requires s != "" && IsSpace(s[|s| - 1]) && EndsIn(s, t, b)
    ensures b != "" && EndsIn(s[..|s| - 1], t, b[..|b| - 1])
  {
    assert b == "" ==> s == t;
  }

  lemma NoBlankAtEnd(s: string, t: string, b: string)
    requires EndsIn(s, t, b) && (s != "" ==> !IsSpace(s[|s| - 1]))
    ensures t == s
  {
    assert s[|t|..] == b && s[..|t|] == t;
  }

  // Trimming leaves the middle between what is blank on both sides.
  lemma TrimOf(a: string, m: string, b: string)
    requires Blank(a) && Blank(b) && Bounded(m)
    ensures Trim(a + m + b) == m
  {
    var s := a + m + b;
    if m == "" {
      assert s == (a + b) + "" && Blank(a + b);
      assert BeginsIn(s, "", a + b);
      TrimLeftIff(s, "");
    } else {
      assert s == a + (m + b) && (m + b)[0] == m[0];
      assert BeginsIn(s, m + b, a);
      TrimLeftIff(s, m + b);
      assert EndsIn(m + b, m, b);
      TrimRightIff(m + b, m);
    }
  }

  lemma TrimSplits(s: string) returns (a: string, b: string)
    ensures Blank(a) && Blank(b) && Bounded(Trim(s)) && s == a + Trim(s) + b
  {
    var l, m := TrimLeft(s), Trim(s);
    TrimLeftIff(s, l);
    a :| BeginsIn(s, l, a);
    b := RestOfTrim(l, m);
    assert a + (m + b) == a + m + b;
  }

  lemma RestOfTrim(l: string, m: string) returns (b: string)
    requires m == TrimRight(l) && (l != "" ==> !IsSpace(l[0]))
    ensures Blank(b) && Bounded(m) && l == m + b
  {
    TrimRightIff(l, m);
    b :| EndsIn(l, m, b);
    assert m != "" ==> m[0] == l[0];
  }

  /* ----- written assignments ----- */

  datatype Quoting = Bare | Double | Single | Both

  function Quoted(q: Quoting, v: string): string {
    match q
    case Bare => v
    case Double => "\"" + v + "\""
    case Single => "'" + v + "'"
    case Both => "\"'" + v + "'\""
  }

  predicate InQuotes(s: string, q: char) {
    |s| >= 2 && s[0] == q && s[|s| - 1] == q
  }

  // Which values a quoting can hold: a bare one needs no blanks or quotes
  // around it, one in double quotes no single quotes inside these.
  predicate Holds(q: Quoting, v: string) {
    match q
    case Bare => Bounded(v) && !InQuotes(v, '"') && !InQuotes(v, '\'')
    case Double => !InQuotes(v, '\'')
    case Single => true
    case Both => true
  }

  // The blanks around the parts, and whether `export` stands in front.
  datatype Layout = Layout(before: string, exported: bool, gap: string, beforeSign: string, afterSign: string, quoting: Quoting, after: string)

  function KeySide(w: Layout, k: string): string {
    if w.exported then "export " + (w.gap + k + w.beforeSign) else k + w.beforeSign
  }

  function Written(w: Layout, k: string, v: string): string {
    EntryLine(w.before + KeySide(w, k), w.afterSign + Quoted(w.quoting, v) + w.after)
  }

  predicate StartsExport(s: string) {
    |s| >= 7 && s[..7] == "export "
  }

  predicate WellWritten(w: Layout, k: string, v: string) {
    && Blank(w.before) && Blank(w.gap) && Blank(w.beforeSign) && Blank(w.afterSign) && Blank(w.after)
    && Bounded(k) && '=' !in k && Holds(w.quoting, v)
    && (!w.exported ==> (k != "" ==> k[0] != '#') && !StartsExport(k + w.beforeSign) && (k == "" ==> w.beforeSign == ""))
  }

  lemma QuotedHolds(q: Quoting, v: string)
    requires Holds(q, v)
    ensures Bounded(Quoted(q, v)) && Unquote(Quoted(q, v)) == v
  {
    match q
    case Bare =>
    case Double => assert Quoted(q, v)[1..|v| + 1] == v;
    case Single => assert Quoted(q, v)[1..|v| + 1] == v;
    case Both =>
      var s := "'" + v + "'";
      assert Quoted(q, v)[1..|v| + 3] == s && s[1..|v| + 1] == v;
  }

  lemma UnquoteHolds(raw: string) returns (q: Quoting)
    requires Bounded(raw)
    ensures Holds(q, Unquote(raw)) && Quoted(q, Unquote(raw)) == raw
  {
    var s := StripQuote(raw, '"');
    var v := Unquote(raw);
    if InQuotes(raw, '"') {
      assert raw == "\"" + s + "\"";
      q := if InQuotes(s, '\'') then Both else Double;
      assert InQuotes(s, '\'') ==> s == "'" + v + "'";
    } else {
      q := if InQuotes(raw, '\'') then Single else Bare;
      assert InQuotes(raw, '\'') ==> raw == "'" + v + "'";
    }
  }

  lemma NoSignInBlank(s: string)
    requires Blank(s)
    ensures '=' !in s
  {
  }

  // The two sides of the first equals sign, once the line is trimmed.
  lemma ParseSides(left: string, right: string)
    requires '=' !in left
    ensures var l := TrimLeft(left);
            ParseLine(EntryLine(left, right)) ==
            if l != "" && l[0] == '#' then None else Some((Trim(StripExport(l)), Unquote(Trim(TrimRight(right)))))
  {
    var l, r := TrimLeft(left), TrimRight(right);
    TrimLeftBound(left);
    TrimLeftOfEntry(left, right);
    TrimRightOfEntry(l, right);
    assert EntryLine(l, r)[0] == (if l == "" then '=' else l[0]);
    ExportOfEntry(l, r);
    ParseBody(StripExport(l), r);
  }

  lemma TrimOfTrimRight(s: string)
    ensures Trim(TrimRight(s)) == Trim(s)
  {
    var a, b := TrimSplits(s);
    if Trim(s) == "" {
      assert s == "" + (a + b) && Blank(a + b);
      assert EndsIn(s, "", a + b);
      TrimRightIff(s, "");
    } else {
      RightTrimmed(a, Trim(s), b);
    }
  }

  lemma RightTrimmed(a: string, m: string, b: string)
    requires Blank(a) && Blank(b) && Bounded(m) && m != ""
    ensures Trim(TrimRight(a + m + b)) == m
  {
    var t := a + m;
    assert t[|t| - 1] == m[|m| - 1];
    assert EndsIn(t + b, t, b) && m + "" == m && EndsIn(m, m, "");
    TrimRightIff(t + b, t);
    assert BeginsIn(t, m, a);
    TrimLeftIff(t, m);
    TrimRightIff(m, m);
  }

  lemma ExportSideTrims(gap: string, k: string, beforeSign: string)
    requires Blank(gap) && Blank(beforeSign) && Bounded(k)
    ensures Trim(StripExport("export " + (gap + k + beforeSign))) == k
  {
    assert ("export " + (gap + k + beforeSign))[7..] == gap + k + beforeSign;
    TrimOf(gap, k, beforeSign);
  }

  lemma PlainSideTrims(k: string, beforeSign: string)
    requires Blank(beforeSign) && Bounded(k) && !StartsExport(k + beforeSign)
    ensures Trim(StripExport(k + beforeSign)) == k
  {
    assert "" + k + beforeSign == k + beforeSign;
    TrimOf("", k, beforeSign);
  }

  lemma KeySideTrims(w: Layout, k: string, v: string)
    requires WellWritten(w, k, v)
    ensures var l := TrimLeft(w.before + KeySide(w, k));
            l == KeySide(w, k) && !(l != "" && l[0] == '#') && Trim(StripExport(l)) == k && '=' !in w.before + KeySide(w, k)
  {
    var side := KeySide(w, k);
    NoSignInBlank(w.before);
    NoSignInBlank(w.gap);
    NoSignInBlank(w.beforeSign);
    if w.exported {
      assert side[0] == 'e';
      ExportSideTrims(w.gap, k, w.beforeSign);
    } else {
      assert k != "" ==> side[0] == k[0];
      assert k == "" ==> side == "";
      PlainSideTrims(k, w.beforeSign);
    }
    assert BeginsIn(w.before + side, side, w.before);
    TrimLeftIff(w.before + side, side);
  }

  // A line written in one of these forms is read as what it says.
  lemma WrittenIsRead(w: Layout, k: string, v: string)
    requires WellWritten(w, k, v)
    ensures ParseLine(Written(w, k, v)) == Some((k, v))
  {
    var right := w.afterSign + Quoted(w.quoting, v) + w.after;
    KeySideTrims(w, k, v);
    ParseSides(w.before + KeySide(w, k), right);
    QuotedHolds(w.quoting, v);
    TrimOfTrimRight(right);
    TrimOf(w.afterSign, Quoted(w.quoting, v), w.after);
  }

  // What stands left of the sign, without the blanks in front.
  lemma KeySideOf(l: string) returns (exported: bool, g: string, b: string)
    requires l != "" ==> !IsSpace(l[0])
    ensures var k := Trim(StripExport(l));
            && Blank(g) && Blank(b) && Bounded(k)
            && l == (if exported then "export " + (g + k + b) else k + b)
            && (!exported ==> !StartsExport(l) && g == "" && (k == "" ==> b == ""))
  {
    exported := StartsExport(l);
    if exported {
      g, b := TrimSplits(l[7..]);
      assert l == "export " + l[7..];
    } else {
      var k := Trim(l);
      assert TrimLeft(l) == l;
      TrimRightIff(l, k);
      g := "";
      b :| EndsIn(l, k, b);
      assert k != "" ==> k[0] == l[0];
      assert k == "" ==> l == b;
    }
  }

  // A line that is read as an assignment is written in one of them.
  lemma ReadIsWritten(line: string, k: string, v: string) returns (w: Layout)
    requires ParseLine(line) == Some((k, v))
    ensures WellWritten(w, k, v) && line == Written(w, k, v)
  {
    SignIsThere(line);
    var idx := Index(line, '=');
    var left, right := line[..idx], line[idx + 1..];
    assert line == EntryLine(left, right);
    var l := TrimLeft(left);
    TrimLeftIff(left, l);
    var a :| BeginsIn(left, l, a);
    SidesRead(left, right, l, k, v);
    var exported, g, b := KeySideOf(l);
    var c, d := TrimSplits(right);
    var q := UnquoteHolds(Trim(right));
    w := Layout(a, exported, g, b, c, q, d);
    assert KeySide(w, k) == l;
  }

  lemma SidesRead(left: string, right: string, l: string, k: string, v: string)
    requires '=' !in left && l == TrimLeft(left) && ParseLine(EntryLine(left, right)) == Some((k, v))
    ensures k == Trim(StripExport(l)) && v == Unquote(Trim(right)) && '=' !in k && !(l != "" && l[0] == '#')
  {
    ParseSides(left, right);
    TrimOfTrimRight(right);
    TrimLeftBound(left);
    TrimBound(StripExport(l));
  }

  lemma SignIsThere(line: string)
    requires ParseLine(line).Some?
    ensures Index(line, '=') < |line|
  {
    TrimBound(line);
    var body := StripExport(Trim(line));
    assert body[Index(body, '=')] in body;
    assert forall ch :: ch in body ==> ch in Trim(line);
    FirstSign(line);
  }

  lemma FirstSign(line: string)
    requires '=' in line
    ensures Index(line, '=') < |line|
  {
    var j :| 0 <= j < |line| && line[j] == '=';
    IndexAtMost(line, '=', j);
  }

  // So a line assigns a value to a key exactly when it is written in one of
  // the forms: blanks around the parts, `export` in front or not, the value
  // bare or in quotes.
  lemma AssignsIffWritten(line: string, k: string, v: string)
    ensures ParseLine(line) == Some((k, v)) <==> exists w: Layout :: WellWritten(w, k, v) && line == Written(w, k, v)
  {
    if ParseLine(line) == Some((k, v)) {
      var w := ReadIsWritten(line, k, v);
    }
    if w: Layout :| WellWritten(w, k, v) && line == Written(w, k, v) {
      WrittenIsRead(w, k, v);
    }
  }

  // Every other line is a comment or has no equals sign.
  lemma IgnoredIff(line: string)
    ensures ParseLine(line).None? <==> '=' !in line || (Trim(line) != "" && Trim(line)[0] == '#')
  {
    if '=' in line {
      FirstSign(line);
      var idx := Index(line, '=');
      var left, right := line[..idx], line[idx + 1..];
      assert line == EntryLine(left, right);
      ParseSides(left, right);
      TrimLeftOfEntry(left, right);
      TrimRightOfEntry(TrimLeft(left), right);
    } else if ParseLine(line).Some? {
      SignIsThere(line);
    }
  }

  /* ----- loading and deleting ----- */

  predicate LastAssigner(lines: seq<string>, i: int, k: string) {
    0 <= i < |lines| && Assigns(lines[i], k) && forall j :: i < j < |lines| ==> !Assigns(lines[j], k)
  }

  // The last line that assigns a key decides its value; without one the key
  // has none.
  lemma {:induction false} LastAssignmentWins(lines: seq<string>, k: string)
    ensures forall i :: LastAssigner(lines, i, k) ==> k in Vars(lines) && Vars(lines)[k] == ParseLine(lines[i]).value.1
    ensures k in Vars(lines) ==> exists i :: LastAssigner(lines, i, k)
  {
    if lines != [] {
      var n := |lines| - 1;
      LastAssignmentWins(lines[..n], k);
      OneMoreLine(Vars(lines[..n]), lines[n], k);
      AssignerInit(lines, k);
    }
  }

  lemma OneMoreLine(vars: map<string, string>, line: string, k: string)
    ensures var after := Assign(vars, line);
            if Assigns(line, k) then k in after && after[k] == ParseLine(line).value.1
            else (k in after <==> k in vars) && (k in vars ==> after[k] == vars[k])
  {
  }

  lemma AssignerInit(lines: seq<string>, k: string)
    requires lines != []
    ensures var n := |lines| - 1;
            if Assigns(lines[n], k) then forall i :: LastAssigner(lines, i, k) <==> i == n
            else forall i :: LastAssigner(lines, i, k) <==> LastAssigner(lines[..n], i, k)
  {
    var n := |lines| - 1;
    forall i ensures LastAssigner(lines, i, k) <==> if Assigns(lines[n], k) then i == n else LastAssigner(lines[..n], i, k) {
      AssignerAt(lines[..n], lines[n], i, k);
      assert lines == lines[..n] + [lines[n]];
    }
  }

  lemma AssignerAt(lines: seq<string>, line: string, i: int, k: string)
    ensures LastAssigner(lines + [line], i, k) <==> if Assigns(line, k) then i == |lines| else LastAssigner(lines, i, k)
  {
    var longer := lines + [line];
    assert longer[|lines|] == line;
    if 0 <= i < |lines| {
      assert forall j :: i <= j < |lines| ==> longer[j] == lines[j];
      if LastAssigner(longer, i, k) {
        assert forall j :: i < j < |lines| ==> !Assigns(longer[j], k);
      }
    }
  }

  // In particular a line `export k=v`, with the value bare or quoted, gives k
  // its value, and deleting k removes the line.
  lemma ExportIsLoadedAndDeleted(lines: seq<string>, i: nat, k: string, v: string, q: Quoting)
    requires i < |lines| && lines[i] == "export " + (k + "=" + Quoted(q, v))
    requires Bounded(k) && '=' !in k && Holds(q, v) && forall j :: i < j < |lines| ==> !Assigns(lines[j], k)
    ensures k in Vars(lines) && Vars(lines)[k] == v
    ensures lines[i] !in Without(lines, k) && k !in Vars(Without(lines, k))
  {
    ExportIsRead(k, v, q);
    assert LastAssigner(lines, i, k);
    LastAssignmentWins(lines, k);
    WithoutMembers(lines, k);
    VarsWithout(lines, k);
  }

  lemma ExportIsRead(k: string, v: string, q: Quoting)
    requires Bounded(k) && '=' !in k && Holds(q, v)
    ensures ParseLine("export " + (k + "=" + Quoted(q, v))) == Some((k, v))
  {
    var w := Layout("", true, "", "", "", q, "");
    assert "" + k + "" == k && "" + Quoted(q, v) + "" == Quoted(q, v);
    assert KeySide(w, k) == "export " + k;
    ExportEntry(w, k, v);
    WrittenIsRead(w, k, v);
  }

  lemma ExportEntry(w: Layout, k: string, v: string)
    requires w.before == w.afterSign == w.after == "" && KeySide(w, k) == "export " + k
    ensures Written(w, k, v) == "export " + (k + "=" + Quoted(w.quoting, v))
  {
    var value := Quoted(w.quoting, v);
    assert "" + value + "" == value && "" + ("export " + k) == "export " + k;
    assert ("export " + k) + "=" + value == "export " + (k + "=" + value);
  }

  /* ----- long lines ----- */

  // The bits of a code point that an encoding of this width can hold (UTF-8).
  function Payload(width: nat): nat {
    match width
    case 1 => 7
    case 2 => 11
    case 3 => 16
    case _ => 21
  }

  function Twice(bits: nat): nat {
    if bits == 0 then 1 else 2 * Twice(bits - 1)
  }

  // Each character counts with the fewest bytes that hold it.
  lemma WidthIsLeast(c: char, w: nat)
    requires 1 <= w <= 4
    ensures w >= Width(c) <==> c as int < Twice(Payload(w))
  {
    Doubled(7);
    Doubled(11);
    Doubled(16);
    Doubled(21);
    assert c as int < 0x110000;
  }

  lemma Doubled(bits: nat)
    ensures bits == 7 ==> Twice(bits) == 0x80
    ensures bits == 11 ==> Twice(bits) == 0x800
    ensures bits == 16 ==> Twice(bits) == 0x1_0000
    ensures bits == 21 ==> Twice(bits) == 0x20_0000
  {
    assert Twice(7) == 0x80 && Twice(11) == 16 * Twice(7);
    assert Twice(16) == 32 * Twice(11) && Twice(21) == 32 * Twice(16);
  }

  // Among plain characters the blanks are the usual six.
  lemma PlainBlanks(c: char)
    requires c < '\U{80}'
    ensures IsSpace(c) <==> c == ' ' || c == '\t' || c == '\n' || c == '\U{0b}' || c == '\U{0c}' || c == '\r'
  {
  }

  // A line of plain characters is too long from 65536 of them on.
  lemma {:induction false} PlainBytes(s: string)
    requires forall i :: 0 <= i < |s| ==> s[i] < '\U{80}'
    ensures Bytes(s) == |s| && (TooLong(s) <==> |s| >= 65536)
  {
    if s != "" {
      PlainBytes(s[1..]);
    }
  }
}
