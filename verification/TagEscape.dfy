/**
  Output framing (internal/server/framing.go): the nonce tag pattern
  (?i)<\s*[/]?\s*tool-result-NONCE[^>]*> , its replacement by "[escaped]" and the
  wrapping of tool output in a pair of such tags.
 */
module TagEscape {
  import opened Wrappers

  const Escaped: string := "[escaped]"

  /* ----- the pattern ----- */

  // \s of the regular expression engine.
  predicate IsSpace(c: char) {
    c == ' ' || c == '\t' || c == '\n' || c == '\r' || c == '\U{0c}'
  }

  // Case-insensitive equality with a tag character: besides the capital, the
  // long s folds to s.
  predicate Folds(c: char, tagChar: char) {
    || c == tagChar
    || ('a' <= tagChar <= 'z' && c as int == tagChar as int - 32)
    || (tagChar == 's' && c == '\U{17f}')
  }

  predicate FoldsTo(s: string, tag: string) {
    |s| == |tag| && forall i :: 0 <= i < |tag| ==> Folds(s[i], tag[i])
  }

  // The literal part for a session: "tool-result-" and the hex nonce.
  predicate IsTag(tag: string) {
    |tag| > 12 && tag[..12] == "tool-result-"
    && forall i :: 12 <= i < |tag| ==> '0' <= tag[i] <= '9' || 'a' <= tag[i] <= 'f'
  }

  predicate AllSpace(s: string) {
    forall i :: 0 <= i < |s| ==> IsSpace(s[i])
  }

  // The part up to the name: an angle bracket, spaces, at most one slash,
  // spaces, and the name in any case.
  ghost predicate IsOpening(front: string, tag: string) {
    exists w1, slash, w2, name ::
      && AllSpace(w1) && AllSpace(w2) && (slash == "" || slash == "/") && FoldsTo(name, tag)
      && front == "<" + (w1 + (slash + (w2 + name)))
  }

  // The texts the regular expression matches.
  ghost predicate Matches(t: string, tag: string) {
    exists front, body :: IsOpening(front, tag) && '>' !in body && t == front + (body + ">")
  }

  function SkipSpaces(s: string): string {
    if s != "" && IsSpace(s[0]) then SkipSpaces(s[1..]) else s
  }

  function SkipSlash(s: string): string {
    if s != "" && s[0] == '/' then s[1..] else s
  }

  // What follows the opening of a tag at the front of s.
  function AfterName(s: string, tag: string): Option<string> {
    if s == "" || s[0] != '<' then None
    else
      var rest := SkipSpaces(SkipSlash(SkipSpaces(s[1..])));
      if |rest| >= |tag| && FoldsTo(rest[..|tag|], tag) then Some(rest[|tag|..]) else None
  }

  function AfterClose(s: string): string {
    if s == "" then "" else if s[0] == '>' then s[1..] else AfterClose(s[1..])
  }

  // What follows a match at the front of s; the engine's match.
  function AfterMatch(s: string, tag: string): (r: Option<string>)
    requires tag != ""
    ensures r.Some? ==> |r.value| < |s|
  {
    var rest := AfterName(s, tag);
    if rest.Some? && '>' in rest.value then
      SkipsShorten(s[1..]);
      CloseShortens(rest.value);
      Some(AfterClose(rest.value))
    else None
  }

  lemma {:induction false} SpacesShorten(s: string)
    ensures |SkipSpaces(s)| <= |s|
  {
    if s != "" && IsSpace(s[0]) {
      SpacesShorten(s[1..]);
    }
  }

  lemma SkipsShorten(s: string)
    ensures |SkipSpaces(SkipSlash(SkipSpaces(s)))| <= |s|
  {
    SpacesShorten(s);
    SpacesShorten(SkipSlash(SkipSpaces(s)));
  }

  lemma {:induction false} CloseShortens(s: string)
    ensures |AfterClose(s)| <= |s|
  {
    if s != "" && s[0] != '>' {
      CloseShortens(s[1..]);
    }
  }

  /* ----- the scanner finds what the pattern describes ----- */

  lemma {:induction false} SkipsAllSpace(w: string, s: string)
    requires AllSpace(w) && (s == "" || !IsSpace(s[0]))
    ensures SkipSpaces(w + s) == s
  {
    if w == "" {
      assert w + s == s;
    } else {
      assert (w + s)[1..] == w[1..] + s;
      SkipsAllSpace(w[1..], s);
    }
  }

  lemma {:induction false} SkippedSpace(s: string) returns (w: string)
    ensures AllSpace(w) && s == w + SkipSpaces(s) && (SkipSpaces(s) == "" || !IsSpace(SkipSpaces(s)[0]))
  {
    w := "";
    if s != "" && IsSpace(s[0]) {
      w := SkippedSpace(s[1..]);
      w := [s[0]] + w;
    }
  }

  lemma {:induction false} ClosesAfter(body: string, s: string)
    requires '>' !in body
    ensures AfterClose(body + (">" + s)) == s
  {
    if body == "" {
      assert body + (">" + s) == ">" + s && (">" + s)[1..] == s;
    } else {
      assert (body + (">" + s))[1..] == body[1..] + (">" + s);
      ClosesAfter(body[1..], s);
    }
  }

  lemma {:induction false} ClosedBody(s: string) returns (body: string)
    requires '>' in s
    ensures '>' !in body && s == body + (">" + AfterClose(s))
  {
    if s[0] == '>' {
      body := "";
      assert s == ">" + s[1..];
    } else {
      body := ClosedBody(s[1..]);
      body := [s[0]] + body;
    }
  }

  // A name holds no space, slash, bracket or angle.
  lemma NameChars(name: string, tag: string)
    requires IsTag(tag) && FoldsTo(name, tag)
    ensures name != "" && forall c :: c in name ==> c !in "<>[/" && !IsSpace(c)
  {
    forall i | 0 <= i < |tag| ensures tag[i] == '-' || 'a' <= tag[i] <= 'z' || '0' <= tag[i] <= '9' {
      if i < 12 {
        assert tag[i] == tag[..12][i] == "tool-result-"[i];
      }
    }
  }

  lemma OpeningChars(front: string, tag: string)
    requires IsTag(tag) && IsOpening(front, tag)
    ensures front != "" && front[0] == '<' && '>' !in front && '[' !in front
    ensures (forall i :: 0 < i < |front| ==> front[i] != '<') && !IsSpace(front[|front| - 1])
  {
    var w1, slash, w2, name :|
      AllSpace(w1) && AllSpace(w2) && (slash == "" || slash == "/") && FoldsTo(name, tag) && front == "<" + (w1 + (slash + (w2 + name)));
    NameChars(name, tag);
    TailChars(w1, slash, w2, name);
  }

  lemma TailChars(w1: string, slash: string, w2: string, name: string)
    requires AllSpace(w1) && AllSpace(w2) && (slash == "" || slash == "/")
    requires name != "" && forall c :: c in name ==> c !in "<>[/" && !IsSpace(c)
    ensures var front := "<" + (w1 + (slash + (w2 + name)));
            && front[0] == '<' && '>' !in front && '[' !in front
            && (forall i :: 0 < i < |front| ==> front[i] != '<') && !IsSpace(front[|front| - 1])
  {
    var t1 := w2 + name;
    var t2 := slash + t1;
    var tail := w1 + t2;
    var front := "<" + tail;
    assert name[|name| - 1] in name;
    assert front[|front| - 1] == tail[|tail| - 1] == t2[|t2| - 1] == t1[|t1| - 1] == name[|name| - 1];
    SafeAppend(w2, name);
    SafeAppend(slash, t1);
    SafeAppend(w1, t2);
    assert forall i :: 0 < i < |front| ==> front[i] in tail;
  }

  // Neither a bracket nor an angle.
  predicate Safe(s: string) {
    forall c :: c in s ==> c !in "<>["
  }

  lemma SafeAppend(s: string, t: string)
    requires Safe(s) && Safe(t)
    ensures Safe(s + t)
  {
  }

  // An opening is recognised, whatever comes after it.
  lemma OpensTag(front: string, after: string, tag: string)
    requires IsTag(tag) && IsOpening(front, tag)
    ensures AfterName(front + after, tag) == Some(after)
  {
    var w1, slash, w2, name :|
      AllSpace(w1) && AllSpace(w2) && (slash == "" || slash == "/") && FoldsTo(name, tag) && front == "<" + (w1 + (slash + (w2 + name)));
    NameChars(name, tag);
    var c := name + after;
    assert c[0] == name[0];
    assert c[..|tag|] == name && c[|tag|..] == after;
    SkipsToName(w1, slash, w2, c);
    var t := w1 + (slash + (w2 + c));
    Reassociate(w1, slash, w2, name, after);
    assert front + after == "<" + t && ("<" + t)[1..] == t;
  }

  lemma Reassociate(w1: string, slash: string, w2: string, name: string, after: string)
    ensures ("<" + (w1 + (slash + (w2 + name)))) + after == "<" + (w1 + (slash + (w2 + (name + after))))
  {
  }

  lemma SkipsToName(w1: string, slash: string, w2: string, c: string)
    requires AllSpace(w1) && AllSpace(w2) && (slash == "" || slash == "/")
    requires c != "" && !IsSpace(c[0]) && c[0] != '/'
    ensures SkipSpaces(SkipSlash(SkipSpaces(w1 + (slash + (w2 + c))))) == c
  {
    var b := w2 + c;
    SkipsAllSpace(w2, c);
    if slash == "" {
      assert w1 + (slash + b) == (w1 + w2) + c;
      SkipsAllSpace(w1 + w2, c);
    } else {
      SkipsAllSpace(w1, slash + b);
      assert (slash + b)[1..] == b;
    }
  }

  lemma PartsOf(s: string, tag: string) returns (w1: string, slash: string, w2: string, name: string)
    requires AfterName(s, tag).Some?
    ensures AllSpace(w1) && AllSpace(w2) && (slash == "" || slash == "/") && FoldsTo(name, tag)
    ensures s == "<" + (w1 + (slash + (w2 + (name + AfterName(s, tag).value))))
  {
    var a := SkipSpaces(s[1..]);
    w1 := SkippedSpace(s[1..]);
    slash := if a != "" && a[0] == '/' then "/" else "";
    var b := SkipSlash(a);
    assert a == slash + b;
    w2 := SkippedSpace(b);
    var c := SkipSpaces(b);
    name := c[..|tag|];
    assert s == "<" + s[1..];
    PartsJoin(s, s[1..], a, b, c, w1, slash, w2, name, c[|tag|..]);
  }

  lemma PartsJoin(s: string, t: string, a: string, b: string, c: string, w1: string, slash: string, w2: string, name: string, rest: string)
    requires s == "<" + t && t == w1 + a && a == slash + b && b == w2 + c && c == name + rest
    ensures s == "<" + (w1 + (slash + (w2 + (name + rest))))
  {
  }

  lemma OpeningOf(s: string, tag: string) returns (front: string)
    requires AfterName(s, tag).Some?
    ensures IsOpening(front, tag) && s == front + AfterName(s, tag).value
  {
    var w1, slash, w2, name := PartsOf(s, tag);
    front := "<" + (w1 + (slash + (w2 + name)));
  }

  lemma DescribedIsMatched(s: string, n: nat, tag: string)
    requires IsTag(tag) && n <= |s| && Matches(s[..n], tag)
    ensures AfterMatch(s, tag) == Some(s[n..])
  {
    var front, body :| IsOpening(front, tag) && '>' !in body && s[..n] == front + (body + ">");
    var after := body + (">" + s[n..]);
    assert s == s[..n] + s[n..] == front + after;
    OpensTag(front, after, tag);
    ClosesAfter(body, s[n..]);
  }

  lemma MatchedIsDescribed(s: string, n: nat, tag: string)
    requires IsTag(tag) && n <= |s| && AfterMatch(s, tag) == Some(s[n..])
    ensures Matches(s[..n], tag)
  {
    var rest := AfterName(s, tag).value;
    var front := OpeningOf(s, tag);
    var body := ClosedBody(rest);
    FrontPart(s, front + (body + ">"), n);
  }

  lemma FrontPart(s: string, front: string, n: nat)
    requires n <= |s| && s == front + s[n..]
    ensures s[..n] == front
  {
  }

  // The scanner matches at the front of s exactly when some front part of s is
  // described by the pattern, and that part is unique.
  lemma MatchIffDescribed(s: string, n: nat, tag: string)
    requires IsTag(tag) && n <= |s|
    ensures Matches(s[..n], tag) <==> AfterMatch(s, tag) == Some(s[n..])
  {
    if Matches(s[..n], tag) {
      DescribedIsMatched(s, n, tag);
    }
    if AfterMatch(s, tag) == Some(s[n..]) {
      MatchedIsDescribed(s, n, tag);
    }
  }

  /* ----- replacement ----- */

  // Leftmost, non-overlapping replacement of all matches.
  function ReplaceAll(s: string, tag: string): string
    requires tag != ""
    decreases |s|
  {
    if s == "" then ""
    else
      match AfterMatch(s, tag)
      case Some(rest) => Escaped + ReplaceAll(rest, tag)
      case None => [s[0]] + ReplaceAll(s[1..], tag)
  }

  ghost predicate HasTag(s: string, tag: string)
    requires tag != ""
  {
    exists i :: 0 <= i <= |s| && AfterMatch(s[i..], tag).Some?
  }

  // An opening that is never closed.
  predicate OpenAt(s: string, tag: string) {
    var rest := AfterName(s, tag); rest.Some? && '>' !in rest.value
  }

  ghost predicate HasOpening(s: string, tag: string) {
    exists i :: 0 <= i <= |s| && OpenAt(s[i..], tag)
  }

  // The replaced text keeps no '>' that was not there, and a front part of it
  // without a bracket is copied from the original.
  lemma {:induction false} NoNewClose(s: string, tag: string)
    requires tag != "" && '>' in ReplaceAll(s, tag)
    ensures '>' in s
  {
    if s != "" {
      match AfterMatch(s, tag)
      case Some(rest) =>
        var r := AfterName(s, tag).value;
        SuffixOf(s, tag);
      case None =>
        if s[0] != '>' {
          NoNewClose(s[1..], tag);
        }
    }
  }

  // What follows an opening is a suffix.
  lemma SuffixOf(s: string, tag: string)
    requires AfterName(s, tag).Some?
    ensures var r := AfterName(s, tag).value; |r| <= |s| && s[|s| - |r|..] == r
  {
    var front := OpeningOf(s, tag);
  }

  lemma {:induction false} FrontIsCopied(s: string, tag: string, m: nat)
    requires tag != "" && m <= |ReplaceAll(s, tag)| && '[' !in ReplaceAll(s, tag)[..m]
    ensures m <= |s| && ReplaceAll(s, tag)[..m] == s[..m] && ReplaceAll(s, tag)[m..] == ReplaceAll(s[m..], tag)
  {
    var r := ReplaceAll(s, tag);
    if m == 0 {
      assert s[0..] == s && r[0..] == r;
    } else {
      assert r[0] == r[..m][0] && s != "";
      assert AfterMatch(s, tag).None?;
      var t := ReplaceAll(s[1..], tag);
      assert r == [s[0]] + t;
      ShiftedFront(r, t, s[0], m);
      FrontIsCopied(s[1..], tag, m - 1);
      ShiftedFront(s, s[1..], s[0], m);
    }
  }

  lemma ShiftedFront(r: string, t: string, c: char, m: nat)
    requires r == [c] + t && 0 < m
    ensures m <= |r| ==> r[..m] == [c] + t[..m - 1] && r[m..] == t[m - 1..]
  {
  }

  // An opening at the front of the replaced text was there in the original.
  lemma OpeningWasThere(s: string, tag: string)
    requires IsTag(tag) && s != "" && AfterMatch(s, tag).None? && AfterName(ReplaceAll(s, tag), tag).Some?
    ensures AfterName(s, tag).Some?
    ensures AfterName(ReplaceAll(s, tag), tag).value == ReplaceAll(AfterName(s, tag).value, tag)
  {
    var r := ReplaceAll(s, tag);
    var front := OpeningOf(r, tag);
    FrontIsKept(s, front, AfterName(r, tag).value, tag);
    OpensTag(front, s[|front|..], tag);
  }

  lemma FrontIsKept(s: string, front: string, after: string, tag: string)
    requires IsTag(tag) && IsOpening(front, tag) && ReplaceAll(s, tag) == front + after
    ensures |front| <= |s| && s == front + s[|front|..] && ReplaceAll(s[|front|..], tag) == after
  {
    var r, m := ReplaceAll(s, tag), |front|;
    OpeningChars(front, tag);
    assert r[..m] == front && r[m..] == after;
    FrontIsCopied(s, tag, m);
  }

  // No residue: the replaced text has no match left.
  lemma {:induction false} NoTagRemains(s: string, tag: string)
    requires IsTag(tag)
    ensures !HasTag(ReplaceAll(s, tag), tag)
    decreases |s|
  {
    var r := ReplaceAll(s, tag);
    if s != "" {
      match AfterMatch(s, tag)
      case Some(rest) =>
        NoTagRemains(rest, tag);
        forall i | 0 <= i <= |r| ensures AfterMatch(r[i..], tag).None? {
          EscapedIsInert(ReplaceAll(rest, tag), tag, i);
        }
      case None =>
        NoTagRemains(s[1..], tag);
        var t := ReplaceAll(s[1..], tag);
        forall i | 0 <= i <= |r| ensures AfterMatch(r[i..], tag).None? {
          if i > 0 {
            assert r[i..] == t[i - 1..];
          } else if AfterName(r, tag).Some? {
            assert r[0..] == r;
            OpeningWasThere(s, tag);
            if '>' in AfterName(r, tag).value {
              NoNewClose(AfterName(s, tag).value, tag);
            }
          } else {
            assert r[0..] == r;
          }
        }
    }
  }

  // Inside the replacement itself nothing begins.
  lemma EscapedIsInert(t: string, tag: string, i: nat)
    requires tag != "" && i <= |Escaped + t|
    ensures i < |Escaped| ==> AfterName((Escaped + t)[i..], tag).None?
    ensures i >= |Escaped| ==> (Escaped + t)[i..] == t[i - |Escaped|..]
  {
    if i < |Escaped| {
      assert (Escaped + t)[i..][0] == Escaped[i] != '<';
    }
  }

  // Text without a match is left alone, and only such text is.
  lemma UntouchedIffNoTag(s: string, tag: string)
    requires IsTag(tag)
    ensures ReplaceAll(s, tag) == s <==> !HasTag(s, tag)
  {
    NoTagRemains(s, tag);
    if !HasTag(s, tag) {
      Untouched(s, tag);
    }
  }

  lemma {:induction false} Untouched(s: string, tag: string)
    requires tag != "" && !HasTag(s, tag)
    ensures ReplaceAll(s, tag) == s
  {
    if s != "" {
      assert s[0..] == s;
      forall i | 0 <= i <= |s[1..]| ensures AfterMatch(s[1..][i..], tag).None? {
        assert s[1..][i..] == s[i + 1..];
      }
      Untouched(s[1..], tag);
    }
  }

  lemma ReplaceIsIdempotent(s: string, tag: string)
    requires IsTag(tag)
    ensures ReplaceAll(ReplaceAll(s, tag), tag) == ReplaceAll(s, tag)
  {
    NoTagRemains(s, tag);
    UntouchedIffNoTag(ReplaceAll(s, tag), tag);
  }

  /* ----- wrapped output ----- */

  function Footer(tag: string): string {
    "\n</" + tag + ">"
  }

  // `source` is the tool name as %q prints it.
  function WrapToolOutput(source: string, text: string, tag: string): string
    requires tag != ""
  {
    Header(source, tag) + ReplaceAll(text, tag) + Footer(tag)
  }

  function Header(source: string, tag: string): string {
    "<" + tag + " source=" + source + " type=\"data\">\n"
  }

  // An unclosed opening is one of the original text: replacing neither makes
  // nor removes any.
  lemma {:induction false} OpeningsAreKept(s: string, tag: string)
    requires IsTag(tag)
    ensures HasOpening(ReplaceAll(s, tag), tag) <==> HasOpening(s, tag)
    decreases |s|
  {
    if s != "" {
      match AfterMatch(s, tag)
      case Some(rest) =>
        OpeningsAreKept(rest, tag);
        OpeningsBehindMatch(s, tag);
        OpeningsBehindEscaped(ReplaceAll(rest, tag), tag);
      case None =>
        OpeningsAreKept(s[1..], tag);
        OpeningsBehindFirst(s, tag);
        OpeningAtFront(s, tag);
        assert ReplaceAll(s, tag)[1..] == ReplaceAll(s[1..], tag);
        OpeningsBehindFirst(ReplaceAll(s, tag), tag);
    }
  }

  lemma OpeningsBehindEscaped(t: string, tag: string)
    requires tag != ""
    ensures HasOpening(Escaped + t, tag) <==> HasOpening(t, tag)
  {
    forall i | 0 <= i < |Escaped| ensures !OpenAt((Escaped + t)[i..], tag) {
      EscapedIsInert(t, tag, i);
    }
    assert (Escaped + t)[|Escaped|..] == t;
    ShiftedOpenings(Escaped + t, |Escaped|, tag);
  }

  lemma OpeningAtFront(s: string, tag: string)
    requires IsTag(tag) && s != "" && AfterMatch(s, tag).None?
    ensures OpenAt(s, tag) ==> OpenAt(ReplaceAll(s, tag), tag)
    ensures OpenAt(ReplaceAll(s, tag), tag) ==> OpenAt(s, tag)
  {
    if OpenAt(s, tag) {
      NothingToReplace(s, tag);
    } else if OpenAt(ReplaceAll(s, tag), tag) {
      OpeningWasThere(s, tag);
    }
  }

  // Without a '>' there is no match.
  lemma NothingToReplace(s: string, tag: string)
    requires IsTag(tag) && OpenAt(s, tag)
    ensures ReplaceAll(s, tag) == s
  {
    var front := OpeningOf(s, tag);
    OpeningChars(front, tag);
    assert '>' !in s;
    forall i | 0 <= i <= |s| ensures AfterMatch(s[i..], tag).None? {
      if AfterName(s[i..], tag).Some? {
        SuffixOf(s[i..], tag);
      }
    }
    Untouched(s, tag);
  }

  lemma OpeningsBehindFirst(s: string, tag: string)
    requires s != ""
    ensures HasOpening(s, tag) <==> OpenAt(s, tag) || HasOpening(s[1..], tag)
  {
    assert s[0..] == s;
    assert forall i :: 1 <= i <= |s| ==> s[i..] == s[1..][i - 1..];
    if HasOpening(s[1..], tag) {
      var j :| 0 <= j <= |s[1..]| && OpenAt(s[1..][j..], tag);
      assert s[j + 1..] == s[1..][j..];
    }
  }

  // Nothing that begins inside a match stays unclosed.
  lemma OpeningsBehindMatch(s: string, tag: string)
    requires IsTag(tag) && AfterMatch(s, tag).Some?
    ensures HasOpening(s, tag) <==> HasOpening(AfterMatch(s, tag).value, tag)
  {
    var n := MatchEnds(s, tag);
    ClosedBefore(s, n, tag);
    ShiftedOpenings(s, n, tag);
  }

  lemma MatchEnds(s: string, tag: string) returns (n: nat)
    requires tag != "" && AfterMatch(s, tag).Some?
    ensures 0 < n <= |s| && s[n..] == AfterMatch(s, tag).value && s[n - 1] == '>'
  {
    var front := OpeningOf(s, tag);
    var rest := AfterName(s, tag).value;
    var body := ClosedBody(rest);
    n := ClosesAt(s, front, rest, body, AfterClose(rest));
  }

  lemma ClosesAt(s: string, front: string, rest: string, body: string, after: string) returns (n: nat)
    requires s == front + rest && rest == body + (">" + after)
    ensures 0 < n <= |s| && s[n..] == after && s[n - 1] == '>'
  {
    n := |front| + |body| + 1;
    assert s[n - 1] == rest[|body|] == '>';
  }

  lemma ClosedBefore(s: string, n: nat, tag: string)
    requires IsTag(tag) && 0 < n <= |s| && s[n - 1] == '>'
    ensures forall i :: 0 <= i < n ==> !OpenAt(s[i..], tag)
  {
    forall i | 0 <= i < n ensures !OpenAt(s[i..], tag) {
      if AfterName(s[i..], tag).Some? {
        ClosedInside(s[i..], tag, n - 1 - i);
      }
    }
  }

  lemma ShiftedOpenings(s: string, n: nat, tag: string)
    requires n <= |s| && forall i :: 0 <= i < n ==> !OpenAt(s[i..], tag)
    ensures HasOpening(s, tag) <==> HasOpening(s[n..], tag)
  {
    assert forall i :: n <= i <= |s| ==> s[i..] == s[n..][i - n..];
    if HasOpening(s[n..], tag) {
      var j :| 0 <= j <= |s[n..]| && OpenAt(s[n..][j..], tag);
      assert s[j + n..] == s[n..][j..];
    }
  }

  // A '>' is never part of an opening, so it lies behind it.
  lemma ClosedInside(s: string, tag: string, k: nat)
    requires IsTag(tag) && AfterName(s, tag).Some? && k < |s| && s[k] == '>'
    ensures '>' in AfterName(s, tag).value
  {
    var front := OpeningOf(s, tag);
    OpeningChars(front, tag);
    assert s == front + AfterName(s, tag).value;
  }

  // A tag begins at this place.
  predicate TagAt(s: string, tag: string, i: nat)
    requires tag != ""
  {
    i <= |s| && AfterMatch(s[i..], tag).Some?
  }

  // The wrapped text shows a tag beginning inside the tool's output exactly
  // when that output holds an opening it never closes: the footer closes it.
  lemma BodyTagsIffOpening(source: string, text: string, tag: string)
    requires IsTag(tag)
    ensures var out, from := WrapToolOutput(source, text, tag), |Header(source, tag)|;
            (exists i: nat :: from <= i < from + |ReplaceAll(text, tag)| && TagAt(out, tag, i)) <==> HasOpening(text, tag)
  {
    var out, from, safe := WrapToolOutput(source, text, tag), |Header(source, tag)|, ReplaceAll(text, tag);
    NoTagRemains(text, tag);
    OpeningsAreKept(text, tag);
    forall i | 0 <= i < |safe| ensures AfterMatch(out[from + i..], tag).Some? <==> OpenAt(safe[i..], tag) {
      assert out[from + i..] == safe[i..] + Footer(tag);
      assert AfterMatch(safe[i..], tag).None?;
      BeforeFooter(safe[i..], tag);
    }
    if HasOpening(safe, tag) {
      var i :| 0 <= i <= |safe| && OpenAt(safe[i..], tag);
      assert from <= from + i < from + |safe| && TagAt(out, tag, from + i);
    } else {
      forall i: nat | from <= i < from + |safe| ensures !TagAt(out, tag, i) {
        var k := i - from;
        assert !OpenAt(safe[k..], tag) && out[from + k..] == out[i..];
      }
    }
  }

  // The wrapped text shows two tags, the header at its very beginning and the
  // footer at its end, and no other, exactly when the tool's output has no
  // unclosed opening.  The source is printed without an angle bracket.
  lemma OnePairOfTagsIff(source: string, text: string, tag: string)
    requires IsTag(tag) && '<' !in source
    ensures var out := WrapToolOutput(source, text, tag);
            (forall i: nat :: i < |out| ==> (TagAt(out, tag, i) <==> i == 0 || i == |out| - |tag| - 3)) <==> !HasOpening(text, tag)
  {
    var out, from, safe := WrapToolOutput(source, text, tag), |Header(source, tag)|, ReplaceAll(text, tag);
    var to := from + |safe|;
    BodyTagsIffOpening(source, text, tag);
    FrameTags(source, safe, tag);
    OnlyTheFrame(out, tag, from, to);
  }

  // Two tags outside the body, and no other there.
  lemma FrameTags(source: string, safe: string, tag: string)
    requires IsTag(tag) && '<' !in source
    ensures var out, from := Header(source, tag) + safe + Footer(tag), |Header(source, tag)|;
            && 0 < from && |out| == from + |safe| + |tag| + 4
            && forall i: nat :: i < |out| && !(from <= i < from + |safe|) ==> (TagAt(out, tag, i) <==> i == 0 || i == from + |safe| + 1)
  {
    var header := Header(source, tag);
    var out := header + safe + Footer(tag);
    assert out == header + (safe + Footer(tag));
    forall i: nat | i < |out| && !(|header| <= i < |header| + |safe|)
      ensures TagAt(out, tag, i) <==> i == 0 || i == |header| + |safe| + 1
    {
      if i < |header| {
        TagInHeader(source, safe + Footer(tag), tag, i);
      } else {
        TagInFooter(header + safe, tag, i);
      }
    }
  }

  lemma OnlyTheFrame(out: string, tag: string, from: nat, to: nat)
    requires tag != "" && 0 < from <= to && |out| == to + |tag| + 4
    requires forall i: nat :: i < |out| && !(from <= i < to) ==> (TagAt(out, tag, i) <==> i == 0 || i == to + 1)
    ensures (forall i: nat :: i < |out| ==> (TagAt(out, tag, i) <==> i == 0 || i == |out| - |tag| - 3))
            <==> !exists i: nat :: from <= i < to && TagAt(out, tag, i)
  {
  }

  lemma TagInHeader(source: string, rest: string, tag: string, i: nat)
    requires IsTag(tag) && '<' !in source && i < |Header(source, tag)|
    ensures TagAt(Header(source, tag) + rest, tag, i) <==> i == 0
  {
    var out := Header(source, tag) + rest;
    if i == 0 {
      HeaderIsTag(source, rest, tag);
      assert out[0..] == out;
    } else {
      NoBracketInHeader(source, tag);
      assert out[i..][0] == Header(source, tag)[i];
    }
  }

  lemma TagInFooter(front: string, tag: string, i: nat)
    requires IsTag(tag) && |front| <= i < |front| + |Footer(tag)|
    ensures TagAt(front + Footer(tag), tag, i) <==> i == |front| + 1
  {
    FooterIsTag(tag, i - |front|);
    assert (front + Footer(tag))[i..] == Footer(tag)[i - |front|..];
  }

  lemma HeaderIsTag(source: string, rest: string, tag: string)
    requires IsTag(tag)
    ensures AfterMatch(Header(source, tag) + rest, tag).Some?
  {
    var middle := " source=" + source + " type=\"data\"";
    var after := middle + (">\n" + rest);
    HeaderParts(source, rest, tag, middle);
    OwnNameOpens("<", "", tag);
    OpensTag("<" + tag, after, tag);
    assert after[|middle|] == (">\n" + rest)[0] == '>';
  }

  lemma HeaderParts(source: string, rest: string, tag: string, middle: string)
    requires middle == " source=" + source + " type=\"data\""
    ensures Header(source, tag) + rest == ("<" + tag) + (middle + (">\n" + rest))
  {
    assert Header(source, tag) == ("<" + tag) + (middle + ">\n");
    assert (middle + ">\n") + rest == middle + (">\n" + rest);
  }

  lemma NoBracketInTag(tag: string)
    requires IsTag(tag)
    ensures '<' !in tag
  {
    assert tag == tag[..12] + tag[12..];
    assert '<' !in "tool-result-";
  }

  lemma NoBracketInHeader(source: string, tag: string)
    requires IsTag(tag) && '<' !in source
    ensures forall i :: 0 < i < |Header(source, tag)| ==> Header(source, tag)[i] != '<'
  {
    NoBracketInTag(tag);
    var tail := " source=" + source + " type=\"data\">\n";
    assert '<' !in " source=" && '<' !in " type=\"data\">\n";
    assert '<' !in tail;
    assert Header(source, tag) == "<" + (tag + tail);
  }

  // The tag's own name opens a tag, with a slash or without.
  lemma OwnNameOpens(bracket: string, slash: string, tag: string)
    requires IsTag(tag) && bracket == "<" && (slash == "" || slash == "/")
    ensures IsOpening(bracket + (slash + tag), tag) && IsOpening(bracket + slash + tag, tag)
  {
    assert "" + (slash + ("" + tag)) == slash + tag;
    assert AllSpace("") && FoldsTo(tag, tag);
    assert bracket + (slash + tag) == bracket + slash + tag;
  }

  lemma FooterIsTag(tag: string, j: nat)
    requires IsTag(tag) && j < |Footer(tag)|
    ensures AfterMatch(Footer(tag)[j..], tag).Some? <==> j == 1
  {
    var foot := Footer(tag);
    if j == 1 {
      assert foot[1..] == ("<" + "/" + tag) + ">";
      OwnNameOpens("<", "/", tag);
      OpensTag("<" + "/" + tag, ">", tag);
    } else {
      NoBracketInTag(tag);
      assert 3 <= j < |tag| + 3 ==> foot[j] == tag[j - 3];
      assert foot[j..][0] == foot[j] != '<';
    }
  }

  // The opening never reaches into the footer.
  lemma BeforeFooter(s: string, tag: string)
    requires IsTag(tag) && s != "" && AfterMatch(s, tag).None?
    ensures AfterMatch(s + Footer(tag), tag).Some? <==> OpenAt(s, tag)
  {
    var foot := Footer(tag);
    var t := s + foot;
    if AfterName(s, tag).Some? {
      var after := AfterName(s, tag).value;
      var front := OpeningOf(s, tag);
      assert t == front + (after + foot);
      OpensTag(front, after + foot, tag);
      assert foot[|foot| - 1] == '>' && (after + foot)[|after + foot| - 1] == '>';
    } else if AfterName(t, tag).Some? {
      var front := OpeningOf(t, tag);
      var m := OpeningEnds(s, foot, front, AfterName(t, tag).value, tag);
      OpensTag(front, s[m..], tag);
    }
  }

  // The footer's second character cannot lie in an opening, nor its first at
  // the end of one.
  lemma OpeningEnds(s: string, foot: string, front: string, after: string, tag: string) returns (m: nat)
    requires IsTag(tag) && IsOpening(front, tag) && s + foot == front + after
    requires s != "" && |foot| > 1 && foot[0] == '\n' && foot[1] == '<'
    ensures m <= |s| && s == front + s[m..]
  {
    OpeningChars(front, tag);
    var t := s + foot;
    assert t[|s| + 1] == '<' && t[|s|] == '\n';
    assert forall i :: 0 <= i < |front| ==> t[i] == front[i];
    m := |front|;
    assert front == t[..m] && s == t[..|s|];
    assert s == t[..m] + s[m..];
  }
}
