/** Splitting text at a separator, and joining the parts again. */
module Text {
  // strings.Split for a separator of one character.
  function Split(text: string, sep: char): seq<string> {
    if text == "" then [""]
    else
      var rest := Split(text[1..], sep);
      if text[0] == sep then [""] + rest
      else if rest == [] then [[text[0]]] else Prepend(text[0], rest)
  }

  // strings.Join
  function Join(parts: seq<string>, sep: char): string {
    if parts == [] then ""
    else if |parts| == 1 then parts[0]
    else parts[0] + [sep] + Join(parts[1..], sep)
  }

  lemma {:induction false} PartsAreClean(text: string, sep: char)
    ensures Split(text, sep) != [] && forall part :: part in Split(text, sep) ==> sep !in part
  {
    if text != "" {
      PartsAreClean(text[1..], sep);
      var rest := Split(text[1..], sep);
      assert rest == [rest[0]] + rest[1..];
    }
  }

  lemma {:induction false} SplitOfOne(part: string, sep: char)
    requires sep !in part
    ensures Split(part, sep) == [part]
  {
    if part != "" {
      SplitOfOne(part[1..], sep);
      assert [part[0]] + part[1..] == part;
    }
  }

  // A separator splits no matter what stands before it.
  lemma {:induction false} SplitAtSeparator(left: string, sep: char, right: string)
    ensures Split(left + [sep] + right, sep) == Split(left, sep) + Split(right, sep)
  {
    var text := left + [sep] + right;
    if left == "" {
      assert text[1..] == right;
    } else {
      var tail := left[1..];
      assert text[1..] == tail + [sep] + right && text[0] == left[0];
      SplitAtSeparator(tail, sep, right);
      PartsAreClean(tail, sep);
      PrependToFirst(Split(tail, sep), left[0], Split(right, sep));
    }
  }

  // Split's step on a list of parts.
  function Prepend(c: char, parts: seq<string>): seq<string>
    requires parts != []
  {
    [[c] + parts[0]] + parts[1..]
  }

  lemma PrependToFirst(first: seq<string>, c: char, more: seq<string>)
    requires first != []
    ensures Prepend(c, first + more) == Prepend(c, first) + more
  {
    assert (first + more)[1..] == first[1..] + more;
  }

  lemma {:induction false} SplitOfJoin(parts: seq<string>, sep: char)
    requires parts != [] && forall part :: part in parts ==> sep !in part
    ensures Split(Join(parts, sep), sep) == parts
  {
    SplitOfOne(parts[0], sep);
    if |parts| > 1 {
      SplitOfJoin(parts[1..], sep);
      SplitAtSeparator(parts[0], sep, Join(parts[1..], sep));
      assert parts == [parts[0]] + parts[1..];
    }
  }

  lemma {:induction false} JoinOfSplit(text: string, sep: char)
    ensures Join(Split(text, sep), sep) == text
  {
    if text != "" {
      JoinOfSplit(text[1..], sep);
      PartsAreClean(text[1..], sep);
      var rest := Split(text[1..], sep);
      assert text == [text[0]] + text[1..];
      if text[0] == sep {
        assert ([""] + rest)[1..] == rest;
      } else {
        assert ([[text[0]] + rest[0]] + rest[1..])[1..] == rest[1..];
      }
    }
  }

  lemma {:induction false} JoinOfAppend(left: seq<string>, right: seq<string>, sep: char)
    requires left != [] && right != []
    ensures Join(left + right, sep) == Join(left, sep) + [sep] + Join(right, sep)
  {
    if |left| == 1 {
      assert (left + right)[1..] == right;
    } else {
      assert (left + right)[1..] == left[1..] + right;
      JoinOfAppend(left[1..], right, sep);
    }
  }
}
