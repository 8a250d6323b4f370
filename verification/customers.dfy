/** `getInitials` of the customer list's avatars. */
module Customers {
  import opened Seqs

  /** Splitting at every single space: the segments between spaces, empty ones included. */
  function Split(s: string): (parts: seq<string>)
    ensures |parts| >= 1
    ensures forall i :: 0 <= i < |parts| ==> ' ' !in parts[i]
    ensures Join(parts) == s
  {
    if |s| == 0 then [""]
    else
      var rest := Split(s[1..]);
      if s[0] == ' ' then
        assert ([""] + rest)[1..] == rest;
        [""] + rest
      else
        var parts := [[s[0]] + rest[0]] + rest[1..];
        assert parts[1..] == rest[1..];
        assert s == [s[0]] + s[1..];
        parts
  }

  /** The segments run together with one space between each two. */
  function Join(parts: seq<string>): string
    requires |parts| >= 1
  {
    if |parts| == 1 then parts[0] else parts[0] + " " + Join(parts[1..])
  }

  /** Splitting a space-free word and the rest after it. */
  lemma {:induction false} SplitAfterWord(w: string, rest: string)
    requires ' ' !in w
    ensures Split(w + " " + rest) == [w] + Split(rest)
  {
    if |w| == 0 {
      assert w + " " + rest == [' '] + rest;
      assert (w + " " + rest)[1..] == rest;
    } else {
      var s := w + " " + rest;
      assert s[1..] == w[1..] + " " + rest;
      assert s[0] == w[0];
      SplitAfterWord(w[1..], rest);
      assert [w[0]] + w[1..] == w;
    }
  }

  lemma {:induction false} SplitWord(w: string)
    requires ' ' !in w
    ensures Split(w) == [w]
  {
    if |w| > 0 {
      SplitWord(w[1..]);
      assert [w[0]] + w[1..] == w;
    }
  }

  /** Joining space-free segments and splitting again gives the segments back. */
  lemma {:induction false} SplitJoin(parts: seq<string>)
    requires |parts| >= 1
    requires forall i :: 0 <= i < |parts| ==> ' ' !in parts[i]
    ensures Split(Join(parts)) == parts
  {
    if |parts| == 1 {
      SplitWord(parts[0]);
    } else {
      SplitJoin(parts[1..]);
      SplitAfterWord(parts[0], Join(parts[1..]));
      assert parts == [parts[0]] + parts[1..];
    }
  }

  /** Upper case of one character, for the letters of ASCII and Latin-1 whose
      upper case is a single character: a–z, à–þ except the sign ÷, ÿ (whose
      upper case is U+0178) and the micro sign µ (whose upper case is the Greek
      capital mu, U+039C). Every other character is left as it is. */
  function UpperChar(c: char): (u: char)
    ensures 'a' <= c <= 'z' ==> u as int == c as int - 32
    ensures 'à' <= c <= 'þ' && c != '÷' ==> u as int == c as int - 32
    ensures c == 'ÿ' ==> u == '\U{0178}'
    ensures c == 'µ' ==> u == '\U{039C}'
    ensures !('a' <= c <= 'z') && !('à' <= c <= 'ÿ') && c != 'µ' ==> u == c
    ensures c == '÷' ==> u == c
  {
    if 'a' <= c <= 'z' then (c as int - 32) as char
    else if 'à' <= c <= 'þ' && c != '÷' then (c as int - 32) as char
    else if c == 'ÿ' then '\U{0178}'
    else if c == 'µ' then '\U{039C}'
    else c
  }

  function NonEmptySegments(parts: seq<string>): seq<string>
  {
    Filter(parts, (p: string) => |p| > 0)
  }

  /** The first character of each segment, upper-cased and run together. An
      empty segment has no first character and contributes nothing. */
  function Initials(parts: seq<string>): (r: string)
    ensures |r| == |NonEmptySegments(parts)|
    ensures forall i :: 0 <= i < |r| ==> r[i] == UpperChar(NonEmptySegments(parts)[i][0])
  {
    if |parts| == 0 then ""
    else if |parts[0]| == 0 then
      Initials(parts[1..])
    else
      var tail := Initials(parts[1..]);
      var rest := NonEmptySegments(parts[1..]);
      assert NonEmptySegments(parts) == [parts[0]] + rest;
      var r := [UpperChar(parts[0][0])] + tail;
      forall i | 1 <= i < |r| ensures r[i] == UpperChar(NonEmptySegments(parts)[i][0]) {
        assert r[i] == tail[i - 1];
        assert NonEmptySegments(parts)[i] == rest[i - 1];
      }
      r
  }

  function GetInitials(name: string): (r: string)
    ensures |r| == |NonEmptySegments(Split(name))|
    ensures forall i :: 0 <= i < |r| ==> r[i] == UpperChar(NonEmptySegments(Split(name))[i][0])
  {
    Initials(Split(name))
  }

  /** A single word gives one initial. */
  lemma SingleWordInitial(w: string)
    requires |w| > 0 && ' ' !in w
    ensures GetInitials(w) == [UpperChar(w[0])]
  {
    SplitWord(w);
    assert Initials([w]) == [UpperChar(w[0])] + Initials([]);
  }

  /** The avatar fallback of a customer with one-word first and last names has
      exactly two initials. */
  lemma FullNameInitials(first: string, last: string)
    requires |first| > 0 && ' ' !in first && |last| > 0 && ' ' !in last
    ensures GetInitials(first + " " + last) == [UpperChar(first[0]), UpperChar(last[0])]
  {
    SplitAfterWord(first, last);
    SplitWord(last);
    assert Split(first + " " + last) == [first, last];
    assert [first, last][1..] == [last];
    assert Initials([last]) == [UpperChar(last[0])] + Initials([]);
  }

  /** An empty segment, as from a double space, adds no initial. */
  lemma DoubleSpaceInitials(first: string, last: string)
    requires |first| > 0 && ' ' !in first && |last| > 0 && ' ' !in last
    ensures GetInitials(first + "  " + last) == GetInitials(first + " " + last)
  {
    DoubleSpaceSplit(first, last);
    SplitAfterWord(first, last);
    SplitWord(last);
    assert Split(first + " " + last) == [first, last];
    assert NonEmptySegments([first, "", last]) == [first] + NonEmptySegments(["", last]) by {
      assert [first, "", last][1..] == ["", last];
    }
    assert NonEmptySegments(["", last]) == NonEmptySegments([last]) by {
      assert ["", last][1..] == [last];
    }
    assert NonEmptySegments([first, last]) == [first] + NonEmptySegments([last]) by {
      assert [first, last][1..] == [last];
    }
  }

  lemma DoubleSpaceSplit(first: string, last: string)
    requires ' ' !in first && ' ' !in last
    ensures Split(first + "  " + last) == [first, "", last]
  {
    assert first + "  " + last == first + " " + (" " + last);
    SplitAfterWord(first, " " + last);
    assert " " + last == "" + " " + last;
    SplitAfterWord("", last);
    SplitWord(last);
  }
}
