/** The two Python string operations the line format relies on,
    `str.strip()` with no argument and `str.split(sep)` with a one-character
    separator, and the `join` that `split` inverts. */
module Text {

  /** Python's `str.isspace()` for one character, by code point; these
      are the characters `str.strip()` removes. */
  predicate IsSpace(c: char)
  {
    var n := c as int;
    || 0x09 <= n <= 0x0D || 0x1C <= n <= 0x20 || n == 0x85 || n == 0xA0 || n == 0x1680
    || 0x2000 <= n <= 0x200A || n == 0x2028 || n == 0x2029 || n == 0x202F || n == 0x205F
    || n == 0x3000
  }

  /** The newline is whitespace; the field separator is not. */
  lemma FormatCharacters()
    ensures IsSpace('\n') && !IsSpace(',')
  {
  }

  /** `s` with its leading whitespace removed. */
  function StripLeft(s: string): (r: string)
    ensures |r| <= |s| && r == s[|s| - |r|..]
    ensures forall i :: 0 <= i < |s| - |r| ==> IsSpace(s[i])
  {
    if |s| > 0 && IsSpace(s[0]) then StripLeft(s[1..]) else s
  }

  /** `s` with its trailing whitespace removed. */
  function StripRight(s: string): (r: string)
    ensures |r| <= |s| && r == s[..|r|]
    ensures forall i :: |r| <= i < |s| ==> IsSpace(s[i])
  {
    if |s| > 0 && IsSpace(s[|s| - 1]) then StripRight(s[..|s| - 1]) else s
  }

  /** `r` is the slice of `s` starting at `lo`, and every character of `s`
      outside that slice is whitespace. */
  ghost predicate TrimmedAt(s: string, r: string, lo: int)
  {
    && 0 <= lo <= |s| - |r|
    && r == s[lo..lo + |r|]
    && (forall i :: 0 <= i < lo ==> IsSpace(s[i]))
    && (forall i :: lo + |r| <= i < |s| ==> IsSpace(s[i]))
  }

  /** Python's `s.strip()`: whitespace removed from both ends. */
  function Strip(s: string): string
  {
    StripLeft(StripRight(s))
  }

  /** What `strip()` leaves is a slice of the text, and everything it
      removes is whitespace. */
  lemma StripTrims(s: string)
    ensures exists lo :: TrimmedAt(s, Strip(s), lo)
  {
    var right := StripRight(s);
    var r := StripLeft(right);
    var lo := |right| - |r|;
    assert s[..|right|][lo..] == s[lo..|right|];
    forall i | 0 <= i < lo
      ensures IsSpace(s[i])
    {
      assert s[i] == right[i];
    }
    assert TrimmedAt(s, Strip(s), lo);
  }

  /** Stripping from the left stops at the first character that is not
      whitespace. */
  lemma {:induction false} StripLeftEnds(s: string)
    ensures StripLeft(s) == [] || !IsSpace(StripLeft(s)[0])
  {
    if |s| > 0 && IsSpace(s[0]) {
      StripLeftEnds(s[1..]);
    }
  }

  /** Stripping from the right stops at the last character that is not
      whitespace. */
  lemma {:induction false} StripRightEnds(s: string)
    ensures StripRight(s) == [] || !IsSpace(StripRight(s)[|StripRight(s)| - 1])
  {
    if |s| > 0 && IsSpace(s[|s| - 1]) {
      StripRightEnds(s[..|s| - 1]);
    }
  }

  /** What `strip()` leaves neither starts nor ends with whitespace. */
  lemma StripEnds(s: string)
    ensures var r := Strip(s); r == [] || (!IsSpace(r[0]) && !IsSpace(r[|r| - 1]))
  {
    var right := StripRight(s);
    StripRightEnds(s);
    StripLeftEnds(right);
    var r := StripLeft(right);
    if r != [] {
      assert r[|r| - 1] == right[|right| - 1];
    }
  }

  /** The occurrences of `c` in two joined texts are those of each. */
  lemma CountSplit(a: string, b: string, c: char)
    ensures multiset(a + b)[c] == multiset(a)[c] + multiset(b)[c]
  {
    assert multiset(a + b) == multiset(a) + multiset(b);
  }

  /** Stripping from the left removes no character that is not whitespace. */
  lemma StripLeftKeepsCount(s: string, c: char)
    requires !IsSpace(c)
    ensures multiset(StripLeft(s))[c] == multiset(s)[c]
  {
    var k := |s| - |StripLeft(s)|;
    assert s == s[..k] + s[k..];
    CountSplit(s[..k], s[k..], c);
    assert c !in multiset(s[..k]);
  }

  /** Stripping from the right removes no character that is not whitespace. */
  lemma StripRightKeepsCount(s: string, c: char)
    requires !IsSpace(c)
    ensures multiset(StripRight(s))[c] == multiset(s)[c]
  {
    var k := |StripRight(s)|;
    assert s == s[..k] + s[k..];
    CountSplit(s[..k], s[k..], c);
    assert c !in multiset(s[k..]);
  }

  /** `strip()` keeps every occurrence of a character that is not
      whitespace. */
  lemma StripKeepsCount(s: string, c: char)
    requires !IsSpace(c)
    ensures multiset(Strip(s))[c] == multiset(s)[c]
  {
    StripRightKeepsCount(s, c);
    StripLeftKeepsCount(StripRight(s), c);
  }

  /** A line whose ends are not whitespace loses exactly its newline. */
  lemma StripNewline(s: string)
    requires s == [] || (!IsSpace(s[0]) && !IsSpace(s[|s| - 1]))
    ensures Strip(s + "\n") == s
  {
    var t := s + "\n";
    FormatCharacters();
    assert t[..|t| - 1] == s;
    assert StripRight(t) == StripRight(s);
  }

  /** The fields of a separated text, joined back with the separator. */
  function Join(fields: seq<string>, sep: char): (s: string)
    requires |fields| >= 1
  {
    if |fields| == 1 then fields[0] else fields[0] + [sep] + Join(fields[1..], sep)
  }

  /** Three fields joined with the separator. */
  lemma JoinThree(a: string, b: string, c: string, sep: char)
    ensures Join([a, b, c], sep) == a + [sep] + b + [sep] + c
  {
    assert [a, b, c][1..] == [b, c];
    assert [b, c][1..] == [c];
    assert Join([b, c], sep) == b + [sep] + c;
    assert Join([a, b, c], sep) == a + [sep] + (b + [sep] + c);
  }

  /** Three fields joined with the separator hold two separators more than
      the fields themselves. */
  lemma SeparatorCount(a: string, b: string, c: string, sep: char)
    ensures multiset(a + [sep] + b + [sep] + c)[sep] == 2 + multiset(a)[sep] + multiset(b)[sep] + multiset(c)[sep]
    ensures sep in a || sep in b || sep in c ==> multiset(a + [sep] + b + [sep] + c)[sep] > 2
  {
    assert multiset(a + [sep] + b + [sep] + c) == multiset(a) + multiset([sep]) + multiset(b) + multiset([sep]) + multiset(c);
    if sep in a {
      assert sep in multiset(a);
    } else if sep in b {
      assert sep in multiset(b);
    } else if sep in c {
      assert sep in multiset(c);
    }
  }

  /** The position of the first `sep` in `s`. */
  function IndexOf(s: string, sep: char): (i: nat)
    requires sep in s
    ensures i < |s| && s[i] == sep && sep !in s[..i]
  {
    if s[0] == sep then 0
    else
      assert s == [s[0]] + s[1..];
      var i := IndexOf(s[1..], sep);
      assert s[..i + 1] == [s[0]] + s[1..][..i];
      i + 1
  }

  /** Python's `s.split(sep)` for a one-character separator: the pieces of
      `s` between separators, one more than there are separators; the empty
      text gives one empty field. */
  function Split(s: string, sep: char): seq<string>
    decreases |s|
  {
    if sep !in s then [s]
    else
      var i := IndexOf(s, sep);
      [s[..i]] + Split(s[i + 1..], sep)
  }

  /** `split` returns one field more than there are separators. */
  lemma {:induction false} SplitCount(s: string, sep: char)
    ensures |Split(s, sep)| == multiset(s)[sep] + 1
    decreases |s|
  {
    if sep !in s {
      assert sep !in multiset(s);
    } else {
      var i := IndexOf(s, sep);
      SplitCount(s[i + 1..], sep);
      assert s == s[..i] + [sep] + s[i + 1..];
      assert sep !in multiset(s[..i]);
    }
  }

  /** The fields `split` returns hold no separator and join back into the
      text they came from. */
  lemma {:induction false} SplitFields(s: string, sep: char)
    ensures |Split(s, sep)| >= 1
    ensures forall k :: 0 <= k < |Split(s, sep)| ==> sep !in Split(s, sep)[k]
    ensures Join(Split(s, sep), sep) == s
    decreases |s|
  {
    if sep in s {
      var i := IndexOf(s, sep);
      var rest := Split(s[i + 1..], sep);
      SplitFields(s[i + 1..], sep);
      assert Split(s, sep) == [s[..i]] + rest;
      assert Split(s, sep)[1..] == rest;
      assert s == s[..i] + [sep] + s[i + 1..];
    }
  }

  /** A text that splits into three fields is those fields joined by the
      separator, and none of them holds it. */
  lemma SplitThree(s: string, sep: char)
    requires |Split(s, sep)| == 3
    ensures var f := Split(s, sep); s == f[0] + [sep] + f[1] + [sep] + f[2]
    ensures var f := Split(s, sep); sep !in f[0] && sep !in f[1] && sep !in f[2]
  {
    var f := Split(s, sep);
    SplitFields(s, sep);
    assert f == [f[0], f[1], f[2]];
    JoinThree(f[0], f[1], f[2], sep);
  }

  /** Two texts cut at their first separator agree piece by piece. */
  lemma {:induction false} CutAtFirst(x: string, y: string, x': string, y': string, sep: char)
    requires sep !in x && sep !in x'
    requires x + [sep] + y == x' + [sep] + y'
    ensures x == x' && y == y'
  {
    var t := x + [sep] + y;
    assert t[|x|] == sep && t[|x'|] == sep;
    assert forall i :: 0 <= i < |x| ==> t[i] == x[i] != sep;
    assert forall i :: 0 <= i < |x'| ==> t[i] == x'[i] != sep;
    assert |x| == |x'|;
    assert x == t[..|x|] == x';
    assert y == t[|x| + 1..] == y';
  }

  /** Equal texts with a common prefix agree after it. */
  lemma DropPrefix(p: string, x: string, y: string)
    requires p + x == p + y
    ensures x == y
  {
    assert x == (p + x)[|p|..];
    assert y == (p + y)[|p|..];
  }

  /** A join of two or more fields contains the separator. */
  lemma JoinHasSeparator(fields: seq<string>, sep: char)
    requires |fields| >= 2
    ensures sep in Join(fields, sep)
  {
    var s := Join(fields, sep);
    assert s[|fields[0]|] == sep;
  }

  /** Joining separator-free fields loses nothing. */
  lemma {:induction false} JoinInjective(a: seq<string>, b: seq<string>, sep: char)
    requires |a| >= 1 && |b| >= 1
    requires forall k :: 0 <= k < |a| ==> sep !in a[k]
    requires forall k :: 0 <= k < |b| ==> sep !in b[k]
    requires Join(a, sep) == Join(b, sep)
    ensures a == b
  {
    if |a| == 1 && |b| == 1 {
    } else if |a| == 1 {
      JoinHasSeparator(b, sep);
      assert false;
    } else if |b| == 1 {
      JoinHasSeparator(a, sep);
      assert false;
    } else {
      CutAtFirst(a[0], Join(a[1..], sep), b[0], Join(b[1..], sep), sep);
      JoinInjective(a[1..], b[1..], sep);
      assert a == [a[0]] + a[1..];
      assert b == [b[0]] + b[1..];
    }
  }

  /** Splitting undoes joining, when no field holds the separator. */
  lemma SplitJoin(fields: seq<string>, sep: char)
    requires |fields| >= 1
    requires forall k :: 0 <= k < |fields| ==> sep !in fields[k]
    ensures Split(Join(fields, sep), sep) == fields
  {
    SplitFields(Join(fields, sep), sep);
    JoinInjective(Split(Join(fields, sep), sep), fields, sep);
  }
}
