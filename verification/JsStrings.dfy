/** The String.prototype operations the server relies on: split, join, trim. */
module JsStrings {

  /** The ranges of ECMAScript's `WhiteSpace` and `LineTerminator`. */
  predicate InSpaceRange(c: char, n: nat) {
    match n
    case 0 => '\t' <= c <= '\r'
    case 1 => c == ' '
    case 2 => c == '\U{00A0}'
    case 3 => c == '\U{1680}'
    case 4 => '\U{2000}' <= c <= '\U{200A}'
    case 5 => '\U{2028}' <= c <= '\U{2029}'
    case 6 => c == '\U{202F}'
    case 7 => c == '\U{205F}'
    case 8 => c == '\U{3000}'
    case 9 => c == '\U{FEFF}'
    case _ => false
  }

  predicate InSpaceRanges(c: char, n: nat) {
    n > 0 && (InSpaceRange(c, n - 1) || InSpaceRanges(c, n - 1))
  }

  /** What `trim` and `\s` take for white space. */
  predicate IsSpace(c: char) {
    InSpaceRanges(c, 10)
  }

  lemma {:induction false} InSomeRange(c: char, n: nat)
    ensures InSpaceRanges(c, n) <==> exists k: nat :: k < n && InSpaceRange(c, k)
  {
    if n > 0 {
      InSomeRange(c, n - 1);
    }
  }

  /** White space is these twenty-five characters and no others. */
  lemma WhiteSpaceIs(c: char)
    ensures IsSpace(c) <==>
              c in "\t\n\U{B}\U{C}\r \U{A0}\U{1680}\U{2000}\U{2001}\U{2002}\U{2003}\U{2004}\U{2005}"
                   + "\U{2006}\U{2007}\U{2008}\U{2009}\U{200A}\U{2028}\U{2029}\U{202F}\U{205F}\U{3000}\U{FEFF}"
  {
    InSomeRange(c, 10);
    assert InSpaceRange(c, 0) || InSpaceRange(c, 1) || InSpaceRange(c, 2) || InSpaceRange(c, 3) || InSpaceRange(c, 4)
           || InSpaceRange(c, 5) || InSpaceRange(c, 6) || InSpaceRange(c, 7) || InSpaceRange(c, 8) || InSpaceRange(c, 9)
           <==> IsSpace(c);
  }

  function TrimStart(s: string): (r: string)
    ensures r != "" ==> !IsSpace(r[0])
    ensures |r| <= |s| && r == s[|s| - |r|..]
  {
    if s != "" && IsSpace(s[0]) then TrimStart(s[1..]) else s
  }

  function TrimEnd(s: string): (r: string)
    ensures r != "" ==> !IsSpace(r[|r| - 1])
    ensures |r| <= |s| && r == s[..|r|]
  {
    if s != "" && IsSpace(s[|s| - 1]) then TrimEnd(s[..|s| - 1]) else s
  }

  function Trim(s: string): string {
    TrimEnd(TrimStart(s))
  }

  predicate Blank(s: string) {
    forall i :: 0 <= i < |s| ==> IsSpace(s[i])
  }

  lemma {:induction false} TrimStartBlank(s: string)
    ensures Blank(s[..|s| - |TrimStart(s)|])
  {
    if s != "" && IsSpace(s[0]) {
      TrimStartBlank(s[1..]);
      var n := |s| - |TrimStart(s)|;
      assert s[..n] == [s[0]] + s[1..][..n - 1];
    }
  }

  lemma {:induction false} TrimEndBlank(s: string)
    ensures Blank(s[|TrimEnd(s)|..])
  {
    if s != "" && IsSpace(s[|s| - 1]) {
      var front := s[..|s| - 1];
      TrimEndBlank(front);
      var n := |TrimEnd(s)|;
      assert s[n..] == front[n..] + [s[|s| - 1]];
    }
  }

  /** What follows white space and does not begin with it is what trimming leaves. */
  lemma {:induction false} TrimStartOff(a: string, s: string)
    requires Blank(a) && s != "" && !IsSpace(s[0])
    ensures TrimStart(a + s) == s
  {
    if a == "" {
      assert a + s == s;
    } else {
      TrimStartOff(a[1..], s);
      assert (a + s)[1..] == a[1..] + s;
    }
  }

  lemma TrimEndKeepsStart(s: string)
    requires s != "" ==> !IsSpace(s[0])
    ensures TrimEnd(s) != "" ==> !IsSpace(TrimEnd(s)[0])
  {}

  lemma InPieces(s: string, t: string, u: string)
    requires |u| <= |t| <= |s| && t == s[|s| - |t|..] && u == t[..|u|]
    ensures s == s[..|s| - |t|] + u + t[|u|..]
  {}

  /** Trimming takes white space off both ends, and all of it. */
  lemma TrimExactly(s: string) returns (before: string, after: string)
    ensures s == before + Trim(s) + after && Blank(before) && Blank(after)
    ensures Trim(s) != "" ==> !IsSpace(Trim(s)[0]) && !IsSpace(Trim(s)[|Trim(s)| - 1])
  {
    var t := TrimStart(s);
    TrimStartBlank(s);
    TrimEndBlank(t);
    TrimEndKeepsStart(t);
    InPieces(s, t, TrimEnd(t));
    before, after := s[..|s| - |t|], t[|TrimEnd(t)|..];
  }

  /** `s.split(sep)` for a one-character separator: never empty. */
  function Split(s: string, sep: char): (parts: seq<string>)
    ensures |parts| >= 1
    ensures forall p :: p in parts ==> sep !in p
  {
    if s == "" then [""]
    else if s[0] == sep then [""] + Split(s[1..], sep)
    else
      var rest := Split(s[1..], sep);
      [[s[0]] + rest[0]] + rest[1..]
  }

  /** `parts.join(sep)` */
  function Join(parts: seq<string>, sep: string): string {
    if |parts| == 0 then ""
    else if |parts| == 1 then parts[0]
    else parts[0] + sep + Join(parts[1..], sep)
  }

  /** The first part ends at the first separator. */
  lemma {:induction false} SplitFirst(a: string, rest: string, sep: char)
    requires sep !in a
    ensures Split(a + [sep] + rest, sep) == [a] + Split(rest, sep)
  {
    if a == "" {
      assert a + [sep] + rest == [sep] + rest;
    } else {
      SplitFirst(a[1..], rest, sep);
      assert (a + [sep] + rest)[1..] == a[1..] + [sep] + rest;
      assert [a[0]] + a[1..] == a && ([a[1..]] + Split(rest, sep))[1..] == Split(rest, sep);
    }
  }

  /** The parts, with the separator put back, are the string. */
  lemma {:induction false} SplitHead(s: string, sep: char) returns (rest: string)
    ensures var parts := Split(s, sep);
            if |parts| == 1 then s == parts[0] else s == parts[0] + [sep] + rest && Split(rest, sep) == parts[1..]
  {
    if s == "" {
      rest := "";
    } else if s[0] == sep {
      rest := s[1..];
    } else {
      rest := SplitHead(s[1..], sep);
    }
  }

  lemma {:induction false} SplitAtom(a: string, sep: char)
    requires sep !in a
    ensures Split(a, sep) == [a]
  {
    if a != "" {
      SplitAtom(a[1..], sep);
      assert [a[0]] + a[1..] == a;
    }
  }

  /** Joining parts without the separator loses nothing: they are split off again. */
  lemma {:induction false} SplitOfJoin(parts: seq<string>, sep: char)
    requires |parts| >= 1 && forall p :: p in parts ==> sep !in p
    ensures Split(Join(parts, [sep]), sep) == parts
  {
    if |parts| == 1 {
      SplitAtom(parts[0], sep);
    } else {
      SplitOfJoin(parts[1..], sep);
      SplitFirst(parts[0], Join(parts[1..], [sep]), sep);
    }
  }
}
