/** Schema lines without comments and spacing (`normalizeLines`, scripts/check-schema-drift.mjs). */
module SchemaLines {
  import opened Collections
  import opened JsStrings
  import opened BraceBlocks

  // ---------------------------------------------------------------- one line

  predicate StartsComment(s: string) {
    |s| >= 2 && s[0] == '/' && s[1] == '/'
  }

  /** The part before the first `//`. */
  function Cut(line: string): string {
    if line == "" || StartsComment(line) then "" else [line[0]] + Cut(line[1..])
  }

  /** What is cut off begins with the first `//` of the line. */
  lemma {:induction false} CutExactly(line: string)
    ensures Cut(line) <= line
    ensures Cut(line) == line || StartsComment(line[|Cut(line)|..])
    ensures forall i :: 0 <= i < |Cut(line)| ==> !StartsComment(line[i..])
  {
    if line != "" && !StartsComment(line) {
      CutExactly(line[1..]);
      forall i | 0 <= i < |Cut(line)| ensures !StartsComment(line[i..]) {
        if i > 0 {
          assert line[i..] == line[1..][i - 1..];
        }
      }
      assert line[|Cut(line)|..] == line[1..][|Cut(line)| - 1..];
    }
  }

  predicate SpaceAt(s: string, i: nat) {
    i < |s| && IsSpace(s[i])
  }

  /** `replace(/\s+/g, " ")`: one space for the last character of each run. */
  function Collapse(s: string): string {
    if s == "" then ""
    else if !IsSpace(s[0]) then [s[0]] + Collapse(s[1..])
    else if SpaceAt(s, 1) then Collapse(s[1..])
    else " " + Collapse(s[1..])
  }

  function NormalizeLine(line: string): string {
    Collapse(Trim(Cut(line)))
  }

  /** What is left of a line. */
  function Normal(line: string): Option<string> {
    if NormalizeLine(line) == "" then None else Some(NormalizeLine(line))
  }

  function NormalizeLines(block: string): seq<string> {
    Traces(Split(block, '\n'), Normal)
  }

  // ---------------------------------------------------------------- words: what a line says

  /** Put a character before the first word. */
  function Push(c: char, words: seq<string>): seq<string> {
    if words == [] then [[c]] else [[c] + words[0]] + words[1..]
  }

  /** The maximal runs of characters other than white space. */
  function Words(s: string): seq<string> {
    if s == "" then []
    else if IsSpace(s[0]) then Words(s[1..])
    else if |s| == 1 || IsSpace(s[1]) then [[s[0]]] + Words(s[1..])
    else Push(s[0], Words(s[1..]))
  }

  /** Two strings meet at white space, or one is empty: no word runs across. */
  predicate Apart(a: string, b: string) {
    a == "" || b == "" || IsSpace(a[|a| - 1]) || IsSpace(b[0])
  }

  lemma {:induction false} HasWords(s: string)
    requires s != "" && !IsSpace(s[0])
    ensures Words(s) != []
  {}

  lemma PushConcat(c: char, words: seq<string>, more: seq<string>)
    requires words != []
    ensures Push(c, words + more) == Push(c, words) + more
  {
    assert (words + more)[1..] == words[1..] + more;
  }

  lemma {:induction false} WordsConcat(a: string, b: string)
    requires Apart(a, b)
    ensures Words(a + b) == Words(a) + Words(b)
    decreases |a|
  {
    if a == "" {
      assert a + b == b;
    } else {
      var c, tail := a[0], a[1..];
      assert (a + b)[1..] == tail + b && (a + b)[0] == c;
      assert Apart(tail, b);
      WordsConcat(tail, b);
      if !IsSpace(c) && tail != "" && !IsSpace(tail[0]) {
        HasWords(tail);
        PushConcat(c, Words(tail), Words(b));
      }
    }
  }

  lemma {:induction false} NoWords(s: string)
    requires Blank(s)
    ensures Words(s) == []
  {
    if s != "" {
      NoWords(s[1..]);
    }
  }

  lemma {:induction false} TrimStartWords(s: string)
    ensures Words(TrimStart(s)) == Words(s)
  {
    if s != "" && IsSpace(s[0]) {
      TrimStartWords(s[1..]);
    }
  }

  lemma {:induction false} TrimEndWords(s: string)
    ensures Words(TrimEnd(s)) == Words(s)
  {
    if s != "" && IsSpace(s[|s| - 1]) {
      var front, last := s[..|s| - 1], s[|s| - 1..];
      TrimEndWords(front);
      assert s == front + last;
      WordsConcat(front, last);
      NoWords(last);
    }
  }

  lemma JoinCons(first: string, rest: seq<string>)
    requires rest != []
    ensures Join([first] + rest, " ") == first + " " + Join(rest, " ")
  {
    assert ([first] + rest)[1..] == rest;
  }

  lemma JoinPush(c: char, words: seq<string>)
    requires words != []
    ensures Join(Push(c, words), " ") == [c] + Join(words, " ")
  {
    assert Push(c, words)[1..] == words[1..];
    if |words| > 1 {
      assert ([c] + words[0]) + " " + Join(words[1..], " ") == [c] + (words[0] + " " + Join(words[1..], " "));
    }
  }

  /** A string with no space at its end collapses to its words, after a space if it begins with one. */
  lemma {:induction false} CollapseIsWords(s: string)
    requires s != "" ==> !IsSpace(s[|s| - 1])
    ensures Collapse(s) == (if SpaceAt(s, 0) then " " else "") + Join(Words(s), " ")
  {
    if |s| > 1 {
      var c, tail := s[0], s[1..];
      CollapseIsWords(tail);
      if !IsSpace(c) {
        if IsSpace(tail[0]) {
          WordsAhead(tail);
          JoinCons([c], Words(tail));
        } else {
          HasWords(tail);
          JoinPush(c, Words(tail));
        }
      }
    }
  }

  lemma {:induction false} WordsAhead(s: string)
    requires s != "" && !IsSpace(s[|s| - 1])
    ensures Words(s) != []
  {
    if IsSpace(s[0]) {
      WordsAhead(s[1..]);
    }
  }

  /** Trimmed and collapsed, a string is its words. */
  lemma TrimmedIsWords(s: string)
    ensures Collapse(Trim(s)) == Join(Words(s), " ")
  {
    var t := TrimStart(s);
    TrimStartWords(s);
    TrimEndWords(t);
    TrimEndKeepsStart(t);
    CollapseIsWords(TrimEnd(t));
  }

  /** A normalised line is its words, before the comment, one space apart. */
  lemma NormalIsWords(line: string)
    ensures NormalizeLine(line) == Join(Words(Cut(line)), " ")
  {
    TrimmedIsWords(Cut(line));
  }

  // ---------------------------------------------------------------- comments

  predicate Touch(a: string, b: string) {
    a != "" && b != "" && a[|a| - 1] == '/' && b[0] == '/'
  }

  lemma FirstOf(a: string, b: string)
    requires a != ""
    ensures (a + b)[0] == a[0] && (a + b)[1..] == a[1..] + b && a == [a[0]] + a[1..]
  {}

  lemma NoCommentStarts(a: string, b: string)
    requires a != "" && Cut(a) == a && !Touch(a, b)
    ensures !StartsComment(a + b)
  {
    assert (a + b)[0] == a[0];
    if |a| > 1 {
      assert (a + b)[1] == a[1];
    }
  }

  /** No comment begins in `a`, nor where the two meet. */
  lemma {:induction false} CutConcat(a: string, b: string)
    requires Cut(a) == a && !Touch(a, b)
    ensures Cut(a + b) == a + Cut(b)
  {
    if a == "" {
      assert a + b == b;
    } else {
      var c, tail := a[0], a[1..];
      FirstOf(a, b);
      NoCommentStarts(a, b);
      assert Cut(tail) == tail;
      CutConcat(tail, b);
      assert [c] + (tail + Cut(b)) == a + Cut(b);
    }
  }

  /** A comment begins in `a`. */
  lemma {:induction false} CutEarly(a: string, b: string)
    requires Cut(a) != a
    ensures Cut(a + b) == Cut(a)
  {
    if !StartsComment(a) {
      var tail := a[1..];
      assert (a + b)[1..] == tail + b && a == [a[0]] + tail;
      assert tail != "" && !StartsComment(a + b);
      CutEarly(tail, b);
    }
  }

  lemma {:induction false} CutIsUncut(s: string)
    ensures Cut(Cut(s)) == Cut(s) && (Cut(s) != "" ==> Cut(s)[0] == s[0])
  {
    if s != "" && !StartsComment(s) {
      CutIsUncut(s[1..]);
      var r := Cut(s);
      assert r[1..] == Cut(s[1..]) && r[0] == s[0];
      assert |r| > 1 ==> r[1] == s[1];
    }
  }

  lemma SlashIsNoSpace()
    ensures !IsSpace('/') && !IsSpace('{') && !IsSpace('}') && IsSpace(' ') && IsSpace('\n')
  {}

  lemma {:induction false} BlankIsUncut(s: string)
    requires Blank(s)
    ensures Cut(s) == s
  {
    if s != "" {
      SlashIsNoSpace();
      BlankIsUncut(s[1..]);
    }
  }

  // ---------------------------------------------------------------- normal lines stay

  /** A word of a line without a comment. */
  predicate IsWord(w: string) {
    w != "" && Cut(w) == w && forall i :: 0 <= i < |w| ==> !IsSpace(w[i])
  }

  lemma PushedIsWord(c: char, w: string)
    requires IsWord(w) && !IsSpace(c) && !(c == '/' && w[0] == '/')
    ensures IsWord([c] + w)
  {
    assert ([c] + w)[1..] == w;
  }

  lemma {:induction false} WordsAreWords(s: string)
    requires Cut(s) == s
    ensures forall w :: w in Words(s) ==> IsWord(w)
    ensures s != "" && !IsSpace(s[0]) ==> Words(s) != [] && Words(s)[0][0] == s[0]
  {
    if s != "" {
      var c, tail := s[0], s[1..];
      assert s == [c] + tail;
      WordsAreWords(tail);
      if !IsSpace(c) {
        if tail == "" || IsSpace(tail[0]) {
          assert Cut([c])[..] == [c];
        } else {
          assert !StartsComment(s);
          PushedIsWord(c, Words(tail)[0]);
        }
      }
    }
  }

  lemma {:induction false} WordStands(w: string)
    requires IsWord(w)
    ensures Words(w) == [w]
  {
    var c, tail := w[0], w[1..];
    assert w == [c] + tail && !IsSpace(w[0]);
    if tail != "" {
      assert !IsSpace(w[1]) && Cut(tail) == tail;
      WordStands(tail);
      assert Push(c, [tail]) == [w];
    } else {
      assert w == [c] && Words(w) == [[c]] + Words(tail);
    }
  }

  /** Words joined by spaces are these words again, and no comment comes about. */
  lemma {:induction false} JoinedWords(words: seq<string>)
    requires forall w :: w in words ==> IsWord(w)
    ensures Words(Join(words, " ")) == words && Cut(Join(words, " ")) == Join(words, " ")
    decreases |words|
  {
    if |words| == 1 {
      WordStands(words[0]);
    } else if |words| > 1 {
      var w, rest := words[0], Join(words[1..], " ");
      JoinedWords(words[1..]);
      WordStands(w);
      SpaceBetween(w, rest);
      assert Join(words, " ") == w + " " + rest;
      assert [w] + words[1..] == words;
    }
  }

  lemma SpaceBetween(w: string, rest: string)
    requires Cut(w) == w && Cut(rest) == rest
    ensures Words(w + " " + rest) == Words(w) + Words(rest) && Cut(w + " " + rest) == w + " " + rest
  {
    SpaceBetweenCuts(w, rest);
    SpaceBetweenWords(w, rest);
  }

  lemma SpaceBetweenCuts(w: string, rest: string)
    requires Cut(w) == w && Cut(rest) == rest
    ensures Cut(w + " " + rest) == w + " " + rest
  {
    SlashIsNoSpace();
    BlankIsUncut(" ");
    CutConcat(w, " ");
    CutConcat(w + " ", rest);
  }

  lemma SpaceBetweenWords(w: string, rest: string)
    ensures Words(w + " " + rest) == Words(w) + Words(rest)
  {
    assert IsSpace(' ') && (w + " ")[|w|] == ' ';
    NoWords(" ");
    WordsConcat(w, " ");
    WordsConcat(w + " ", rest);
    assert Words(w) + [] == Words(w);
  }

  lemma {:induction false} JoinedHasNoBreak(words: seq<string>)
    requires forall w :: w in words ==> IsWord(w)
    ensures '\n' !in Join(words, " ")
    decreases |words|
  {
    SlashIsNoSpace();
    if |words| > 0 {
      assert IsWord(words[0]);
      JoinedHasNoBreak(words[1..]);
    }
  }

  /** A line that normalising leaves as it is. */
  predicate IsNormal(line: string) {
    line != "" && NormalizeLine(line) == line && '\n' !in line
  }

  lemma NormalizedIsNormal(line: string)
    ensures NormalizeLine(line) != "" ==> IsNormal(NormalizeLine(line))
  {
    var words := Words(Cut(line));
    CutIsUncut(line);
    WordsAreWords(Cut(line));
    NormalIsWords(line);
    JoinedWords(words);
    NormalIsWords(Join(words, " "));
    JoinedHasNoBreak(words);
  }

  lemma {:induction false} AllAreNormal(lines: seq<string>)
    ensures forall l :: l in Traces(lines, Normal) ==> IsNormal(l)
  {
    if lines != [] {
      NormalizedIsNormal(lines[0]);
      AllAreNormal(lines[1..]);
    }
  }

  lemma NormalStays(lines: seq<string>)
    requires forall l :: l in lines ==> IsNormal(l)
    ensures Traces(lines, Normal) == lines
  {
    forall l | l in lines ensures Normal(l) == Some(l) {
      NormalTrace(l);
    }
    TracesStay(lines, Normal);
  }

  lemma NormalTrace(line: string)
    requires IsNormal(line)
    ensures Normal(line) == Some(line)
  {}

  lemma NormalHasNoBreak(lines: seq<string>)
    requires forall l :: l in lines ==> IsNormal(l)
    ensures forall l :: l in lines ==> '\n' !in l
  {}

  /** Normal lines, joined, are the normal lines of the text. */
  lemma NormalTextStays(lines: seq<string>)
    requires forall l :: l in lines ==> IsNormal(l)
    ensures NormalizeLines(Join(lines, "\n")) == lines
  {
    if lines == [] {
      EmptyBlock();
    } else {
      NormalHasNoBreak(lines);
      SplitOfJoin(lines, '\n');
      NormalStays(lines);
    }
  }

  /** Normalising is idempotent, through joining and splitting again. */
  lemma NormalizeIsIdempotent(block: string)
    ensures NormalizeLines(Join(NormalizeLines(block), "\n")) == NormalizeLines(block)
  {
    var lines := Split(block, '\n');
    AllAreNormal(lines);
    NormalTextStays(Traces(lines, Normal));
  }

  lemma EmptyBlock()
    ensures NormalizeLines("") == []
  {
    assert NormalizeLine("") == "";
  }

  /** Comparing the joined texts of two normalised blocks compares their lines. */
  lemma JoinsAgreeExactly(a: seq<string>, b: seq<string>)
    requires forall l :: l in a ==> IsNormal(l)
    requires forall l :: l in b ==> IsNormal(l)
    ensures Join(a, "\n") == Join(b, "\n") <==> a == b
  {
    if a != [] && b != [] {
      SplitOfJoin(a, '\n');
      SplitOfJoin(b, '\n');
    } else if a != [] {
      assert a[0] in a;
    } else if b != [] {
      assert b[0] in b;
    }
  }

  // ---------------------------------------------------------------- edits that do not show

  lemma SameWordsSameLine(line: string, other: string)
    requires Words(Cut(line)) == Words(Cut(other))
    ensures NormalizeLine(line) == NormalizeLine(other)
  {
    NormalIsWords(line);
    NormalIsWords(other);
  }

  lemma SpacedWords(a: string, spaces: string, b: string)
    requires Blank(spaces) && spaces != "" && Apart(a, b) && Cut(a) == a
    ensures Words(Cut(a + (spaces + b))) == Words(Cut(a + b))
  {
    SlashIsNoSpace();
    CutIsUncut(b);
    BlankIsUncut(spaces);
    CutConcat(a, b);
    CutConcat(a, spaces + b);
    CutConcat(spaces, b);
    var cut := Cut(b);
    assert Apart(a, cut) by {
      if b != "" && IsSpace(b[0]) {
        assert b[0] != '/' && cut[0] == b[0];
      }
    }
    WordsConcat(a, spaces + cut);
    WordsConcat(spaces, cut);
    WordsConcat(a, cut);
    NoWords(spaces);
    assert [] + Words(cut) == Words(cut);
  }

  lemma SpacedCut(a: string, spaces: string, b: string)
    requires Blank(spaces) && Apart(a, b)
    ensures Words(Cut(a + (spaces + b))) == Words(Cut(a + b))
  {
    if Cut(a) != a {
      CutEarly(a, b);
      CutEarly(a, spaces + b);
    } else if spaces == "" {
      assert spaces + b == b;
    } else {
      SpacedWords(a, spaces, b);
    }
  }

  /** Extra white space beside white space, or at an end of the line. */
  lemma SpaceDoesNotShow(a: string, spaces: string, b: string)
    requires Blank(spaces) && Apart(a, b)
    ensures NormalizeLine(a + spaces + b) == NormalizeLine(a + b)
  {
    assert a + spaces + b == a + (spaces + b);
    SpacedCut(a, spaces, b);
    SameWordsSameLine(a + spaces + b, a + b);
  }

  function Count(s: string, c: char): nat {
    if s == "" then 0 else (if s[0] == c then 1 else 0) + Count(s[1..], c)
  }

  lemma {:induction false} CountIs(s: string, c: char)
    ensures Count(s, c) == multiset(s)[c]
  {
    if s != "" {
      CountIs(s[1..], c);
      assert s == [s[0]] + s[1..];
    }
  }

  lemma {:induction false} CountConcat(a: string, b: string, c: char)
    ensures Count(a + b, c) == Count(a, c) + Count(b, c)
  {
    if a == "" {
      assert a + b == b;
    } else {
      assert (a + b)[1..] == a[1..] + b;
      CountConcat(a[1..], b, c);
    }
  }

  lemma {:induction false} CollapseKeepsCount(s: string, c: char)
    requires !IsSpace(c)
    ensures Count(Collapse(s), c) == Count(s, c)
  {
    if s != "" {
      CollapseKeepsCount(s[1..], c);
      SlashIsNoSpace();
      assert Collapse(s) == Collapse(s[1..]) || Collapse(s)[1..] == Collapse(s[1..]);
    }
  }

  lemma {:induction false} TrimStartKeepsCount(s: string, c: char)
    requires !IsSpace(c)
    ensures Count(TrimStart(s), c) == Count(s, c)
  {
    if s != "" && IsSpace(s[0]) {
      TrimStartKeepsCount(s[1..], c);
    }
  }

  lemma {:induction false} TrimEndKeepsCount(s: string, c: char)
    requires !IsSpace(c)
    ensures Count(TrimEnd(s), c) == Count(s, c)
  {
    if s != "" && IsSpace(s[|s| - 1]) {
      var front, last := s[..|s| - 1], s[|s| - 1..];
      TrimEndKeepsCount(front, c);
      CountConcat(front, last, c);
      assert s == front + last;
    }
  }

  /** Normalising drops spaces and comments and nothing else. */
  lemma NormalizeKeepsCount(line: string, c: char)
    requires !IsSpace(c)
    ensures Count(NormalizeLine(line), c) == Count(Cut(line), c)
  {
    TrimStartKeepsCount(Cut(line), c);
    TrimEndKeepsCount(TrimStart(Cut(line)), c);
    CollapseKeepsCount(Trim(Cut(line)), c);
  }

  lemma CommentIsCut(comment: string)
    ensures Cut("//" + comment) == ""
  {}

  lemma SlashShows(line: string, front: string, comment: string)
    requires Cut(line) == line && line == front + "/"
    ensures NormalizeLine(line + ("//" + comment)) != NormalizeLine(line)
  {
    UncutFront(front);
    var longer := line + ("//" + comment);
    assert longer == front + ("//" + ("/" + comment));
    CommentIsCut("/" + comment);
    CutConcat(front, "//" + ("/" + comment));
    assert front + "" == front;
    SlashIsNoSpace();
    NormalizeKeepsCount(line, '/');
    NormalizeKeepsCount(longer, '/');
    CountConcat(front, "/", '/');
  }

  lemma CommentIsDropped(line: string, comment: string)
    requires Cut(line) != line || line == "" || line[|line| - 1] != '/'
    ensures Cut(line + ("//" + comment)) == Cut(line)
  {
    if Cut(line) != line {
      CutEarly(line, "//" + comment);
    } else {
      CommentIsCut(comment);
      CutConcat(line, "//" + comment);
    }
  }

  lemma CommentDoesNotShow(line: string, comment: string)
    requires Cut(line) != line || line == "" || line[|line| - 1] != '/'
    ensures NormalizeLine(line + ("//" + comment)) == NormalizeLine(line)
  {
    CommentIsDropped(line, comment);
    SameWordsSameLine(line + ("//" + comment), line);
  }

  lemma BeforeLast(line: string) returns (front: string)
    requires line != ""
    ensures line == front + [line[|line| - 1]]
  {
    front := line[..|line| - 1];
  }

  /** A comment at the end of a line does not show, exactly when the line already has one or does
      not end in a slash: `a/` followed by `//` is read as `a` followed by a comment. */
  lemma CommentDoesNotShowExactly(line: string, comment: string)
    ensures NormalizeLine(line + ("//" + comment)) == NormalizeLine(line) <==>
            Cut(line) != line || line == "" || line[|line| - 1] != '/'
  {
    if Cut(line) != line || line == "" || line[|line| - 1] != '/' {
      CommentDoesNotShow(line, comment);
    } else {
      var front := BeforeLast(line);
      SlashShows(line, front, comment);
    }
  }

  lemma {:induction false} UncutFront(front: string)
    requires Cut(front + "/") == front + "/"
    ensures Cut(front) == front && (front != "" ==> front[|front| - 1] != '/')
  {
    if front != "" {
      var tail := front[1..];
      assert (front + "/")[1..] == tail + "/" && (front + "/")[0] == front[0];
      assert !StartsComment(front + "/");
      assert Cut(front + "/")[1..] == Cut(tail + "/");
      UncutFront(tail);
      if tail == "" {
        assert front + "/" == [front[0], '/'];
      }
    }
  }
}
