/** The guard against schema drift: which lines make up a block, and when two schemas agree on it
    (scripts/check-schema-drift.mjs). */
module SchemaDrift {
  import opened Collections
  import opened JsStrings
  import opened BraceBlocks
  import opened SchemaLines

  // ---------------------------------------------------------------- the block

  /** `^\s*kind\s+name\s*{` */
  predicate Opens(line: string, kind: string, name: string) {
    var t := TrimStart(line);
    && kind <= t
    && SpaceAt(t, |kind|)
    && var u := TrimStart(t[|kind|..]);
       name <= u && "{" <= TrimStart(u[|name|..])
  }

  /** A kind or name as in the schema: something without white space or brace. */
  predicate Plain(word: string) {
    word != "" && forall i :: 0 <= i < |word| ==> !IsSpace(word[i]) && word[i] != '{'
  }

  /** White space, the kind, white space, the name, white space or none, a brace. */
  predicate IsOpening(line: string, kind: string, name: string, a: string, b: string, c: string, rest: string) {
    line == a + (kind + (b + (name + (c + ("{" + rest))))) && Blank(a) && Blank(b) && b != "" && Blank(c)
  }

  lemma WordOff(blank: string, word: string, behind: string)
    requires Blank(blank) && word != "" && !IsSpace(word[0])
    ensures var t := TrimStart(blank + (word + behind)); word <= t && t[|word|..] == behind
  {
    TrimStartOff(blank, word + behind);
  }

  lemma OpeningOpens(line: string, kind: string, name: string, a: string, b: string, c: string, rest: string)
    requires Plain(kind) && Plain(name) && IsOpening(line, kind, name, a, b, c, rest) && !IsSpace('{')
    ensures Opens(line, kind, name)
  {
    WordOff(c, "{", rest);
    WordOff(b, name, c + ("{" + rest));
    WordOff(a, kind, b + (name + (c + ("{" + rest))));
  }

  lemma InThree(s: string, t: string, word: string)
    requires |t| <= |s| && t == s[|s| - |t|..] && word <= t
    ensures s == s[..|s| - |t|] + (word + t[|word|..])
  {
    assert word + t[|word|..] == t;
  }

  /** A word after white space: what is before it and behind it. */
  lemma WordIn(s: string, word: string) returns (blank: string, behind: string)
    requires word <= TrimStart(s)
    ensures s == blank + (word + behind) && Blank(blank) && behind == TrimStart(s)[|word|..]
    ensures word != "" && SpaceAt(s, 0) ==> blank != ""
  {
    TrimStartBlank(s);
    InThree(s, TrimStart(s), word);
    blank, behind := s[..|s| - |TrimStart(s)|], TrimStart(s)[|word|..];
  }

  lemma OpensIsOpening(line: string, kind: string, name: string) returns (a: string, b: string, c: string, rest: string)
    requires Opens(line, kind, name) && name != ""
    ensures IsOpening(line, kind, name, a, b, c, rest)
  {
    var afterKind, afterName;
    a, afterKind := WordIn(line, kind);
    b, afterName := WordIn(afterKind, name);
    c, rest := WordIn(afterName, "{");
  }

  lemma BraceIsNoSpace()
    ensures !IsSpace('{')
  {}

  /** A line opens a block exactly when it is its kind and name and a brace, with white space before,
      between (some) and after, and anything behind. */
  lemma OpensExactly(line: string, kind: string, name: string)
    requires Plain(kind) && Plain(name)
    ensures Opens(line, kind, name) <==> exists a, b, c, rest :: IsOpening(line, kind, name, a, b, c, rest)
  {
    if Opens(line, kind, name) {
      var a, b, c, rest := OpensIsOpening(line, kind, name);
    }
    if exists a, b, c, rest :: IsOpening(line, kind, name, a, b, c, rest) {
      var a, b, c, rest :| IsOpening(line, kind, name, a, b, c, rest);
      BraceIsNoSpace();
      OpeningOpens(line, kind, name, a, b, c, rest);
    }
  }

  lemma NoLonger(t: string, n: nat, word: string)
    requires Plain(word) && word <= t && n < |t| && (IsSpace(t[n]) || t[n] == '{')
    ensures |word| <= n
  {}

  /** The words at the start of a line, each ended by white space or a brace, are the same. */
  lemma SameFirstWord(t: string, v: string, w: string)
    requires Plain(v) && Plain(w) && v <= t && w <= t
    requires |v| < |t| && (IsSpace(t[|v|]) || t[|v|] == '{') && |w| < |t| && (IsSpace(t[|w|]) || t[|w|] == '{')
    ensures v == w
  {
    NoLonger(t, |v|, w);
    NoLonger(t, |w|, v);
  }

  lemma EndsName(s: string)
    requires "{" <= TrimStart(s)
    ensures s != "" && (IsSpace(s[0]) || s[0] == '{')
  {}

  /** A line opens one block at most: that of a longer name does not open one of its prefixes. */
  lemma OpensOne(line: string, kind: string, name: string, kind': string, name': string)
    requires Plain(kind) && Plain(name) && Plain(kind') && Plain(name')
    requires Opens(line, kind, name) && Opens(line, kind', name')
    ensures kind == kind' && name == name'
  {
    var t := TrimStart(line);
    SameFirstWord(t, kind, kind');
    var u := TrimStart(t[|kind|..]);
    EndsName(u[|name|..]);
    EndsName(u[|name'|..]);
    SameFirstWord(u, name, name');
  }

  /** Braces opened less braces closed, comments included. */
  function Balance(line: string): int {
    Count(line, '{') - Count(line, '}')
  }

  lemma BalanceIs(line: string)
    ensures Balance(line) + multiset(line)['}'] == multiset(line)['{']
  {
    CountIs(line, '{');
    CountIs(line, '}');
  }

  function Opener(kind: string, name: string): string -> bool {
    (line: string) => Opens(line, kind, name)
  }

  function BlockOf(schema: string, kind: string, name: string): Option<seq<string>> {
    Traced(Block(Split(schema, '\n'), Opener(kind, name), Balance), Normal)
  }

  lemma JoinedBodyNormalizes(body: seq<string>)
    requires forall l :: l in body ==> '\n' !in l
    ensures NormalizeLines(Join(body, "\n")) == Traces(body, Normal)
  {
    if body == [] {
      EmptyBlock();
    } else {
      SplitOfJoin(body, '\n');
    }
  }

  lemma Tail(lines: seq<string>, i: nat)
    requires i < |lines|
    ensures lines[i..] != [] && lines[i..][0] == lines[i] && lines[i..][1..] == lines[i + 1..]
  {}

  /** The loop: skip to the opening line, then collect lines while the depth is above zero. */
  method ExtractBlock(schema: string, kind: string, name: string) returns (block: Option<seq<string>>)
    ensures block == BlockOf(schema, kind, name)
  {
    var lines := Split(schema, '\n');
    var depth := 0;
    var inside := false;
    var body: seq<string> := [];
    ghost var whole := Block(lines, Opener(kind, name), Balance);
    for i := 0 to |lines|
      invariant !inside ==> whole == Block(lines[i..], Opener(kind, name), Balance)
      invariant inside ==> depth > 0 && whole == Prepend(body, Body(lines[i..], Balance, depth))
      invariant forall l :: l in body ==> l in lines
    {
      var line := lines[i];
      Tail(lines, i);
      if !inside && Opens(line, kind, name) {
        inside := true;
        depth := 1;
        body := [];
        EmptyFront(Body(lines[i + 1..], Balance, depth));
        continue;
      }
      if !inside { continue; }
      depth := depth + Count(line, '{');
      depth := depth - Count(line, '}');
      if depth <= 0 {
        assert body + [] == body;
        JoinedBodyNormalizes(body);
        return Some(NormalizeLines(Join(body, "\n")));
      }
      PrependMore(body, line, Body(lines[i + 1..], Balance, depth));
      body := body + [line];
    }
    block := None;
  }

  /** The extraction returns exactly the lines, normalised, between the first opening line and the
      first line after it at which the running balance of braces is zero or less ... */
  lemma ExtractsSpan(schema: string, kind: string, name: string, i: nat, j: nat)
    requires Spans(Split(schema, '\n'), Opener(kind, name), Balance, i, j)
    ensures BlockOf(schema, kind, name) == Some(Traces(Split(schema, '\n')[i + 1..j], Normal))
  {
    BlockIs(Split(schema, '\n'), Opener(kind, name), Balance, i, j);
  }

  /** ... and nothing when there is no such pair. */
  lemma ExtractsOnlySpans(schema: string, kind: string, name: string) returns (i: nat, j: nat)
    requires BlockOf(schema, kind, name).Some?
    ensures Spans(Split(schema, '\n'), Opener(kind, name), Balance, i, j)
  {
    i, j := BlockFound(Split(schema, '\n'), Opener(kind, name), Balance);
  }

  // ---------------------------------------------------------------- lines that do not show

  /** A line that leaves no trace: blank, or a comment without braces. */
  predicate Unseen(line: string) {
    Normal(line).None? && Balance(line) == 0
  }

  predicate SameLine(line: string, other: string) {
    Normal(line) == Normal(other) && Balance(line) == Balance(other)
  }

  // ---------------------------------------------------------------- such edits

  lemma BalanceConcat(a: string, b: string)
    ensures Balance(a + b) == Balance(a) + Balance(b)
  {
    CountConcat(a, b, '{');
    CountConcat(a, b, '}');
  }

  lemma {:induction false} BlankHasNoBrace(s: string)
    requires Blank(s)
    ensures Count(s, '{') == 0 && Count(s, '}') == 0
  {
    if s != "" {
      SlashIsNoSpace();
      BlankHasNoBrace(s[1..]);
    }
  }

  /** A blank line, or spaces before a comment without braces. */
  lemma BlankOrCommentIsUnseen(spaces: string, comment: string)
    requires Blank(spaces) && (comment == "" || StartsComment(comment)) && Balance(comment) == 0
    ensures Unseen(spaces + comment)
  {
    BlankIsUncut(spaces);
    SlashIsNoSpace();
    CutConcat(spaces, comment);
    NoWords(spaces);
    assert spaces + "" == spaces;
    NormalIsWords(spaces + comment);
    BlankHasNoBrace(spaces);
    BalanceConcat(spaces, comment);
  }

  lemma SameNormal(line: string, other: string)
    requires NormalizeLine(line) == NormalizeLine(other) && Balance(line) == Balance(other)
    ensures SameLine(line, other)
  {}

  lemma SpacesWeighNothing(a: string, spaces: string, b: string)
    requires Blank(spaces)
    ensures Balance(a + spaces + b) == Balance(a + b)
  {
    BlankHasNoBrace(spaces);
    BalanceConcat(a + spaces, b);
    BalanceConcat(a, spaces);
    BalanceConcat(a, b);
  }

  /** Extra white space beside white space or at a line's ends. */
  lemma SpacedIsSameLine(a: string, spaces: string, b: string)
    requires Blank(spaces) && Apart(a, b)
    ensures SameLine(a + spaces + b, a + b)
  {
    SpaceDoesNotShow(a, spaces, b);
    SpacesWeighNothing(a, spaces, b);
    SameNormal(a + spaces + b, a + b);
  }

  lemma CommentWeighsNothing(line: string, comment: string)
    requires Balance(comment) == 0
    ensures Balance(line + ("//" + comment)) == Balance(line)
  {
    BalanceConcat(line, "//" + comment);
    BalanceConcat("//", comment);
    assert Balance("//") == 0;
  }

  /** A comment without braces after a line that has one already or does not end in a slash. */
  lemma CommentedIsSameLine(line: string, comment: string)
    requires Balance(comment) == 0 && (Cut(line) != line || line == "" || line[|line| - 1] != '/')
    ensures SameLine(line + ("//" + comment), line)
  {
    CommentDoesNotShow(line, comment);
    CommentWeighsNothing(line, comment);
    SameNormal(line + ("//" + comment), line);
  }

  // ---------------------------------------------------------------- the verdict

  datatype Finding =
    | MissingHere(kind: string, name: string)
    | MissingThere(kind: string, name: string)
    | Drift(kind: string, name: string)

  const BLOCKS: seq<(string, string)> := [("enum", "MessageType"), ("model", "Message"), ("model", "MessageReaction")]

  /** What the guard says about one block. */
  function Compare(here: Option<seq<string>>, there: Option<seq<string>>, kind: string, name: string): seq<Finding> {
    (if here.None? then [MissingHere(kind, name)] else [])
    + (if there.None? then [MissingThere(kind, name)] else [])
    + (if here.Some? && there.Some? && here != there then [Drift(kind, name)] else [])
  }

  /** What is found of a block: that the one schema lacks it, or the other, or that both have it with
      different lines; nothing else. */
  lemma FindingsAre(here: Option<seq<string>>, there: Option<seq<string>>, kind: string, name: string, f: Finding)
    ensures f in Compare(here, there, kind, name) <==>
              || (here.None? && f == MissingHere(kind, name))
              || (there.None? && f == MissingThere(kind, name))
              || (here.Some? && there.Some? && here.value != there.value && f == Drift(kind, name))
  {}

  predicate AllNormal(block: Option<seq<string>>) {
    block.Some? ==> forall l :: l in block.value ==> IsNormal(l)
  }

  lemma BlockIsNormal(schema: string, kind: string, name: string)
    ensures AllNormal(BlockOf(schema, kind, name))
  {
    var body := Block(Split(schema, '\n'), Opener(kind, name), Balance);
    if body.Some? {
      AllAreNormal(body.value);
    }
  }

  /** Comparing the joined lines of two blocks compares the blocks. */
  method Report(a: Option<seq<string>>, b: Option<seq<string>>, kind: string, name: string)
    returns (errors: seq<Finding>)
    requires AllNormal(a) && AllNormal(b)
    ensures errors == Compare(a, b, kind, name)
  {
    errors := [];
    if a.None? { errors := errors + [MissingHere(kind, name)]; }
    if b.None? { errors := errors + [MissingThere(kind, name)]; }
    if a.Some? && b.Some? {
      JoinsAgreeExactly(a.value, b.value);
      if Join(a.value, "\n") != Join(b.value, "\n") { errors := errors + [Drift(kind, name)]; }
    }
  }

  method CompareBlock(here: string, there: string, kind: string, name: string) returns (errors: seq<Finding>)
    ensures errors == Compare(BlockOf(here, kind, name), BlockOf(there, kind, name), kind, name)
  {
    var a := ExtractBlock(here, kind, name);
    var b := ExtractBlock(there, kind, name);
    BlockIsNormal(here, kind, name);
    BlockIsNormal(there, kind, name);
    errors := Report(a, b, kind, name);
  }

  /** One block passes exactly when both schemas have it, with the same normal lines. */
  lemma NothingFoundExactly(here: string, there: string, kind: string, name: string)
    ensures Compare(BlockOf(here, kind, name), BlockOf(there, kind, name), kind, name) == [] <==>
            BlockOf(here, kind, name).Some? && BlockOf(here, kind, name) == BlockOf(there, kind, name)
  {}

  function FindingsOn(here: string, there: string): ((string, string)) -> seq<Finding> {
    (block: (string, string)) =>
      Compare(BlockOf(here, block.0, block.1), BlockOf(there, block.0, block.1), block.0, block.1)
  }

  /** What the guard reports: nothing, exactly when nothing is found on any block. */
  method CheckDrift(here: string, there: string, blocks: seq<(string, string)> := BLOCKS) returns (errors: seq<Finding>)
    ensures errors == Gather(blocks, FindingsOn(here, there))
    ensures errors == [] <==> forall k :: 0 <= k < |blocks| ==> FindingsOn(here, there)(blocks[k]) == []
  {
    errors := [];
    for i := 0 to |blocks|
      invariant errors == Gather(blocks[..i], FindingsOn(here, there))
    {
      var more := CompareBlock(here, there, blocks[i].0, blocks[i].1);
      GatherMore(blocks, i, FindingsOn(here, there));
      errors := errors + more;
    }
    assert blocks[..|blocks|] == blocks;
    GatherNothing(blocks, FindingsOn(here, there));
  }

  /** A schema in lines, with its block opened by `opener`. */
  predicate IsSchema(before: seq<string>, opener: string, rest: seq<string>, kind: string, name: string) {
    && Opens(opener, kind, name)
    && (forall l :: l in before ==> !Opens(l, kind, name))
    && forall l :: l in before + [opener] + rest ==> '\n' !in l
  }

  function Text(before: seq<string>, opener: string, rest: seq<string>): string {
    Join(before + [opener] + rest, "\n")
  }

  lemma EditKeepsBlock(before: seq<string>, opener: string, front: seq<string>, a: seq<string>, b: seq<string>,
                       kind: string, name: string)
    requires IsSchema(before, opener, front + a, kind, name) && IsSchema(before, opener, front + b, kind, name)
    requires LeaveSame(a, b, Balance, Normal)
    ensures BlockOf(Text(before, opener, front + a), kind, name) == BlockOf(Text(before, opener, front + b), kind, name)
  {
    SplitOfJoin(before + [opener] + (front + a), '\n');
    SplitOfJoin(before + [opener] + (front + b), '\n');
    EditDoesNotShow(before, opener, front, a, b, Opener(kind, name), Balance, Normal);
  }

  /** What the guard says of one block of this text. */
  function Verdict(here: string, there: string, kind: string, name: string): seq<Finding> {
    Compare(BlockOf(here, kind, name), BlockOf(there, kind, name), kind, name)
  }

  /** The verdict on a block does not change with a line that leaves no trace, wherever it is added
      after the opening line. */
  lemma VerdictIgnoresAddedLine(before: seq<string>, opener: string, front: seq<string>, line: string,
                                rest: seq<string>, there: string, kind: string, name: string)
    requires IsSchema(before, opener, front + ([line] + rest), kind, name) && Unseen(line)
    ensures Verdict(Text(before, opener, front + ([line] + rest)), there, kind, name) ==
            Verdict(Text(before, opener, front + rest), there, kind, name)
  {
    AddedLeavesSame(line, rest, Balance, Normal);
    assert forall l :: l in before + [opener] + (front + rest) ==> l in before + [opener] + (front + ([line] + rest));
    EditKeepsBlock(before, opener, front, [line] + rest, rest, kind, name);
  }

  /** ... nor with the way a line is spaced or commented. */
  lemma VerdictIgnoresSpelling(before: seq<string>, opener: string, front: seq<string>, line: string, other: string,
                               rest: seq<string>, there: string, kind: string, name: string)
    requires IsSchema(before, opener, front + ([line] + rest), kind, name) && SameLine(line, other) && '\n' !in other
    ensures Verdict(Text(before, opener, front + ([line] + rest)), there, kind, name) ==
            Verdict(Text(before, opener, front + ([other] + rest)), there, kind, name)
  {
    ReplacedLeavesSame(line, other, rest, Balance, Normal);
    assert forall l :: l in before + [opener] + (front + ([other] + rest)) ==>
                         l in before + [opener] + (front + ([line] + rest)) || l == other;
    EditKeepsBlock(before, opener, front, [line] + rest, [other] + rest, kind, name);
  }

  /** The block of the one text is that of the other. */
  predicate SameBlock(before: seq<string>, opener: string, lines: seq<string>, others: seq<string>,
                      kind: string, name: string)
  {
    IsSchema(before, opener, lines, kind, name) ==>
      BlockOf(Text(before, opener, lines), kind, name) == BlockOf(Text(before, opener, others), kind, name)
  }

  /** Adding the line does not show, in whatever schema and wherever after the opening line. */
  ghost predicate HiddenEverywhere(line: string, kind: string, name: string) {
    forall before, opener, front, rest ::
      SameBlock(before, opener, front + ([line] + rest), front + rest, kind, name)
  }

  lemma BlockOfText(before: seq<string>, opener: string, rest: seq<string>, kind: string, name: string)
    requires IsSchema(before, opener, rest, kind, name)
    ensures BlockOf(Text(before, opener, rest), kind, name) == Traced(Body(rest, Balance, 1), Normal)
  {
    SplitOfJoin(before + [opener] + rest, '\n');
    BlockAfter(before, opener, rest, Opener(kind, name), Balance);
  }

  lemma ShortSchema(opener: string, rest: seq<string>, kind: string, name: string)
    requires Opens(opener, kind, name) && '\n' !in opener && forall l :: l in rest ==> '\n' !in l
    ensures IsSchema([], opener, rest, kind, name)
  {}

  lemma ClosingBrace()
    ensures Balance("}") == -1 && '\n' !in "}"
  {}

  /** A line whose braces do not balance shows in some body. */
  lemma UnbalancedBodies(line: string) returns (front: seq<string>, rest: seq<string>)
    requires Balance(line) != 0 && '\n' !in line
    ensures (forall l :: l in front + ([line] + rest) ==> '\n' !in l) && (forall l :: l in front + rest ==> '\n' !in l)
    ensures Traced(Body(front + ([line] + rest), Balance, 1), Normal) != Traced(Body(front + rest, Balance, 1), Normal)
  {
    ClosingBrace();
    front, rest := UnbalancedLeaves(line, "}", Balance, Normal);
  }

  lemma BlocksDiffer(opener: string, lines: seq<string>, others: seq<string>, kind: string, name: string)
    requires Opens(opener, kind, name) && '\n' !in opener
    requires (forall l :: l in lines ==> '\n' !in l) && (forall l :: l in others ==> '\n' !in l)
    requires Traced(Body(lines, Balance, 1), Normal) != Traced(Body(others, Balance, 1), Normal)
    ensures !SameBlock([], opener, lines, others, kind, name)
  {
    ShortSchema(opener, lines, kind, name);
    ShortSchema(opener, others, kind, name);
    BlockOfText([], opener, lines, kind, name);
    BlockOfText([], opener, others, kind, name);
  }

  /** ... and so in some schema. */
  lemma UnbalancedShows(line: string, opener: string, kind: string, name: string)
    returns (front: seq<string>, rest: seq<string>)
    requires Opens(opener, kind, name) && '\n' !in opener && '\n' !in line && Balance(line) != 0
    ensures !SameBlock([], opener, front + ([line] + rest), front + rest, kind, name)
  {
    front, rest := UnbalancedBodies(line);
    BlocksDiffer(opener, front + ([line] + rest), front + rest, kind, name);
  }

  lemma UnseenIsHidden(before: seq<string>, opener: string, front: seq<string>, line: string, rest: seq<string>,
                       kind: string, name: string)
    requires Unseen(line)
    ensures SameBlock(before, opener, front + ([line] + rest), front + rest, kind, name)
  {
    if IsSchema(before, opener, front + ([line] + rest), kind, name) {
      AddedLeavesSame(line, rest, Balance, Normal);
      assert forall l :: l in before + [opener] + (front + rest) ==> l in before + [opener] + (front + ([line] + rest));
      EditKeepsBlock(before, opener, front, [line] + rest, rest, kind, name);
    }
  }

  /** A blank or comment line shows in no schema exactly when its braces balance: those in comments
      count. */
  lemma HiddenExactly(line: string, opener: string, kind: string, name: string)
    requires Opens(opener, kind, name) && '\n' !in opener && '\n' !in line && Normal(line).None?
    ensures HiddenEverywhere(line, kind, name) <==> Balance(line) == 0
  {
    if Balance(line) == 0 {
      forall before, opener, front, rest
        ensures SameBlock(before, opener, front + ([line] + rest), front + rest, kind, name)
      {
        UnseenIsHidden(before, opener, front, line, rest, kind, name);
      }
    } else {
      var front, rest := UnbalancedShows(line, opener, kind, name);
    }
  }

  lemma BraceCommentIs()
    ensures Normal("// }").None? && Balance("// }") == -1
  {
    assert NormalizeLine("// }") == "";
  }

  /** A brace in a comment does count: this one, right after the opening line, empties the block. */
  lemma BraceInCommentCounts(before: seq<string>, opener: string, rest: seq<string>, kind: string, name: string)
    requires IsSchema(before, opener, ["// }"] + rest, kind, name)
    ensures Normal("// }").None? && BlockOf(Text(before, opener, ["// }"] + rest), kind, name) == Some([])
  {
    SplitOfJoin(before + [opener] + (["// }"] + rest), '\n');
    BlockAfter(before, opener, ["// }"] + rest, Opener(kind, name), Balance);
    BraceCommentIs();
    TracedCons("// }", rest, Balance, 1, Normal);
  }
}
