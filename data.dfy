/**
 * nlp.data.Parser: three line grammars that append sentences to a corpus the
 * parser holds, and the serialiser that writes a corpus out one token per
 * line. A file is given as the lines readLine returns for it; an exception
 * that ends a parse is returned as a ParseError.
 */
module Data {
  import opened Wrappers
  import opened JavaText
  import opened Sentences

  /**
   * Why a parse stops: the IOException("Malformed line: " + line) of
   * parseLabeledFile, or the index error split(" ")[1] raises on a bracket
   * interior without a second field.
   */
  datatype ParseError = MalformedLine(line: string) | MissingToken(interior: string)

  /** What one parse appends to the corpus, and the error that ended it, if any. */
  datatype Outcome = Outcome(added: seq<Sentence>, error: Option<ParseError>)

  /** A token with its tag: a leaf "(tag token)" of a bracketed tree, or a "token<delimiter>tag" line of a labeled file. */
  datatype TaggedToken = TaggedToken(token: string, tag: string)

  function TokensOf(pairs: seq<TaggedToken>): seq<string>
    decreases |pairs|
  {
    if pairs == [] then [] else [pairs[0].token] + TokensOf(pairs[1..])
  }

  function TagsOf(pairs: seq<TaggedToken>): seq<string>
    decreases |pairs|
  {
    if pairs == [] then [] else [pairs[0].tag] + TagsOf(pairs[1..])
  }

  function Prepend(s: Sentence, o: Outcome): Outcome {
    o.(added := [s] + o.added)
  }

  /** The lines whose trim() is not empty, in file order. */
  function NonBlankLines(lines: seq<string>): (r: seq<string>)
    ensures |r| <= |lines|
    decreases |lines|
  {
    if lines == [] then []
    else (if IsBlank(lines[0]) then [] else [lines[0]]) + NonBlankLines(lines[1..])
  }

  // ---------------------------------------------------------------------------
  // parseUnlabeledFile
  // ---------------------------------------------------------------------------

  /**
   * The sentence parseUnlabeledFile builds from a line that is not blank: the
   * fields of the delimiter split are the tokens and, untouched, the raw
   * tokens; there are no tags.
   */
  function UnlabeledSentence(line: string, d: Delimiter, replaceDigits: bool, ignoreCapitalization: bool): (r: Sentence)
    ensures r.rawTokens == Split(line, d) && r.tags == []
    ensures |r.tokens| == |r.rawTokens|
    ensures forall k :: 0 <= k < |r.tokens| ==>
              r.tokens[k] == NormalizeToken(r.rawTokens[k], replaceDigits, ignoreCapitalization)
  {
    var words := Split(line, d);
    Normalize(Sentence(words, [], words), replaceDigits, ignoreCapitalization)
  }

  /** One line of parseUnlabeledFile in front of what the later lines give: a blank line adds nothing. */
  function UnlabeledLine(line: string, later: seq<Sentence>, d: Delimiter, replaceDigits: bool, ignoreCapitalization: bool): seq<Sentence> {
    if IsBlank(line) then later else [UnlabeledSentence(line, d, replaceDigits, ignoreCapitalization)] + later
  }

  /** The sentences parseUnlabeledFile appends: one per line that is not blank. */
  function UnlabeledSentences(lines: seq<string>, d: Delimiter, replaceDigits: bool, ignoreCapitalization: bool): seq<Sentence>
    decreases |lines|
  {
    if lines == [] then []
    else UnlabeledLine(lines[0], UnlabeledSentences(lines[1..], d, replaceDigits, ignoreCapitalization), d, replaceDigits, ignoreCapitalization)
  }

  lemma UnlabeledAt(lines: seq<string>, i: int, d: Delimiter, replaceDigits: bool, ignoreCapitalization: bool)
    requires 0 <= i < |lines|
    ensures UnlabeledSentences(lines[i..], d, replaceDigits, ignoreCapitalization)
         == UnlabeledLine(lines[i], UnlabeledSentences(lines[i + 1..], d, replaceDigits, ignoreCapitalization), d, replaceDigits, ignoreCapitalization)
  {
    assert lines[i..][1..] == lines[i + 1..];
  }

  /** Sentence k of an unlabeled parse comes from the k-th line that is not blank, and there are as many sentences as such lines. */
  lemma {:induction false} UnlabeledOnePerLine(lines: seq<string>, d: Delimiter, replaceDigits: bool, ignoreCapitalization: bool)
    ensures |UnlabeledSentences(lines, d, replaceDigits, ignoreCapitalization)| == |NonBlankLines(lines)|
    ensures forall k :: 0 <= k < |NonBlankLines(lines)| ==>
              UnlabeledSentences(lines, d, replaceDigits, ignoreCapitalization)[k]
              == UnlabeledSentence(NonBlankLines(lines)[k], d, replaceDigits, ignoreCapitalization)
    decreases |lines|
  {
    if lines != [] {
      var rest := UnlabeledSentences(lines[1..], d, replaceDigits, ignoreCapitalization);
      var nonBlank := NonBlankLines(lines[1..]);
      UnlabeledOnePerLine(lines[1..], d, replaceDigits, ignoreCapitalization);
      if IsBlank(lines[0]) {
        assert NonBlankLines(lines) == nonBlank;
        assert UnlabeledSentences(lines, d, replaceDigits, ignoreCapitalization) == rest;
      } else {
        var all := UnlabeledSentences(lines, d, replaceDigits, ignoreCapitalization);
        var nbl := NonBlankLines(lines);
        assert nbl[1..] == nonBlank;
        assert all[1..] == rest;
      }
    }
  }

  // ---------------------------------------------------------------------------
  // parseTreebankFile
  // ---------------------------------------------------------------------------

  predicate NotParen(c: char) {
    c != '(' && c != ')'
  }

  /**
   * Group 1 of the successive matches Matcher.find() reports for
   * `\(([^()]+)\)`: where a '(' is followed by one or more characters other
   * than parentheses and then ')', that is a match and the search resumes
   * after it; anywhere else the search moves on by one character.
   */
  function BracketInteriors(s: string): (r: seq<string>)
    ensures forall k :: 0 <= k < |r| ==> r[k] != "" && forall i :: 0 <= i < |r[k]| ==> NotParen(r[k][i])
    decreases |s|
  {
    if s == [] then []
    else if s[0] == '(' then
      var k := RunLength(s[1..], NotParen);
      if 0 < k && k + 1 < |s| && s[k + 1] == ')' then [s[1..k + 1]] + BracketInteriors(s[k + 2..])
      else BracketInteriors(s[1..])
    else BracketInteriors(s[1..])
  }

  /**
   * The matcher loop of parseTreebankFile from sentence s on: each interior
   * is split on " ", field 0 is the tag and field 1 the token; an interior
   * that splits into fewer than two fields ends the parse.
   */
  function AddLeaves(s: Sentence, interiors: seq<string>): Result<Sentence, ParseError>
    decreases |interiors|
  {
    if interiors == [] then Ok(s)
    else
      var fields := Split(interiors[0], Literal(' '));
      if |fields| < 2 then Err(MissingToken(interiors[0]))
      else AddLeaves(Add(s, fields[1], fields[0]), interiors[1..])
  }

  /** One line of parseTreebankFile in front of what the later lines give. */
  function TreebankLine(line: string, later: Outcome, replaceDigits: bool, ignoreCapitalization: bool): Outcome {
    if IsBlank(line) then later
    else
      match AddLeaves(EmptySentence, BracketInteriors(line))
      case Err(e) => Outcome([], Some(e))
      case Ok(s) => Prepend(Normalize(s, replaceDigits, ignoreCapitalization), later)
  }

  /** What parseTreebankFile appends: one sentence per line that is not blank, up to the first interior it cannot split. */
  function TreebankSentences(lines: seq<string>, replaceDigits: bool, ignoreCapitalization: bool): Outcome
    decreases |lines|
  {
    if lines == [] then Outcome([], None)
    else TreebankLine(lines[0], TreebankSentences(lines[1..], replaceDigits, ignoreCapitalization), replaceDigits, ignoreCapitalization)
  }

  lemma TreebankAt(lines: seq<string>, i: int, replaceDigits: bool, ignoreCapitalization: bool)
    requires 0 <= i < |lines|
    ensures TreebankSentences(lines[i..], replaceDigits, ignoreCapitalization)
         == TreebankLine(lines[i], TreebankSentences(lines[i + 1..], replaceDigits, ignoreCapitalization), replaceDigits, ignoreCapitalization)
  {
    assert lines[i..][1..] == lines[i + 1..];
  }

  lemma AddLeavesAt(s: Sentence, interiors: seq<string>, k: int)
    requires 0 <= k < |interiors|
    ensures AddLeaves(s, interiors[k..])
         == (var fields := Split(interiors[k], Literal(' '));
             if |fields| < 2 then Err(MissingToken(interiors[k]))
             else AddLeaves(Add(s, fields[1], fields[0]), interiors[k + 1..]))
  {
    assert interiors[k..][1..] == interiors[k + 1..];
  }

  /** The sentence parseTreebankFile builds from a line whose interiors all split: its leaves, normalised. */
  function TreebankSentence(line: string, replaceDigits: bool, ignoreCapitalization: bool): Sentence
    requires AddLeaves(EmptySentence, BracketInteriors(line)).Ok?
  {
    Normalize(AddLeaves(EmptySentence, BracketInteriors(line)).value, replaceDigits, ignoreCapitalization)
  }

  /**
   * A parse that meets no bad interior adds exactly one sentence per line
   * that is not blank, and sentence k holds the normalised leaves of the k-th
   * such line; one that does keeps the sentences of the lines before.
   */
  lemma {:induction false} TreebankOnePerLine(lines: seq<string>, replaceDigits: bool, ignoreCapitalization: bool)
    ensures |TreebankSentences(lines, replaceDigits, ignoreCapitalization).added| <= |NonBlankLines(lines)|
    ensures TreebankSentences(lines, replaceDigits, ignoreCapitalization).error == None ==>
              && |TreebankSentences(lines, replaceDigits, ignoreCapitalization).added| == |NonBlankLines(lines)|
              && forall k :: 0 <= k < |NonBlankLines(lines)| ==>
                   && AddLeaves(EmptySentence, BracketInteriors(NonBlankLines(lines)[k])).Ok?
                   && TreebankSentences(lines, replaceDigits, ignoreCapitalization).added[k]
                      == TreebankSentence(NonBlankLines(lines)[k], replaceDigits, ignoreCapitalization)
    decreases |lines|
  {
    if lines != [] {
      var rest := TreebankSentences(lines[1..], replaceDigits, ignoreCapitalization);
      var nonBlank := NonBlankLines(lines[1..]);
      TreebankOnePerLine(lines[1..], replaceDigits, ignoreCapitalization);
      if IsBlank(lines[0]) {
        assert NonBlankLines(lines) == nonBlank;
        assert TreebankSentences(lines, replaceDigits, ignoreCapitalization) == rest;
      } else if AddLeaves(EmptySentence, BracketInteriors(lines[0])).Ok? {
        var all := TreebankSentences(lines, replaceDigits, ignoreCapitalization);
        var nbl := NonBlankLines(lines);
        assert nbl == [lines[0]] + nonBlank;
        assert all.added == [TreebankSentence(lines[0], replaceDigits, ignoreCapitalization)] + rest.added;
        assert all.error == rest.error;
        assert nbl[1..] == nonBlank;
        assert all.added[1..] == rest.added;
      }
    }
  }

  /** Once a bracket parse has failed, nothing after the failing line is read. */
  lemma {:induction false} TreebankErrorStops(lines: seq<string>, more: seq<string>, replaceDigits: bool, ignoreCapitalization: bool)
    requires TreebankSentences(lines, replaceDigits, ignoreCapitalization).error.Some?
    ensures TreebankSentences(lines + more, replaceDigits, ignoreCapitalization) == TreebankSentences(lines, replaceDigits, ignoreCapitalization)
    decreases |lines|
  {
    assert (lines + more)[0] == lines[0];
    assert (lines + more)[1..] == lines[1..] + more;
    if IsBlank(lines[0]) || AddLeaves(EmptySentence, BracketInteriors(lines[0])).Ok? {
      TreebankErrorStops(lines[1..], more, replaceDigits, ignoreCapitalization);
    }
  }

  /**
   * A bracket parse that fails at line bad keeps the sentences of the lines
   * before it, loses bad's own sentence and reports bad's first interior
   * without a second field.
   */
  lemma {:induction false} TreebankErrorKeepsEarlier(pre: seq<string>, bad: string, more: seq<string>, replaceDigits: bool, ignoreCapitalization: bool)
    requires TreebankSentences(pre, replaceDigits, ignoreCapitalization).error == None
    requires !IsBlank(bad) && AddLeaves(EmptySentence, BracketInteriors(bad)).Err?
    ensures TreebankSentences(pre + [bad] + more, replaceDigits, ignoreCapitalization)
         == Outcome(TreebankSentences(pre, replaceDigits, ignoreCapitalization).added, Some(AddLeaves(EmptySentence, BracketInteriors(bad)).error))
    decreases |pre|
  {
    if pre == [] {
      assert pre + [bad] + more == [bad] + more;
      assert ([bad] + more)[1..] == more;
    } else {
      assert (pre + [bad] + more)[0] == pre[0];
      assert (pre + [bad] + more)[1..] == pre[1..] + [bad] + more;
      TreebankErrorKeepsEarlier(pre[1..], bad, more, replaceDigits, ignoreCapitalization);
    }
  }

  /** An interior without a space is one field, so split(" ")[1] fails on it. */
  lemma SpacelessInteriorFails(s: Sentence, interior: string, more: seq<string>)
    requires SeparatorFree(interior, Literal(' '))
    ensures AddLeaves(s, [interior] + more) == Err(MissingToken(interior))
  {
    SplitSeparatorFree(interior, Literal(' '));
  }

  /** An interior of three fields or more is not rejected: field 0 is the tag, field 1 the token, and the rest is ignored. */
  lemma ExtraFieldsIgnored(s: Sentence, fields: seq<string>, more: seq<string>)
    requires |fields| >= 2 && PlainFields(fields, Literal(' '))
    ensures AddLeaves(s, [Join(fields, ' ')] + more) == AddLeaves(Add(s, fields[1], fields[0]), more)
  {
    SplitJoin(fields, ' ', Literal(' '));
    assert ([Join(fields, ' ')] + more)[1..] == more;
  }

  /** A line without '(' has no matches, so a line that is not blank but has no brackets still adds an empty sentence. */
  lemma {:induction false} NoBracketsEmptySentence(line: string)
    requires forall i :: 0 <= i < |line| ==> line[i] != '('
    ensures BracketInteriors(line) == []
    ensures AddLeaves(EmptySentence, BracketInteriors(line)) == Ok(EmptySentence)
    decreases |line|
  {
    if line != [] {
      NoBracketsEmptySentence(line[1..]);
    }
  }

  /** The interior of the leaf "(" + tag + " " + token + ")". */
  function LeafInterior(l: TaggedToken): string {
    l.tag + " " + l.token
  }

  function LeavesText(leaves: seq<TaggedToken>): string
    decreases |leaves|
  {
    if leaves == [] then "" else "(" + LeafInterior(leaves[0]) + ")" + LeavesText(leaves[1..])
  }

  function Interiors(leaves: seq<TaggedToken>): seq<string>
    decreases |leaves|
  {
    if leaves == [] then [] else [LeafInterior(leaves[0])] + Interiors(leaves[1..])
  }

  /** A leaf the bracket grammar reads back: tag and token not empty, with no parenthesis or space. */
  predicate Bracketable(l: TaggedToken) {
    && l.tag != "" && l.token != ""
    && (forall i :: 0 <= i < |l.tag| ==> NotParen(l.tag[i]) && l.tag[i] != ' ')
    && (forall i :: 0 <= i < |l.token| ==> NotParen(l.token[i]) && l.token[i] != ' ')
  }

  /** The matcher finds one match per leaf, in order, whose interior is "tag token". */
  lemma {:induction false} LeavesTextInteriors(leaves: seq<TaggedToken>)
    requires forall k :: 0 <= k < |leaves| ==> Bracketable(leaves[k])
    ensures BracketInteriors(LeavesText(leaves)) == Interiors(leaves)
    decreases |leaves|
  {
    if leaves != [] {
      var l := leaves[0];
      var x := LeafInterior(l);
      assert Bracketable(l);
      assert forall i :: 0 <= i < |x| ==> NotParen(x[i]) by {
        forall i | 0 <= i < |x|
          ensures NotParen(x[i])
        {
          if i < |l.tag| {
            assert x[i] == l.tag[i];
          } else if i > |l.tag| {
            assert x[i] == l.token[i - |l.tag| - 1];
          }
        }
      }
      LeafMatch(x, LeavesText(leaves[1..]));
      LeavesTextInteriors(leaves[1..]);
    }
  }

  /** "(" + x + ")" with a parenthesis-free x that is not empty is one match whose interior is x. */
  lemma LeafMatch(x: string, rest: string)
    requires x != [] && forall i :: 0 <= i < |x| ==> NotParen(x[i])
    ensures BracketInteriors("(" + x + ")" + rest) == [x] + BracketInteriors(rest)
  {
    var s := "(" + x + ")" + rest;
    var k := RunLength(s[1..], NotParen);
    assert forall i :: 0 <= i < |x| ==> s[1..][i] == x[i];
    assert s[1..][|x|] == ')';
    assert k == |x|;
    assert s[1..k + 1] == x;
    assert s[k + 2..] == rest;
  }

  /** The interior "tag token" of a bracketable leaf splits on " " into exactly the tag and the token. */
  lemma LeafFields(l: TaggedToken)
    requires Bracketable(l)
    ensures Split(LeafInterior(l), Literal(' ')) == [l.tag, l.token]
  {
    assert LeafInterior(l) == Join([l.tag, l.token], ' ');
    SplitJoin([l.tag, l.token], ' ', Literal(' '));
  }

  /** Reading the interiors of readable leaves adds each (token, tag) pair in order and no raw token. */
  lemma {:induction false} AddReadableLeaves(s: Sentence, leaves: seq<TaggedToken>)
    requires forall k :: 0 <= k < |leaves| ==> Bracketable(leaves[k])
    ensures AddLeaves(s, Interiors(leaves))
         == Ok(Sentence(s.tokens + TokensOf(leaves), s.tags + TagsOf(leaves), s.rawTokens))
    decreases |leaves|
  {
    if leaves == [] {
      assert s.tokens + [] == s.tokens && s.tags + [] == s.tags;
    } else {
      var l := leaves[0];
      LeafFields(l);
      var next := Add(s, l.token, l.tag);
      assert Interiors(leaves)[1..] == Interiors(leaves[1..]);
      AddLeavesFirst(s, Interiors(leaves), l.tag, l.token);
      AddReadableLeaves(next, leaves[1..]);
      AddedLeaf(s, leaves);
    }
  }

  lemma AddedLeaf(s: Sentence, leaves: seq<TaggedToken>)
    requires leaves != []
    ensures Add(s, leaves[0].token, leaves[0].tag).tokens + TokensOf(leaves[1..]) == s.tokens + TokensOf(leaves)
    ensures Add(s, leaves[0].token, leaves[0].tag).tags + TagsOf(leaves[1..]) == s.tags + TagsOf(leaves)
  {
    var tokens, tags := TokensOf(leaves[1..]), TagsOf(leaves[1..]);
    assert TokensOf(leaves) == [leaves[0].token] + tokens;
    assert TagsOf(leaves) == [leaves[0].tag] + tags;
    assert (s.tokens + [leaves[0].token]) + tokens == s.tokens + ([leaves[0].token] + tokens);
    assert (s.tags + [leaves[0].tag]) + tags == s.tags + ([leaves[0].tag] + tags);
  }

  /** An interior that splits into a tag and a token adds that token and tag. */
  lemma AddLeavesFirst(s: Sentence, interiors: seq<string>, tag: string, token: string)
    requires interiors != [] && Split(interiors[0], Literal(' ')) == [tag, token]
    ensures AddLeaves(s, interiors) == AddLeaves(Add(s, token, tag), interiors[1..])
  {
  }

  /** Round trip of the bracket grammar: a line of readable leaves parses into their tokens and tags, in order. */
  lemma TreebankLeavesRoundTrip(leaves: seq<TaggedToken>)
    requires forall k :: 0 <= k < |leaves| ==> Bracketable(leaves[k])
    ensures AddLeaves(EmptySentence, BracketInteriors(LeavesText(leaves))) == Ok(Sentence(TokensOf(leaves), TagsOf(leaves), []))
  {
    LeavesTextInteriors(leaves);
    AddReadableLeaves(EmptySentence, leaves);
    assert [] + TokensOf(leaves) == TokensOf(leaves);
    assert [] + TagsOf(leaves) == TagsOf(leaves);
  }

  // ---------------------------------------------------------------------------
  // parseLabeledFile
  // ---------------------------------------------------------------------------

  /**
   * What parseLabeledFile appends from these lines on, with current the
   * sentence being built: an empty line (isEmpty, not trim().isEmpty()) closes
   * current when it has tokens; any other line must split into exactly two
   * fields, token then tag, or the parse ends; a sentence still open when the
   * lines run out is not added.
   */
  function LabeledSentences(lines: seq<string>, current: Sentence, d: Delimiter, replaceDigits: bool, ignoreCapitalization: bool): Outcome
    decreases |lines|
  {
    if lines == [] then Outcome([], None)
    else if lines[0] == "" then
      if |current.tokens| > 0 then
        Prepend(Normalize(current, replaceDigits, ignoreCapitalization),
                LabeledSentences(lines[1..], EmptySentence, d, replaceDigits, ignoreCapitalization))
      else LabeledSentences(lines[1..], current, d, replaceDigits, ignoreCapitalization)
    else
      var fields := Split(lines[0], d);
      if |fields| != 2 then Outcome([], Some(MalformedLine(lines[0])))
      else LabeledSentences(lines[1..], AddRawToken(Add(current, fields[0], fields[1]), fields[0]), d, replaceDigits, ignoreCapitalization)
  }

  lemma LabeledAt(lines: seq<string>, i: int, current: Sentence, d: Delimiter, replaceDigits: bool, ignoreCapitalization: bool)
    requires 0 <= i < |lines|
    ensures LabeledSentences(lines[i..], current, d, replaceDigits, ignoreCapitalization)
         == if lines[i] == "" then
              if |current.tokens| > 0 then
                Prepend(Normalize(current, replaceDigits, ignoreCapitalization),
                        LabeledSentences(lines[i + 1..], EmptySentence, d, replaceDigits, ignoreCapitalization))
              else LabeledSentences(lines[i + 1..], current, d, replaceDigits, ignoreCapitalization)
            else
              var fields := Split(lines[i], d);
              if |fields| != 2 then Outcome([], Some(MalformedLine(lines[i])))
              else LabeledSentences(lines[i + 1..], AddRawToken(Add(current, fields[0], fields[1]), fields[0]), d, replaceDigits, ignoreCapitalization)
  {
    assert lines[i..][1..] == lines[i + 1..];
  }

  /** tokens, tags and raw tokens run in parallel. */
  predicate Parallel(s: Sentence) {
    |s.tokens| == |s.tags| == |s.rawTokens|
  }

  /**
   * Every sentence a labeled parse adds has at least one token, so a run of
   * empty lines adds no empty sentence, and its tokens, tags and raw tokens
   * have the same length.
   */
  lemma {:induction false} LabeledSentencesShape(lines: seq<string>, current: Sentence, d: Delimiter, replaceDigits: bool, ignoreCapitalization: bool)
    requires Parallel(current)
    ensures forall k :: 0 <= k < |LabeledSentences(lines, current, d, replaceDigits, ignoreCapitalization).added| ==>
              var s := LabeledSentences(lines, current, d, replaceDigits, ignoreCapitalization).added[k];
              |s.tokens| > 0 && Parallel(s)
    decreases |lines|
  {
    if lines != [] {
      if lines[0] == "" {
        LabeledSentencesShape(lines[1..], if |current.tokens| > 0 then EmptySentence else current, d, replaceDigits, ignoreCapitalization);
      } else {
        var fields := Split(lines[0], d);
        if |fields| == 2 {
          LabeledSentencesShape(lines[1..], AddRawToken(Add(current, fields[0], fields[1]), fields[0]), d, replaceDigits, ignoreCapitalization);
        }
      }
    }
  }

  /** Once a labeled parse has failed, nothing after the failing line is read: more lines change neither the sentences nor the error. */
  lemma {:induction false} LabeledErrorStops(lines: seq<string>, more: seq<string>, current: Sentence, d: Delimiter, replaceDigits: bool, ignoreCapitalization: bool)
    requires LabeledSentences(lines, current, d, replaceDigits, ignoreCapitalization).error.Some?
    ensures LabeledSentences(lines + more, current, d, replaceDigits, ignoreCapitalization)
         == LabeledSentences(lines, current, d, replaceDigits, ignoreCapitalization)
    decreases |lines|
  {
    assert (lines + more)[0] == lines[0];
    assert (lines + more)[1..] == lines[1..] + more;
    if lines[0] == "" {
      LabeledErrorStops(lines[1..], more, if |current.tokens| > 0 then EmptySentence else current, d, replaceDigits, ignoreCapitalization);
    } else {
      var fields := Split(lines[0], d);
      if |fields| == 2 {
        LabeledErrorStops(lines[1..], more, AddRawToken(Add(current, fields[0], fields[1]), fields[0]), d, replaceDigits, ignoreCapitalization);
      }
    }
  }

  /**
   * A labeled parse that fails at line bad keeps every sentence an empty line
   * closed before it, drops the sentence still open, and names bad.
   */
  lemma {:induction false} LabeledErrorKeepsClosed(pre: seq<string>, bad: string, more: seq<string>, current: Sentence, d: Delimiter, replaceDigits: bool, ignoreCapitalization: bool)
    requires LabeledSentences(pre, current, d, replaceDigits, ignoreCapitalization).error == None
    requires bad != "" && |Split(bad, d)| != 2
    ensures LabeledSentences(pre + [bad] + more, current, d, replaceDigits, ignoreCapitalization)
         == Outcome(LabeledSentences(pre, current, d, replaceDigits, ignoreCapitalization).added, Some(MalformedLine(bad)))
    decreases |pre|, 1
  {
    if pre == [] {
      assert pre + [bad] + more == [bad] + more;
      assert ([bad] + more)[1..] == more;
    } else if pre[0] == "" {
      LabeledErrorAfterEmpty(pre, bad, more, current, d, replaceDigits, ignoreCapitalization);
    } else {
      LabeledErrorAfterToken(pre, bad, more, current, d, replaceDigits, ignoreCapitalization);
    }
  }

  /** LabeledErrorKeepsClosed when the first line before the malformed one is empty. */
  lemma {:induction false} LabeledErrorAfterEmpty(pre: seq<string>, bad: string, more: seq<string>, current: Sentence, d: Delimiter, replaceDigits: bool, ignoreCapitalization: bool)
    requires pre != [] && pre[0] == ""
    requires LabeledSentences(pre, current, d, replaceDigits, ignoreCapitalization).error == None
    requires bad != "" && |Split(bad, d)| != 2
    ensures LabeledSentences(pre + [bad] + more, current, d, replaceDigits, ignoreCapitalization)
         == Outcome(LabeledSentences(pre, current, d, replaceDigits, ignoreCapitalization).added, Some(MalformedLine(bad)))
    decreases |pre|, 0
  {
    var lines := pre + [bad] + more;
    InsertedTail(pre, bad, more);
    LabeledEmptyStep(lines, current, d, replaceDigits, ignoreCapitalization);
    LabeledEmptyStep(pre, current, d, replaceDigits, ignoreCapitalization);
    var next := if |current.tokens| > 0 then EmptySentence else current;
    LabeledErrorKeepsClosed(pre[1..], bad, more, next, d, replaceDigits, ignoreCapitalization);
  }

  /** LabeledErrorKeepsClosed when the first line before the malformed one is a token line. */
  lemma {:induction false} LabeledErrorAfterToken(pre: seq<string>, bad: string, more: seq<string>, current: Sentence, d: Delimiter, replaceDigits: bool, ignoreCapitalization: bool)
    requires pre != [] && pre[0] != ""
    requires LabeledSentences(pre, current, d, replaceDigits, ignoreCapitalization).error == None
    requires bad != "" && |Split(bad, d)| != 2
    ensures LabeledSentences(pre + [bad] + more, current, d, replaceDigits, ignoreCapitalization)
         == Outcome(LabeledSentences(pre, current, d, replaceDigits, ignoreCapitalization).added, Some(MalformedLine(bad)))
    decreases |pre|, 0
  {
    var lines := pre + [bad] + more;
    InsertedTail(pre, bad, more);
    LabeledTokenStep(pre, current, d, replaceDigits, ignoreCapitalization);
    LabeledTokenStep(lines, current, d, replaceDigits, ignoreCapitalization);
    var fields := Split(pre[0], d);
    LabeledErrorKeepsClosed(pre[1..], bad, more, AddRawToken(Add(current, fields[0], fields[1]), fields[0]), d, replaceDigits, ignoreCapitalization);
  }

  /** Inserting a line after a non-empty prefix keeps the first line, and the rest is the rest of the prefix with the insertion. */
  lemma InsertedTail(pre: seq<string>, bad: string, more: seq<string>)
    requires pre != []
    ensures (pre + [bad] + more)[0] == pre[0] && (pre + [bad] + more)[1..] == pre[1..] + [bad] + more
  {
  }

  /** An empty first line closes the open sentence when it has tokens, and is skipped otherwise. */
  lemma LabeledEmptyStep(lines: seq<string>, current: Sentence, d: Delimiter, replaceDigits: bool, ignoreCapitalization: bool)
    requires lines != [] && lines[0] == ""
    ensures LabeledSentences(lines, current, d, replaceDigits, ignoreCapitalization)
         == if |current.tokens| > 0 then
              Prepend(Normalize(current, replaceDigits, ignoreCapitalization),
                      LabeledSentences(lines[1..], EmptySentence, d, replaceDigits, ignoreCapitalization))
            else LabeledSentences(lines[1..], current, d, replaceDigits, ignoreCapitalization)
  {
  }

  /** A first line of two fields extends the open sentence by its token and tag, and its token as raw token;
      a first line of any other shape ends the parse with an error. */
  lemma LabeledTokenStep(lines: seq<string>, current: Sentence, d: Delimiter, replaceDigits: bool, ignoreCapitalization: bool)
    requires lines != [] && lines[0] != ""
    ensures var fields := Split(lines[0], d);
            (LabeledSentences(lines, current, d, replaceDigits, ignoreCapitalization)
             == if |fields| == 2 then
                  LabeledSentences(lines[1..], AddRawToken(Add(current, fields[0], fields[1]), fields[0]), d, replaceDigits, ignoreCapitalization)
                else Outcome([], Some(MalformedLine(lines[0]))))
  {
  }

  /** A line of whitespace only is not empty, so under `\s+` it reaches the two-field check, splits into no field and is malformed. */
  lemma WhitespaceLineRejected(line: string, more: seq<string>, current: Sentence, replaceDigits: bool, ignoreCapitalization: bool)
    requires line != "" && forall i :: 0 <= i < |line| ==> IsSpace(line[i])
    ensures LabeledSentences([line] + more, current, WhitespaceRun, replaceDigits, ignoreCapitalization)
         == Outcome([], Some(MalformedLine(line)))
  {
    SplitWhitespaceOnly(line);
    assert ([line] + more)[1..] == more;
  }

  /** A line that is not empty but has no separator is a single field, and malformed: "onlyoneword" ends the parse. */
  lemma SingleFieldLineRejected(line: string, more: seq<string>, current: Sentence, d: Delimiter, replaceDigits: bool, ignoreCapitalization: bool)
    requires line != "" && SeparatorFree(line, d)
    ensures LabeledSentences([line] + more, current, d, replaceDigits, ignoreCapitalization)
         == Outcome([], Some(MalformedLine(line)))
  {
    SplitSeparatorFree(line, d);
    assert ([line] + more)[1..] == more;
  }

  /** A well-formed labeled line: not empty, and two fields under the delimiter. */
  predicate TokenTagLine(line: string, d: Delimiter) {
    line != "" && |Split(line, d)| == 2
  }

  /** Lines of tokens that no empty line closes add nothing: the open sentence is dropped at the end of the input. */
  lemma {:induction false} OpenSentenceDropped(lines: seq<string>, current: Sentence, d: Delimiter, replaceDigits: bool, ignoreCapitalization: bool)
    requires forall k :: 0 <= k < |lines| ==> TokenTagLine(lines[k], d)
    ensures LabeledSentences(lines, current, d, replaceDigits, ignoreCapitalization) == Outcome([], None)
    decreases |lines|
  {
    if lines != [] {
      var fields := Split(lines[0], d);
      OpenSentenceDropped(lines[1..], AddRawToken(Add(current, fields[0], fields[1]), fields[0]), d, replaceDigits, ignoreCapitalization);
    }
  }

  /** The labeled-format line of a tagged token: the token, the separator character, the tag. */
  function PairLine(p: TaggedToken, sep: char): string {
    Join([p.token, p.tag], sep)
  }

  function PairLines(pairs: seq<TaggedToken>, sep: char): seq<string>
    decreases |pairs|
  {
    if pairs == [] then [] else [PairLine(pairs[0], sep)] + PairLines(pairs[1..], sep)
  }

  /** The labeled format of sentences of tagged tokens: a line per token, then an empty line after each sentence. */
  function LabeledLines(sentences: seq<seq<TaggedToken>>, sep: char): seq<string>
    decreases |sentences|
  {
    if sentences == [] then [] else PairLines(sentences[0], sep) + [""] + LabeledLines(sentences[1..], sep)
  }

  /** A tagged token the labeled format carries: token and tag not empty and free of the delimiter. */
  predicate WritablePair(p: TaggedToken, d: Delimiter) {
    p.token != "" && p.tag != "" && SeparatorFree(p.token, d) && SeparatorFree(p.tag, d)
  }

  /** A sentence the labeled format carries: at least one token, each writable. */
  predicate WritableSentence(pairs: seq<TaggedToken>, d: Delimiter) {
    pairs != [] && forall j :: 0 <= j < |pairs| ==> WritablePair(pairs[j], d)
  }

  /** current with the tagged tokens added as parseLabeledFile adds them: token, tag, and the token again as raw token. */
  function Extended(current: Sentence, pairs: seq<TaggedToken>): Sentence {
    Sentence(current.tokens + TokensOf(pairs), current.tags + TagsOf(pairs), current.rawTokens + TokensOf(pairs))
  }

  /** The sentences parsing the labeled format back yields: each sentence's tokens, tags and, as raw tokens, its tokens, normalised. */
  function ReadBack(sentences: seq<seq<TaggedToken>>, replaceDigits: bool, ignoreCapitalization: bool): seq<Sentence>
    decreases |sentences|
  {
    if sentences == [] then []
    else [Normalize(Extended(EmptySentence, sentences[0]), replaceDigits, ignoreCapitalization)]
         + ReadBack(sentences[1..], replaceDigits, ignoreCapitalization)
  }

  /** A writable line splits into exactly its token and its tag. */
  lemma PairLineFields(p: TaggedToken, sep: char, d: Delimiter)
    requires WritablePair(p, d) && IsSeparator(d, sep)
    ensures PairLine(p, sep) != "" && Split(PairLine(p, sep), d) == [p.token, p.tag]
  {
    SplitJoin([p.token, p.tag], sep, d);
  }

  lemma ExtendedCons(current: Sentence, pairs: seq<TaggedToken>)
    requires pairs != []
    ensures Extended(AddRawToken(Add(current, pairs[0].token, pairs[0].tag), pairs[0].token), pairs[1..]) == Extended(current, pairs)
  {
    var p := pairs[0];
    var tokens, tags := TokensOf(pairs[1..]), TagsOf(pairs[1..]);
    assert TokensOf(pairs) == [p.token] + tokens;
    assert TagsOf(pairs) == [p.tag] + tags;
    assert (current.tokens + [p.token]) + tokens == current.tokens + ([p.token] + tokens);
    assert (current.tags + [p.tag]) + tags == current.tags + ([p.tag] + tags);
    assert (current.rawTokens + [p.token]) + tokens == current.rawTokens + ([p.token] + tokens);
  }

  /** The lines of one sentence and the empty line after it close the sentence that current has started. */
  lemma {:induction false} PairLinesRead(pairs: seq<TaggedToken>, current: Sentence, sep: char, rest: seq<string>,
                                         d: Delimiter, replaceDigits: bool, ignoreCapitalization: bool)
    requires IsSeparator(d, sep) && forall j :: 0 <= j < |pairs| ==> WritablePair(pairs[j], d)
    requires |current.tokens| + |pairs| > 0
    ensures LabeledSentences(PairLines(pairs, sep) + [""] + rest, current, d, replaceDigits, ignoreCapitalization)
         == Prepend(Normalize(Extended(current, pairs), replaceDigits, ignoreCapitalization),
                    LabeledSentences(rest, EmptySentence, d, replaceDigits, ignoreCapitalization))
    decreases |pairs|
  {
    var lines := PairLines(pairs, sep) + [""] + rest;
    if pairs == [] {
      assert lines == [""] + rest;
      assert lines[1..] == rest;
      assert Extended(current, pairs) == current;
    } else {
      var p := pairs[0];
      PairLineFields(p, sep, d);
      assert lines[0] == PairLine(p, sep);
      assert lines[1..] == PairLines(pairs[1..], sep) + [""] + rest;
      var next := AddRawToken(Add(current, p.token, p.tag), p.token);
      PairLinesRead(pairs[1..], next, sep, rest, d, replaceDigits, ignoreCapitalization);
      ExtendedCons(current, pairs);
    }
  }

  /**
   * Round trip of the labeled format: writing sentences of writable tagged
   * tokens, each sentence closed by an empty line, and parsing the lines back
   * yields every sentence in order, normalised, with its tokens as raw
   * tokens, and no error.
   */
  lemma {:induction false} LabeledRoundTrip(sentences: seq<seq<TaggedToken>>, sep: char, d: Delimiter, replaceDigits: bool, ignoreCapitalization: bool)
    requires IsSeparator(d, sep)
    requires forall k :: 0 <= k < |sentences| ==> WritableSentence(sentences[k], d)
    ensures LabeledSentences(LabeledLines(sentences, sep), EmptySentence, d, replaceDigits, ignoreCapitalization)
         == Outcome(ReadBack(sentences, replaceDigits, ignoreCapitalization), None)
    decreases |sentences|
  {
    if sentences != [] {
      assert WritableSentence(sentences[0], d);
      PairLinesRead(sentences[0], EmptySentence, sep, LabeledLines(sentences[1..], sep), d, replaceDigits, ignoreCapitalization);
      LabeledRoundTrip(sentences[1..], sep, d, replaceDigits, ignoreCapitalization);
    }
  }

  /**
   * Two groups of token lines, the first closed by an empty line and the
   * second not: the parse adds the first group's sentence only.
   */
  lemma UnclosedGroupDropped(first: seq<TaggedToken>, second: seq<TaggedToken>, sep: char, d: Delimiter, replaceDigits: bool, ignoreCapitalization: bool)
    requires IsSeparator(d, sep) && WritableSentence(first, d)
    requires forall j :: 0 <= j < |second| ==> WritablePair(second[j], d)
    ensures LabeledSentences(PairLines(first, sep) + [""] + PairLines(second, sep), EmptySentence, d, replaceDigits, ignoreCapitalization)
         == Outcome([Normalize(Extended(EmptySentence, first), replaceDigits, ignoreCapitalization)], None)
  {
    var rest := PairLines(second, sep);
    PairLinesRead(first, EmptySentence, sep, rest, d, replaceDigits, ignoreCapitalization);
    PairLinesWellFormed(second, sep, d);
    OpenSentenceDropped(rest, EmptySentence, d, replaceDigits, ignoreCapitalization);
  }

  lemma {:induction false} PairLinesWellFormed(pairs: seq<TaggedToken>, sep: char, d: Delimiter)
    requires IsSeparator(d, sep) && forall j :: 0 <= j < |pairs| ==> WritablePair(pairs[j], d)
    ensures |PairLines(pairs, sep)| == |pairs|
    ensures forall k :: 0 <= k < |pairs| ==> TokenTagLine(PairLines(pairs, sep)[k], d)
    decreases |pairs|
  {
    if pairs != [] {
      PairLineFields(pairs[0], sep, d);
      PairLinesWellFormed(pairs[1..], sep, d);
    }
  }

  // ---------------------------------------------------------------------------
  // writeToFile
  // ---------------------------------------------------------------------------

  /** The text writeToFile appends for a corpus: each token followed by "\n", and one more "\n" after each sentence. */
  function CorpusText(corpus: seq<Sentence>): string
    decreases |corpus|
  {
    if corpus == [] then "" else JoinLines(corpus[0].tokens) + "\n" + CorpusText(corpus[1..])
  }

  /** The lines of that text: each sentence's tokens, then an empty line; tags and raw tokens are not written. */
  function WrittenLines(corpus: seq<Sentence>): seq<string>
    decreases |corpus|
  {
    if corpus == [] then [] else corpus[0].tokens + [""] + WrittenLines(corpus[1..])
  }

  lemma CorpusTextAt(corpus: seq<Sentence>, i: int)
    requires 0 <= i < |corpus|
    ensures CorpusText(corpus[i..]) == JoinLines(corpus[i].tokens) + "\n" + CorpusText(corpus[i + 1..])
  {
    assert corpus[i..][1..] == corpus[i + 1..];
  }

  lemma JoinLinesAt(lines: seq<string>, j: int)
    requires 0 <= j < |lines|
    ensures JoinLines(lines[j..]) == lines[j] + "\n" + JoinLines(lines[j + 1..])
  {
    assert lines[j..][1..] == lines[j + 1..];
  }

  /** The text is the written lines, each ended by "\n". */
  lemma {:induction false} CorpusTextLines(corpus: seq<Sentence>)
    ensures CorpusText(corpus) == JoinLines(WrittenLines(corpus))
    decreases |corpus|
  {
    if corpus != [] {
      CorpusTextLines(corpus[1..]);
      JoinLinesAppend(corpus[0].tokens, [""] + WrittenLines(corpus[1..]));
      assert ([""] + WrittenLines(corpus[1..]))[1..] == WrittenLines(corpus[1..]);
      assert corpus[0].tokens + [""] + WrittenLines(corpus[1..]) == corpus[0].tokens + ([""] + WrittenLines(corpus[1..]));
    }
  }

  /** Reading the written text back line by line gives each sentence's tokens followed by an empty line. */
  lemma WrittenTextReadsBack(corpus: seq<Sentence>)
    requires forall k, t, i :: 0 <= k < |corpus| && 0 <= t < |corpus[k].tokens| && 0 <= i < |corpus[k].tokens[t]| ==>
               !IsLineBreak(corpus[k].tokens[t][i])
    ensures ReadLines(CorpusText(corpus)) == WrittenLines(corpus)
  {
    CorpusTextLines(corpus);
    WrittenLinesFree(corpus);
    ReadLinesJoinLines(WrittenLines(corpus));
  }

  lemma {:induction false} WrittenLinesFree(corpus: seq<Sentence>)
    requires forall k, t, i :: 0 <= k < |corpus| && 0 <= t < |corpus[k].tokens| && 0 <= i < |corpus[k].tokens[t]| ==>
               !IsLineBreak(corpus[k].tokens[t][i])
    ensures forall k, i :: 0 <= k < |WrittenLines(corpus)| && 0 <= i < |WrittenLines(corpus)[k]| ==> !IsLineBreak(WrittenLines(corpus)[k][i])
    decreases |corpus|
  {
    if corpus != [] {
      WrittenLinesFree(corpus[1..]);
      var w := WrittenLines(corpus);
      var n := |corpus[0].tokens|;
      forall k, i | 0 <= k < |w| && 0 <= i < |w[k]|
        ensures !IsLineBreak(w[k][i])
      {
        if k < n {
          assert w[k] == corpus[0].tokens[k];
        } else if k > n {
          assert w[k] == WrittenLines(corpus[1..])[k - n - 1];
        }
      }
    }
  }

  /** The tokens as the parser's normalisation leaves them, in order. */
  function NormalizeTokens(tokens: seq<string>, replaceDigits: bool, ignoreCapitalization: bool): seq<string>
    decreases |tokens|
  {
    if tokens == [] then []
    else [NormalizeToken(tokens[0], replaceDigits, ignoreCapitalization)] + NormalizeTokens(tokens[1..], replaceDigits, ignoreCapitalization)
  }

  lemma {:induction false} NormalizeTokensAppend(a: seq<string>, b: seq<string>, replaceDigits: bool, ignoreCapitalization: bool)
    ensures NormalizeTokens(a + b, replaceDigits, ignoreCapitalization)
         == NormalizeTokens(a, replaceDigits, ignoreCapitalization) + NormalizeTokens(b, replaceDigits, ignoreCapitalization)
    decreases |a|
  {
    if a == [] {
      assert a + b == b;
    } else {
      assert (a + b)[1..] == a[1..] + b;
      NormalizeTokensAppend(a[1..], b, replaceDigits, ignoreCapitalization);
    }
  }

  lemma {:induction false} UnlabeledAppend(a: seq<string>, b: seq<string>, d: Delimiter, replaceDigits: bool, ignoreCapitalization: bool)
    ensures UnlabeledSentences(a + b, d, replaceDigits, ignoreCapitalization)
         == UnlabeledSentences(a, d, replaceDigits, ignoreCapitalization) + UnlabeledSentences(b, d, replaceDigits, ignoreCapitalization)
    decreases |a|
  {
    if a == [] {
      assert a + b == b;
    } else {
      assert (a + b)[1..] == a[1..] + b;
      UnlabeledAppend(a[1..], b, d, replaceDigits, ignoreCapitalization);
    }
  }

  /** A token the unlabeled grammar reads back from a line of its own: not empty, and no character up to ' '. */
  predicate PrintableToken(t: string) {
    t != "" && forall i :: 0 <= i < |t| ==> t[i] > ' '
  }

  /** Lines of one printable token each read back, under `\s+`, as those tokens normalised. */
  lemma {:induction false} TokenLinesReread(tokens: seq<string>, replaceDigits: bool, ignoreCapitalization: bool)
    requires forall k :: 0 <= k < |tokens| ==> PrintableToken(tokens[k])
    ensures AllTokens(UnlabeledSentences(tokens, WhitespaceRun, replaceDigits, ignoreCapitalization))
         == NormalizeTokens(tokens, replaceDigits, ignoreCapitalization)
    decreases |tokens|
  {
    if tokens != [] {
      var t := tokens[0];
      assert PrintableToken(t);
      assert !IsBlank(t) by {
        assert t[0] > ' ';
      }
      SplitSeparatorFree(t, WhitespaceRun);
      var first := UnlabeledSentence(t, WhitespaceRun, replaceDigits, ignoreCapitalization);
      assert first.tokens == [NormalizeToken(t, replaceDigits, ignoreCapitalization)];
      var later := UnlabeledSentences(tokens[1..], WhitespaceRun, replaceDigits, ignoreCapitalization);
      assert UnlabeledSentences(tokens, WhitespaceRun, replaceDigits, ignoreCapitalization) == [first] + later;
      assert ([first] + later)[1..] == later;
      TokenLinesReread(tokens[1..], replaceDigits, ignoreCapitalization);
    }
  }

  /** The written lines, read in unlabeled mode, give every token of the corpus, normalised, in order. */
  lemma {:induction false} WrittenLinesReread(corpus: seq<Sentence>, replaceDigits: bool, ignoreCapitalization: bool)
    requires forall k, t :: 0 <= k < |corpus| && 0 <= t < |corpus[k].tokens| ==> PrintableToken(corpus[k].tokens[t])
    ensures AllTokens(UnlabeledSentences(WrittenLines(corpus), WhitespaceRun, replaceDigits, ignoreCapitalization))
         == NormalizeTokens(AllTokens(corpus), replaceDigits, ignoreCapitalization)
    decreases |corpus|
  {
    if corpus != [] {
      var tokens := corpus[0].tokens;
      var later := WrittenLines(corpus[1..]);
      assert WrittenLines(corpus) == tokens + ([""] + later);
      UnlabeledAppend(tokens, [""] + later, WhitespaceRun, replaceDigits, ignoreCapitalization);
      assert ([""] + later)[1..] == later;
      assert UnlabeledSentences([""] + later, WhitespaceRun, replaceDigits, ignoreCapitalization)
          == UnlabeledSentences(later, WhitespaceRun, replaceDigits, ignoreCapitalization);
      AllTokensAppend(UnlabeledSentences(tokens, WhitespaceRun, replaceDigits, ignoreCapitalization),
                      UnlabeledSentences(later, WhitespaceRun, replaceDigits, ignoreCapitalization));
      TokenLinesReread(tokens, replaceDigits, ignoreCapitalization);
      WrittenLinesReread(corpus[1..], replaceDigits, ignoreCapitalization);
      NormalizeTokensAppend(tokens, AllTokens(corpus[1..]), replaceDigits, ignoreCapitalization);
    }
  }

  /**
   * Round trip of writeToFile and parseUnlabeledFile: the text written for a
   * corpus of printable tokens, read back line by line in unlabeled mode under
   * `\s+`, yields the corpus's token sequence, normalised. Each token comes
   * back as a sentence of its own and the empty lines add nothing.
   */
  lemma UnlabeledRoundTrip(corpus: seq<Sentence>, replaceDigits: bool, ignoreCapitalization: bool)
    requires forall k, t :: 0 <= k < |corpus| && 0 <= t < |corpus[k].tokens| ==> PrintableToken(corpus[k].tokens[t])
    ensures AllTokens(UnlabeledSentences(ReadLines(CorpusText(corpus)), WhitespaceRun, replaceDigits, ignoreCapitalization))
         == NormalizeTokens(AllTokens(corpus), replaceDigits, ignoreCapitalization)
  {
    forall k, t, i | 0 <= k < |corpus| && 0 <= t < |corpus[k].tokens| && 0 <= i < |corpus[k].tokens[t]|
      ensures !IsLineBreak(corpus[k].tokens[t][i])
    {
      assert PrintableToken(corpus[k].tokens[t]);
    }
    WrittenTextReadsBack(corpus);
    WrittenLinesReread(corpus, replaceDigits, ignoreCapitalization);
  }

  /** writeToFile opens the file for appending: writing a and then b leaves the text of a + b. */
  lemma {:induction false} CorpusTextAppend(a: seq<Sentence>, b: seq<Sentence>)
    ensures CorpusText(a + b) == CorpusText(a) + CorpusText(b)
    decreases |a|
  {
    if a == [] {
      assert a + b == b;
    } else {
      assert (a + b)[1..] == a[1..] + b;
      CorpusTextAppend(a[1..], b);
    }
  }

  /** writeToFile(fileName, corpus), with the file's earlier content given: each sentence's tokens one per line, then an empty line. */
  method WriteCorpus(existing: string, corpus: seq<Sentence>) returns (content: string)
    ensures content == existing + CorpusText(corpus)
  {
    ghost var final := existing + CorpusText(corpus);
    content := existing;
    var i := 0;
    while i < |corpus|
      invariant 0 <= i <= |corpus|
      invariant content + CorpusText(corpus[i..]) == final
    {
      CorpusTextAt(corpus, i);
      content := WriteSentence(content, corpus[i], CorpusText(corpus[i + 1..]), final);
      i := i + 1;
    }
    assert corpus[i..] == [];
  }

  /** The body of writeToFile's loop: each token and "\n", then '\n'. */
  method WriteSentence(before: string, s: Sentence, ghost after: string, ghost final: string) returns (content: string)
    requires before + (JoinLines(s.tokens) + "\n" + after) == final
    ensures content + after == final
  {
    content := before;
    var j := 0;
    while j < |s.tokens|
      invariant 0 <= j <= |s.tokens|
      invariant content + (JoinLines(s.tokens[j..]) + "\n" + after) == final
    {
      JoinLinesAt(s.tokens, j);
      content := content + (s.tokens[j] + "\n");
      j := j + 1;
    }
    assert s.tokens[j..] == [];
    content := content + "\n";
  }

  // ---------------------------------------------------------------------------
  // The parser object
  // ---------------------------------------------------------------------------

  /** nlp.data.Parser: the corpus parses append to, and the settings they read. */
  class Parser {
    var corpus: seq<Sentence>
    var delimiter: Delimiter
    var replaceDigits: bool
    var ignoreCapitalization: bool

    /** A new parser: an empty corpus, the `\s+` delimiter, both normalising steps on. */
    constructor ()
      ensures corpus == [] && delimiter == WhitespaceRun && replaceDigits && ignoreCapitalization
    {
      corpus := [];
      delimiter := WhitespaceRun;
      replaceDigits := true;
      ignoreCapitalization := true;
    }

    /**
     * The steps applied to a finished sentence: replaceDigits() when its flag
     * is set, then convertToLowerCase() when its flag is set. Sentences.Normalize
     * is its specification; the properties of normalisation are proved there.
     */
    method Finish(s: Sentence) returns (r: Sentence)
      ensures r == Normalize(s, replaceDigits, ignoreCapitalization)
    {
      r := s;
      if replaceDigits {
        r := ReplaceDigits(r);
      }
      if ignoreCapitalization {
        r := ConvertToLowerCase(r);
      }
    }

    /** parseUnlabeledFile: every line that is not blank becomes one sentence, appended to the corpus. */
    method ParseUnlabeledFile(lines: seq<string>)
      modifies this
      ensures delimiter == old(delimiter) && replaceDigits == old(replaceDigits) && ignoreCapitalization == old(ignoreCapitalization)
      ensures corpus == old(corpus) + UnlabeledSentences(lines, delimiter, replaceDigits, ignoreCapitalization)
    {
      ghost var final := corpus + UnlabeledSentences(lines, delimiter, replaceDigits, ignoreCapitalization);
      var i := 0;
      while i < |lines|
        invariant 0 <= i <= |lines|
        invariant delimiter == old(delimiter) && replaceDigits == old(replaceDigits) && ignoreCapitalization == old(ignoreCapitalization)
        invariant corpus + UnlabeledSentences(lines[i..], delimiter, replaceDigits, ignoreCapitalization) == final
      {
        UnlabeledAt(lines, i, delimiter, replaceDigits, ignoreCapitalization);
        ParseUnlabeledLine(lines[i], UnlabeledSentences(lines[i + 1..], delimiter, replaceDigits, ignoreCapitalization), final);
        i := i + 1;
      }
      assert lines[i..] == [];
    }

    /** The body of parseUnlabeledFile's loop: a line that is not blank is split, normalised and appended. */
    method ParseUnlabeledLine(currentLine: string, ghost later: seq<Sentence>, ghost final: seq<Sentence>)
      requires corpus + UnlabeledLine(currentLine, later, delimiter, replaceDigits, ignoreCapitalization) == final
      modifies this
      ensures delimiter == old(delimiter) && replaceDigits == old(replaceDigits) && ignoreCapitalization == old(ignoreCapitalization)
      ensures corpus + later == final
    {
      if !IsBlank(currentLine) {
        var words := Split(currentLine, delimiter);
        var currentSentence := Sentence(words, [], words);
        currentSentence := Finish(currentSentence);
        Append(corpus, currentSentence, later);
        corpus := corpus + [currentSentence];
      }
    }

    /** clear(): the corpus becomes empty; the settings stay. */
    method Clear()
      modifies this
      ensures corpus == []
      ensures delimiter == old(delimiter) && replaceDigits == old(replaceDigits) && ignoreCapitalization == old(ignoreCapitalization)
    {
      corpus := [];
    }

    /**
     * parseTreebankFile: every line that is not blank becomes one sentence of
     * the (token, tag) pairs of its innermost brackets, appended to the
     * corpus; an interior without a second field ends the parse, and the
     * sentences of earlier lines stay.
     */
    method ParseTreebankFile(lines: seq<string>) returns (error: Option<ParseError>)
      modifies this
      ensures delimiter == old(delimiter) && replaceDigits == old(replaceDigits) && ignoreCapitalization == old(ignoreCapitalization)
      ensures corpus == old(corpus) + TreebankSentences(lines, replaceDigits, ignoreCapitalization).added
      ensures error == TreebankSentences(lines, replaceDigits, ignoreCapitalization).error
    {
      ghost var outcome := TreebankSentences(lines, replaceDigits, ignoreCapitalization);
      ghost var final := corpus + outcome.added;
      error := None;
      var i := 0;
      while i < |lines|
        invariant 0 <= i <= |lines|
        invariant delimiter == old(delimiter) && replaceDigits == old(replaceDigits) && ignoreCapitalization == old(ignoreCapitalization)
        invariant corpus + TreebankSentences(lines[i..], replaceDigits, ignoreCapitalization).added == final
        invariant TreebankSentences(lines[i..], replaceDigits, ignoreCapitalization).error == outcome.error
        invariant error == None
      {
        error := ParseTreebankLine(lines, i, final, outcome.error);
        if error.Some? {
          return;
        }
        i := i + 1;
      }
      assert lines[i..] == [];
    }

    /** The body of parseTreebankFile's loop for line i: a line that is not blank is matched, normalised and appended, or ends the parse. */
    method ParseTreebankLine(lines: seq<string>, i: int, ghost final: seq<Sentence>, ghost finalError: Option<ParseError>)
      returns (error: Option<ParseError>)
      requires 0 <= i < |lines|
      requires corpus + TreebankSentences(lines[i..], replaceDigits, ignoreCapitalization).added == final
      requires TreebankSentences(lines[i..], replaceDigits, ignoreCapitalization).error == finalError
      modifies this
      ensures delimiter == old(delimiter) && replaceDigits == old(replaceDigits) && ignoreCapitalization == old(ignoreCapitalization)
      ensures error == None ==>
                && corpus + TreebankSentences(lines[i + 1..], replaceDigits, ignoreCapitalization).added == final
                && TreebankSentences(lines[i + 1..], replaceDigits, ignoreCapitalization).error == finalError
      ensures error != None ==> corpus == final && error == finalError
    {
      TreebankAt(lines, i, replaceDigits, ignoreCapitalization);
      var currentLine := lines[i];
      error := None;
      if !IsBlank(currentLine) {
        var leaves := ReadLeaves(currentLine);
        if leaves.Err? {
          assert corpus + [] == corpus;
          error := Some(leaves.error);
          return;
        }
        var currentSentence := Finish(leaves.value);
        Append(corpus, currentSentence, TreebankSentences(lines[i + 1..], replaceDigits, ignoreCapitalization).added);
        corpus := corpus + [currentSentence];
      }
    }

    /** parseLabeledFile: the token-tag state machine, appending each sentence an empty line closes. */
    method ParseLabeledFile(lines: seq<string>) returns (error: Option<ParseError>)
      modifies this
      ensures delimiter == old(delimiter) && replaceDigits == old(replaceDigits) && ignoreCapitalization == old(ignoreCapitalization)
      ensures corpus == old(corpus) + LabeledSentences(lines, EmptySentence, delimiter, replaceDigits, ignoreCapitalization).added
      ensures error == LabeledSentences(lines, EmptySentence, delimiter, replaceDigits, ignoreCapitalization).error
    {
      ghost var outcome := LabeledSentences(lines, EmptySentence, delimiter, replaceDigits, ignoreCapitalization);
      ghost var final := corpus + outcome.added;
      error := None;
      var currentSentence := EmptySentence;
      var i := 0;
      while i < |lines|
        invariant 0 <= i <= |lines|
        invariant delimiter == old(delimiter) && replaceDigits == old(replaceDigits) && ignoreCapitalization == old(ignoreCapitalization)
        invariant corpus + LabeledSentences(lines[i..], currentSentence, delimiter, replaceDigits, ignoreCapitalization).added == final
        invariant LabeledSentences(lines[i..], currentSentence, delimiter, replaceDigits, ignoreCapitalization).error == outcome.error
        invariant error == None
      {
        currentSentence, error := ParseLabeledLine(lines, i, currentSentence, final, outcome.error);
        if error.Some? {
          return;
        }
        i := i + 1;
      }
      assert lines[i..] == [];
    }

    /** The body of parseLabeledFile's loop for line i: close the sentence, extend it, or fail on a malformed line. */
    method ParseLabeledLine(lines: seq<string>, i: int, current: Sentence, ghost final: seq<Sentence>, ghost finalError: Option<ParseError>)
      returns (next: Sentence, error: Option<ParseError>)
      requires 0 <= i < |lines|
      requires corpus + LabeledSentences(lines[i..], current, delimiter, replaceDigits, ignoreCapitalization).added == final
      requires LabeledSentences(lines[i..], current, delimiter, replaceDigits, ignoreCapitalization).error == finalError
      modifies this
      ensures delimiter == old(delimiter) && replaceDigits == old(replaceDigits) && ignoreCapitalization == old(ignoreCapitalization)
      ensures error == None ==>
                && corpus + LabeledSentences(lines[i + 1..], next, delimiter, replaceDigits, ignoreCapitalization).added == final
                && LabeledSentences(lines[i + 1..], next, delimiter, replaceDigits, ignoreCapitalization).error == finalError
      ensures error != None ==> corpus == final && error == finalError
    {
      LabeledAt(lines, i, current, delimiter, replaceDigits, ignoreCapitalization);
      var currentLine := lines[i];
      next, error := current, None;
      if currentLine == "" {
        if |current.tokens| > 0 {
          var finished := Finish(current);
          Append(corpus, finished, LabeledSentences(lines[i + 1..], EmptySentence, delimiter, replaceDigits, ignoreCapitalization).added);
          corpus := corpus + [finished];
          next := EmptySentence;
        }
      } else {
        var splitted := Split(currentLine, delimiter);
        if |splitted| != 2 {
          assert corpus + [] == corpus;
          error := Some(MalformedLine(currentLine));
          return;
        }
        var token := splitted[0];
        var tag := splitted[1];
        next := Add(next, token, tag);
        next := AddRawToken(next, token);
      }
    }

    /** writeToFile(fileName): the static writer on this parser's corpus. */
    method WriteToFile(existing: string) returns (content: string)
      ensures content == existing + CorpusText(corpus)
    {
      content := WriteCorpus(existing, corpus);
    }

    /** setDelimiter(delimiter). */
    method SetDelimiter(d: Delimiter)
      modifies this
      ensures delimiter == d && corpus == old(corpus)
      ensures replaceDigits == old(replaceDigits) && ignoreCapitalization == old(ignoreCapitalization)
    {
      delimiter := d;
    }

    /** replaceDigits(newValue). */
    method SetReplaceDigits(newValue: bool)
      modifies this
      ensures replaceDigits == newValue && corpus == old(corpus)
      ensures delimiter == old(delimiter) && ignoreCapitalization == old(ignoreCapitalization)
    {
      replaceDigits := newValue;
    }

    /** ignoreCapitalization(value). */
    method SetIgnoreCapitalization(value: bool)
      modifies this
      ensures ignoreCapitalization == value && corpus == old(corpus)
      ensures delimiter == old(delimiter) && replaceDigits == old(replaceDigits)
    {
      ignoreCapitalization := value;
    }
  }

  /** Appending one sentence to the corpus, regrouped: the step every parse loop takes. */
  lemma Append(corpus: seq<Sentence>, s: Sentence, later: seq<Sentence>)
    ensures (corpus + [s]) + later == corpus + ([s] + later)
  {
  }

  /** The matcher loop of parseTreebankFile for one line: each match's interior, split on " ", adds its token and tag. */
  method ReadLeaves(line: string) returns (r: Result<Sentence, ParseError>)
    ensures r == AddLeaves(EmptySentence, BracketInteriors(line))
  {
    var matches := BracketInteriors(line);
    var currentSentence := EmptySentence;
    var k := 0;
    while k < |matches|
      invariant 0 <= k <= |matches|
      invariant AddLeaves(currentSentence, matches[k..]) == AddLeaves(EmptySentence, matches)
    {
      AddLeavesAt(currentSentence, matches, k);
      var interior := matches[k];
      var fields := Split(interior, Literal(' '));
      if |fields| < 2 {
        return Err(MissingToken(interior));
      }
      var token := fields[1];
      var tag := fields[0];
      currentSentence := Add(currentSentence, token, tag);
      k := k + 1;
    }
    assert matches[k..] == [];
    r := Ok(currentSentence);
  }
}
