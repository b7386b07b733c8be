/**
 * The sentence record the parser fills and the index reads. Only what the
 * parser and the index use of nlp.model.Sentence is modelled: a token list,
 * a parallel tag list, a raw-token shadow, the BOUNDARY sentinel, and the two
 * normalising steps the parser calls on a finished sentence.
 */
module Sentences {
  import opened JavaText

  /** The sentinel token counted at each sentence edge (Sentence.BOUNDARY). */
  const BOUNDARY: string := "<BOUNDARY>"

  datatype Sentence = Sentence(tokens: seq<string>, tags: seq<string>, rawTokens: seq<string>)

  const EmptySentence: Sentence := Sentence([], [], [])

  /** Sentence.add(token, tag): appends a token and its tag; the raw-token shadow is left alone. */
  function Add(s: Sentence, token: string, tag: string): Sentence {
    s.(tokens := s.tokens + [token], tags := s.tags + [tag])
  }

  /** Sentence.addRawToken(raw). */
  function AddRawToken(s: Sentence, raw: string): Sentence {
    s.(rawTokens := s.rawTokens + [raw])
  }

  /** The parser's digit rule for one token: each maximal digit run becomes "0". */
  function ReplaceDigitsInToken(token: string): string {
    CollapseDigitRuns(token)
  }

  /** Sentence.replaceDigits(): rewrites every token; tags and raw tokens keep their text. */
  function ReplaceDigits(s: Sentence): Sentence {
    s.(tokens := seq(|s.tokens|, i requires 0 <= i < |s.tokens| => ReplaceDigitsInToken(s.tokens[i])))
  }

  /** Sentence.convertToLowerCase(): lowers every token; tags and raw tokens keep their text. */
  function ConvertToLowerCase(s: Sentence): Sentence {
    s.(tokens := seq(|s.tokens|, i requires 0 <= i < |s.tokens| => ToLowerCase(s.tokens[i])))
  }

  /** What the parser does to one token of a finished sentence, flag by flag. */
  function NormalizeToken(token: string, replaceDigits: bool, ignoreCapitalization: bool): string {
    var t := if replaceDigits then ReplaceDigitsInToken(token) else token;
    if ignoreCapitalization then ToLowerCase(t) else t
  }

  /**
   * The parser's normalisation of a finished sentence: replaceDigits() first,
   * then convertToLowerCase(), each only when its flag is set. Only tokens
   * change; the raw tokens keep the text as read.
   */
  function Normalize(s: Sentence, replaceDigits: bool, ignoreCapitalization: bool): (r: Sentence)
    ensures r.tags == s.tags && r.rawTokens == s.rawTokens && |r.tokens| == |s.tokens|
    ensures forall i :: 0 <= i < |s.tokens| ==>
              r.tokens[i] == NormalizeToken(s.tokens[i], replaceDigits, ignoreCapitalization)
  {
    var d := if replaceDigits then ReplaceDigits(s) else s;
    if ignoreCapitalization then ConvertToLowerCase(d) else d
  }

  /** With both flags on, a normalised token has collapsed digit runs and no upper-case letter, whichever order the two steps ran in. */
  lemma NormalizeTokenShape(token: string)
    ensures NormalizeToken(token, true, true) == CollapseDigitRuns(ToLowerCase(token))
    ensures DigitsCollapsed(NormalizeToken(token, true, true))
    ensures forall i :: 0 <= i < |NormalizeToken(token, true, true)| ==> !IsUpper(NormalizeToken(token, true, true)[i])
  {
    LowerCollapseCommute(token);
    CollapseDigitRunsShape(ToLowerCase(token));
  }

  /** The tokens of every sentence, in corpus order. */
  function AllTokens(corpus: seq<Sentence>): seq<string>
    decreases |corpus|
  {
    if corpus == [] then [] else corpus[0].tokens + AllTokens(corpus[1..])
  }

  /** The raw tokens of every sentence, in corpus order. */
  function AllRawTokens(corpus: seq<Sentence>): seq<string>
    decreases |corpus|
  {
    if corpus == [] then [] else corpus[0].rawTokens + AllRawTokens(corpus[1..])
  }

  lemma {:induction false} AllTokensAppend(a: seq<Sentence>, b: seq<Sentence>)
    ensures AllTokens(a + b) == AllTokens(a) + AllTokens(b)
    ensures AllRawTokens(a + b) == AllRawTokens(a) + AllRawTokens(b)
    decreases |a|
  {
    if a == [] {
      assert a + b == b;
    } else {
      assert (a + b)[1..] == a[1..] + b;
      AllTokensAppend(a[1..], b);
    }
  }
}
