/**
 * nlp.stats.UnigramFreqs: a vocabulary that gives each distinct word a dense
 * id in first-seen order (id 0 is BOUNDARY) and counts occurrences per id.
 *
 * The abstract state is an Index: the vocabulary in id order and the count of
 * each id. The class keeps the source's own fields (the two maps and the
 * fixed-size frequency table) and each of its methods is proved against a
 * function on Index; the lemmas below state what those functions mean.
 */
module Stats {
  import opened Wrappers
  import opened JavaText
  import opened Sentences

  /** Capacity of the frequency table (UnigramFreqs.MAX_WORDS). */
  const MAX_WORDS: nat := 100_000_000

  /** Abstract state of the index: the word with id i is vocab[i], and its count is counts[i]. */
  datatype Index = Index(vocab: seq<string>, counts: seq<int>)

  predicate Consistent(ix: Index) {
    |ix.counts| == |ix.vocab|
  }

  /** BOUNDARY holds id 0. */
  predicate StartsWithBoundary(ix: Index) {
    |ix.vocab| > 0 && ix.vocab[0] == BOUNDARY
  }

  predicate Distinct(s: seq<string>) {
    forall i, j :: 0 <= i < j < |s| ==> s[i] != s[j]
  }

  predicate WellFormed(ix: Index) {
    && Consistent(ix)
    && StartsWithBoundary(ix)
    && Distinct(ix.vocab)
    && forall i :: 0 <= i < |ix.counts| ==> ix.counts[i] >= 0
  }

  /** r has at least ix's words, and BOUNDARY keeps id 0. */
  predicate Grows(ix: Index, r: Index) {
    |ix.vocab| <= |r.vocab| && (StartsWithBoundary(ix) ==> StartsWithBoundary(r))
  }

  /** The index right after construction: only BOUNDARY, with id 0 and count 0. */
  function Initial(): Index {
    Index([BOUNDARY], [0])
  }

  /** The id of w: its first position in the vocabulary. */
  function IdOf(vocab: seq<string>, w: string): (id: nat)
    requires w in vocab
    ensures id < |vocab| && vocab[id] == w
    ensures forall k :: 0 <= k < id ==> vocab[k] != w
  {
    if vocab[0] == w then 0 else 1 + IdOf(vocab[1..], w)
  }

  /** createIdentifier(w): an unseen word gets the next free id and count 0; a known word changes nothing. */
  function Register(ix: Index, w: string): (r: Index)
    requires Consistent(ix)
    ensures Consistent(r) && ix.vocab <= r.vocab && w in r.vocab
  {
    if w in ix.vocab then ix else Index(ix.vocab + [w], ix.counts + [0])
  }

  /** incrementTable(w): the count of w's id goes up by one. */
  function Increment(ix: Index, w: string): (r: Index)
    requires Consistent(ix) && w in ix.vocab
    ensures Consistent(r) && r.vocab == ix.vocab
  {
    var id := IdOf(ix.vocab, w);
    ix.(counts := ix.counts[id := ix.counts[id] + 1])
  }

  /** One token as addCorpus and addFile handle it: createIdentifier, then incrementTable. */
  function CountToken(ix: Index, w: string): (r: Index)
    requires Consistent(ix)
    ensures Consistent(r) && Grows(ix, r)
  {
    Increment(Register(ix, w), w)
  }

  function CountTokens(ix: Index, tokens: seq<string>): (r: Index)
    requires Consistent(ix)
    ensures Consistent(r) && Grows(ix, r)
    decreases |tokens|
  {
    if tokens == [] then ix else CountTokens(CountToken(ix, tokens[0]), tokens[1..])
  }

  /** The end of a sentence: BOUNDARY is counted twice, once per sentence edge. */
  function CloseSentence(ix: Index): (r: Index)
    requires Consistent(ix) && StartsWithBoundary(ix)
    ensures Consistent(r) && r.vocab == ix.vocab
  {
    Increment(Increment(ix, BOUNDARY), BOUNDARY)
  }

  /** One sentence of addCorpus: its tokens in order, then the two BOUNDARY counts. */
  function CountSentence(ix: Index, tokens: seq<string>): (r: Index)
    requires Consistent(ix) && StartsWithBoundary(ix)
    ensures Consistent(r) && Grows(ix, r)
  {
    CloseSentence(CountTokens(ix, tokens))
  }

  /** addCorpus over the token lists of the sentences, in order. */
  function CountCorpus(ix: Index, sentences: seq<seq<string>>): (r: Index)
    requires Consistent(ix) && StartsWithBoundary(ix)
    ensures Consistent(r) && Grows(ix, r)
    decreases |sentences|
  {
    if sentences == [] then ix else CountCorpus(CountSentence(ix, sentences[0]), sentences[1..])
  }

  lemma CountCorpusCons(ix: Index, sentence: seq<string>, later: seq<seq<string>>)
    requires Consistent(ix) && StartsWithBoundary(ix)
    ensures CountCorpus(ix, [sentence] + later) == CountCorpus(CountSentence(ix, sentence), later)
  {
    assert ([sentence] + later)[1..] == later;
  }

  lemma CountCorpusAt(ix: Index, sentences: seq<seq<string>>, i: int)
    requires Consistent(ix) && StartsWithBoundary(ix) && 0 <= i < |sentences|
    ensures CountCorpus(ix, sentences[i..]) == CountCorpus(CountSentence(ix, sentences[i]), sentences[i + 1..])
  {
    assert sentences[i..][1..] == sentences[i + 1..];
  }

  lemma CountTokensAt(ix: Index, tokens: seq<string>, j: int)
    requires Consistent(ix) && 0 <= j < |tokens|
    ensures CountTokens(ix, tokens[j..]) == CountTokens(CountToken(ix, tokens[j]), tokens[j + 1..])
  {
    assert tokens[j..][1..] == tokens[j + 1..];
  }

  /** getFrequency(w): the count of w's id, and 0 for a word the index has never seen. */
  function Frequency(ix: Index, w: string): int
    requires Consistent(ix)
  {
    if w in ix.vocab then ix.counts[IdOf(ix.vocab, w)] else 0
  }

  /** The token lists of a corpus, as addCorpus reads them through getTokens(). */
  function TokenLists(corpus: seq<Sentence>): seq<seq<string>> {
    seq(|corpus|, k requires 0 <= k < |corpus| => corpus[k].tokens)
  }

  /** All tokens of all sentences, in order. */
  function Concat(sentences: seq<seq<string>>): seq<string>
    decreases |sentences|
  {
    if sentences == [] then [] else sentences[0] + Concat(sentences[1..])
  }

  /** Flattening the token lists of a corpus gives its tokens in corpus order. */
  lemma {:induction false} ConcatTokenLists(corpus: seq<Sentence>)
    ensures Concat(TokenLists(corpus)) == AllTokens(corpus)
    decreases |corpus|
  {
    if corpus != [] {
      assert TokenLists(corpus)[1..] == TokenLists(corpus[1..]);
      ConcatTokenLists(corpus[1..]);
    }
  }

  // ---------------------------------------------------------------------------
  // addFile's own tokenisation
  // ---------------------------------------------------------------------------

  /** addFile's rule for a field: token.toLowerCase(Locale.ENGLISH).replaceAll("\\d", "0"). */
  function NormalizeFileToken(token: string): string {
    ZeroEachDigit(ToLowerCase(token))
  }

  /** The tokens addFile counts for one line: its `\s+` fields, each normalised. */
  function FileTokens(line: string): seq<string> {
    NormalizeFileTokens(Split(line, WhitespaceRun))
  }

  function NormalizeFileTokens(fields: seq<string>): seq<string> {
    seq(|fields|, k requires 0 <= k < |fields| => NormalizeFileToken(fields[k]))
  }

  /** The sentences addFile counts: one per line that is not blank, in file order. */
  function FileSentences(lines: seq<string>): seq<seq<string>>
    decreases |lines|
  {
    if lines == [] then []
    else (if IsBlank(lines[0]) then [] else [FileTokens(lines[0])]) + FileSentences(lines[1..])
  }

  // ---------------------------------------------------------------------------
  // Lemmas about the specification
  // ---------------------------------------------------------------------------

  lemma IdOfAt(s: seq<string>, i: int)
    requires Distinct(s) && 0 <= i < |s|
    ensures IdOf(s, s[i]) == i
  {
  }

  /** Growing the vocabulary at the end never changes an existing id. */
  lemma IdOfPrefix(a: seq<string>, b: seq<string>, w: string)
    requires a <= b && w in a
    ensures IdOf(b, w) == IdOf(a, w)
  {
    var i := IdOf(a, w);
    assert b[i] == a[i];
  }

  lemma FrequencyRegister(ix: Index, v: string, w: string)
    requires Consistent(ix)
    ensures Frequency(Register(ix, v), w) == Frequency(ix, w)
  {
    if v !in ix.vocab && w in ix.vocab {
      IdOfPrefix(ix.vocab, ix.vocab + [v], w);
    }
  }

  lemma FrequencyIncrement(ix: Index, v: string, w: string)
    requires Consistent(ix) && v in ix.vocab
    ensures Frequency(Increment(ix, v), w) == Frequency(ix, w) + (if w == v then 1 else 0)
  {
  }

  /** Counting a token sequence adds exactly each word's number of occurrences to that word's count. */
  lemma {:induction false} CountTokensFrequency(ix: Index, tokens: seq<string>, w: string)
    requires Consistent(ix)
    ensures Frequency(CountTokens(ix, tokens), w) == Frequency(ix, w) + multiset(tokens)[w]
    decreases |tokens|
  {
    if tokens != [] {
      var t := tokens[0];
      FrequencyRegister(ix, t, w);
      FrequencyIncrement(Register(ix, t), t, w);
      CountTokensFrequency(CountToken(ix, t), tokens[1..], w);
      assert tokens == [t] + tokens[1..];
    }
  }

  /**
   * addCorpus adds to every word's count its number of occurrences in the
   * corpus, and to BOUNDARY's count two per sentence besides.
   */
  lemma {:induction false} CountCorpusFrequency(ix: Index, sentences: seq<seq<string>>, w: string)
    requires Consistent(ix) && StartsWithBoundary(ix)
    ensures Frequency(CountCorpus(ix, sentences), w)
            == Frequency(ix, w) + multiset(Concat(sentences))[w] + (if w == BOUNDARY then 2 * |sentences| else 0)
    decreases |sentences|
  {
    if sentences != [] {
      var ts := sentences[0];
      var mid := CountTokens(ix, ts);
      CountTokensFrequency(ix, ts, w);
      FrequencyIncrement(mid, BOUNDARY, w);
      FrequencyIncrement(Increment(mid, BOUNDARY), BOUNDARY, w);
      CountCorpusFrequency(CountSentence(ix, ts), sentences[1..], w);
    }
  }

  /** For a fresh index and a corpus in which BOUNDARY is not itself a token, BOUNDARY's count is twice the number of sentences. */
  lemma BoundaryCountsSentenceEdges(sentences: seq<seq<string>>)
    requires BOUNDARY !in Concat(sentences)
    ensures Frequency(CountCorpus(Initial(), sentences), BOUNDARY) == 2 * |sentences|
  {
    CountCorpusFrequency(Initial(), sentences, BOUNDARY);
  }

  /** Counting tokens registers exactly the words seen, keeps ids distinct and dense, and never lowers a count. */
  lemma {:induction false} CountTokensVocabulary(ix: Index, tokens: seq<string>)
    requires WellFormed(ix)
    ensures WellFormed(CountTokens(ix, tokens))
    ensures forall w :: w in CountTokens(ix, tokens).vocab <==> w in ix.vocab || w in tokens
    decreases |tokens|
  {
    if tokens != [] {
      var t := tokens[0];
      var next := CountToken(ix, t);
      assert WellFormed(next) by {
        var reg := Register(ix, t);
        assert Distinct(reg.vocab);
        assert forall i :: 0 <= i < |reg.counts| ==> reg.counts[i] >= 0;
      }
      CountTokensVocabulary(next, tokens[1..]);
      assert tokens == [t] + tokens[1..];
    }
  }

  lemma {:induction false} CountCorpusVocabulary(ix: Index, sentences: seq<seq<string>>)
    requires WellFormed(ix)
    ensures WellFormed(CountCorpus(ix, sentences))
    ensures forall w :: w in CountCorpus(ix, sentences).vocab <==> w in ix.vocab || w in Concat(sentences)
    decreases |sentences|
  {
    if sentences != [] {
      var ts := sentences[0];
      CountTokensVocabulary(ix, ts);
      var mid := CountTokens(ix, ts);
      assert WellFormed(CountSentence(ix, ts)) by {
        var one := Increment(mid, BOUNDARY);
        assert forall i :: 0 <= i < |one.counts| ==> one.counts[i] >= 0;
      }
      CountCorpusVocabulary(CountSentence(ix, ts), sentences[1..]);
    }
  }

  /** Counting never renumbers: the old vocabulary is a prefix of the new one. */
  lemma {:induction false} CountTokensExtends(ix: Index, tokens: seq<string>)
    requires Consistent(ix)
    ensures ix.vocab <= CountTokens(ix, tokens).vocab
    decreases |tokens|
  {
    if tokens != [] {
      CountTokensExtends(CountToken(ix, tokens[0]), tokens[1..]);
    }
  }

  lemma {:induction false} CountCorpusExtends(ix: Index, sentences: seq<seq<string>>)
    requires Consistent(ix) && StartsWithBoundary(ix)
    ensures ix.vocab <= CountCorpus(ix, sentences).vocab
    decreases |sentences|
  {
    if sentences != [] {
      CountTokensExtends(ix, sentences[0]);
      CountCorpusExtends(CountSentence(ix, sentences[0]), sentences[1..]);
    }
  }

  /** Counts only grow: after addCorpus every id keeps its word and has at least its old count. */
  lemma CountCorpusGrows(ix: Index, sentences: seq<seq<string>>, i: int)
    requires WellFormed(ix) && 0 <= i < |ix.vocab|
    ensures CountCorpus(ix, sentences).vocab[i] == ix.vocab[i]
    ensures CountCorpus(ix, sentences).counts[i] >= ix.counts[i]
  {
    var r := CountCorpus(ix, sentences);
    var w := ix.vocab[i];
    CountCorpusFrequency(ix, sentences, w);
    CountCorpusExtends(ix, sentences);
    IdOfAt(ix.vocab, i);
    IdOfPrefix(ix.vocab, r.vocab, w);
  }

  /** addFile's normalisation keeps the length, lowers letters and turns every digit into '0'. */
  lemma NormalizeFileTokenShape(token: string)
    ensures |NormalizeFileToken(token)| == |token|
    ensures forall i :: 0 <= i < |token| ==>
              NormalizeFileToken(token)[i] == (if IsDigit(token[i]) then '0' else LowerChar(token[i]))
  {
  }

  lemma {:induction false} FileSentencesAppend(a: seq<string>, b: seq<string>)
    ensures FileSentences(a + b) == FileSentences(a) + FileSentences(b)
    decreases |a|
  {
    if a == [] {
      assert a + b == b;
    } else {
      assert (a + b)[1..] == a[1..] + b;
      FileSentencesAppend(a[1..], b);
    }
  }

  /** addFile's sentences from line i on: line i's own, if it is not blank, then those of the lines after it. */
  lemma FileSentencesAt(lines: seq<string>, i: int)
    requires 0 <= i < |lines|
    ensures FileSentences(lines[i..])
            == (if IsBlank(lines[i]) then [] else [FileTokens(lines[i])]) + FileSentences(lines[i + 1..])
  {
    assert lines[i..][1..] == lines[i + 1..];
  }

  /** A blank line contributes nothing to addFile, not even BOUNDARY counts. */
  lemma BlankLineIgnoredByAddFile(before: seq<string>, line: string, after: seq<string>)
    requires IsBlank(line)
    ensures FileSentences(before + [line] + after) == FileSentences(before + after)
  {
    FileSentencesAppend(before + [line], after);
    FileSentencesAppend(before, [line]);
    FileSentencesAppend(before, after);
  }

  // ---------------------------------------------------------------------------
  // getNmostFrequentTokens: pairs and their order
  // ---------------------------------------------------------------------------

  /** nlp.data.Pair: an id with its count. */
  datatype Pair = Pair(index: int, count: int)

  /** The direction Pair.compareTo orders counts in; Pair is not part of this model, so the direction is a parameter. */
  datatype CountOrder = Ascending | Descending

  predicate CountsInOrder(a: int, b: int, order: CountOrder) {
    if order == Ascending then a <= b else a >= b
  }

  /**
   * The order Arrays.sort leaves the pairs in: by count in the given
   * direction, and, because that sort is stable and the pairs start in id
   * order, equal counts by id.
   */
  predicate PairLe(p: Pair, q: Pair, order: CountOrder) {
    if p.count == q.count then p.index <= q.index
    else if order == Ascending then p.count < q.count
    else p.count > q.count
  }

  /** Every pair is ordered before each later one. */
  predicate PairsInOrder(s: seq<Pair>, order: CountOrder) {
    forall p, q :: 0 <= p < q < |s| ==> PairLe(s[p], s[q], order)
  }

  /** Arrays.sort(pairs), as an insertion sort: stable, like the sort it stands for. */
  method SortPairs(a: array<Pair>, order: CountOrder)
    modifies a
    ensures PairsInOrder(a[..], order)
    ensures multiset(a[..]) == multiset(old(a[..]))
  {
    var i := 0;
    while i < a.Length
      invariant 0 <= i <= a.Length
      invariant PairsInOrder(a[..i], order)
      invariant multiset(a[..]) == multiset(old(a[..]))
    {
      InsertPair(a, i, order);
      i := i + 1;
    }
    assert a[..i] == a[..];
  }

  /** The pairs up to i, except the one at j, are in order. */
  predicate InOrderExcept(s: seq<Pair>, i: int, j: int, order: CountOrder) {
    forall p, q :: 0 <= p < q <= i && q < |s| && p != j && q != j ==> PairLe(s[p], s[q], order)
  }

  /** The pair at j is ordered before every pair after it up to i. */
  predicate BeforeRest(s: seq<Pair>, i: int, j: int, order: CountOrder) {
    forall q :: 0 <= j < q <= i && q < |s| ==> PairLe(s[j], s[q], order)
  }

  /** One pass of the insertion sort: a[i] moves down past every pair it is ordered before. */
  method InsertPair(a: array<Pair>, i: int, order: CountOrder)
    requires 0 <= i < a.Length
    requires PairsInOrder(a[..i], order)
    modifies a
    ensures PairsInOrder(a[..i + 1], order)
    ensures multiset(a[..]) == multiset(old(a[..]))
  {
    var j := i;
    InsertStart(a[..], i, order);
    while 0 < j && !PairLe(a[j - 1], a[j], order)
      invariant 0 <= j <= i
      invariant InOrderExcept(a[..], i, j, order) && BeforeRest(a[..], i, j, order)
      invariant multiset(a[..]) == multiset(old(a[..]))
    {
      ghost var before := a[..];
      a[j - 1], a[j] := a[j], a[j - 1];
      SwapStep(before, a[..], i, j, order);
      j := j - 1;
    }
    InsertedInOrder(a[..], i, j, order);
  }

  lemma PairLeTotal(x: Pair, y: Pair, order: CountOrder)
    ensures PairLe(x, y, order) || PairLe(y, x, order)
  {
  }

  lemma PairLeTransitive(x: Pair, y: Pair, z: Pair, order: CountOrder)
    requires PairLe(x, y, order) && PairLe(y, z, order)
    ensures PairLe(x, z, order)
  {
  }

  lemma InsertStart(s: seq<Pair>, i: int, order: CountOrder)
    requires 0 <= i < |s| && PairsInOrder(s[..i], order)
    ensures InOrderExcept(s, i, i, order) && BeforeRest(s, i, i, order)
  {
    forall p, q | 0 <= p < q < i
      ensures PairLe(s[p], s[q], order)
    {
      assert s[p] == s[..i][p] && s[q] == s[..i][q];
    }
  }

  /** Swapping the moving pair with a neighbour it is not ordered after keeps the pass's invariant one place down. */
  lemma SwapStep(s: seq<Pair>, t: seq<Pair>, i: int, j: int, order: CountOrder)
    requires 0 < j <= i < |s| == |t|
    requires InOrderExcept(s, i, j, order) && BeforeRest(s, i, j, order)
    requires !PairLe(s[j - 1], s[j], order)
    requires t == s[j - 1 := s[j]][j := s[j - 1]]
    ensures InOrderExcept(t, i, j - 1, order) && BeforeRest(t, i, j - 1, order)
    ensures multiset(t) == multiset(s)
  {
    PairLeTotal(s[j - 1], s[j], order);
  }

  /** When the moving pair stops at j, the whole prefix up to i is in order. */
  lemma InsertedInOrder(s: seq<Pair>, i: int, j: int, order: CountOrder)
    requires 0 <= j <= i < |s|
    requires InOrderExcept(s, i, j, order) && BeforeRest(s, i, j, order)
    requires j == 0 || PairLe(s[j - 1], s[j], order)
    ensures PairsInOrder(s[..i + 1], order)
  {
    forall p, q | 0 <= p < q <= i
      ensures PairLe(s[p], s[q], order)
    {
      if q == j && p < j - 1 {
        PairLeTransitive(s[p], s[j - 1], s[j], order);
      }
    }
  }

  lemma SeenTwice<T>(s: seq<T>, p: int, q: int)
    requires 0 <= p < q < |s| && s[p] == s[q]
    ensures multiset(s)[s[p]] >= 2
  {
    assert s == s[..q] + s[q..];
    assert s[p] in s[..q];
    assert s[q] in s[q..];
  }

  lemma {:induction false} SeenOnce(s: seq<Pair>, x: Pair)
    requires forall i, j :: 0 <= i < j < |s| ==> s[i].index != s[j].index
    ensures multiset(s)[x] <= 1
    decreases |s|
  {
    if s != [] {
      assert s == [s[0]] + s[1..];
      SeenOnce(s[1..], x);
      if s[0] == x {
        assert x !in s[1..];
      }
    }
  }

  function Min(a: int, b: int): int {
    if a < b then a else b
  }

  // ---------------------------------------------------------------------------
  // The class
  // ---------------------------------------------------------------------------

  class UnigramFreqs {
    /** wordToId is a LinkedHashMap: the map itself, and keyOrder, the order its keys were inserted in. */
    var wordToId: map<string, int>
    var keyOrder: seq<string>
    var idToWord: map<int, string>
    var frequencyTable: array<int>
    /** The used prefix of frequencyTable, one count per id. */
    ghost var counts: seq<int>

    /** The two maps are mutually inverse over the dense ids 0 .. size-1, BOUNDARY has id 0, unused slots are 0. */
    ghost predicate Valid()
      reads this, frequencyTable
    {
      && 1 <= |keyOrder| <= MAX_WORDS
      && keyOrder[0] == BOUNDARY
      && MapsAgree()
      && TableAgrees()
    }

    /** wordToId and idToWord are inverse bijections between the words and the ids 0 .. size-1. */
    ghost predicate MapsAgree()
      reads this
    {
      && |wordToId| == |keyOrder|
      && (forall i :: 0 <= i < |keyOrder| ==> keyOrder[i] in wordToId && wordToId[keyOrder[i]] == i)
      && (forall w :: w in wordToId ==> 0 <= wordToId[w] < |keyOrder| && keyOrder[wordToId[w]] == w)
      && (forall i :: i in idToWord <==> 0 <= i < |keyOrder|)
      && (forall i :: 0 <= i < |keyOrder| ==> idToWord[i] == keyOrder[i])
    }

    /** frequencyTable holds each id's count, never negative, and 0 past the last id. */
    ghost predicate TableAgrees()
      reads this, frequencyTable
    {
      && frequencyTable.Length == MAX_WORDS
      && |counts| == |keyOrder| <= MAX_WORDS
      && (forall i :: 0 <= i < |counts| ==> frequencyTable[i] == counts[i] >= 0)
      && (forall i :: |keyOrder| <= i < frequencyTable.Length ==> frequencyTable[i] == 0)
    }

    /** The abstract state: the vocabulary in id order and the count of each id. */
    ghost function Model(): Index
      reads this
    {
      Index(keyOrder, counts)
    }

    /** The abstract state is well formed: ids are distinct because wordToId maps each back to its position. */
    lemma ModelWellFormed()
      requires Valid()
      ensures WellFormed(Model()) && Distinct(keyOrder)
    {
      forall i, j | 0 <= i < j < |keyOrder|
        ensures keyOrder[i] != keyOrder[j]
      {
        assert wordToId[keyOrder[i]] == i && wordToId[keyOrder[j]] == j;
      }
    }

    /** UnigramFreqs(): the vocabulary holds only BOUNDARY, with id 0 and count 0. */
    constructor ()
      ensures Valid() && fresh(frequencyTable)
      ensures Model() == Initial()
    {
      frequencyTable := new int[MAX_WORDS](_ => 0);
      // createIdentifier(Sentence.BOUNDARY) on the empty maps
      wordToId := map[BOUNDARY := 0];
      idToWord := map[0 := BOUNDARY];
      keyOrder := [BOUNDARY];
      counts := [0];
      new;
      InitialIsValid();
    }

    /** The state both constructors build is valid: BOUNDARY alone, with id 0, over a table of zeros. */
    lemma InitialIsValid()
      requires frequencyTable.Length == MAX_WORDS
      requires forall i :: 0 <= i < frequencyTable.Length ==> frequencyTable[i] == 0
      requires wordToId == map[BOUNDARY := 0] && idToWord == map[0 := BOUNDARY]
      requires keyOrder == [BOUNDARY] && counts == [0]
      ensures Valid() && Model() == Initial()
    {
    }

    /** UnigramFreqs(corpus): the fresh index, then addCorpus(corpus). */
    constructor FromCorpus(corpus: seq<Sentence>)
      requires |CountCorpus(Initial(), TokenLists(corpus)).vocab| <= MAX_WORDS
      ensures Valid() && fresh(frequencyTable)
      ensures Model() == CountCorpus(Initial(), TokenLists(corpus))
    {
      frequencyTable := new int[MAX_WORDS](_ => 0);
      wordToId := map[BOUNDARY := 0];
      idToWord := map[0 := BOUNDARY];
      keyOrder := [BOUNDARY];
      counts := [0];
      new;
      InitialIsValid();
      AddCorpus(corpus);
    }

    /** createIdentifier(w): an unseen word gets id wordToId.size() in both maps; a known word changes nothing. */
    method CreateIdentifier(w: string)
      requires Valid() && (w in wordToId || |keyOrder| < MAX_WORDS)
      modifies this
      ensures Valid() && frequencyTable == old(frequencyTable)
      ensures Model() == Register(old(Model()), w)
    {
      if w !in wordToId {
        var id := |wordToId|;
        wordToId := wordToId[w := id];
        idToWord := idToWord[id := w];
        keyOrder := keyOrder + [w];
        counts := counts + [0];
      }
    }

    /** incrementTable(w): frequencyTable[translate(w)]++. */
    method IncrementTable(w: string)
      requires Valid() && w in wordToId
      modifies this, frequencyTable
      ensures Valid() && frequencyTable == old(frequencyTable)
      ensures Model() == Increment(old(Model()), w)
    {
      var id := wordToId[w];
      ModelWellFormed();
      IdOfAt(keyOrder, id);
      frequencyTable[id] := frequencyTable[id] + 1;
      counts := counts[id := counts[id] + 1];
    }

    /** translate(String): the id of a registered word; Java fails (unboxing null) on any other word. */
    function TranslateWord(w: string): (r: Option<int>)
      reads this, frequencyTable
      requires Valid()
      ensures r.Some? <==> w in keyOrder
      ensures r.Some? ==> 0 <= r.value < |keyOrder| && keyOrder[r.value] == w
    {
      if w in wordToId then Some(wordToId[w]) else None
    }

    /** translate(int): the word with that id, and null (None) for an id not assigned. */
    function TranslateId(id: int): (r: Option<string>)
      reads this, frequencyTable
      requires Valid()
      ensures r.Some? <==> 0 <= id < |keyOrder|
      ensures r.Some? ==> r.value in wordToId && wordToId[r.value] == id
    {
      if id in idToWord then Some(idToWord[id]) else None
    }

    /** The two translations undo each other. */
    lemma TranslateRoundTrip(w: string, id: int)
      requires Valid()
      ensures w in keyOrder ==> TranslateId(TranslateWord(w).value) == Some(w)
      ensures 0 <= id < |keyOrder| ==> TranslateWord(TranslateId(id).value) == Some(id)
    {
    }

    /** getFrequency(w): the count of w's id, 0 for an unregistered word; it never fails. */
    function GetFrequency(w: string): (r: int)
      reads this, frequencyTable
      requires Valid()
      ensures r == Frequency(Model(), w)
      ensures r >= 0
      ensures w !in keyOrder ==> r == 0
    {
      if w in wordToId then
        IdOfAt(keyOrder, wordToId[w]);
        frequencyTable[wordToId[w]]
      else 0
    }

    /** getVocabularyAsArray(): the LinkedHashMap's keys in insertion order, which is id order. */
    function GetVocabularyAsArray(): (r: seq<string>)
      reads this, frequencyTable
      requires Valid()
      ensures |r| == |wordToId|
      ensures forall i :: 0 <= i < |r| ==> TranslateId(i) == Some(r[i])
    {
      keyOrder
    }

    /**
     * addCorpus(corpus): every token is registered and counted, and each
     * sentence then counts BOUNDARY twice. Java fails past MAX_WORDS distinct
     * words (an index out of bounds); the requires keeps the caller within it.
     */
    method AddCorpus(corpus: seq<Sentence>)
      requires Valid()
      requires |CountCorpus(Model(), TokenLists(corpus)).vocab| <= MAX_WORDS
      modifies this, frequencyTable
      ensures Valid() && frequencyTable == old(frequencyTable)
      ensures Model() == CountCorpus(old(Model()), TokenLists(corpus))
    {
      var sentences := TokenLists(corpus);
      ghost var final := CountCorpus(Model(), sentences);
      var i := 0;
      while i < |corpus|
        invariant 0 <= i <= |corpus|
        invariant Valid() && frequencyTable == old(frequencyTable)
        invariant CountCorpus(Model(), sentences[i..]) == final
      {
        CountCorpusAt(Model(), sentences, i);
        CountSentenceTokens(corpus[i].tokens, sentences[i + 1..], final);
        i := i + 1;
      }
      assert sentences[i..] == [];
    }

    /** The body of addCorpus's loop for one sentence: each token, then BOUNDARY twice. */
    method CountSentenceTokens(tokens: seq<string>, ghost later: seq<seq<string>>, ghost final: Index)
      requires Valid()
      requires CountCorpus(CountSentence(Model(), tokens), later) == final
      requires |final.vocab| <= MAX_WORDS
      modifies this, frequencyTable
      ensures Valid() && frequencyTable == old(frequencyTable)
      ensures CountCorpus(Model(), later) == final
    {
      var j := 0;
      while j < |tokens|
        invariant 0 <= j <= |tokens|
        invariant Valid() && frequencyTable == old(frequencyTable)
        invariant CountCorpus(CloseSentence(CountTokens(Model(), tokens[j..])), later) == final
      {
        CountTokensAt(Model(), tokens, j);
        CountOneToken(tokens[j], tokens[j + 1..], later, final);
        j := j + 1;
      }
      assert tokens[j..] == [];
      CountBoundaries();
    }

    /** The end of a sentence in both loops: incrementTable(BOUNDARY) twice. */
    method CountBoundaries()
      requires Valid()
      modifies this, frequencyTable
      ensures Valid() && frequencyTable == old(frequencyTable)
      ensures Model() == CloseSentence(old(Model()))
    {
      IncrementTable(BOUNDARY);
      IncrementTable(BOUNDARY);
    }

    /** One step of the token loops: createIdentifier(w), then incrementTable(w). */
    method CountOneToken(w: string, ghost rest: seq<string>, ghost later: seq<seq<string>>, ghost final: Index)
      requires Valid()
      requires CountCorpus(CloseSentence(CountTokens(CountToken(Model(), w), rest)), later) == final
      requires |final.vocab| <= MAX_WORDS
      modifies this, frequencyTable
      ensures Valid() && frequencyTable == old(frequencyTable)
      ensures Model() == CountToken(old(Model()), w)
      ensures CountCorpus(CloseSentence(CountTokens(Model(), rest)), later) == final
    {
      CreateIdentifier(w);
      IncrementTable(w);
    }

    /**
     * addFile(path), with the file given as its lines: every line that is not
     * blank is split on `\s+`, each field is lowered and has each digit
     * replaced by '0' before it is counted, and BOUNDARY is counted twice.
     */
    method AddFile(lines: seq<string>)
      requires Valid()
      requires |CountCorpus(Model(), FileSentences(lines)).vocab| <= MAX_WORDS
      modifies this, frequencyTable
      ensures Valid() && frequencyTable == old(frequencyTable)
      ensures Model() == CountCorpus(old(Model()), FileSentences(lines))
    {
      ghost var final := CountCorpus(Model(), FileSentences(lines));
      var i := 0;
      while i < |lines|
        invariant 0 <= i <= |lines|
        invariant Valid() && frequencyTable == old(frequencyTable)
        invariant CountCorpus(Model(), FileSentences(lines[i..])) == final
      {
        FileSentencesAt(lines, i);
        CountLine(lines[i], FileSentences(lines[i + 1..]), final);
        i := i + 1;
      }
      assert lines[i..] == [];
    }

    /** The body of addFile's loop: a blank line is skipped, any other is counted as a sentence. */
    method CountLine(currentLine: string, ghost later: seq<seq<string>>, ghost final: Index)
      requires Valid()
      requires CountCorpus(Model(), (if IsBlank(currentLine) then [] else [FileTokens(currentLine)]) + later) == final
      requires |final.vocab| <= MAX_WORDS
      modifies this, frequencyTable
      ensures Valid() && frequencyTable == old(frequencyTable)
      ensures CountCorpus(Model(), later) == final
    {
      if !IsBlank(currentLine) {
        var splitted := Split(currentLine, WhitespaceRun);
        CountCorpusCons(Model(), FileTokens(currentLine), later);
        CountFileLine(splitted, NormalizeFileTokens(splitted), later, final);
      } else {
        assert [] + later == later;
      }
    }

    /** The body of addFile's loop for a line that is not blank: each normalised field, then BOUNDARY twice. */
    method CountFileLine(splitted: seq<string>, ghost tokens: seq<string>, ghost later: seq<seq<string>>, ghost final: Index)
      requires Valid()
      requires |tokens| == |splitted|
      requires forall k :: 0 <= k < |splitted| ==> tokens[k] == NormalizeFileToken(splitted[k])
      requires CountCorpus(CountSentence(Model(), tokens), later) == final
      requires |final.vocab| <= MAX_WORDS
      modifies this, frequencyTable
      ensures Valid() && frequencyTable == old(frequencyTable)
      ensures CountCorpus(Model(), later) == final
    {
      var j := 0;
      while j < |splitted|
        invariant 0 <= j <= |splitted|
        invariant Valid() && frequencyTable == old(frequencyTable)
        invariant CountCorpus(CloseSentence(CountTokens(Model(), tokens[j..])), later) == final
      {
        var token := NormalizeFileToken(splitted[j]);
        CountTokensAt(Model(), tokens, j);
        CountOneToken(token, tokens[j + 1..], later, final);
        j := j + 1;
      }
      assert tokens[j..] == [];
      CountBoundaries();
    }

    /**
     * getNmostFrequentTokens(n): pairs (id, count) for the whole vocabulary,
     * sorted, and the words of the first min(n, size) of them. The result is
     * that many distinct vocabulary words, in count order, and no word left
     * out comes before a word returned.
     */
    method GetNMostFrequentTokens(n: int, order: CountOrder) returns (top: seq<string>)
      requires Valid()
      ensures |top| == if n <= 0 then 0 else Min(n, |keyOrder|)
      ensures forall i :: 0 <= i < |top| ==> top[i] in wordToId
      ensures forall i, j :: 0 <= i < j < |top| ==> top[i] != top[j]
      ensures forall i, j :: 0 <= i < j < |top| ==>
                CountsInOrder(GetFrequency(top[i]), GetFrequency(top[j]), order)
      ensures forall i, w :: 0 <= i < |top| && w in wordToId && w !in top ==>
                CountsInOrder(GetFrequency(top[i]), GetFrequency(w), order)
    {
      var pairs := MakePairs();
      ghost var original := pairs[..];
      SortPairs(pairs, order);
      var sorted := pairs[..];
      SortedPairsFacts(sorted, original);
      top := TopWords(sorted, Min(n, |wordToId|));
      SelectionFacts(sorted, original, top, order);
    }

    /** The first loop of getNmostFrequentTokens: one pair (id, count) per id. */
    method MakePairs() returns (pairs: array<Pair>)
      requires Valid()
      ensures fresh(pairs) && pairs.Length == |keyOrder|
      ensures forall p :: 0 <= p < pairs.Length ==> pairs[p] == Pair(p, frequencyTable[p])
    {
      var size := |wordToId|;
      pairs := new Pair[size];
      var k := 0;
      while k < size
        invariant 0 <= k <= size
        invariant forall p :: 0 <= p < k ==> pairs[p] == Pair(p, frequencyTable[p])
      {
        pairs[k] := Pair(k, frequencyTable[k]);
        k := k + 1;
      }
    }

    /** The second loop of getNmostFrequentTokens: translate(pairs[i].index) for i below min(n, size). */
    method TopWords(sorted: seq<Pair>, m: int) returns (top: seq<string>)
      requires Valid() && m <= |sorted|
      requires forall p :: 0 <= p < |sorted| ==> 0 <= sorted[p].index < |keyOrder|
      ensures |top| == if m < 0 then 0 else m
      ensures forall p :: 0 <= p < |top| ==> 0 <= sorted[p].index < |keyOrder| && top[p] == keyOrder[sorted[p].index]
    {
      top := [];
      var i := 0;
      while i < m
        invariant 0 <= i <= (if m < 0 then 0 else m)
        invariant |top| == i
        invariant forall p :: 0 <= p < i ==> top[p] == keyOrder[sorted[p].index]
      {
        top := top + [idToWord[sorted[i].index]];
        i := i + 1;
      }
    }

    /** What the selected words are: distinct, in count order, and ahead of every word left out. */
    lemma SelectionFacts(sorted: seq<Pair>, original: seq<Pair>, top: seq<string>, order: CountOrder)
      requires Valid()
      requires |original| == |sorted| == |keyOrder| && |top| <= |sorted|
      requires forall p :: 0 <= p < |original| ==> original[p] == Pair(p, frequencyTable[p])
      requires multiset(sorted) == multiset(original)
      requires PairsInOrder(sorted, order)
      requires forall p :: 0 <= p < |top| ==> 0 <= sorted[p].index < |keyOrder| && top[p] == keyOrder[sorted[p].index]
      ensures forall i :: 0 <= i < |top| ==> top[i] in wordToId
      ensures forall i, j :: 0 <= i < j < |top| ==> top[i] != top[j]
      ensures forall i, j :: 0 <= i < j < |top| ==>
                CountsInOrder(GetFrequency(top[i]), GetFrequency(top[j]), order)
      ensures forall i, w :: 0 <= i < |top| && w in wordToId && w !in top ==>
                CountsInOrder(GetFrequency(top[i]), GetFrequency(w), order)
    {
      ModelWellFormed();
      SortedPairsFacts(sorted, original);
      forall p, q | 0 <= p < q < |top|
        ensures top[p] != top[q]
      {
        assert wordToId[top[p]] == sorted[p].index && wordToId[top[q]] == sorted[q].index;
      }
      forall p | 0 <= p < |top|
        ensures GetFrequency(top[p]) == sorted[p].count
      {
        IdOfAt(keyOrder, sorted[p].index);
      }
      forall p, w | 0 <= p < |top| && w in wordToId && w !in top
        ensures CountsInOrder(GetFrequency(top[p]), GetFrequency(w), order)
      {
        var id := wordToId[w];
        var at :| 0 <= at < |sorted| && sorted[at] == original[id];
        assert keyOrder[sorted[at].index] == w;
        IdOfAt(keyOrder, id);
        assert PairLe(sorted[p], sorted[at], order);
      }
    }

    /** What sorting the pairs keeps: every id appears exactly once, with its own count. */
    lemma SortedPairsFacts(sorted: seq<Pair>, original: seq<Pair>)
      requires Valid()
      requires |original| == |sorted| == |keyOrder|
      requires forall p :: 0 <= p < |original| ==> original[p] == Pair(p, frequencyTable[p])
      requires multiset(sorted) == multiset(original)
      ensures forall p :: 0 <= p < |sorted| ==>
                0 <= sorted[p].index < |keyOrder| && sorted[p].count == frequencyTable[sorted[p].index]
      ensures forall p, q :: 0 <= p < q < |sorted| ==> sorted[p].index != sorted[q].index
      ensures forall id :: 0 <= id < |original| ==> exists at :: 0 <= at < |sorted| && sorted[at] == original[id]
    {
      forall p | 0 <= p < |sorted|
        ensures 0 <= sorted[p].index < |keyOrder| && sorted[p].count == frequencyTable[sorted[p].index]
      {
        assert sorted[p] in multiset(original);
      }
      forall p, q | 0 <= p < q < |sorted|
        ensures sorted[p].index != sorted[q].index
      {
        if sorted[p].index == sorted[q].index {
          SeenTwice(sorted, p, q);
          SeenOnce(original, sorted[p]);
        }
      }
      forall id | 0 <= id < |original|
        ensures exists at :: 0 <= at < |sorted| && sorted[at] == original[id]
      {
        assert original[id] in multiset(sorted);
        assert original[id] in sorted;
      }
    }
  }
}
