/**
 * nlp.processing.features.CollobertFeatures: a table of word embeddings read
 * from tab-separated lines, and the lookup that turns a token into the
 * embedding of its normalised key, with the PADDING and UNKNOWN entries as
 * fallbacks. Embedding values are kept as the column text they were read from.
 */
module Features {
  import opened Wrappers
  import opened JavaText
  import opened Sentences

  /** The width of an embedding. */
  const DIMENSIONS: nat := 50

  /** Columns of a table line: the word, then one column per dimension. */
  const COLUMNS: nat := 51

  /** The table entry BOUNDARY tokens resolve to. */
  const PADDING: string := "PADDING"

  /** The table entry tokens without an entry of their own resolve to. */
  const UNKNOWN: string := "UNKNOWN"

  /** nlp.processing.Vector: a sparse vector, parallel index and value arrays. */
  datatype Vector = Vector(indices: seq<int>, values: seq<string>)

  /** The dense layout convertToVector produces: slot k holds index k, for every dimension. */
  predicate Dense(v: Vector) {
    && |v.indices| == DIMENSIONS && |v.values| == DIMENSIONS
    && forall k :: 0 <= k < DIMENSIONS ==> v.indices[k] == k
  }

  // ---------------------------------------------------------------------------
  // readWordEmbeddings and convertToVector
  // ---------------------------------------------------------------------------

  /** rawLine.split("\t"). */
  function Columns(line: string): seq<string> {
    Split(line, Literal('\t'))
  }

  /** The vector convertToVector builds from the columns of a line: column k + 1 in slot k. */
  function ColumnsVector(columns: seq<string>): (v: Vector)
    requires |columns| >= COLUMNS
    ensures Dense(v)
    ensures forall k :: 0 <= k < DIMENSIONS ==> v.values[k] == columns[k + 1]
  {
    Vector(seq(DIMENSIONS, k requires 0 <= k < DIMENSIONS => k), seq(DIMENSIONS, k requires 0 <= k < DIMENSIONS => columns[k + 1]))
  }

  /** convertToVector(textValues): fills Vector(50) slot by slot from columns 1 .. 50. */
  method ConvertToVector(textValues: seq<string>) returns (result: Vector)
    requires |textValues| >= COLUMNS
    ensures Dense(result)
    ensures forall k :: 0 <= k < DIMENSIONS ==> result.values[k] == textValues[k + 1]
  {
    var indices := new int[DIMENSIONS];
    var values := new string[DIMENSIONS];
    for i := 1 to DIMENSIONS + 1
      invariant forall k :: 0 <= k < i - 1 ==> indices[k] == k && values[k] == textValues[k + 1]
    {
      indices[i - 1] := i - 1;
      values[i - 1] := textValues[i];
    }
    result := Vector(indices[..], values[..]);
  }

  /**
   * The table readWordEmbeddings leaves, starting from table: each line must
   * have exactly 51 columns, and puts its vector under its first column, over
   * any earlier entry for that word; any other line fails the whole load.
   */
  function LoadTable(table: map<string, Vector>, lines: seq<string>): Option<map<string, Vector>>
    decreases |lines|
  {
    if lines == [] then Some(table)
    else
      var columns := Columns(lines[0]);
      if |columns| != COLUMNS then None
      else LoadTable(table[columns[0] := ColumnsVector(columns)], lines[1..])
  }

  lemma LoadTableAt(table: map<string, Vector>, lines: seq<string>, i: int)
    requires 0 <= i < |lines|
    ensures LoadTable(table, lines[i..])
         == (var columns := Columns(lines[i]);
             if |columns| != COLUMNS then None
             else LoadTable(table[columns[0] := ColumnsVector(columns)], lines[i + 1..]))
  {
    assert lines[i..][1..] == lines[i + 1..];
  }

  /** A loading line: exactly 51 tab-separated columns. */
  predicate CompleteLine(line: string) {
    |Columns(line)| == COLUMNS
  }

  /** The load succeeds exactly when every line has 51 columns: one short line, anywhere, fails it. */
  lemma {:induction false} LoadTableSucceeds(table: map<string, Vector>, lines: seq<string>)
    ensures LoadTable(table, lines).Some? <==> forall k :: 0 <= k < |lines| ==> CompleteLine(lines[k])
    decreases |lines|
  {
    if lines != [] {
      var columns := Columns(lines[0]);
      if |columns| == COLUMNS {
        LoadTableSucceeds(table[columns[0] := ColumnsVector(columns)], lines[1..]);
        assert forall k :: 1 <= k < |lines| ==> lines[k] == lines[1..][k - 1];
      }
    }
  }

  /**
   * Loading one more line is HashMap.put on the table loaded so far: its word
   * now maps to its vector and every other entry stays, so a later line for
   * the same word overwrites an earlier one.
   */
  lemma {:induction false} LoadTableSnoc(table: map<string, Vector>, lines: seq<string>, line: string)
    ensures LoadTable(table, lines + [line])
         == match LoadTable(table, lines)
            case None => None
            case Some(m) =>
              if !CompleteLine(line) then None
              else Some(m[Columns(line)[0] := ColumnsVector(Columns(line))])
    decreases |lines|
  {
    if lines == [] {
      assert [] + [line] == [line];
      assert [line][1..] == [];
    } else {
      assert (lines + [line])[0] == lines[0];
      assert (lines + [line])[1..] == lines[1..] + [line];
      var columns := Columns(lines[0]);
      if |columns| == COLUMNS {
        LoadTableSnoc(table[columns[0] := ColumnsVector(columns)], lines[1..], line);
      }
    }
  }

  /** Every vector of a loaded table is dense, given that those of the starting table are. */
  lemma {:induction false} LoadedVectorsDense(table: map<string, Vector>, lines: seq<string>)
    requires forall w :: w in table ==> Dense(table[w])
    ensures LoadTable(table, lines).Some? ==> forall w :: w in LoadTable(table, lines).value ==> Dense(LoadTable(table, lines).value[w])
    decreases |lines|
  {
    if lines != [] {
      var columns := Columns(lines[0]);
      if |columns| == COLUMNS {
        LoadedVectorsDense(table[columns[0] := ColumnsVector(columns)], lines[1..]);
      }
    }
  }

  // ---------------------------------------------------------------------------
  // getFeatureVector
  // ---------------------------------------------------------------------------

  /** The lookup key of a raw token: toLowerCase(Locale.ENGLISH), then replaceAll("\\d+", "0"). */
  function EmbeddingKey(rawToken: string): (key: string)
    ensures forall i :: 0 <= i < |key| ==> !IsUpper(key[i])
    ensures DigitsCollapsed(key)
  {
    LowerCollapseCommute(rawToken);
    CollapseDigitRunsShape(ToLowerCase(rawToken));
    CollapseDigitRuns(ToLowerCase(rawToken))
  }

  /** A key is already normalised: computing the key of a key changes nothing. */
  lemma EmbeddingKeyIdempotent(rawToken: string)
    ensures EmbeddingKey(EmbeddingKey(rawToken)) == EmbeddingKey(rawToken)
  {
    var key := EmbeddingKey(rawToken);
    assert ToLowerCase(key) == key;
    CollapsedIsFixpoint(key);
  }

  /** A computed key is never a sentinel: both sentinels start with an upper-case letter. */
  lemma KeyIsNotSentinel(rawToken: string)
    ensures EmbeddingKey(rawToken) != PADDING && EmbeddingKey(rawToken) != UNKNOWN
  {
    var key := EmbeddingKey(rawToken);
    assert IsUpper(PADDING[0]) && IsUpper(UNKNOWN[0]);
    assert key == [] || !IsUpper(key[0]);
  }

  /** A capital letter is lowered and the trailing digit becomes "0": "Run5" is looked up as "run0". */
  lemma RunFiveKey()
    ensures EmbeddingKey("Run5") == "run0"
  {
    assert ToLowerCase("Run5") == "run5";
    assert RunLength("5", IsDigit) == 1;
    assert CollapseDigitRuns("5") == "0";
    assert CollapseDigitRuns("n5") == "n0";
    assert CollapseDigitRuns("un5") == "un0";
  }

  /**
   * The key getFeatureVector looks up: PADDING for the BOUNDARY token
   * whatever its raw text, otherwise the computed key when the table has
   * it, and UNKNOWN when it does not. Since a computed key is never a
   * sentinel, each sentinel comes from exactly its own case.
   */
  function ResolveKey(table: map<string, Vector>, token: string, rawToken: string): (key: string)
    ensures key == PADDING <==> token == BOUNDARY
    ensures key == UNKNOWN <==> token != BOUNDARY && EmbeddingKey(rawToken) !in table
    ensures key != PADDING && key != UNKNOWN ==> key == EmbeddingKey(rawToken) && key in table
  {
    KeyIsNotSentinel(rawToken);
    var key := EmbeddingKey(rawToken);
    if token == BOUNDARY then PADDING
    else if key !in table then UNKNOWN
    else key
  }

  /** With both sentinels in the table, every lookup finds an embedding. */
  lemma SentinelsMakeLookupTotal(table: map<string, Vector>, token: string, rawToken: string)
    requires PADDING in table && UNKNOWN in table
    ensures ResolveKey(table, token, rawToken) in table
  {
  }

  /** Tokens whose raw texts differ only in letter case or in the length of digit runs get the same embedding. */
  lemma SameKeySameLookup(table: map<string, Vector>, token: string, a: string, b: string)
    requires EmbeddingKey(a) == EmbeddingKey(b)
    ensures ResolveKey(table, token, a) == ResolveKey(table, token, b)
  {
  }

  /** getFeatureNames' entry i: "{cw|" + pos + "}" + (i + 1). */
  function FeatureName(pos: string, i: nat): string {
    "{cw|" + pos + "}" + NatToDecimal(i + 1)
  }

  /** The 50 feature names of one position are pairwise different. */
  lemma FeatureNamesDistinct(pos: string, i: nat, j: nat)
    requires i != j
    ensures FeatureName(pos, i) != FeatureName(pos, j)
  {
    var prefix := "{cw|" + pos + "}";
    if FeatureName(pos, i) == FeatureName(pos, j) {
      assert FeatureName(pos, i)[|prefix|..] == NatToDecimal(i + 1);
      assert FeatureName(pos, j)[|prefix|..] == NatToDecimal(j + 1);
      NatToDecimalInjective(i + 1, j + 1);
    }
  }

  /** getFeatureNames(pos): one row of 50 names, filled slot by slot. */
  method GetFeatureNames(pos: string) returns (featureNames: seq<seq<string>>)
    ensures |featureNames| == 1 && |featureNames[0]| == DIMENSIONS
    ensures forall i :: 0 <= i < DIMENSIONS ==> featureNames[0][i] == FeatureName(pos, i)
  {
    var row := new string[DIMENSIONS];
    for i := 0 to DIMENSIONS
      invariant forall k :: 0 <= k < i ==> row[k] == FeatureName(pos, k)
    {
      row[i] := "{cw|" + pos + "}" + NatToDecimal(i + 1);
    }
    featureNames := [row[..]];
  }

  // ---------------------------------------------------------------------------
  // The extractor object
  // ---------------------------------------------------------------------------

  /** nlp.processing.features.CollobertFeatures: the word embeddings, keyed by normalised word. */
  class CollobertFeatures {
    var wordEmbeddings: map<string, Vector>

    /** The object before its table is read: an empty HashMap. */
    constructor Empty()
      ensures wordEmbeddings == map[]
    {
      wordEmbeddings := map[];
    }

    /** readWordEmbeddings: puts each line's vector under its word; a line without 51 columns stops the read. */
    method ReadWordEmbeddings(lines: seq<string>) returns (ok: bool)
      modifies this
      ensures ok == LoadTable(old(wordEmbeddings), lines).Some?
      ensures ok ==> wordEmbeddings == LoadTable(old(wordEmbeddings), lines).value
    {
      ghost var outcome := LoadTable(wordEmbeddings, lines);
      var i := 0;
      while i < |lines|
        invariant 0 <= i <= |lines|
        invariant LoadTable(wordEmbeddings, lines[i..]) == outcome
      {
        LoadTableAt(wordEmbeddings, lines, i);
        var columns := Columns(lines[i]);
        if |columns| != COLUMNS {
          return false;
        }
        var v := ConvertToVector(columns);
        assert v == ColumnsVector(columns);
        wordEmbeddings := wordEmbeddings[columns[0] := v];
        i := i + 1;
      }
      assert lines[i..] == [];
      ok := true;
    }

    /**
     * getFeatureVector(token, rawToken, pos): a one-element array holding the
     * table entry for the resolved key, null (None) when that key is a
     * sentinel missing from the table. pos is not used.
     */
    function GetFeatureVector(token: string, rawToken: string, pos: int): (r: seq<Option<Vector>>)
      reads this
      ensures |r| == 1
      ensures r[0].Some? <==> ResolveKey(wordEmbeddings, token, rawToken) in wordEmbeddings
      ensures r[0].Some? ==> r[0].value == wordEmbeddings[ResolveKey(wordEmbeddings, token, rawToken)]
    {
      var key := ResolveKey(wordEmbeddings, token, rawToken);
      [if key in wordEmbeddings then Some(wordEmbeddings[key]) else None]
    }

    /** A BOUNDARY token gets the PADDING entry, whatever its raw text. */
    lemma BoundaryGetsPadding(rawToken: string, pos: int)
      requires PADDING in wordEmbeddings
      ensures GetFeatureVector(BOUNDARY, rawToken, pos) == [Some(wordEmbeddings[PADDING])]
    {
    }

    /** Any other token whose key the table lacks gets the UNKNOWN entry. */
    lemma UnseenGetsUnknown(token: string, rawToken: string, pos: int)
      requires token != BOUNDARY && EmbeddingKey(rawToken) !in wordEmbeddings && UNKNOWN in wordEmbeddings
      ensures GetFeatureVector(token, rawToken, pos) == [Some(wordEmbeddings[UNKNOWN])]
    {
    }
  }

  /**
   * new CollobertFeatures(fileName), with the file given as its lines: the
   * object with the loaded table, or None where the constructor throws, so
   * no partly loaded table is ever handed out.
   */
  method Load(lines: seq<string>) returns (r: Option<CollobertFeatures>)
    ensures r.Some? <==> forall k :: 0 <= k < |lines| ==> CompleteLine(lines[k])
    ensures r.Some? ==> fresh(r.value) && Some(r.value.wordEmbeddings) == LoadTable(map[], lines)
  {
    var features := new CollobertFeatures.Empty();
    var ok := features.ReadWordEmbeddings(lines);
    LoadTableSucceeds(map[], lines);
    r := if ok then Some(features) else None;
  }
}
