# FLORS preprocessing core, modelled in Dafny

This project models three Java classes from the FLORS part-of-speech tagger's
preprocessing pipeline and proves properties about them:

- `nlp.data.Parser` reads a corpus file under one of three line grammars and
  appends the sentences to the corpus it holds. The grammars are plain
  tokens, leaf brackets of a treebank, and token/tag lines. Each finished
  sentence is normalised by `Sentence.replaceDigits` and
  `Sentence.convertToLowerCase`. Their bodies are not part of this model; they
  are taken to collapse each digit run of a token and to lower its letters.
  The parser can also write a corpus back out, one token per line.
- `nlp.stats.UnigramFreqs` gives each distinct word a dense id in first-seen
  order, with the sentence-edge token BOUNDARY as id 0. It counts the occurrences of each word,
  counting BOUNDARY twice per sentence. It reads a corpus, or a raw file under
  its own per-digit normalisation, and reports frequencies, translations and
  the first n words in count order.
- `nlp.processing.features.CollobertFeatures` loads a table of 50-dimensional
  word embeddings from tab-separated lines. It maps a token to the embedding
  of its normalised key, falling back to `PADDING` for the sentence boundary
  and to `UNKNOWN` for unseen words.

Files:

- `java_text.dfy` (module `JavaText`) holds the Java library behaviour the code
  relies on, over ASCII:
  - `String.split` with limit 0, for `\s+` and one-character delimiters;
  - `\s` and `\d`;
  - `toLowerCase(Locale.ENGLISH)` and `trim().isEmpty()`;
  - the two digit rewrites, `replaceAll("\\d", "0")` and `replaceAll("\\d+", "0")`;
  - `BufferedReader.readLine`;
  - `Integer.toString`.
- `sentences.dfy` (module `Sentences`) holds the part of `nlp.model.Sentence`
  the core uses.
- `wrappers.dfy` holds `Option` and `Result`.
- `data.dfy`, `stats.dfy` and `features.dfy` model the three classes.

Each class is a Dafny `class` with the source's fields. Its methods are proved
against functions on values:

- `UnigramFreqs` keeps `wordToId`, `idToWord` and a `MAX_WORDS`-sized
  `frequencyTable` array. Its methods are proved against an abstract `Index`:
  the vocabulary in id order and one count per id.
- The parse loops of `Parser` are proved against recursive functions over the
  file's lines: `UnlabeledSentences`, `TreebankSentences` and
  `LabeledSentences`.
- `CollobertFeatures.readWordEmbeddings` is proved against `LoadTable`.

Files are given as the sequence of lines `readLine` returns. A write is given
the file's previous content, because the writer appends. An exception that
ends a parse is returned as a `ParseError` value.

## Model

| member | source | states |
|---|---|---|
| Sentences.Normalize | nlp/data/Parser.java:38-41 | normalising a finished sentence changes only its tokens: token i becomes the token with digit runs collapsed (if replaceDigits) and then lowered (if ignoreCapitalization); tags and raw tokens keep their text |
| Sentences.NormalizeTokenShape | nlp/data/Parser.java:38-41 | with both flags on, the result is the same whichever order the two steps run in; it has collapsed digit runs and no upper-case letter |
| JavaText.LowerCollapseCommute | nlp/processing/features/CollobertFeatures.java:48 | lowering then collapsing digit runs equals collapsing then lowering, so the extractor's key rule and the parser's normalisation agree |
| JavaText.CollapseDigitRunsShape | nlp/processing/features/CollobertFeatures.java:48 | after replaceAll("\\d+", "0") every digit is a lone '0' |
| JavaText.CollapseDigitRunsIdempotent | nlp/data/Parser.java:38-39 | collapsing digit runs twice is the same as collapsing them once |
| JavaText.SplitJoin | nlp/data/Parser.java:101 | splitting fields joined by a separator character gives back exactly those fields, when each field is nonempty and separator-free |
| JavaText.SplitSeparatorFree | nlp/data/Parser.java:101 | a nonempty line without a separator splits into one field, itself |
| JavaText.SplitWhitespaceOnly | nlp/data/Parser.java:101 | a nonempty whitespace-only line splits under `\s+` into no field at all |
| JavaText.ReadLinesJoinLines | nlp/data/Parser.java:148-153 | lines without line breaks, each written followed by "\n", are read back by readLine as exactly those lines |
| JavaText.DecimalRoundTrip | nlp/processing/features/CollobertFeatures.java:63 | the decimal text of i + 1 denotes i + 1 |
| JavaText.NatToDecimalInjective | nlp/processing/features/CollobertFeatures.java:63 | different numbers have different decimal texts |
| Data.UnlabeledSentence | nlp/data/Parser.java:32-42 | a non-blank line becomes the sentence whose raw tokens are the line's delimiter fields and whose tokens are those fields normalised, with no tags |
| Data.UnlabeledOnePerLine | nlp/data/Parser.java:30-45 | an unlabeled parse yields one sentence per non-blank line, in order: sentence k comes from the k-th non-blank line |
| Data.Parser.ParseUnlabeledFile | nlp/data/Parser.java:25-47 | the corpus becomes the old corpus followed by the unlabeled sentences of the lines; the settings are unchanged |
| Data.BracketInteriors | nlp/data/Parser.java:55 | every match of `\(([^()]+)\)` has a nonempty interior with no parenthesis |
| Data.ReadLeaves | nlp/data/Parser.java:63-70 | the matcher loop over one line adds (field 1, field 0) for each interior in order, and fails on the first interior with fewer than two fields |
| Data.Parser.ParseTreebankFile | nlp/data/Parser.java:53-80 | the corpus is extended by the bracket-mode sentences of the lines, up to the first bad interior, and the error reported is exactly that interior's; the settings are unchanged |
| Data.TreebankOnePerLine | nlp/data/Parser.java:58-78 | a bracket parse adds at most one sentence per non-blank line; when it does not fail it adds exactly one per non-blank line, and sentence k is the normalised (token, tag) leaves of the k-th non-blank line's bracket interiors |
| Data.TreebankErrorKeepsEarlier | nlp/data/Parser.java:64-70 | a bracket parse that fails at a line keeps the sentences of the earlier lines, adds none for that line, and reports that line's first bad interior |
| Data.TreebankErrorStops | nlp/data/Parser.java:67 | once a bracket parse fails, no later line is read: appending lines changes neither the sentences nor the error |
| Data.SpacelessInteriorFails | nlp/data/Parser.java:67 | an interior without a space ends the parse with MissingToken for that interior |
| Data.ExtraFieldsIgnored | nlp/data/Parser.java:66-69 | an interior of three or more fields is accepted: field 0 is the tag, field 1 the token, and the rest is ignored |
| Data.NoBracketsEmptySentence | nlp/data/Parser.java:60-76 | a non-blank line without '(' has no matches and yields an empty sentence |
| Data.LeafFields | nlp/data/Parser.java:67-68 | the interior "tag token" of a bracketable leaf splits on " " into exactly [tag, token] |
| Data.TreebankLeavesRoundTrip | nlp/data/Parser.java:63-70 | a line of leaves "(tag token)" with no space or parenthesis inside parses into their tokens and tags, in order, with no raw tokens |
| Data.Parser.ParseLabeledFile | nlp/data/Parser.java:83-117 | the corpus is extended by the labeled sentences of the lines, up to the first malformed line, and the error names exactly that line; the settings are unchanged |
| Data.LabeledSentencesShape | nlp/data/Parser.java:88-112 | every sentence a labeled parse adds has at least one token, and its tokens, tags and raw tokens have equal length |
| Data.LabeledErrorKeepsClosed | nlp/data/Parser.java:101-104 | a labeled parse that fails at a malformed line keeps every sentence closed before that line, drops the open sentence, and its error names that line |
| Data.LabeledErrorStops | nlp/data/Parser.java:101-104 | once a labeled parse fails, no later line is read: appending lines changes neither the sentences nor the error |
| Data.WhitespaceLineRejected | nlp/data/Parser.java:89-104 | a whitespace-only line is not an empty line, so under `\s+` it is malformed and ends the parse |
| Data.SingleFieldLineRejected | nlp/data/Parser.java:101-104 | a nonempty line without a separator is malformed and ends the parse |
| Data.OpenSentenceDropped | nlp/data/Parser.java:88-116 | token lines that no empty line closes add nothing: the open sentence is dropped at end of input |
| Data.PairLineFields | nlp/data/Parser.java:101-109 | a token/tag line with separator-free, nonempty parts splits into exactly the token and the tag |
| Data.PairLinesWellFormed | nlp/data/Parser.java:101-102 | the lines written for writable token/tag pairs are one per pair, each nonempty with two fields |
| Data.LabeledRoundTrip | nlp/data/Parser.java:83-117 | writing sentences of writable token/tag pairs, each closed by an empty line, and parsing them back yields each sentence in order, normalised, with its tokens as raw tokens, and no error |
| Data.UnclosedGroupDropped | nlp/data/Parser.java:88-116 | of two groups of token lines, the first closed by an empty line and the second not, only the first becomes a sentence |
| Data.CorpusTextLines | nlp/data/Parser.java:148-153 | the written text is, per sentence, each token on its own line and then an empty line |
| Data.WrittenTextReadsBack | nlp/data/Parser.java:148-153 | reading the written text back line by line gives each sentence's tokens followed by an empty line |
| Data.UnlabeledRoundTrip | nlp/data/Parser.java:142-158 | the written text of a corpus of printable tokens, parsed in unlabeled mode under `\s+`, gives back every token of the corpus, normalised, in order |
| Data.CorpusTextAppend | nlp/data/Parser.java:145 | the writer appends: writing a and then b leaves the text of a + b |
| Data.WriteCorpus | nlp/data/Parser.java:142-158 | the file content becomes the earlier content followed by the corpus text |
| Data.Parser.constructor | nlp/data/Parser.java:20-23 | a new parser has an empty corpus, the `\s+` delimiter and both normalising flags on |
| Data.Parser.Finish | nlp/data/Parser.java:91-94 | the finishing steps compute Normalize under the current flags |
| Data.Parser.Clear | nlp/data/Parser.java:49-51 | the corpus becomes empty and the settings stay |
| Data.Parser.WriteToFile | nlp/data/Parser.java:138-140 | writes this parser's corpus after the earlier content |
| Data.Parser.SetDelimiter | nlp/data/Parser.java:134-136 | sets the delimiter and nothing else |
| Data.Parser.SetReplaceDigits | nlp/data/Parser.java:160-162 | sets the digit flag and nothing else |
| Data.Parser.SetIgnoreCapitalization | nlp/data/Parser.java:164-166 | sets the capitalisation flag and nothing else |
| Stats.IdOf | nlp/stats/UnigramFreqs.java:91-96 | a word's id is its first position in the vocabulary |
| Stats.Register | nlp/stats/UnigramFreqs.java:91-96 | registering keeps the old vocabulary as a prefix and makes the word known |
| Stats.IdOfPrefix | nlp/stats/UnigramFreqs.java:93-95 | a new word goes at the end, so no existing id ever changes |
| Stats.CountTokensFrequency | nlp/stats/UnigramFreqs.java:52-55 | counting a token sequence adds to each word's count exactly its number of occurrences |
| Stats.CountCorpusFrequency | nlp/stats/UnigramFreqs.java:50-60 | addCorpus adds to each word's count its occurrences in the corpus, plus two per sentence for BOUNDARY |
| Stats.BoundaryCountsSentenceEdges | nlp/stats/UnigramFreqs.java:56-58 | from a fresh index, over a corpus without BOUNDARY tokens, BOUNDARY's count is twice the number of sentences |
| Stats.CountCorpusVocabulary | nlp/stats/UnigramFreqs.java:50-60 | ids stay distinct, BOUNDARY keeps id 0, counts stay non-negative, and the vocabulary is exactly the old words plus the corpus tokens |
| Stats.CountCorpusExtends | nlp/stats/UnigramFreqs.java:91-96 | counting never renumbers: the old vocabulary is a prefix of the new one |
| Stats.CountCorpusGrows | nlp/stats/UnigramFreqs.java:50-60 | after addCorpus every id keeps its word and has at least its old count |
| Stats.NormalizeFileTokenShape | nlp/stats/UnigramFreqs.java:78-79 | addFile's rule keeps the length, lowers each letter and turns each digit into '0' on its own |
| Stats.BlankLineIgnoredByAddFile | nlp/stats/UnigramFreqs.java:72 | a blank line contributes nothing to addFile, not even BOUNDARY counts |
| Stats.SortPairs | nlp/stats/UnigramFreqs.java:128 | the pairs end up as a permutation of the input, ordered by count in the given direction and by id among equal counts, as the stable sort leaves them |
| Stats.UnigramFreqs.constructor | nlp/stats/UnigramFreqs.java:38-40 | a new index holds only BOUNDARY, with id 0 and count 0 |
| Stats.UnigramFreqs.FromCorpus | nlp/stats/UnigramFreqs.java:33-36 | the fresh index followed by addCorpus |
| Stats.UnigramFreqs.ModelWellFormed | nlp/stats/UnigramFreqs.java:23-28 | the two maps are mutually inverse over the dense ids, so the vocabulary has no duplicates |
| Stats.UnigramFreqs.CreateIdentifier | nlp/stats/UnigramFreqs.java:91-97 | an unseen word gets id wordToId.size() in both maps; a known word changes nothing |
| Stats.UnigramFreqs.IncrementTable | nlp/stats/UnigramFreqs.java:107-109 | the count of the word's id goes up by one |
| Stats.UnigramFreqs.TranslateWord | nlp/stats/UnigramFreqs.java:99-101 | a registered word translates to its position in the vocabulary; any other word has no id |
| Stats.UnigramFreqs.TranslateId | nlp/stats/UnigramFreqs.java:103-105 | an assigned id translates to the word that maps back to it; any other id gives null |
| Stats.UnigramFreqs.TranslateRoundTrip | nlp/stats/UnigramFreqs.java:99-105 | the two translations undo each other |
| Stats.UnigramFreqs.GetFrequency | nlp/stats/UnigramFreqs.java:111-117 | the count of the word in the abstract index, never negative, and 0 for an unregistered word |
| Stats.UnigramFreqs.GetVocabularyAsArray | nlp/stats/UnigramFreqs.java:46-48 | the words in insertion order, which is id order: entry i translates from id i |
| Stats.UnigramFreqs.AddCorpus | nlp/stats/UnigramFreqs.java:50-60 | the index becomes CountCorpus of the old index over the sentences' tokens |
| Stats.ConcatTokenLists | nlp/stats/UnigramFreqs.java:51-52 | the token lists addCorpus walks, sentence by sentence, flatten to the corpus tokens in order |
| Stats.UnigramFreqs.AddFile | nlp/stats/UnigramFreqs.java:62-88 | the index becomes CountCorpus over one sentence per non-blank line, each of its `\s+` fields lowered and with each digit zeroed |
| Stats.UnigramFreqs.MakePairs | nlp/stats/UnigramFreqs.java:120-124 | one pair (id, count) per id, in id order |
| Stats.UnigramFreqs.TopWords | nlp/stats/UnigramFreqs.java:129-131 | the words of the first m sorted pairs, in order |
| Stats.UnigramFreqs.GetNMostFrequentTokens | nlp/stats/UnigramFreqs.java:119-133 | min(n, size) distinct vocabulary words, in count order, and no word left out comes before a word returned |
| Features.ColumnsVector | nlp/processing/features/CollobertFeatures.java:37-44 | a line's vector has slot k holding index k and column k + 1, for all 50 dimensions |
| Features.ConvertToVector | nlp/processing/features/CollobertFeatures.java:37-44 | the loop fills slot i - 1 with index i - 1 and column i, for i from 1 to 50 |
| Features.LoadTableSucceeds | nlp/processing/features/CollobertFeatures.java:25-30 | a load succeeds if and only if every line has exactly 51 tab-separated columns |
| Features.LoadTableSnoc | nlp/processing/features/CollobertFeatures.java:32 | loading one more line puts its vector under its first column over the table so far, so a later line for the same word wins |
| Features.LoadedVectorsDense | nlp/processing/features/CollobertFeatures.java:32-43 | every vector of a loaded table has 50 slots with index k in slot k |
| Features.EmbeddingKey | nlp/processing/features/CollobertFeatures.java:48 | a key has no upper-case letter, and each of its digits is a lone '0' |
| Features.EmbeddingKeyIdempotent | nlp/processing/features/CollobertFeatures.java:48 | the key of a key is itself |
| Features.RunFiveKey | nlp/processing/features/CollobertFeatures.java:48 | "Run5" is looked up as "run0" |
| Features.KeyIsNotSentinel | nlp/processing/features/CollobertFeatures.java:48-53 | a computed key is never PADDING or UNKNOWN |
| Features.ResolveKey | nlp/processing/features/CollobertFeatures.java:48-53 | the key is PADDING iff the token is BOUNDARY; it is UNKNOWN iff the token is not BOUNDARY and the computed key is absent; otherwise it is the computed key, present in the table |
| Features.SentinelsMakeLookupTotal | nlp/processing/features/CollobertFeatures.java:49-54 | with both sentinels in the table, every lookup finds an entry |
| Features.SameKeySameLookup | nlp/processing/features/CollobertFeatures.java:48 | raw tokens with the same key get the same lookup |
| Features.FeatureNamesDistinct | nlp/processing/features/CollobertFeatures.java:63 | the 50 feature names of one position are pairwise different |
| Features.GetFeatureNames | nlp/processing/features/CollobertFeatures.java:60-66 | one row of 50 names, entry i being "{cw\|" + pos + "}" + (i + 1) |
| Features.CollobertFeatures.Empty | nlp/processing/features/CollobertFeatures.java:16 | the table starts empty |
| Features.CollobertFeatures.ReadWordEmbeddings | nlp/processing/features/CollobertFeatures.java:22-35 | succeeds iff LoadTable does, and on success leaves the table LoadTable gives |
| Features.CollobertFeatures.GetFeatureVector | nlp/processing/features/CollobertFeatures.java:47-57 | a one-element array holding the table's entry for the resolved key, or null when that key is absent |
| Features.CollobertFeatures.BoundaryGetsPadding | nlp/processing/features/CollobertFeatures.java:49-50 | a BOUNDARY token gets the PADDING vector, whatever its raw text |
| Features.CollobertFeatures.UnseenGetsUnknown | nlp/processing/features/CollobertFeatures.java:51-53 | a token whose key the table lacks gets the UNKNOWN vector |
| Features.Load | nlp/processing/features/CollobertFeatures.java:18-20 | the constructor yields an object exactly when every line is complete, and its table is the table loaded from the lines |

## Left out

- File I/O is not modelled. A file is the sequence of lines `readLine` returns. A write takes the earlier file content and returns the new content. Closing readers is not modelled.
- `IOException` from the file system is not modelled, and neither is `writeToFile`'s catch that prints a message.
- Java `int` overflow is not modelled: counts, ids and sizes are unbounded integers.
- Text is modelled over ASCII only. `toLowerCase(Locale.ENGLISH)` lowers A–Z. `\s` is `[ \t\n\x0B\f\r]`. `\d` is 0–9, which is Java's default. Non-ASCII case mapping is not modelled.
- Delimiters: `Parser.delimiter` can be the regex `\s+` (the default) or a one-character literal such as `"\t"`. No other regex is modelled.
- `Data.Parser.SetDelimiter` takes such a `Delimiter`, not an arbitrary regex string.
- `Features.ConvertToVector`: `Double.parseDouble` is not modelled. Embedding values are kept as the column text, so a non-numeric column's `NumberFormatException` is not reproduced.
- `Features.CollobertFeatures.ReadWordEmbeddings`: on failure the model does not state the partly filled table. In Java the exception leaves the constructor, so no caller ever sees that object; `Features.Load` models this with `None`.
- `Features.CollobertFeatures.GetFeatureVector`: `pos` is unused, as in the source. The table entry is returned by value, so vector identity (aliasing) is not modelled. A missing sentinel gives `None`, where Java returns an array holding `null`.
- `Stats.UnigramFreqs.AddCorpus` requires that the vocabulary stay within `MAX_WORDS` ids. Past that, Java throws `ArrayIndexOutOfBoundsException` in `incrementTable`; the model does not reproduce the exception. The same holds for `Stats.UnigramFreqs.AddFile`, `Stats.UnigramFreqs.FromCorpus` and `Stats.UnigramFreqs.CreateIdentifier`.
- `Stats.UnigramFreqs.GetNMostFrequentTokens`: the count order is a parameter, because `nlp.data.Pair` and its `compareTo` are not part of this model. The comment at UnigramFreqs.java:128 says "ascending", while the self-test at :165-172 expects BOUNDARY first and then falling counts. Ties are by id. This assumes that `Pair.compareTo` compares counts only: `Arrays.sort` on objects is stable and the pairs start in id order.
- `Stats.SortPairs` is an insertion sort that stands for `Arrays.sort` (a merge sort). Both are stable, so they produce the same order.
- `getVocabulary`, `getCorpus` and `getDelimiter` are not modelled. They are plain reads of a field or of the key set.
- `displayTokenizedFile` is not modelled because it only prints.
- The self-test `main` of UnigramFreqs and `main` of CollobertFeatures are not modelled. The first writes a shuffled file; the second prints a vector.
- The stubs of CollobertFeatures are not modelled: `getFeatureVector(String)`, `saveFeatureName` and `writeFeatures` do nothing.
- `Sentences.BOUNDARY`: the text `"<BOUNDARY>"` is a placeholder, because `nlp.model.Sentence` is not part of this model. The proofs use only that it is a fixed string that differs from `PADDING` and `UNKNOWN`.
- `nlp.model.Sentence` is modelled only as far as the parser and the index use it: tokens, tags, raw tokens, `add`, `addRawToken`, `replaceDigits` and `convertToLowerCase`.
- Sentences.ReplaceDigits: the body of `Sentence.replaceDigits` is not part of this model. It is assumed to replace each maximal run of digits in each token by `"0"`, and to leave tags and raw tokens alone. `UnigramFreqs.addFile`'s own rule, which zeroes each digit, is modelled separately from its source.
- Sentences.ConvertToLowerCase: the body of `Sentence.convertToLowerCase` is not part of this model. It is assumed to lower the letters of each token and to leave tags and raw tokens alone.
- Sentences.Add: the body of `Sentence.add` is not part of this model. It is assumed to append the token and the tag and to record no raw token.
- Exception messages are not modelled. A `ParseError` carries the offending line or bracket interior, not the message text.

Behaviours of the code worth noting:

- A whitespace-only line in labeled mode is not skipped. `isEmpty()` is false for it, so it reaches the two-field check and is malformed (`Data.WhitespaceLineRejected`).
- A labeled sentence still open at end of input is not added: there is no flush after the loop. A file whose last group has no trailing empty line loses that sentence (`Data.OpenSentenceDropped`, `Data.UnclosedGroupDropped`).
- A bracket interior with more than two space-separated fields is accepted, using its first two fields (`Data.ExtraFieldsIgnored`). Only fewer than two fields fails (`Data.SpacelessInteriorFails`).
- Bracket-mode sentences have no raw tokens, assuming `Sentence.add` does not record one: `parseTreebankFile` never calls `addRawToken` (`Data.TreebankLeavesRoundTrip`).
- A non-blank line without brackets still adds an empty sentence (`Data.NoBracketsEmptySentence`).
