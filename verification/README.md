# cs224n-codeswitch: a Dafny model of the data pipeline

This project models the deterministic core of a code-switching NLP pipeline: the list, string and map logic
that surrounds its pretrained transformers. Each modelled Python file gets one Dafny module. The modules are:

- **Conllu** (`conllu.dfy`): the Universal Dependencies dataset of the POS/dependency parser.
  - The `UDParsingDataset` constructor reads CoNLL-U lines into sentences. Blank lines end a sentence. Comments,
    short lines, multiword ranges and empty nodes are skipped.
  - It keeps the FORM, UPOS, DEPREL and HEAD columns and builds the sorted label maps and their inverses.
  - `Preprocess` aligns word-level labels to subtokens: -100 for ignored positions, and HEAD re-indexed from
    1-based to 0-based with the root pointing at itself.
- **LabelMaps** (`label_maps.dfy`): `enumerate(sorted(set))` as a rank map, and dictionary inversion.
- **Multimap** (`multimap.dfy`): the dict-of-lists grouping that both dictionary readers use.
- **Strings** (`strings.dfy`): the Python `str` operations the code relies on: `strip`, `split()`,
  `split(c)`, `" ".join`, `lower`, `int()` and the code-point order of `sorted`.
- **BaselineAugment** (`baseline_augment.dfy`): the bilingual dictionary loader and the `cross`/`cross_str`
  word substitution. The random draws are explicit parameters.
- **XnliData** (`xnli_dataset.dfy`): XNLI label normalisation and filtering, and accuracy as an exact ratio.
  The non-text branch of the code-switched `get_set` (util/dataset/XNLI/all_codeswitch.py:47-55) and its
  `evaluate` (util/dataset/XNLI/all_codeswitch.py:95-101) are the same code, so they are modelled here once.
- **XnliCodeswitch** (`xnli_codeswitch.dfy`): pairing code-switched lines with the labels of the original
  examples, and `get_idx_dict` as a class whose list of dictionaries grows in place.
- **BertInputs** (`bert_inputs.dfy`): `get_info`. It builds `[CLS] premise [SEP] hypothesis [SEP]` rows with
  first-subtoken locations, then pads the rows with masks and type ids.
- **SpanCorruption** (`span_corruption.dfy`): the span-corruption example of `CodeswitchDataset.__getitem__`.
- **FirstSubtoken** (`first_subtoken.dfy`): keeping the first subtoken's prediction for each word.
- **ParserEvaluate** (`parser_evaluate.dfy`): `annotate_xnli`, and the index selection of `evaluate_finetuned`.
- **AnnotateHinglish** (`annotate_hinglish.dfy`): `annotate_file`, including its tag lookup by word index.

Some things outside the code become parameters:

- The tokenizer appears as `word_ids` and `encode` functions.
- The parser appears as its argmax predictions.
- Files appear as sequences of lines.
- Python exceptions are the `Err` side of a `Result` (`Common.Error`).

Loops that update state are methods. Each is proved equal to a specification function, and the properties are
lemmas about that function.

## Model

| member | source | states |
|---|---|---|
| Strings.Strip | data_augment/model/dataset.py:23 | the result is empty exactly when the line is all whitespace, and otherwise starts and ends with a non-space |
| Strings.TrimLeft | data_augment/model/dataset.py:23 | what is removed is a whitespace prefix, and what remains starts with a non-space |
| Strings.TrimRight | data_augment/model/dataset.py:23 | what is removed is a whitespace suffix, and what remains ends with a non-space |
| Strings.SplitWs | data_augment/baseline_augment.py:23 | `split()` yields only non-empty, space-free words |
| Strings.SplitJoinSpace | data_augment/baseline_augment.py:56 | splitting a single-space join of words gives the same words back |
| Strings.SplitWsStrip | data_augment/baseline_augment.py:49 | stripping before `split()` changes nothing |
| Strings.SplitWsAppendSpaces | data_augment/baseline_augment.py:49 | trailing whitespace does not change `split()` |
| Strings.SplitOn | data_augment/model/dataset.py:38 | `split(c)` yields at least one field, and no field contains c |
| Strings.JoinSplitOn | data_augment/model/dataset.py:38 | joining the fields with c rebuilds the line exactly |
| Strings.SplitOnCons | data_augment/model/dataset.py:38 | a field without c followed by c splits off as the first field |
| Strings.StrLessOrder | data_augment/model/dataset.py:63 | the order `sorted` uses on strings is a strict total order |
| LabelMaps.LabelMap | data_augment/model/dataset.py:63 | the built label map has exactly the labels seen as keys, with ids in 0..n-1 |
| LabelMaps.RankFacts | data_augment/model/dataset.py:63 | every label's rank is below the number of labels, and the ranks are strictly increasing in sorted order |
| LabelMaps.LabelMapSorted | data_augment/model/dataset.py:63 | a label that sorts earlier gets a smaller id |
| LabelMaps.LabelMapInjective | data_augment/model/dataset.py:63 | distinct labels get distinct ids |
| LabelMaps.LabelMapIdsBound | data_augment/model/dataset.py:63 | every id is in 0..n-1 |
| LabelMaps.LabelMapBijective | data_augment/model/dataset.py:63 | the label map is a bijection from the labels seen onto 0..n-1 |
| LabelMaps.Invert | data_augment/model/dataset.py:72-73 | the inverted map has exactly the ids as keys, and sends each id to a label that has that id |
| LabelMaps.InvertCovers | data_augment/model/dataset.py:72-73 | every id of the map has a label that the inversion keeps |
| LabelMaps.InvertInjective | data_augment/model/dataset.py:72-73 | for an injective map, the inverse sends each label's id back to that label |
| LabelMaps.InvertBijection | data_augment/model/dataset.py:72-73 | for a bijection onto 0..n-1, the inverse is defined on exactly 0..n-1, and the two maps undo each other |
| LabelMaps.LabelMapInverse | data_augment/model/dataset.py:62-73 | `id2pos`/`id2dep` of a built map are its two-sided inverse on 0..n-1 |
| Conllu.Classify | data_augment/model/dataset.py:23-44 | blank iff all whitespace; a comment or a line of fewer than ten tab fields is skipped; a token line iff it is none of these and its ID has no `-` or `.`, and then its fields are the first ten tab fields of the stripped line |
| Conllu.ClassifySpec | data_augment/model/dataset.py:23-44 | a line is skipped iff it is not blank and is a comment, has fewer than ten tab fields, or has a range or empty-node ID; a token's ID is plain and its ten fields are tab-free |
| Conllu.ClassifyLine | data_augment/model/dataset.py:23-44 | the tests the line loop makes on one line give the line's kind |
| Conllu.BlankLineSeparates | data_augment/model/dataset.py:24-35 | a blank line splits the file: the sentences of a+[blank]+b are those of a followed by those of b |
| Conllu.BlankKindSeparates | data_augment/model/dataset.py:24-35 | the same separation, stated on line kinds |
| Conllu.TrailingBlankOptional | data_augment/model/dataset.py:24-59 | a final sentence is emitted with or without a trailing blank line |
| Conllu.SkippedLineIgnored | data_augment/model/dataset.py:36-44 | removing a comment, short, multiword or empty-node line changes no sentence; it does not close one either |
| Conllu.SkippedKindIgnored | data_augment/model/dataset.py:36-44 | the reader's state is the same with or without a skipped line |
| Conllu.ScanInvariant | data_augment/model/dataset.py:18-54 | finished sentences are non-empty and, followed by the open one, hold exactly the token lines read so far |
| Conllu.CloseInvariant | data_augment/model/dataset.py:55-59 | after the final flush, the sentences are non-empty and hold exactly the token lines |
| Conllu.Sentences | data_augment/model/dataset.py:18-59 | only non-empty sentences are emitted, and together, in order, they are the file's token lines |
| Conllu.ScanSnoc | data_augment/model/dataset.py:22-54 | reading one more line is one step of the line state machine |
| Conllu.Column | data_augment/model/dataset.py:45-52 | a column of a sentence has one entry per token |
| Conllu.ColumnAt | data_augment/model/dataset.py:45-52 | entry j of a column is field c of token j |
| Conllu.ColumnsAt | data_augment/model/dataset.py:45-52 | sentence i's column list is the column of sentence i |
| Conllu.ColumnPush | data_augment/model/dataset.py:49-52 | appending a token appends its field to every column |
| Conllu.ColumnsPush | data_augment/model/dataset.py:27-30 | appending a sentence appends its column to every column list |
| Conllu.ColumnsParallel | data_augment/model/dataset.py:45-52 | the FORM, UPOS, DEPREL and HEAD lists are parallel, sentence by sentence and token by token |
| Conllu.ColumnSetPush | data_augment/model/dataset.py:53-54 | each token line adds its label to the label set |
| Conllu.ReadConllu | data_augment/model/dataset.py:17-59 | the line loop yields columns 1, 3, 7 and 6 of the sentences, and the UPOS and DEPREL sets of all token lines |
| Conllu.BuildLabelMap | data_augment/model/dataset.py:62-73 | the map in use is the supplied one or else the sorted rank map, and the id map is its inverse |
| Conllu.UDParsingDataset.constructor | data_augment/model/dataset.py:6-73 | the dataset holds the sentence columns, the label maps in use and their inverses |
| Conllu.AlignPrefix | data_augment/model/dataset.py:88-109 | a successful alignment has one POS, DEP and HEAD label per subtoken position |
| Conllu.WordLabels | data_augment/model/dataset.py:94-104 | a word's lookup succeeds iff the word has a POS, DEPREL and HEAD entry, both labels are in the maps and HEAD is a number; the ids are map values; the head is HEAD-1, or the word itself for HEAD 0; the errors are IndexError, KeyError or ValueError |
| Conllu.Align | data_augment/model/dataset.py:88-109 | the alignment succeeds iff every position does, and then has one POS, DEP and HEAD label per position |
| Conllu.AlignLabels | data_augment/model/dataset.py:88-109 | the alignment loop computes the specified alignment, or the exception it raises |
| Conllu.AlignPointwise | data_augment/model/dataset.py:89-108 | the alignment succeeds iff every position does; each position's labels depend only on that position and the one before |
| Conllu.AlignedLabelsAt | data_augment/model/dataset.py:89-108 | a word-initial position carries its word's UPOS and DEPREL ids and the re-indexed head; any other position is -100 in all three lists |
| Conllu.LabelledIffStartsWord | data_augment/model/dataset.py:90-108 | when no id is -100, a position has a real POS label iff it has a word id that differs from the previous one |
| Conllu.HeadLabelsInRange | data_augment/model/dataset.py:100-104 | with HEAD values in 0..n, every head label is -100 or a word index 0..n-1 |
| Conllu.AlignErrorPersists | data_augment/model/dataset.py:94-96 | once a position raises, the whole alignment raises that exception |
| Conllu.AlignFirstError | data_augment/model/dataset.py:94-100 | the exception raised is that of the first word-initial position whose lookup fails |
| Conllu.MissingLabelRaises | data_augment/model/dataset.py:95-96 | a POS or DEPREL label missing from the map makes the alignment fail, with KeyError when no earlier position fails |
| Conllu.UDParsingDataset.Preprocess | data_augment/model/dataset.py:76-114 | success iff every sentence aligns; then there is one example per sentence, and otherwise the error is the first failing sentence's |
| Multimap.GroupedSnoc | data_augment/baseline_augment.py:28-30 | one more entry appends its target to its key's list, creating the list when needed |
| Multimap.ValuesFor | data_augment/baseline_augment.py:28-30 | the reference definition holds exactly the targets of the entries with that key |
| Multimap.GroupedSpec | data_augment/baseline_augment.py:28-30 | the keys are exactly those with an entry, and each list is that key's targets in entry order, duplicates kept |
| BaselineAugment.EntrySpec | data_augment/baseline_augment.py:20-27 | a line gives no entry iff it has fewer than two fields; otherwise the entry is (lowercased field 0, field 1) |
| BaselineAugment.EntriesSnoc | data_augment/baseline_augment.py:19-25 | a blank or one-field line adds nothing, and any other line adds its entry at the end |
| BaselineAugment.ParseLine | data_augment/baseline_augment.py:20-27 | the loop body reads the line's entry |
| BaselineAugment.AddTarget | data_augment/baseline_augment.py:28-30 | the dictionary update appends the target under the key |
| BaselineAugment.LoadDictionary | data_augment/baseline_augment.py:16-31 | the loaded dictionary groups the entries of all lines, in file order |
| BaselineAugment.EntriesAreWords | data_augment/baseline_augment.py:23-26 | every target is non-empty and space-free |
| BaselineAugment.LoadedDictionary | data_augment/baseline_augment.py:16-31 | every target list holds words, and each key's list is its targets in file order |
| BaselineAugment.Cross | data_augment/baseline_augment.py:33-44 | a draw at or above cross_prob keeps the word, as does a key absent from `dict_list[1]`; otherwise the result is one of that key's targets (or an IndexError) |
| BaselineAugment.CrossAll | data_augment/baseline_augment.py:51-53 | success iff `cross` succeeds on every word, else IndexError; each output word is `cross` of the input word at the same index |
| BaselineAugment.CrossAllWords | data_augment/baseline_augment.py:51-53 | each output word is the input word or one of its targets, and it is still a word |
| BaselineAugment.CrossStr | data_augment/baseline_augment.py:46-56 | a ratio draw at or above ratio always succeeds; otherwise it succeeds iff `cross` succeeds on every word; the only error is IndexError |
| BaselineAugment.CrossStrUnchanged | data_augment/baseline_augment.py:47-56 | a ratio draw at or above ratio gives the sentence's words joined by single spaces |
| BaselineAugment.CrossStrWords | data_augment/baseline_augment.py:46-56 | the output has as many words as the input, each unchanged or one of its targets |
| XnliData.Normalize | util/dataset/XNLI/all.py:12-23 | "entailment", "neutral" and "contradiction" become 0, 1 and 2; the result is a number iff the label is a number or one of the three names; any other label is unchanged |
| XnliData.GetSet | util/dataset/XNLI/all.py:10-26 | the loop yields exactly the kept examples |
| XnliData.KeptAppend | util/dataset/XNLI/all.py:15-24 | filtering works line by line: kept(a+b) = kept(a)+kept(b) |
| XnliData.KeptSingle | util/dataset/XNLI/all.py:16-24 | an unknown string label drops the example; any other keeps it, with premise and hypothesis unchanged and the label normalised |
| XnliData.KeptShape | util/dataset/XNLI/all.py:15-24 | kept labels are numbers, the output is no longer than the input, and it is as long iff no example is dropped |
| XnliData.Kept | util/dataset/XNLI/all.py:15-24 | the kept examples are no more than the input, and all have numeric labels |
| XnliData.CorrectPrefix | util/dataset/XNLI/all.py:42 | at most n of the first n predictions are correct |
| XnliData.CorrectPrefixAll | util/dataset/XNLI/all.py:42 | the count equals n iff every one of the first n predictions matches |
| XnliData.ExtraPredictionsIgnored | util/dataset/XNLI/all.py:42 | predictions beyond the dataset's length do not change the count |
| XnliData.PrefixAgrees | util/dataset/XNLI/all.py:42 | the count depends only on the predictions it pairs with examples |
| XnliData.Correct | util/dataset/XNLI/all.py:42 | the count is at most both lengths, and it equals the shorter length iff every pair `zip` forms matches |
| XnliData.AccuracyRange | util/dataset/XNLI/all.py:40-43 | accuracy is in [0,1], and it is 1 iff the dataset is non-empty and every example is predicted correctly |
| XnliData.Accuracy | util/dataset/XNLI/all.py:40-43 | accuracy lies in [0,1], and is 0 for an empty dataset |
| XnliCodeswitch.NonBlank | util/dataset/XNLI/all_codeswitch.py:17 | the kept lines are no more than the input lines, and none is empty |
| XnliCodeswitch.KeptLine | util/dataset/XNLI/all_codeswitch.py:17 | a line is dropped iff it is all whitespace, and otherwise kept as its non-empty stripped form |
| XnliCodeswitch.NonBlankAppend | util/dataset/XNLI/all_codeswitch.py:17 | the kept lines of a+b are those of a followed by those of b |
| XnliCodeswitch.NonBlankSingle | util/dataset/XNLI/all_codeswitch.py:17 | one line contributes its stripped form iff it is not blank |
| XnliCodeswitch.NonBlankKeeps | util/dataset/XNLI/all_codeswitch.py:17 | every non-blank line is kept, stripped |
| XnliCodeswitch.NonBlankFrom | util/dataset/XNLI/all_codeswitch.py:17 | every kept line is the stripped form of some input line |
| XnliCodeswitch.Mapping | util/dataset/XNLI/all_codeswitch.py:29-32 | the mapping's keys are exactly the stripped (premise, hypothesis) keys of the training examples |
| XnliCodeswitch.MappingLastWins | util/dataset/XNLI/all_codeswitch.py:29-32 | the mapping holds exactly the keys of training examples, each with the label of the last example with that key |
| XnliCodeswitch.MappingSnoc | util/dataset/XNLI/all_codeswitch.py:30-32 | one more example overwrites its stripped key's label |
| XnliCodeswitch.BuildMapping | util/dataset/XNLI/all_codeswitch.py:29-32 | the loop builds the specified mapping |
| XnliCodeswitch.PairLines | util/dataset/XNLI/all_codeswitch.py:34-45 | success iff every original pair is in the mapping, else ValueError; example i is code-switched lines 2i and 2i+1 with pair i's label |
| XnliCodeswitch.GetSetText | util/dataset/XNLI/all_codeswitch.py:15-45 | unequal pair counts raise AssertionError; otherwise there is one example per pair, or ValueError for a missing pair; an odd last line is ignored |
| XnliCodeswitch.UnknownNameKeptInTextBranch | util/dataset/XNLI/all_codeswitch.py:44-50 | an unknown label name passes through in the text branch, but the non-text branch drops it |
| XnliCodeswitch.LinePairRebuilds | util/dataset/XNLI/all_codeswitch.py:65-68 | a pair read from a line is its tab-free source and target around one tab, or its space-free source and target around one space |
| XnliCodeswitch.LinePairOf | util/dataset/XNLI/all_codeswitch.py:65-68 | conversely, source, tab, target with tab-free parts reads as that pair, and so does source, space, target when the parts have neither tab nor space |
| XnliCodeswitch.FirstBad | util/dataset/XNLI/all_codeswitch.py:64-68 | every line before the returned index gives a pair, and the line at it does not |
| XnliCodeswitch.PairsSnoc | util/dataset/XNLI/all_codeswitch.py:64-73 | one more good line adds its pair at the end |
| XnliCodeswitch.GroupedStep | util/dataset/XNLI/all_codeswitch.py:70-73 | one more good line appends its target under its source |
| XnliCodeswitch.AddPair | util/dataset/XNLI/all_codeswitch.py:70-73 | the in-place update is the grouping step |
| XnliCodeswitch.IdxDict.constructor | util/dataset/XNLI/all_codeswitch.py:87 | the dictionary list starts empty |
| XnliCodeswitch.IdxDict.GetIdxDict | util/dataset/XNLI/all_codeswitch.py:59-73 | exactly one dictionary is appended, grouping the lines before the first bad line; a bad line raises ValueError |
| BertInputs.Locs | model/XNLI/all_codeswitch.py:167-171 | one location per word |
| BertInputs.LocsAt | model/XNLI/all_codeswitch.py:165-180 | word i's location is the row length before it: base plus the encodings of the earlier words |
| BertInputs.LocsMonotone | model/XNLI/all_codeswitch.py:167-180 | locations never decrease |
| BertInputs.LocsBounds | model/XNLI/all_codeswitch.py:167-171 | every location lies between base and base plus the encoded length |
| BertInputs.LocsFacts | model/XNLI/all_codeswitch.py:167-171 | at each word's location the encoding holds that word's subtokens |
| BertInputs.LocsInRow | model/XNLI/all_codeswitch.py:163-182 | the same holds inside a longer row: the word's subtokens start at its location |
| BertInputs.PremiseLocsStart | model/XNLI/all_codeswitch.py:163-171 | each premise word's subtokens start at its recorded location in the row |
| BertInputs.HypothesisLocsStart | model/XNLI/all_codeswitch.py:173-180 | each hypothesis word's subtokens start at its recorded location, after `[SEP]` |
| BertInputs.RowLocsOrdered | model/XNLI/all_codeswitch.py:167-180 | one location per premise and hypothesis word, non-decreasing and inside the unpadded row |
| BertInputs.EncodeWords | model/XNLI/all_codeswitch.py:167-171 | the word loop appends the words' encodings and their start locations, and `cur_idx` stays the row length |
| BertInputs.Row | model/XNLI/all_codeswitch.py:163-182 | the row is `[CLS]`, the premise encodings, `[SEP]`, the hypothesis encodings and `[SEP]`, so it is three ids longer than the two encodings |
| BertInputs.RowLocs | model/XNLI/all_codeswitch.py:167-180 | one location per premise word and per hypothesis word |
| BertInputs.EncodeExample | model/XNLI/all_codeswitch.py:163-182 | the row is `[cls]`, the premise encodings, `[sep]`, the hypothesis encodings, `[sep]` |
| BertInputs.Rows | model/XNLI/all_codeswitch.py:159-184 | one row per example |
| BertInputs.AllLocs | model/XNLI/all_codeswitch.py:159-184 | one location list per example |
| BertInputs.RowsSnoc | model/XNLI/all_codeswitch.py:183 | each example appends its row |
| BertInputs.AllLocsSnoc | model/XNLI/all_codeswitch.py:184 | each example appends its locations |
| BertInputs.EncodeBatch | model/XNLI/all_codeswitch.py:159-184 | the batch loop builds every example's row and locations |
| BertInputs.MaxLen | model/XNLI/all_codeswitch.py:186 | the maximum is at least every row's length and is some row's length |
| Strings.Repeat | model/XNLI/all_codeswitch.py:191-193 | `[x] * k` (and `c * k` for PAD) has length k, or 0 when k is negative |
| Strings.RepeatAt | model/XNLI/all_codeswitch.py:193 | every entry of `[x] * k` is x |
| BertInputs.PadRowFacts | model/XNLI/all_codeswitch.py:192 | a padded row has length max_len, with the unpadded ids as a prefix and pad after |
| BertInputs.MaskRowFacts | model/XNLI/all_codeswitch.py:191 | a mask row is len ones followed by zeros, with length max_len |
| BertInputs.PadRows | model/XNLI/all_codeswitch.py:190-196 | the padding loop gives each row's padded ids, all-zero type ids and mask |
| BertInputs.GetInfo | model/XNLI/all_codeswitch.py:155-202 | get_info computes the specified inputs |
| BertInputs.InputsShape | model/XNLI/all_codeswitch.py:186-196 | an empty batch is the only error (ValueError at `max`); otherwise every row has length max_len with ids, pad, mask and zero type ids as specified |
| BertInputs.Inputs | model/XNLI/all_codeswitch.py:155-202 | an empty batch is the only error, a ValueError; otherwise there are one location list, id row, type row and mask per example |
| BertInputs.PadAllShape | model/XNLI/all_codeswitch.py:190-196 | rows no longer than max_len are padded to it with their ids as prefix, a mask of ones then zeros, and zero type ids |
| SpanCorruption.MaskedStartInRange | data_augment/codeswitch_model/codeswitch_dataset.py:46-54 | under the draw bounds, the masked span starts at or after 0 and ends by t |
| SpanCorruption.PiecesRebuild | data_augment/codeswitch_model/codeswitch_dataset.py:47-57 | prefix + masked + suffix is the truncated document, whose length is min(t, len(doc)); the masked part has m characters when the document is long enough |
| SpanCorruption.MaskedStringLength | data_augment/codeswitch_model/codeswitch_dataset.py:60 | the rearranged string is two characters longer than the truncated document, and at most block_size+1 long |
| SpanCorruption.PaddedShape | data_augment/codeswitch_model/codeswitch_dataset.py:61 | padding reaches exactly block_size+1, adds nothing to a longer string, and appends only PAD |
| SpanCorruption.ExampleShift | data_augment/codeswitch_model/codeswitch_dataset.py:64-65 | x and y both have length block_size, are the padded string without its last and first characters, and y[i] = x[i+1] |
| SpanCorruption.SpanRestore | data_augment/codeswitch_model/codeswitch_dataset.py:55-60 | when MASK is not in the document, splitting on MASK recovers prefix, suffix and masked content, which rebuild the document |
| SpanCorruption.EncodeChars | data_augment/codeswitch_model/codeswitch_dataset.py:68-69 | encoding succeeds iff every character has an id, and then gives each character's id; otherwise KeyError |
| SpanCorruption.GetItem | data_augment/codeswitch_model/codeswitch_dataset.py:39-70 | an empty `randint` range (block_size*7//8 < 4) raises ValueError; otherwise success iff every character of x and y has an id, else KeyError, and then x and y are encoded as `stoi` of their characters, block_size ids each, with y[i] = x[i+1] |
| FirstSubtoken.FirstAt | data_augment/model/evaluate.py:72-77 | the found position is the first carrying the word id, and None means no position carries it |
| FirstSubtoken.FirstsSpec | data_augment/model/evaluate.py:72-77 | a word id has a prediction iff some position carries it, and the prediction is the one at its first position |
| FirstSubtoken.OrderSpec | data_augment/model/annotate_hinglish.py:44-49 | the keys are the word ids seen, in order of first appearance |
| FirstSubtoken.OrderCount | data_augment/model/annotate_hinglish.py:42-52 | the number of keys is the number of distinct non-None word ids |
| FirstSubtoken.Aggregate | data_augment/model/annotate_hinglish.py:42-49 | the loop fills `pred_pos`/`pred_dep` with first-subtoken predictions and the keys in insertion order |
| ParserEvaluate.Chars | data_augment/model/evaluate.py:52 | `list(sentence)` has one word per character |
| ParserEvaluate.CharsRebuild | data_augment/model/evaluate.py:51-52 | the Chinese words concatenate back to the sentence |
| ParserEvaluate.WordTags | data_augment/model/evaluate.py:78-79 | the tag list succeeds iff every word index has a prediction, and then has one entry per word, in word order; otherwise KeyError |
| ParserEvaluate.AnnotateRowSpec | data_augment/model/evaluate.py:40-79 | a row with another language or a blank sentence is skipped; otherwise a missing word raises KeyError, or each word gets the predictions at its first subtoken |
| ParserEvaluate.RowErrorIsKeyError | data_augment/model/evaluate.py:78-79 | a row can only raise KeyError |
| ParserEvaluate.SkippedRow | data_augment/model/evaluate.py:40-46 | a skipped row writes nothing |
| ParserEvaluate.AnnotateOneRow | data_augment/model/evaluate.py:40-80 | the loop body computes the row's outcome |
| ParserEvaluate.CollectWritten | data_augment/model/evaluate.py:39-80 | every line written comes from some row |
| ParserEvaluate.CollectError | data_augment/model/evaluate.py:39-80 | the loop stops with an exception iff some row raises, and the exception is one a row raised |
| ParserEvaluate.CollectStop | data_augment/model/evaluate.py:39-80 | the rows after an exception change nothing |
| ParserEvaluate.CollectSnoc | data_augment/model/evaluate.py:39-80 | one more row is one step of the loop |
| ParserEvaluate.AnnotateXnli | data_augment/model/evaluate.py:35-80 | the annotation loop writes the specified lines and stops at the specified exception |
| ParserEvaluate.AnnotationsWritten | data_augment/model/evaluate.py:39-80 | there are at most as many lines as rows, and each is the annotation of a processed row |
| ParserEvaluate.AnnotationsError | data_augment/model/evaluate.py:39-80 | the loop stops only with KeyError, and it stops iff some row fails |
| ParserEvaluate.ValidIndices | data_augment/model/evaluate.py:27 | exactly the positions whose gold POS label is not -100, in increasing order |
| ParserEvaluate.ValidIndicesAreWordStarts | data_augment/model/evaluate.py:27 | for an aligned sentence, the positions read are exactly the first subtokens of its words |
| ParserEvaluate.LookupTags | data_augment/model/evaluate.py:28-29 | the lookup succeeds iff every index is in range and its prediction has a label, and then gives those labels in order |
| ParserEvaluate.LookupTagsInverse | data_augment/model/evaluate.py:15-29 | with inverted built label maps and in-range predictions, the lookup succeeds and each tag is the label whose id was predicted |
| ParserEvaluate.FinetunedTags | data_augment/model/evaluate.py:15-29 | success iff every kept position has both predictions and both have labels, else IndexError or KeyError; the tags are the labels of the predictions at the kept positions, in order |
| ParserEvaluate.FinetunedTagsInverse | data_augment/model/evaluate.py:15-29 | with built label maps and in-range predictions, the tags are found and each is the label whose id was predicted |
| AnnotateHinglish.FirstFieldOnly | data_augment/model/annotate_hinglish.py:19-23 | only the stripped first tab field of a line is annotated |
| AnnotateHinglish.KeyTag | data_augment/model/annotate_hinglish.py:51-52 | the tag is a label of the inverted map or "UNK" |
| AnnotateHinglish.KeyTags | data_augment/model/annotate_hinglish.py:51-52 | one tag per key, each a label of the inverted map or "UNK" |
| AnnotateHinglish.AnnotateLine | data_augment/model/annotate_hinglish.py:19-53 | a line is skipped iff its first tab field is blank; otherwise it is written with its stripped English sentence and equally many POS and DEP tags, each a label or "UNK" |
| AnnotateHinglish.AnnotatedLines | data_augment/model/annotate_hinglish.py:18-53 | at most one line is written per input line, and none has an empty sentence |
| AnnotateHinglish.AnnotateOne | data_augment/model/annotate_hinglish.py:19-53 | the loop body computes the line's annotation, or nothing for a blank sentence |
| AnnotateHinglish.AnnotatedLinesSnoc | data_augment/model/annotate_hinglish.py:18-53 | one more line appends its annotation, if any |
| AnnotateHinglish.AnnotateFile | data_augment/model/annotate_hinglish.py:12-53 | annotate_file writes the specified lines, using the inverses of the supplied label maps |
| AnnotateHinglish.TagCount | data_augment/model/annotate_hinglish.py:42-52 | each line gets as many POS and DEP tags as it has distinct non-None word ids |
| AnnotateHinglish.KeysAreIndices | data_augment/model/annotate_hinglish.py:42-49 | when the word ids rise monotonically over all words, the keys are the word indices 0..n-1 |
| AnnotateHinglish.AsWrittenTagsByWordIndex | data_augment/model/annotate_hinglish.py:51-52 | for such a tokenizer, word i's tag is `id2pos_label[i]` or "UNK", whatever was predicted |
| AnnotateHinglish.AsWrittenIgnoresPrediction | data_augment/model/annotate_hinglish.py:51-52 | a concrete input where the written tag differs from the tag of the predicted id |
| AnnotateHinglish.PredTags | data_augment/model/annotate_hinglish.py:51-52 | the intended lookup gives one tag per key |
| AnnotateHinglish.PredTagsAreLabels | data_augment/model/annotate_hinglish.py:14-52 | with the intended lookup and a built label map, each tag is the label whose id was predicted at the word's first subtoken |

## Left out

- File and network I/O, `load_dataset`, argparse, `torch.tensor` conversion and device moves: files are sequences
  of lines, and datasets are sequences of examples.
- The tokenizer and the transformer are not modelled. They are parameters: `word_ids` and `encode` functions, and
  the argmax predictions.
- Random draws are parameters, bounded by the ranges `random.randint` and `random.choice` allow. Their
  distribution is not modelled.
- The Python dictionary inversion keeps the last key for a repeated value; `LabelMaps.Invert` keeps the least key in
  `sorted` order, because Dafny maps have no insertion order. The two agree on every injective map, which includes
  every map the dataset builds; they differ only for a supplied map that sends two labels to one id.
- `Strings.Lower` lowercases ASCII letters only. `Strings.IsSpace` is Python's `str.isspace` set, without the
  Unicode database behind it.
- `Strings.ParseInt` accepts an optional sign and ASCII digits. It does not accept the surrounding whitespace, the
  underscores or the non-ASCII digits that `int()` also accepts.
- The `dict_size` and `train_size` truncations (all_codeswitch.py:61-62, 91-92) use float multiplication.
- CSV rows of `annotate_xnli` are complete maps from column name to text. `csv.DictReader` gives the missing
  fields of a short row the value None, and `.lower()` or `.strip()` on it then raises AttributeError; neither the
  None fields nor that AttributeError is modelled, so `Get`'s "" default stands for a column absent from the header.
- The `.txt` test on the file name is not modelled: the text branch and the dataset branch are separate members.
- util/data.py (`read_raw`, `remove_linefeed`) is not part of this model: `get_idx_dict` takes the raw lines as
  given.
- `CodeswitchDataset.__init__` is not modelled: it calls `insert` on a set and never defines `MASK_CHAR`/`PAD_CHAR`.
  MASK and PAD are parameters of `__getitem__`.
- `str()` of the predictions, `" ".join` of the tag lists, and the lines written are not modelled: the annotations
  are the values written.
- The text `evaluate_finetuned` writes through `tokenizer.decode` is not modelled; the member models its index
  selection and tag lookup (`ParserEvaluate.FinetunedTags`).
- The `len(parts) < 1` guard of annotate_file can never fire, since `split` always returns a field.
- Training, the model architectures, translation evaluation and the other scripts are not part of this model.
- XnliData.Accuracy: the ratio is an exact `real`, not a float.
- AnnotateHinglish.AnnotateFile models the lookup as written, by word index. The intended lookup is
  `AnnotateHinglish.PredTags` (see Findings).

## Findings

| source | as written | input that shows it | evidently intended | confidence | as-written member | corrected member |
|---|---|---|---|---|---|---|
| data_augment/model/annotate_hinglish.py:51-52 | the tag comprehensions iterate over the keys of `pred_pos`/`pred_dep`, which are word indices, so `id2pos_label` is looked up with a word index and the prediction is never read | word ids [None, 0, None], POS predictions [7, 1, 7] and id2pos {0: NOUN, 1: VERB}: the line gets NOUN although VERB (id 1) was predicted | look up the predicted id `pred_pos[k]` of each word k | not executed | AnnotateHinglish.AsWrittenIgnoresPrediction | AnnotateHinglish.PredTagsAreLabels |
