# CrossNER data preparation and F1 evaluation, modelled in Dafny

The repository prepares named-entity data for an LLM-based NER pipeline and
scores the model's answers. This project models the four parts of it that
hold the logic:

- **The CoNLL converter** (`convert_to_json_format`). It reads a BIO-tagged
  token file. Each non-blank line gives a word (the first field) and a tag
  (the last field). Blank lines end sentences and `-DOCSTART-` lines are
  skipped. It produces one record per sentence: `{text, label}`, where
  `label` maps the types PER, LOC, ORG and MISC to their entity spans. A
  "B-" tag opens a span and an "I-" tag extends the last span of its type.
  A "B-" tag of any other type raises KeyError.
- **The CrossNER converter** (`convert_ner_to_json_with_cot` and
  `get_labels_by_domain`). It does the same for the lower-case types of the
  "ai" domain. It also reads an optional rationale ("cot") file of
  blank-line separated paragraphs, and record i gets paragraph i, or "".
- **The result parser** (`convert_to_json`). It reads the model's free-text
  answers: `input:` lines, `result:` lines of "; "-separated clauses
  `<description>-><type>: <entity>, <entity>`, and blank lines that close an
  example. It builds one record per closed example. A clause with an
  unknown type or without ": " is reported with its line and line number.
- **The metric** (`calculate_metrics`) and the five domain label lists. It
  compares predicted and gold records pair by pair. Per label it counts
  gold entities, predicted entities and true positives, with Counter
  minima, so duplicates count as often as both sides list them. It then
  computes per-label precision, recall and F1, and the micro, macro and
  weighted averages.

The modules:

- `Text` has Python's `strip`, `split()`, `split(sep)`, `find`, `lower`
  and `upper`.
- `Blocks` splits a line sequence into blank-line separated groups.
- `Records` defines the record.
- `Bio` is the BIO decoder that both converters share, written as a line
  state machine with a per-sentence specification.
- `ConllSource`, `CrossNerTarget` and `ResultParser` are the three readers.
- `Counting` holds dictionary counters.
- `EntityCounts` is the counting half of the metric, and `Metrics` is the
  scoring half.

Loops in the source are methods with loop invariants. Each method is proved
equal to a specification function, and the lemmas state what those
functions guarantee.

Behaviour of the code that a reader might not expect, modelled as the code
has it:

- The result parser takes the entity type after the **first** "->" of the
  descriptor (`split("->", 1)[-1]`), not after the last one.
- Macro precision and recall sum only the positive per-label values, but
  they divide by the number of all labels (`len(results)`). So they are the
  plain means over all labels (`Metrics.MacroMean`): the filter drops only
  zeros.
- Division by zero is not always defined as 0. With an empty label list the
  macro average divides by zero and the metric raises ZeroDivisionError
  (`Metrics.AggregateFails`).
- A token line with a single field is accepted: its word is also its tag.
- The result parser closes an example on any blank line while an input is
  open, not only on one after a `result:` line. It drops entity names that
  are empty once stripped.

## Model

| member | source | states |
|---|---|---|
| Text.StripAround | code/data/dataset_json_source.py:9 | `strip()` removes exactly the whitespace at both ends: whitespace, then a part without whitespace at either end, then whitespace, strips to that part |
| Text.StripInfix | code/data/dataset_json_source.py:13 | the stripped line is a contiguous piece of the line with only whitespace before and after it |
| Text.StripEmpty | code/data/dataset_json_source.py:9 | a line strips to "" exactly when all of its characters are whitespace (the blank-line test) |
| Text.StripTrimmed | code/data/dataset_json_source.py:29 | strip leaves a string without whitespace at either end unchanged |
| Text.WordsLeadingSpace | code/data/dataset_json_source.py:13 | `split()` yields no field for leading whitespace |
| Text.WordsTrailingSpace | code/data/dataset_json_source.py:13 | `split()` yields no field for trailing whitespace |
| Text.WordsCons | code/data/dataset_json_source.py:13 | a whitespace-free field followed by any non-empty run of whitespace is the first field, and the fields of the rest follow it |
| Text.WordsSingle | code/data/dataset_json_source.py:13 | a single whitespace-free field splits to itself |
| Text.WordsJoin | code/data/dataset_json_source.py:13 | `" ".join(fields).split()` gives back the fields when none is empty or holds whitespace |
| Text.WordsPadded | code/data/dataset_json_source.py:13 | whitespace around a string adds no field |
| Text.WordsAround | code/data/dataset_json_source.py:13 | a line of space-separated fields with whitespace around it splits to exactly those fields |
| Text.WordsStrip | code/data/dataset_json_source.py:13 | `line.strip().split()` has the same fields as `line.split()` |
| Text.IndexFromFirst | code/metric/crossner_txt_extract_json.py:33 | the search finds the first occurrence of the pattern, or reports none exactly when there is none |
| Text.ContainsOccurs | code/metric/crossner_txt_extract_json.py:33 | `"->" in part` holds exactly when "->" occurs at some position |
| Text.SplitOnceJoins | code/metric/crossner_txt_extract_json.py:36 | `split(": ", 1)` gives two pieces exactly when ": " occurs, and the pieces put back around ": " are the clause |
| Text.SplitJoin | code/data/dataset_json_source.py:30 | splitting `" ".join(words)` on " " gives back the words when no word holds a space |
| Text.Drop | code/metric/crossner_txt_extract_json.py:22 | `line[:n] + line[n:]` gives back the line, and `line[n:]` is empty exactly when the line has at most n characters |
| Text.Lower | code/metric/crossner_txt_extract_json.py:37 | `lower()` keeps the length and every character that is not an upper-case letter, and leaves no upper-case letter |
| Text.Upper | code/data/dataset_json_source.py:19 | `upper()` keeps the length and every character that is not a lower-case letter, and leaves no lower-case letter |
| Text.LowerKeeps | code/data/dataset_json_target.py:75 | a string without upper-case letters is its own `lower()` |
| Text.UpperKeeps | code/data/dataset_json_source.py:19 | a string without lower-case letters is its own `upper()` |
| Text.LowerIdempotent | code/metric/crossner_txt_extract_json.py:37 | lower-casing twice is lower-casing once |
| Text.UpperIdempotent | code/data/dataset_json_source.py:22 | upper-casing twice is upper-casing once |
| Text.CaseRoundTrip | code/data/dataset_json_source.py:19-22 | each letter maps to the same letter of the other case: `s.lower().upper() == s.upper()` and `s.upper().lower() == s.lower()` |
| Blocks.BlocksOf | code/data/dataset_json_source.py:26-37 | blank-line grouping yields only non-empty groups, and the last group counts even without a closing blank line |
| Blocks.GroupKeepsItems | code/data/dataset_json_target.py:45-53 | every non-blank line lands in exactly one group, in order |
| Blocks.BlocksPartitionItems | code/data/dataset_json_source.py:26-37 | the groups, concatenated, are exactly the token lines, and there are never more groups than token lines |
| Blocks.BlocksSplitAtBreak | code/data/dataset_json_source.py:26-32 | a blank line separates: the groups before it and after it never merge |
| Blocks.SkipIsInvisible | code/data/dataset_json_source.py:10-11 | a skipped line neither joins a group nor closes one |
| Blocks.NoBreakOneBlock | code/data/dataset_json_source.py:35-37 | without a blank line all token lines form one open group |
| Bio.ParseTokenWords | code/data/dataset_json_source.py:13-15 | a non-blank line has at least one field; its word is the first whitespace-separated field and its tag the last |
| Bio.ParseTokenJoin | code/data/dataset_json_source.py:13-15 | a line of space-separated fields, with any whitespace around it, gives the first field as the word and the last as the tag; a one-field line gives that field as both |
| Bio.SplitTokenLine | code/data/dataset_json_source.py:13-15 | `parts[0]` and `parts[-1]` of `line.strip().split()` are the first and the last field of `line.split()`, which has at least one field |
| Bio.Tag | code/data/dataset_json_source.py:18-24 | a token raises KeyError exactly when its tag is "B-" and its type has no list; otherwise the keys stay the same and the list of k gains one span exactly when the tag is "B-k" |
| Bio.UpdateLabels | code/data/dataset_json_source.py:18-24 | the in-place append and `labels[k][-1] += " " + word` do to the lists what Tag says |
| Bio.ProcessLine | code/data/dataset_json_source.py:9-32 | one loop iteration equals one step of the line state machine, and the accumulator keeps exactly the configured keys |
| Bio.DecodeCounts | code/data/dataset_json_source.py:17-24 | a sentence decodes exactly when every "B-" type is known; a failure is a KeyError on an unknown type; on success every key has a list with one span per "B-k" tag |
| Bio.DecodeFromAppend | code/data/dataset_json_source.py:17-24 | decoding a + b is decoding a, then b from where a left off |
| Bio.OrphanInsideIgnored | code/data/dataset_json_source.py:21-24 | an "I-k" tag with no earlier "B-k" in its sentence is ignored: the sentence decodes as if the token were absent |
| Bio.InsideExtendsLastSpan | code/data/dataset_json_source.py:21-24 | an "I-k" tag after some "B-k" appends " " + word to the last span of k and changes nothing else |
| Bio.BeginOpensSpan | code/data/dataset_json_source.py:18-20 | a "B-k" tag of a known type, whatever came before it in its sentence, appends a new span holding just its word to the list of k and changes no other list |
| Bio.OutsideIgnored | code/data/dataset_json_source.py:17-24 | a tag that is neither "B-" nor "I-" (such as "O") creates, extends and raises nothing: the sentence decodes as if the token were absent |
| Bio.CountOpensWitness | code/data/dataset_json_source.py:18-20 | a counted "B-k" in a decodable sentence names a known key |
| Bio.SpansShaped | code/data/dataset_json_source.py:20-24 | every span is a single-space join of whitespace-free words, so it is non-empty and has no whitespace at either end |
| Bio.StripSpansNoOp | code/data/dataset_json_source.py:29 | the `val.strip()` at emission changes no span |
| Bio.RunPrefixStep | code/data/dataset_json_source.py:8 | the run over i + 1 lines is the run over i lines, then one step |
| Bio.RunErrorFinal | code/data/dataset_json_source.py:20 | once a line raises, the conversion ends with that error |
| Bio.RunFromAppend | code/data/dataset_json_source.py:8-32 | running a + b runs a, then b from where a stopped |
| Bio.StepTracks | code/data/dataset_json_source.py:9-32 | each line keeps the loop variables in step with the sentence grouping, and fails exactly on a "B-" tag of an unknown type |
| Bio.RunTracksSentences | code/data/dataset_json_source.py:8-32 | after any prefix the run fails exactly when some token opens an unknown type; otherwise its state matches the grouping of that prefix |
| Bio.EmitSentence | code/data/dataset_json_source.py:29-30 | an emitted record has the sentence's words joined by " " as text, no cot, and exactly the types with a "B-" tag, each with its decoded spans |
| Bio.ConvertSentences | code/data/dataset_json_source.py:3-39 | the conversion raises KeyError exactly when a "B-" tag names a type outside the keys; otherwise it gives one record per blank-line separated sentence, the last included, each as EmitSentence describes |
| Bio.DocStartSkipped | code/data/dataset_json_source.py:10-11 | dropping a "-DOCSTART-" line changes nothing |
| ConllSource.ConvertToJsonFormat | code/data/dataset_json_source.py:3-39 | the loop and the final flush give exactly the conversion with keys PER, LOC, ORG and MISC and upper-cased types |
| ConllSource.SourceKeysFolded | code/data/dataset_json_source.py:7-20 | every CoNLL type is its own `upper()`, and so is its lower-case spelling, so `labels[tag[2:].upper()]` finds the list however the type is cased |
| CrossNerTarget.GetLabelsByDomain | code/data/dataset_json_target.py:3-34 | a domain has types exactly when it is one of the five CrossNER domains, and any other domain has none |
| CrossNerTarget.TargetKeysFolded | code/data/dataset_json_target.py:74-80 | every "ai" type is its own `lower()`, and so is its upper-case spelling, so `tag[2:].lower()` finds the list however the type is cased |
| CrossNerTarget.ReadCot | code/data/dataset_json_target.py:41-53 | the rationale loop gives the stripped non-blank lines of each blank-line separated paragraph, joined by " ", the last paragraph included |
| CrossNerTarget.JoinTrimmed | code/data/dataset_json_target.py:50 | joining non-empty trimmed lines gives a non-empty trimmed entry |
| CrossNerTarget.CotEntriesShape | code/data/dataset_json_target.py:41-53 | no rationale entry is empty or has whitespace at either end, however many blank lines there are, and there are never more entries than non-blank lines |
| CrossNerTarget.WithCotAppend | code/data/dataset_json_target.py:86-94 | a new record gets the rationale entry at its own position |
| CrossNerTarget.ConvertTokenLines | code/data/dataset_json_target.py:64-104 | the token loop gives the BIO conversion's records, record i carrying `cot_data[i]`, or "" past the end, or the conversion's KeyError |
| CrossNerTarget.ConvertNerToJsonWithCot | code/data/dataset_json_target.py:37-104 | the converter with the dict accumulator equals the specification ConvertWithCot |
| CrossNerTarget.ConvertWithCotSentences | code/data/dataset_json_target.py:37-104 | KeyError exactly when a "B-" tag names a type outside the "ai" types; otherwise one record per sentence as for the CoNLL converter, and record i has cot entry i, or "" (always "" without a rationale file) |
| CrossNerTarget.ConvertNerToJsonWithCotAsWritten | code/data/dataset_json_target.py:59-84 | with `labels` bound to the list at line 59, any input with a token line raises TypeError; any other input gives no records |
| CrossNerTarget.ConvertWithListAccumulator | code/data/dataset_json_target.py:64-94 | the loop over the list accumulator fails exactly when some line is a token line, and the failure is TypeError |
| CrossNerTarget.ListAccumulatorLine | code/data/dataset_json_target.py:65-84 | only a token line adds a word, and raising needs a word, from this line or an earlier one |
| ResultParser.CleanNamesShape | code/metric/crossner_txt_extract_json.py:44 | the entity names kept are non-empty with no whitespace at either end, and there are no more of them than comma-separated pieces |
| ResultParser.ClauseKinds | code/metric/crossner_txt_extract_json.py:31-52 | a clause is ignored exactly when it has no "->"; it fails to unpack exactly when it has "->" but no ": "; otherwise its type is trimmed and has no upper-case letter, and its names are clean |
| ResultParser.LowerAfterFirst | code/metric/crossner_txt_extract_json.py:40 | cutting after the first "->" and stripping keeps the type free of upper-case letters |
| ResultParser.RunStep | code/metric/crossner_txt_extract_json.py:17 | the state after i + 1 lines is the state after i lines, then one step |
| ResultParser.ApplyClausesStep | code/metric/crossner_txt_extract_json.py:31 | the clauses up to j + 1 are those up to j, then clause j |
| ResultParser.ConvertToJson | code/metric/crossner_txt_extract_json.py:3-64 | the parser's loop gives exactly the records and the reports of the specification Run |
| ResultParser.ProcessLine | code/metric/crossner_txt_extract_json.py:18-64 | one loop iteration is one step on the read line, and the label lists keep exactly the valid types as keys |
| ResultParser.ApplyClauseList | code/metric/crossner_txt_extract_json.py:30-52 | the clause loop changes only the lists and the reports, as ApplyClauses says, and keeps the keys |
| ResultParser.ReadLineWellRead | code/metric/crossner_txt_extract_json.py:25-44 | every read result line has clean entity names |
| ResultParser.ReadLineResult | code/metric/crossner_txt_extract_json.py:18-25 | a result line keeps the stripped raw line, which starts with "result:" |
| ResultParser.ApplyClausesFrame | code/metric/crossner_txt_extract_json.py:30-52 | a result line keeps the text, the counter and the records; it only extends the lists; every new report carries the line and its number; an unrecognised type is not valid |
| ResultParser.ApplyClausesSound | code/metric/crossner_txt_extract_json.py:43-45 | applying clean clauses keeps the lists keyed by the valid types and clean |
| ResultParser.EmptySound | code/metric/crossner_txt_extract_json.py:15 | the fresh lists `{k: [] for k in valid_labels}` are keyed by the valid types and clean |
| ResultParser.EmitGood | code/metric/crossner_txt_extract_json.py:56-60 | a closed example is a record with no cot, only valid types with non-empty lists, and clean names |
| ResultParser.StepSound | code/metric/crossner_txt_extract_json.py:18-64 | one well-read line keeps the loop variables sound |
| ResultParser.RunFromSound | code/metric/crossner_txt_extract_json.py:17-64 | any run of well-read lines keeps the loop variables sound |
| ResultParser.RunSound | code/metric/crossner_txt_extract_json.py:3-64 | for any input the lists always have exactly the valid types as keys, so `current_label[entity_type]` never fails, and every record has only valid types with non-empty lists of clean names |
| ResultParser.RunFromLocated | code/metric/crossner_txt_extract_json.py:19 | the counter is the number of lines read, and every report names a line that was read |
| ResultParser.ReportsLocateLines | code/metric/crossner_txt_extract_json.py:46-52 | every report names an input line by its 1-based number and its stripped text, which starts with "result:"; an unrecognised type is not valid |
| ResultParser.LocatedRaw | code/metric/crossner_txt_extract_json.py:47-52 | a report located among the read lines names its raw line |
| ResultParser.RecordsBound | code/metric/crossner_txt_extract_json.py:20-64 | the records, plus the example still open, never outnumber the input lines |
| ResultParser.BlankCloses | code/metric/crossner_txt_extract_json.py:54-64 | a blank line closes the open example into a record of its text and its non-empty lists and leaves nothing open; with nothing open it emits nothing |
| ResultParser.OnlyBlankEmits | code/metric/crossner_txt_extract_json.py:54-64 | a line that is not empty once stripped emits no record, so an example still open at the end of the input is never emitted |
| ResultParser.StepKeepsData | code/metric/crossner_txt_extract_json.py:20-64 | an `input:` line, a `result:` line or any other non-blank line leaves the records unchanged |
| ResultParser.ReadLineBlank | code/metric/crossner_txt_extract_json.py:18 | a line is treated as blank exactly when it is empty after `strip()` |
| ResultParser.ReadLinesAppend | code/metric/crossner_txt_extract_json.py:17-18 | lines are read one at a time: reading a + b is reading a, then b |
| ResultParser.InputForgets | code/metric/crossner_txt_extract_json.py:20-23 | an input line discards the open text and lists: what follows depends only on the counter, the records and the reports |
| ResultParser.CleanFromKeeps | code/metric/crossner_txt_extract_json.py:44 | clean names pass through the cleaning unchanged |
| ResultParser.EntityNamesJoin | code/metric/crossner_txt_extract_json.py:44 | reading the entity list back inverts joining clean, comma-free names with "," |
| Counting.OccurrencesPrefix | code/metric/crossNER_f1.py:42-43 | a count over the first n entries depends only on those entries |
| Counting.OccurrencesAppend | code/metric/crossNER_f1.py:42-43 | one more entry raises its own count by one and no other count |
| Counting.MultisetOccurrences | code/metric/crossNER_f1.py:42-43 | `Counter(xs)[y]` is the multiplicity of y in xs |
| Counting.Distinct | code/metric/crossNER_f1.py:46 | the keys of a Counter are exactly the listed entries, none repeated |
| Counting.OccursOnce | code/metric/crossNER_f1.py:52 | in a list without repeats each entry occurs once |
| Counting.OccursNever | code/metric/crossNER_f1.py:52 | an absent entry does not occur |
| Counting.TimesMono | code/metric/crossNER_f1.py:48 | k-fold addition is monotone |
| Counting.Zeros | code/metric/crossNER_f1.py:26-28 | `{label: 0 for label in label_list}` counts 0 for every label |
| Counting.AddListingsNext | code/metric/crossNER_f1.py:32-39 | one more label listing updates that label's count, and every listed label keeps a count |
| Counting.ListingStep | code/metric/crossNER_f1.py:32-39 | one more listing raises its own label's count by the amount and its occurrences by one, and leaves every other label alone |
| Counting.AddListingsValue | code/metric/crossNER_f1.py:32-39 | after the listings a label has gained its amount once per listing |
| EntityCounts.CountSumStep | code/metric/crossNER_f1.py:42-48 | the Counter total over the first m entries is the total over m - 1 entries plus the last entry's count |
| EntityCounts.CountSumNone | code/metric/crossNER_f1.py:42-48 | the total over no entries is 0 |
| EntityCounts.CountSumAll | code/metric/crossNER_f1.py:42-48 | summing an entry's count over the distinct keys gives at most the number of entries, and exactly that number when every entry is a key |
| EntityCounts.MinSumBounded | code/metric/crossNER_f1.py:46-48 | the sum of minima is at most either side's total |
| EntityCounts.MinSumSelf | code/metric/crossNER_f1.py:46-48 | a list against itself: the sum of minima is its total |
| EntityCounts.MatchesBounded | code/metric/crossNER_f1.py:46-48 | a pair's true positives are at most its gold and at most its predicted entities |
| EntityCounts.MatchesSelf | code/metric/crossNER_f1.py:46-48 | a list compared with itself has all its entities as true positives |
| EntityCounts.MinSumBump | code/metric/crossNER_f1.py:46-48 | one more predicted copy of an entity raises its minimum exactly when gold still has an unmatched copy |
| EntityCounts.MinSumKeysPrefix | code/metric/crossNER_f1.py:46 | only the keys visited so far matter |
| EntityCounts.MatchesAppend | code/metric/crossNER_f1.py:42-48 | one more predicted entity is one more true positive exactly when gold has more copies of it than the predictions had |
| EntityCounts.NewEntityMatches | code/metric/crossNER_f1.py:46-48 | a predicted entity seen for the first time matches exactly when gold lists it |
| EntityCounts.IntersectionAppend | code/metric/crossNER_f1.py:48 | multiset intersection grows by one exactly when the left side has more copies |
| EntityCounts.MatchesIntersection | code/metric/crossNER_f1.py:42-48 | the Counter-minimum true positives are the size of the multiset intersection of gold and predictions |
| EntityCounts.MatchesSymmetric | code/metric/crossNER_f1.py:42-48 | true positives do not depend on which side is gold |
| EntityCounts.AddTruePositives | code/metric/crossNER_f1.py:42-48 | the loop over the predicted Counter adds exactly the pair's true positives to `tp_counts[label]` |
| EntityCounts.LabelTotalBounded | code/metric/crossNER_f1.py:31-48 | one label's true positives over the pairs are at most its gold and its predicted entities |
| EntityCounts.LabelTotalSelf | code/metric/crossNER_f1.py:31-48 | records against themselves: true positives and predictions equal gold |
| EntityCounts.Compared | code/metric/crossNER_f1.py:31 | `zip` compares as many pairs as the shorter file has records |
| EntityCounts.CountEntities | code/metric/crossNER_f1.py:26-48 | the counting loops fill `true_counts`, `pred_counts` and `tp_counts` exactly as the specification Counts says, with a count for every listed label |
| EntityCounts.CountPair | code/metric/crossNER_f1.py:32-48 | one pair adds, for every label listing, its gold length, its predicted length and its true positives |
| EntityCounts.CountsAfterValue | code/metric/crossNER_f1.py:31-48 | after r pairs, a label listed k times holds k times its totals over those pairs |
| EntityCounts.CountsAfterNext | code/metric/crossNER_f1.py:31-48 | the closed form carries over one more pair |
| EntityCounts.CountsClosedForm | code/metric/crossNER_f1.py:26-48 | a label listed k times counts k times its gold entities, predicted entities and true positives over the compared pairs; an unlisted label counts nothing |
| EntityCounts.CountsBounded | code/metric/crossNER_f1.py:26-48 | every label's true positives are at most its gold and its predicted entities |
| EntityCounts.LabelBounded | code/metric/crossNER_f1.py:26-48 | one label's true positives are at most its gold and its predicted entities |
| EntityCounts.LabelSelf | code/metric/crossNER_f1.py:26-48 | predictions identical to gold: every label's true positives and predictions equal its gold count |
| EntityCounts.CountsAfterPrefix | code/metric/crossNER_f1.py:31 | pairs beyond position n do not change the counts after the first r ≤ n |
| EntityCounts.CountsCompareShorter | code/metric/crossNER_f1.py:31 | the counts are those of both files cut to the shorter length |
| Metrics.Ratio | code/metric/crossNER_f1.py:53-54 | a guarded ratio is non-negative, 0 for a zero denominator, and at most 1 when the numerator does not exceed the denominator |
| Metrics.RatioSelf | code/metric/crossNER_f1.py:53-54 | a positive count over itself is 1 |
| Metrics.F1Ordered | code/metric/crossNER_f1.py:55 | F1 lies between precision and recall when precision ≤ recall |
| Metrics.F1Symmetric | code/metric/crossNER_f1.py:55 | F1 does not change when precision and recall swap |
| Metrics.F1Zero | code/metric/crossNER_f1.py:55 | F1 is 0 exactly when precision or recall is 0 |
| Metrics.F1Same | code/metric/crossNER_f1.py:55 | with equal precision and recall, F1 is that value |
| Metrics.F1Between | code/metric/crossNER_f1.py:55 | F1 lies between the smaller and the larger of precision and recall, is 0 exactly when one of them is 0, and equals them when they are equal |
| Metrics.ScoredRange | code/metric/crossNER_f1.py:53-55 | precision and recall in [0, 1] give F1 in [0, 1] |
| Metrics.LabelScoreRange | code/metric/crossNER_f1.py:53-55 | a label's precision, recall and F1 are in [0, 1], and precision or recall is 0 when its denominator is 0 |
| Metrics.LabelScorePerfect | code/metric/crossNER_f1.py:53-55 | a label whose true positives equal its positive gold and predicted counts scores 1, 1, 1 |
| Metrics.ScoreLabels | code/metric/crossNER_f1.py:51-61 | the per-label loop gives one entry per listed label, holding that label's score |
| Metrics.TotalsBounded | code/metric/crossNER_f1.py:64-66 | total true positives are at most total predictions and total gold |
| Metrics.MeasureRange | code/metric/crossNER_f1.py:74-75 | the sum of per-label values lies in [0, n], and the positive-only sum equals the plain sum |
| Metrics.WeightedRecallTerm | code/metric/crossNER_f1.py:80 | one label's weighted recall term is its true positives over total gold |
| Metrics.WeightedRecallSum | code/metric/crossNER_f1.py:80 | weighted recall is total true positives over total gold |
| Metrics.WeightedPrecisionTerm | code/metric/crossNER_f1.py:79 | a label's weighted precision term lies between 0 and its weight |
| Metrics.WeightedPrecisionSum | code/metric/crossNER_f1.py:79 | weighted precision lies between 0 and the total weight |
| Metrics.AggregateFails | code/metric/crossNER_f1.py:74-76 | the averages raise ZeroDivisionError exactly when there are no labels |
| Metrics.MicroRange | code/metric/crossNER_f1.py:64-71 | micro precision, recall and F1 are in [0, 1]; precision is 0 without predictions and recall is 0 without gold entities |
| Metrics.MacroMean | code/metric/crossNER_f1.py:74-76 | macro precision and recall are the plain means of the per-label values over all labels, and all three macro values are in [0, 1] |
| Metrics.WeightedRange | code/metric/crossNER_f1.py:79-81 | weighted recall equals micro recall; weighted precision, recall and F1 are in [0, 1]; all three are 0 without gold entities |
| Metrics.TalliesClosedForm | code/metric/crossNER_f1.py:26-66 | the counts summed for the averages are those of the distinct listed labels, in order; a label listed k times (k ≥ 1) holds k times its gold, predicted and matched entities over the compared pairs |
| Metrics.CalculateMetrics | code/metric/crossNER_f1.py:25-94 | counting, per-label scoring and averaging give exactly the specification Evaluate |
| Metrics.TalliesBounded | code/metric/crossNER_f1.py:26-61 | every label's tally has true positives at most its gold and its predictions |
| Metrics.EvaluateScores | code/metric/crossNER_f1.py:50-94 | the metric fails exactly when no label is listed; otherwise it has one score per listed label, each in [0, 1] |
| Metrics.EvaluateAverages | code/metric/crossNER_f1.py:63-94 | with a label listed, every average is in [0, 1]; macro precision and recall are the plain means; weighted recall is micro recall |
| Metrics.EvaluateSelf | code/metric/crossNER_f1.py:25-61 | predictions identical to gold score 1, 1, 1 for every listed label with a gold entity |
| Metrics.EvaluateComparesShorter | code/metric/crossNER_f1.py:31 | records beyond the shorter file do not affect the result |
| Metrics.LabelListsAreDomainTypes | code/metric/crossNER_f1.py:97-123 | the five label lists of the metric are the converter's types of the same domains, in the same order |

## Left out

- File reading and writing, `json.load` and `json.dump`, and the scripts' top-level example calls are not modelled. Files are sequences of lines without their trailing newline, and JSON objects are `Record` values.
- Python's `print` output is left out: the label list printed by the CrossNER converter, and its completion message. The result parser's diagnostics are kept as `Warning` values (line, line number, type) and not as printed text.
- `lower()` and `upper()` map ASCII letters only. Python's case mapping of other letters is not modelled. Whitespace is Python's full `isspace()` set.
- Dictionary key order is not modelled: `label` is a `map`, so the order in which types appear in a written record is not captured.
- Floating-point arithmetic is modelled as exact reals, so rounding is not captured.
- Metrics.WeightedRange: states weighted precision only within [0, 1]. When every label has gold entities it is the gold-weighted mean of per-label precision, between the smallest and the largest of them; that form is not proved.
- The iteration order of a Counter's keys is taken as first-occurrence order. It affects only the order of the additions to `tp_counts`, not their sum.
- The CrossNER converter is modelled for the domain its code uses, "ai". The rationale file is given as an optional sequence of lines.

## Findings

| source | as written | input that shows it | evidently intended | confidence | as-written member | corrected member |
|---|---|---|---|---|---|---|
| code/data/dataset_json_target.py:59-84 | `labels` is the list returned by `get_labels_by_domain("ai")` and is then indexed with a type string (`labels[entity_type]` at 76, `labels[key]` at 84), which raises TypeError | a token file whose first line is `Turing B-researcher` | `labels` is the dict `{k: [] for k in get_labels_by_domain("ai")}`, as the reset at line 93 builds it | not executed | CrossNerTarget.ConvertNerToJsonWithCotAsWritten | CrossNerTarget.ConvertNerToJsonWithCot |
