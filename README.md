# Vocabulary Learner, modelled in Dafny

Vocabulary Learner is a Home Assistant integration that teaches vocabulary
with the SM-2 spaced-repetition scheme. It reads word lists from text or
JSON files and keeps one learning record per word. A review moves a word
between "unknown", "learning" and "known" and schedules its next review.
The integration picks the word most in need of review, and it sends that
word as a notification outside quiet hours. It can also look words up in
Wiktionary, with LibreTranslate as a fallback.

This project models the deterministic core of that integration, with the
clock passed in as a parameter. It is organised as one file per component:

| file | module | models |
|---|---|---|
| common.dfy | Common | `Option`, `Result`, and the Python `str` operations the code relies on (`strip`, `in`, `find`, `split(sep, 1)`, `splitlines`, `rfind`) |
| json.dfy | Json | decoded JSON values, with Python's truthiness, `in`, indexing and iteration; a `TypeError` is `None` |
| records.dfy | Records | the progress dict, the vocabulary-entry dict, the statistics dict and the word-with-progress dict |
| scheduler.dfy | Scheduler | `spaced_repetition.py`: the SM-2 update, priority scores, and the stable descending selection |
| parser.dfy | Parser | `parser.py`: the `VocabularyEntry` normaliser, format detection, the text-line loop and the JSON walk |
| storage.dfy | Storage | `storage.py`: the in-memory `data` dict as a class, status counting, import and reset |
| word_manager.dfy | WordManagement | `word_manager.py`: `WordProgress` and the `WordManager` class |
| coordinator.dfy | Coordinator | `coordinator.py`: quiet hours, the next word, the two review compositions, and the notification |
| api_client.dfy | ApiClient | `api_client.py`: the Wiktionary response walk and the merge in `get_word_info` |
| config_flow.dfy | ConfigFlow | `config_flow.py`: the schema defaults and ranges, `_validate_config`, and the user step |

Time is counted in whole seconds, and each operation receives `now`.
Quiet hours use microseconds after midnight. Easiness and priority are
exact `real`s. A stored timestamp is `Stamp`: no value, an unparseable
text, or the ISO text of an instant.

The code works by updating state in four places, and each keeps that form.
The storage handler and the word manager are classes whose methods change
their fields. The loops in `_parse_txt`, `_parse_json`,
`update_statistics`, `get_words_for_review`, `save_vocabulary`,
`reset_progress`, `_get_next_word` and the Wiktionary walk are methods
with loops. Each method is proved equal to a specification function. The
promised properties are then proved of those functions as lemmas.

A word's record is changed in two ways: by the scheduler's update, and
directly by `mark_known`, `mark_unknown` and `mark_learning`
(word_manager.py, lines 155-189). The model has both.

## Model

| member | source | states |
|---|---|---|
| Records.ParseStamp | custom_components/vocabulary_learner/vocabulary/spaced_repetition.py:186-191 | a stored timestamp reads as an instant exactly when it is the ISO text of one; an absent, empty or unparseable value reads as none |
| Scheduler.Trunc | custom_components/vocabulary_learner/vocabulary/spaced_repetition.py:60 | `int()` of a float truncates toward zero: the result is within one of the argument, on the side of zero |
| Scheduler.ClampInterval | custom_components/vocabulary_learner/vocabulary/spaced_repetition.py:63 | the clamp lands in [1, 365], is the identity inside that range, and maps values below or above it to the nearest bound |
| Scheduler.CalculateNextReview | custom_components/vocabulary_learner/vocabulary/spaced_repetition.py:22-68 | the new easiness is at least 1.3, the new interval lies in [1, 365], and the due time is exactly `interval` days after `now` |
| Scheduler.EasinessDeltaTable | custom_components/vocabulary_learner/vocabulary/spaced_repetition.py:46 | the easiness change for each quality 0 to 5: -0.8, -0.54, -0.32, -0.14, 0, +0.1 |
| Scheduler.EasinessRule | custom_components/vocabulary_learner/vocabulary/spaced_repetition.py:46-47 | the new easiness is the old one plus the SM-2 change when that stays at or above 1.3, and 1.3 otherwise |
| Scheduler.EasinessUncapped | custom_components/vocabulary_learner/vocabulary/spaced_repetition.py:46-47 | perfect recall raises any easiness from 1.2 upward by exactly 0.1, with no upper bound |
| Scheduler.EasinessMonotone | custom_components/vocabulary_learner/vocabulary/spaced_repetition.py:46-47 | over qualities 0 to 5, a better recall or a higher prior easiness never gives a lower new easiness |
| Scheduler.DeltaMonotone | custom_components/vocabulary_learner/vocabulary/spaced_repetition.py:46 | the SM-2 change does not decrease as the quality rises from 0 to 5 |
| Scheduler.IntervalRule | custom_components/vocabulary_learner/vocabulary/spaced_repetition.py:50-63 | quality below 3 gives 1 day; otherwise review count 0 gives 1, count 1 gives 6, and any other count gives the clamped truncation of interval times new easiness |
| Scheduler.IntervalNeverShrinksOnSuccess | custom_components/vocabulary_learner/vocabulary/spaced_repetition.py:53-63 | from the third successful review on, with the interval at least 1, the new interval is at least the old one, up to the 365 cap |
| Scheduler.UpdatedProgress | custom_components/vocabulary_learner/vocabulary/spaced_repetition.py:115-163 | after `update_word_progress` the easiness is at least 1.3, the interval is within [1, 365], both run counters are set, and one of them is 0 |
| Scheduler.UpdateBookkeeping | custom_components/vocabulary_learner/vocabulary/spaced_repetition.py:129-145 | one more review; last review now; next review `interval` days from now; easiness and interval as `calculate_next_review` gives them from the dict's values or their defaults; the word and every unknown key unchanged |
| Scheduler.FailedReview | custom_components/vocabulary_learner/vocabulary/spaced_repetition.py:115-163 | quality below 3: interval 1, status "unknown", one more consecutive failure, no consecutive successes, whatever the prior state |
| Scheduler.SuccessfulReview | custom_components/vocabulary_learner/vocabulary/spaced_repetition.py:115-163 | quality 3 or more: one more consecutive success, no consecutive failures, and the interval is chosen by the prior review count |
| Scheduler.StatusRule | custom_components/vocabulary_learner/vocabulary/spaced_repetition.py:156-161 | "known" exactly for quality at least 4 after at least 3 earlier reviews; "unknown" exactly for quality below 3; "learning" otherwise |
| Scheduler.FirstPerfectReview | custom_components/vocabulary_learner/vocabulary/spaced_repetition.py:115-163 | a first perfect review of a default record gives easiness 2.6, a 1-day interval and "learning" |
| Scheduler.SecondPerfectReview | custom_components/vocabulary_learner/vocabulary/spaced_repetition.py:115-163 | a second perfect review gives the 6-day interval |
| Scheduler.Blackout | custom_components/vocabulary_learner/vocabulary/spaced_repetition.py:115-163 | quality 0 after four reviews floors the easiness at 1.3, resets the interval to 1 and gives "unknown" |
| Scheduler.DaysBetween | custom_components/vocabulary_learner/vocabulary/spaced_repetition.py:97 | `timedelta.days` is the whole number of days, rounded down |
| Scheduler.IsDueForReview | custom_components/vocabulary_learner/vocabulary/spaced_repetition.py:71-75 | a word is due when it has no due time or `now` is at or past it; `Scheduler.SeenScore` states where this decides the overdue bonus |
| Scheduler.PriorityScore | custom_components/vocabulary_learner/vocabulary/spaced_repetition.py:78-112 | `get_priority_score`; its rules are stated by `Scheduler.UnseenScore`, `Scheduler.SeenScore` and `Scheduler.UnseenOutranksNotDue` |
| Scheduler.WordPriority | custom_components/vocabulary_learner/vocabulary/spaced_repetition.py:183-196 | the priority of a word's progress dict, with the `.get` defaults and the guarded ISO parse; `Scheduler.MalformedDateIsAbsent` states how a bad due time reads |
| Scheduler.UnseenScore | custom_components/vocabulary_learner/vocabulary/spaced_repetition.py:92-93 | a never-reviewed word scores exactly 1000, whatever its other fields |
| Scheduler.SeenScore | custom_components/vocabulary_learner/vocabulary/spaced_repetition.py:96-112 | a reviewed word scores 100 + 10 per whole day overdue only when its review date is present and has passed; plus (3 - easiness) times 5, a bonus of 50 for "unknown" or 25 for "learning", and minus 0.1 per review |
| Scheduler.UnseenOutranksNotDue | custom_components/vocabulary_learner/vocabulary/spaced_repetition.py:92-112 | a reviewed word that is not due, with easiness at least 1.3, scores below an unseen word |
| Scheduler.MalformedDateIsAbsent | custom_components/vocabulary_learner/vocabulary/spaced_repetition.py:184-190 | a stored review date that is empty or does not parse gives the same priority as no date |
| Scheduler.Insert | custom_components/vocabulary_learner/vocabulary/spaced_repetition.py:202 | inserting one index adds exactly that index to the multiset of the ordering |
| Scheduler.Ranking | custom_components/vocabulary_learner/vocabulary/spaced_repetition.py:202 | the ranking of n items holds n valid indices |
| Scheduler.InsertSorted | custom_components/vocabulary_learner/vocabulary/spaced_repetition.py:202 | inserting a later index after every item of equal or higher priority keeps the order sorted and stable |
| Scheduler.InsertLast | custom_components/vocabulary_learner/vocabulary/spaced_repetition.py:202 | an item whose priority is at most every ranked item's goes after all of them, as a stable sort leaves it |
| Scheduler.RankingSorted | custom_components/vocabulary_learner/vocabulary/spaced_repetition.py:202 | the ranking is in non-increasing priority, with equal priorities in input order |
| Scheduler.RankingPermutation | custom_components/vocabulary_learner/vocabulary/spaced_repetition.py:202 | the ranking lists every input index exactly once |
| Scheduler.SliceEnd | custom_components/vocabulary_learner/vocabulary/spaced_repetition.py:205 | `xs[:m]` keeps at most n items, and exactly min(m, n) for m at least 0 |
| Scheduler.GetWordsForReview | custom_components/vocabulary_learner/vocabulary/spaced_repetition.py:166-205 | the priority loop, the stable sort and the slice compute exactly the selection function |
| Scheduler.ReviewSelection | custom_components/vocabulary_learner/vocabulary/spaced_repetition.py:182-205 | the words ranked by priority and cut to `max_words`; its properties are stated by `Scheduler.SelectionProperties`, `Scheduler.HigherPriorityFirst` and `Scheduler.HeadIsFirstMaximal` |
| Scheduler.SelectionProperties | custom_components/vocabulary_learner/vocabulary/spaced_repetition.py:180-205 | the selection has min(max_words, n) items; each is an unchanged input item from a distinct position; they are in non-increasing priority, with ties in input order |
| Scheduler.HigherPriorityFirst | custom_components/vocabulary_learner/vocabulary/spaced_repetition.py:202 | an item with strictly higher priority is ranked before one with lower priority |
| Scheduler.HeadIsFirstMaximal | custom_components/vocabulary_learner/vocabulary/spaced_repetition.py:202-205 | the first selected item has the highest priority, and it comes first in input order among those that have it |
| Scheduler.OverdueScenario | custom_components/vocabulary_learner/vocabulary/spaced_repetition.py:78-205 | of an unseen word, a word five days overdue and a word not yet due, the top two are the unseen word and then the overdue one |
| Parser.NewEntryShape | custom_components/vocabulary_learner/vocabulary/parser.py:28-32 | word and translation are stripped; the example is None when it is absent or empty, and otherwise stripped; falsy synonyms become `[]`; etymology is kept |
| Parser.NewEntry | custom_components/vocabulary_learner/vocabulary/parser.py:19-32 | the `VocabularyEntry` constructor; what it guarantees is stated by `Parser.NewEntryShape` and `Parser.EntryRoundTrip` |
| Parser.EntryToDict | custom_components/vocabulary_learner/vocabulary/parser.py:38-46 | `to_dict` writes all five fields as they are |
| Parser.EntryFromDict | custom_components/vocabulary_learner/vocabulary/parser.py:48-57 | a missing word or translation reads as `""`, and a missing example reads as None |
| Parser.EntryRoundTrip | custom_components/vocabulary_learner/vocabulary/parser.py:28-57 | `from_dict(to_dict(e))` gives back the constructed entry exactly when its example is not the empty string; an example of white space only strips to "" and reads back as None |
| Parser.FirstLine | custom_components/vocabulary_learner/vocabulary/parser.py:84 | the first line, as universal-newline `readline` returns it: a prefix of the content with no `\n` and no `\r` in it, ending where the content ends or at its first `\n` or `\r` |
| Parser.Extension | custom_components/vocabulary_learner/vocabulary/parser.py:69-70 | the lower-cased suffix of a path; stated for a dotted last component by `Parser.ExtensionOf` and `Parser.NameExtension`, and for a last component without a dot by `Parser.NoDotNoExtension` |
| Parser.DetectFormat | custom_components/vocabulary_learner/vocabulary/parser.py:67-98 | `detect_format`; its rules are stated by `Parser.ExtensionDecides` and `Parser.ContentRules` |
| Parser.ExtensionDecides | custom_components/vocabulary_learner/vocabulary/parser.py:67-79 | a csv, json, tsv, txt or text extension, in any case, decides the format without reading the file |
| Parser.LastComponent | custom_components/vocabulary_learner/vocabulary/parser.py:69-70 | the last "/" of a directory followed by a name is the end of the directory |
| Parser.LastDot | custom_components/vocabulary_learner/vocabulary/parser.py:70 | the last "." of stem + "." + extension is the one before the extension |
| Parser.ExtensionOf | custom_components/vocabulary_learner/vocabulary/parser.py:69-70 | the suffix of dir/stem.ext is the lower-cased ext when stem and ext are both non-empty, and empty otherwise |
| Parser.NameExtension | custom_components/vocabulary_learner/vocabulary/parser.py:69-70 | the suffix of a path whose last component is stem + "." + ext is the lower-cased ext when both are non-empty, and empty otherwise |
| Parser.NoDotNoExtension | custom_components/vocabulary_learner/vocabulary/parser.py:69-70 | a path whose last component holds no dot, such as `data/words`, has the empty suffix |
| Parser.ContentRules | custom_components/vocabulary_learner/vocabulary/parser.py:81-98 | with no known extension: a first line starting with "[" means JSON; a comma on a line not starting with "#" means CSV; a tab means TSV; otherwise TXT, which is also the answer when the file cannot be read |
| Parser.FindSeparator | custom_components/vocabulary_learner/vocabulary/parser.py:271-272 | the separator chosen is the first in list order that occurs in the line, and no earlier one occurs |
| Parser.SplitAt | custom_components/vocabulary_learner/vocabulary/parser.py:273-287 | the word is the stripped text before the separator's first occurrence; the translation and example rules are stated by `Parser.SplitRules` |
| Parser.SplitRules | custom_components/vocabulary_learner/vocabulary/parser.py:279-287 | for the stripped rest after the separator: with both brackets in it, the translation is the stripped text before the first "(" and the example the stripped text after it up to the next "(" or ")" or the end; otherwise, with a ";", the text before and after the first ";"; otherwise the whole rest is the translation, with no example |
| Parser.BracketSplit | custom_components/vocabulary_learner/vocabulary/parser.py:280-281 | `split("(")[0]` is the text before the first "(", and `split("(")[1].split(")")[0]` runs from after it to the next bracket or the end |
| Parser.ExampleCut | custom_components/vocabulary_learner/vocabulary/parser.py:281 | the example taken after a "(" is the text up to the next "(" or ")", or to the end, and holds neither bracket |
| Parser.SplitStripped | custom_components/vocabulary_learner/vocabulary/parser.py:276-287 | every part a split gives is already stripped |
| Parser.ParseLine | custom_components/vocabulary_learner/vocabulary/parser.py:258-301 | a line gives no entry exactly when it is blank or, once stripped, starts with "#"; the entry itself is stated by `Parser.SeparatedLine` and `Parser.NoSeparatorWholeLine` |
| Parser.SeparatedLine | custom_components/vocabulary_learner/vocabulary/parser.py:271-301 | with a separator, the entry has the split's word, translation and example, an empty example read as None; when the word comes out empty, the entry is the whole stripped line with translation "", still carrying the example the split found |
| Parser.StrippedEntry | custom_components/vocabulary_learner/vocabulary/parser.py:19-32 | the constructor on parts that are already stripped keeps them, drops an empty example and makes the synonyms `[]` |
| Parser.ParsedWordNonEmpty | custom_components/vocabulary_learner/vocabulary/parser.py:291-301 | every entry a text line gives has a non-empty word |
| Parser.NoSeparatorWholeLine | custom_components/vocabulary_learner/vocabulary/parser.py:291-294 | a line with no separator becomes its stripped text as word, with an empty translation |
| Parser.SeparatorCut | custom_components/vocabulary_learner/vocabulary/parser.py:271-294 | with a separator, the stripped line is the text before its first occurrence, the separator and the rest, and the text before holds no separator |
| Parser.LinesEntries | custom_components/vocabulary_learner/vocabulary/parser.py:257-301 | the lines give at most one entry each |
| Parser.Found | custom_components/vocabulary_learner/vocabulary/parser.py:296-301 | a line adds one entry or none |
| Parser.LinesEntriesAppend | custom_components/vocabulary_learner/vocabulary/parser.py:257-301 | the lines are parsed independently, and their entries stay in file order |
| Parser.LinesEntriesShape | custom_components/vocabulary_learner/vocabulary/parser.py:257-301 | one entry per line that is neither blank nor a comment, and every entry has a non-empty word |
| Parser.ParseTxt | custom_components/vocabulary_learner/vocabulary/parser.py:257-303 | the line loop over the decoded text computes exactly the text-file entries |
| Parser.ParseTxtLine | custom_components/vocabulary_learner/vocabulary/parser.py:258-301 | the loop body, with its separator loop and `break`, computes exactly what one line gives |
| Parser.TxtEntries | custom_components/vocabulary_learner/vocabulary/parser.py:257-303 | the entries of a text file; stated by `Parser.LinesEntriesShape` and `Parser.LinesEntriesAppend`, and computed by `Parser.ParseTxt` |
| Parser.Single | custom_components/vocabulary_learner/vocabulary/parser.py:190 | one object item gives one entry, or the error its fields raise |
| Parser.EntryFromJson | custom_components/vocabulary_learner/vocabulary/parser.py:48-57 | `from_dict` on a decoded object, raising where `.strip()` would; `Parser.SingleYields` and `Parser.ListOfObjects` state its use by the walk |
| Parser.ThenAfter | custom_components/vocabulary_learner/vocabulary/parser.py:188-199 | the first error ends the walk, and otherwise entries are appended in order |
| Parser.CollectSingles | custom_components/vocabulary_learner/vocabulary/parser.py:188-190 | when every item gives exactly one entry, the walk gives those entries in order |
| Parser.CollectBound | custom_components/vocabulary_learner/vocabulary/parser.py:188-199 | when no step gives more than one entry, the walk gives at most one entry per element |
| Parser.ListOfObjects | custom_components/vocabulary_learner/vocabulary/parser.py:187-190 | a list of well-formed objects gives one entry per object, in order |
| Parser.ItemsBound | custom_components/vocabulary_learner/vocabulary/parser.py:187-190 | a list gives at most one entry per item |
| Parser.Dicts | custom_components/vocabulary_learner/vocabulary/parser.py:188-189 | the objects among a list's items, in order; never more than the items |
| Parser.MemberDicts | custom_components/vocabulary_learner/vocabulary/parser.py:191-199 | the objects a top-level object holds, member by member: an object value itself and the object items of a list value |
| Parser.ThenYields | custom_components/vocabulary_learner/vocabulary/parser.py:188-199 | a walk step followed by the rest of the walk yields the entries of both object sequences in order, and raises exactly when one of those objects does |
| Parser.SingleYields | custom_components/vocabulary_learner/vocabulary/parser.py:190 | one object item yields its entry, or raises exactly when its fields do |
| Parser.ItemEntries | custom_components/vocabulary_learner/vocabulary/parser.py:188-190 | the entries of a list's object items, in order, or the first error; stated by `Parser.MixedList` and `Parser.ListOfObjects` |
| Parser.MixedList | custom_components/vocabulary_learner/vocabulary/parser.py:187-190 | a list with items of any kind gives the entries of its object items in order, skipping the other items, and raises exactly when one of its objects does not read as an entry |
| Parser.ObjectDocument | custom_components/vocabulary_learner/vocabulary/parser.py:191-199 | a top-level object gives, member by member, the entry of each object value and the entries of the object items of each list value, skipping other values; it raises exactly when one of those objects does not read as an entry |
| Parser.MemberEntries | custom_components/vocabulary_learner/vocabulary/parser.py:191-199 | the entries of a top-level object, member by member, or the first error; stated by `Parser.ObjectDocument` and `Parser.JsonRules` |
| Parser.JsonRules | custom_components/vocabulary_learner/vocabulary/parser.py:187-201 | a list document is read as in `Parser.MixedList`, an object document as in `Parser.ObjectDocument`, and any other document gives no entries |
| Parser.JsonEntries | custom_components/vocabulary_learner/vocabulary/parser.py:187-201 | the entries of a decoded document; stated by `Parser.JsonRules`, and computed by `Parser.ParseJson` |
| Parser.ScalarDocument | custom_components/vocabulary_learner/vocabulary/parser.py:187-201 | a document that is neither a list nor an object gives no entries |
| Parser.ParseJson | custom_components/vocabulary_learner/vocabulary/parser.py:181-201 | the nested loops compute exactly the JSON entries, whose rules are stated by `Parser.JsonRules` |
| Parser.CollectItems | custom_components/vocabulary_learner/vocabulary/parser.py:187-190 | the inner loop over a list's items computes exactly its entries |
| Parser.CollectMembers | custom_components/vocabulary_learner/vocabulary/parser.py:191-199 | the loop over a top-level object's values computes exactly their entries, in member order, and stops at the first error |
| Storage.StatusIn | custom_components/vocabulary_learner/storage.py:100-102 | a vocabulary word with no record counts with status "unknown" |
| Storage.ColumnOf | custom_components/vocabulary_learner/storage.py:104-109 | "known" goes to known, "learning" to learning, and every other status to unknown |
| Storage.Counts | custom_components/vocabulary_learner/storage.py:89-109 | the three counts over the vocabulary; stated by `Storage.CountsOne`, `Storage.CountsTotal`, `Storage.CountsAppend` and `Storage.CountsWithoutRecords` |
| Storage.CountsOne | custom_components/vocabulary_learner/storage.py:99-109 | one word adds one to exactly the count its status selects |
| Storage.CountsTotal | custom_components/vocabulary_learner/storage.py:94-109 | the three counts sum to the number of vocabulary words |
| Storage.CountsAppend | custom_components/vocabulary_learner/storage.py:99-109 | counting is additive over the vocabulary |
| Storage.CountsWithoutRecords | custom_components/vocabulary_learner/storage.py:99-109 | with no records, every vocabulary word counts as unknown |
| Storage.CountStatuses | custom_components/vocabulary_learner/storage.py:91-109 | the counting loop computes the counts word by word, and they sum to the vocabulary length |
| Storage.WithCounts | custom_components/vocabulary_learner/storage.py:111-117 | the four count keys are overwritten and every other statistics key is kept |
| Storage.VocabularyStorage.GetVocabulary | custom_components/vocabulary_learner/storage.py:46-48 | the stored list, or `[]` when there is none |
| Storage.VocabularyStorage.GetProgress | custom_components/vocabulary_learner/storage.py:54-56 | the stored map, or `{}` when there is none |
| Storage.VocabularyStorage.GetStatistics | custom_components/vocabulary_learner/storage.py:73-83 | the stored statistics, or the all-zero default when there are none |
| Storage.VocabularyStorage.GetSettings | custom_components/vocabulary_learner/storage.py:119-121 | the stored settings, or `{}` when there are none |
| Storage.VocabularyStorage.GetWordProgress | custom_components/vocabulary_learner/storage.py:62-65 | the word's record, or None exactly when it has none |
| Storage.VocabularyStorage.SetVocabulary | custom_components/vocabulary_learner/storage.py:50-52 | replaces the vocabulary section only |
| Storage.VocabularyStorage.SetProgress | custom_components/vocabulary_learner/storage.py:58-60 | replaces the progress section only |
| Storage.VocabularyStorage.SetStatistics | custom_components/vocabulary_learner/storage.py:85-87 | replaces the statistics section only |
| Storage.VocabularyStorage.SetSettings | custom_components/vocabulary_learner/storage.py:123-125 | replaces the settings section only |
| Storage.VocabularyStorage.SetWordProgress | custom_components/vocabulary_learner/storage.py:67-71 | creates the progress map when absent, sets this word's record, and changes no other word and no other section |
| Storage.VocabularyStorage.UpdateStatistics | custom_components/vocabulary_learner/storage.py:89-117 | sets the counts of the vocabulary's statuses and the total; known + learning + unknown equals the total, which equals the vocabulary length; other statistics keys and sections are kept |
| Storage.VocabularyStorage.Import | custom_components/vocabulary_learner/storage.py:137-146 | each section present in the backup replaces the stored one, and the others keep their value |
| Storage.VocabularyStorage.ResetProgress | custom_components/vocabulary_learner/storage.py:149-157 | empties the progress; sets known and learning to 0, unknown to the stored total and words today to 0; fails (the source's KeyError) exactly when the stored statistics have no total, having zeroed only known and learning; after a reset that succeeds, the three counts sum to the total |
| WordManagement.NewProgress | vocabulary/word_manager.py:21-42 | `WordProgress(word=word)` with every other field at its default; the records it seeds are described by `WordManagement.SeedContents` and `WordManagement.StatisticsAfterReset` |
| WordManagement.StampOf | vocabulary/word_manager.py:50-55 | `to_dict` writes a timestamp that `from_dict` reads back as the same instant |
| WordManagement.ToDict | vocabulary/word_manager.py:44-60 | `to_dict`; `WordManagement.ProgressRoundTrip` and `WordManagement.DictRoundTrip` state what reading it back gives |
| WordManagement.FromDict | vocabulary/word_manager.py:63-89 | missing keys take the defaults "", "unknown", 0, 2.5, 1, 0, 0; a timestamp is present exactly when it parses |
| WordManagement.ProgressRoundTrip | vocabulary/word_manager.py:44-89 | `from_dict(to_dict(p))` reproduces `p` |
| WordManagement.DictRoundTrip | vocabulary/word_manager.py:44-89 | `to_dict(from_dict(d))` reproduces d exactly when d has all nine keys, no others, and timestamps that are absent or parse |
| WordManagement.MarksKeepSchedule | vocabulary/word_manager.py:155-189 | no mark changes the word, the review count, the next review, the easiness or the interval |
| WordManagement.Known | vocabulary/word_manager.py:155-164 | `mark_known` on one record; stated by `WordManagement.MarkRuns` and `WordManagement.MarksKeepSchedule` |
| WordManagement.Unknown | vocabulary/word_manager.py:168-177 | `mark_unknown` on one record; stated by `WordManagement.MarkRuns` and `WordManagement.MarksKeepSchedule` |
| WordManagement.Learning | vocabulary/word_manager.py:181-189 | `mark_learning` on one record; stated by `WordManagement.LearningRule` and `WordManagement.MarksKeepSchedule` |
| WordManagement.MarkRuns | vocabulary/word_manager.py:155-177 | `mark_known` sets "known" and one more success with no failures; `mark_unknown` mirrors it; both stamp the review now |
| WordManagement.LearningRule | vocabulary/word_manager.py:181-189 | `mark_learning` promotes only "unknown" to "learning"; any other record is unchanged; doing it twice is doing it once |
| WordManagement.StampValue | vocabulary/word_manager.py:201-203 | a timestamp copied in by `update_progress` holds the instant the text names, or none |
| WordManagement.ApplyDict | vocabulary/word_manager.py:193-203 | the `setattr` loop of `update_progress`; stated by `WordManagement.ApplyDictRules` |
| WordManagement.ApplyDictRules | vocabulary/word_manager.py:193-203 | a complete dict replaces the record with the one it describes; `{}` changes nothing; keys that are not attributes are ignored |
| WordManagement.WordsBound | vocabulary/word_manager.py:235 | a vocabulary has no more distinct words than entries |
| WordManagement.SeedStep | vocabulary/word_manager.py:124-126 | one more entry adds a default record for its word only when the word has none |
| WordManagement.Seed | vocabulary/word_manager.py:116-126 | the records after `save_vocabulary` seeds them; stated by `WordManagement.SeedContents` and `WordManagement.SeedStep` |
| WordManagement.SeedContents | vocabulary/word_manager.py:116-126 | after seeding, a word has a record exactly when it had one or is in the vocabulary; old records are kept and new ones are defaults |
| WordManagement.ToDicts | vocabulary/word_manager.py:130-136 | the dicts handed to storage have the same words, and each reads back as its record |
| WordManagement.EntryDicts | vocabulary/word_manager.py:118-120 | one dict per vocabulary entry, in order |
| WordManagement.WithStatus | vocabulary/word_manager.py:209-231 | `get_*_words` lists exactly the words whose record has that status |
| WordManagement.StatusCountsBound | vocabulary/word_manager.py:209-238 | no word is counted under two statuses |
| WordManagement.Statistics | vocabulary/word_manager.py:233-246 | `get_statistics`; stated by `WordManagement.StatisticsBounds`, `WordManagement.StatisticsAfterReset` and `WordManagement.PercentOverHundred` |
| WordManagement.PercentBound | vocabulary/word_manager.py:245 | when the known count is at most the total, the percentage formula lies in [0, 100] |
| WordManagement.StatisticsBounds | vocabulary/word_manager.py:233-246 | when every record belongs to a vocabulary word, the counts sum to at most the total, and the percentage, known/total*100 or 0 for an empty vocabulary, lies in [0, 100] |
| WordManagement.PercentOverHundred | vocabulary/word_manager.py:233-246 | records are not tied to the vocabulary: two known records next to a one-word vocabulary give 200 percent |
| WordManagement.StatisticsAfterReset | vocabulary/word_manager.py:233-253 | after a reset every vocabulary word is unknown: no known, no learning, and unknown = the number of distinct words |
| WordManagement.WordManager.GetProgress | vocabulary/word_manager.py:151-153 | the word's record, or None exactly when it has none |
| WordManagement.WordManager.GetWord | vocabulary/word_manager.py:144-149 | the first vocabulary entry with that word, or None exactly when there is none |
| WordManagement.WordManager.MarkKnown | vocabulary/word_manager.py:155-164 | only that word's record changes, becoming the known mark of its record or of a fresh default |
| WordManagement.WordManager.MarkUnknown | vocabulary/word_manager.py:168-177 | only that word's record changes, becoming the unknown mark of its record or of a fresh default |
| WordManagement.WordManager.MarkLearning | vocabulary/word_manager.py:181-189 | only that word's record changes, becoming the learning mark of its record or of a fresh default |
| WordManagement.WordManager.UpdateProgress | vocabulary/word_manager.py:193-203 | only that word's record changes: the dict's attribute keys are merged into its record or into a fresh default |
| WordManagement.WordManager.SaveProgress | vocabulary/word_manager.py:130-138 | storage receives the dicts of all records and recounted statistics; the vocabulary and settings sections are kept |
| WordManagement.WordManager.SaveVocabulary | vocabulary/word_manager.py:116-128 | the vocabulary is replaced; every existing record is kept and each new word gets a default; storage receives both sections and recounted statistics |
| WordManagement.WordManager.SeedProgress | vocabulary/word_manager.py:124-126 | the loop over the new vocabulary gives exactly the seeded records and leaves the vocabulary alone |
| WordManagement.WordManager.ResetProgress | vocabulary/word_manager.py:248-253 | the map holds exactly one default record per vocabulary word, and nothing else |
| Coordinator.TwoDigits | custom_components/vocabulary_learner/coordinator.py:261-262 | the value of a one- or two-digit clock field |
| Coordinator.HourBound | custom_components/vocabulary_learner/coordinator.py:261-262 | an hour that `%H` accepts is at most 23 |
| Coordinator.MinuteBound | custom_components/vocabulary_learner/coordinator.py:261-262 | a minute that `%M` accepts is at most 59 |
| Coordinator.QuietHours | custom_components/vocabulary_learner/coordinator.py:253-271 | `_is_quiet_hours`; stated by `Coordinator.QuietWindow`, `Coordinator.UnparseableNeverQuiet` and `Coordinator.DefaultQuietHours` |
| Coordinator.ParseClock | custom_components/vocabulary_learner/coordinator.py:261-262 | `strptime(s, "%H:%M")` succeeds exactly for an hour, a colon and a minute, with nothing else; the time it gives is hour × 60 + minute minutes after midnight, read from the digits on each side of the colon |
| Coordinator.QuietWindow | custom_components/vocabulary_learner/coordinator.py:265-268 | a window with start at or before end is quiet exactly from start to end, both included; a window that spans midnight is quiet except strictly between end and start |
| Coordinator.UnparseableNeverQuiet | custom_components/vocabulary_learner/coordinator.py:259-271 | a start or end that does not parse means not quiet |
| Coordinator.DefaultClocks | custom_components/vocabulary_learner/coordinator.py:256-262 | the default times "22:00" and "08:00" read as 22:00 and 08:00 |
| Coordinator.ShortClock | custom_components/vocabulary_learner/coordinator.py:261-262 | "7:5" reads as 07:05: hour and minute may be a single digit |
| Coordinator.RejectedClocks | custom_components/vocabulary_learner/coordinator.py:261-262 | "24:00", "12:60" and "1200" do not parse |
| Coordinator.DefaultQuietHours | custom_components/vocabulary_learner/coordinator.py:256-268 | with nothing configured, quiet hours run from 22:00 to 08:00 across midnight |
| Coordinator.DefaultProgressScoresTop | custom_components/vocabulary_learner/coordinator.py:134-139 | the progress assumed for a word with no record scores the top priority, 1000 |
| Coordinator.WordDataOf | custom_components/vocabulary_learner/coordinator.py:117-140 | each candidate carries the entry's fields and its record's dict, or the default progress when it has no record |
| Coordinator.Candidates | custom_components/vocabulary_learner/coordinator.py:115-141 | one candidate per vocabulary entry, in vocabulary order |
| Coordinator.NextWordOf | custom_components/vocabulary_learner/coordinator.py:102-151 | `_get_next_word`; stated by `Coordinator.NextWordRule` |
| Coordinator.NextWordRule | custom_components/vocabulary_learner/coordinator.py:111-151 | there is a next word exactly when the vocabulary is non-empty and the limit keeps a word; it is the first candidate of highest priority |
| Coordinator.AfterKnownReview | custom_components/vocabulary_learner/coordinator.py:203-212 | the record `mark_word_known` leaves; stated by `Coordinator.KnownReviewEffect` |
| Coordinator.AfterUnknownReview | custom_components/vocabulary_learner/coordinator.py:216-225 | the record `mark_word_unknown` leaves; stated by `Coordinator.UnknownReviewEffect` |
| Coordinator.KnownReviewEffect | custom_components/vocabulary_learner/coordinator.py:203-212 | a known review adds 2 to the consecutive successes, zeroes the failures, adds 1 to the review count, stamps the review now and schedules the next one `interval` days later; the status is "known" exactly when the prior count was at least 3, else "learning" |
| Coordinator.UnknownReviewEffect | custom_components/vocabulary_learner/coordinator.py:216-225 | an unknown review gives interval 1 and "unknown", adds 2 to the consecutive failures, zeroes the successes and adds 1 to the review count |
| Coordinator.Message | custom_components/vocabulary_learner/coordinator.py:296-298 | the notification text; stated by `Coordinator.MessageRule` |
| Coordinator.MessageRule | custom_components/vocabulary_learner/coordinator.py:296-298 | the message is the book emoji, the word, a line break and the translation, followed by a blank line and "Example: " only when the example is non-empty |
| Coordinator.ServiceName | custom_components/vocabulary_learner/coordinator.py:302-304 | the service is the text after the last "." (it holds no "."), or the whole id when it has no "." |
| Coordinator.Notification | custom_components/vocabulary_learner/coordinator.py:279-317 | a notification goes out exactly when an entity is configured, it is not quiet hours and there is a current word; it carries that word's message and the entity's service |
| Coordinator.VocabularyCoordinator.NextWord | custom_components/vocabulary_learner/coordinator.py:102-151 | the candidate loop and the ranking compute exactly the next word |
| Coordinator.VocabularyCoordinator.MarkWordKnown | custom_components/vocabulary_learner/coordinator.py:203-213 | only that word's record changes, to the known review's result; storage receives all records and statistics recounted over its vocabulary, and its vocabulary and settings sections stay as they were |
| Coordinator.VocabularyCoordinator.MarkWordUnknown | custom_components/vocabulary_learner/coordinator.py:216-226 | only that word's record changes, to the unknown review's result; storage receives all records and statistics recounted over its vocabulary, and its vocabulary and settings sections stay as they were |
| ApiClient.Guarded | custom_components/vocabulary_learner/vocabulary/api_client.py:87-110 | `x[key]` behind `key in x` is the member lookup on a dict, and raises exactly for non-containers or a list or str that contains the key |
| ApiClient.ExampleStep | custom_components/vocabulary_learner/vocabulary/api_client.py:94-98 | an example only appends to the gathered lists, keeps the word, and keeps a truthy etymology |
| ApiClient.SynonymText | custom_components/vocabulary_learner/vocabulary/api_client.py:106-110 | a str synonym is kept as it is, and only strs and dicts contribute |
| ApiClient.SynonymStep | custom_components/vocabulary_learner/vocabulary/api_client.py:106-110 | a synonym never raises and only appends |
| ApiClient.DefinitionStep | custom_components/vocabulary_learner/vocabulary/api_client.py:88-98 | a definition only appends, even when it raises |
| ApiClient.WithEtymology | custom_components/vocabulary_learner/vocabulary/api_client.py:101-102 | an etymology is taken only while no truthy one is recorded |
| ApiClient.EntryDefinitions | custom_components/vocabulary_learner/vocabulary/api_client.py:87-98 | an entry's definitions only append |
| ApiClient.EntrySynonyms | custom_components/vocabulary_learner/vocabulary/api_client.py:105-110 | an entry's synonyms only append |
| ApiClient.EntryStep | custom_components/vocabulary_learner/vocabulary/api_client.py:85-110 | an entry only appends and keeps a truthy etymology |
| ApiClient.LanguageStep | custom_components/vocabulary_learner/vocabulary/api_client.py:83-85 | a language only appends |
| ApiClient.ParseResponse | custom_components/vocabulary_learner/vocabulary/api_client.py:68-115 | the result keeps the word, and the walk only ever adds to the empty result |
| ApiClient.FoldExtends | custom_components/vocabulary_learner/vocabulary/api_client.py:80-113 | a loop whose body only adds keeps everything gathered, even when an exception ends it |
| ApiClient.FoldAppend | custom_components/vocabulary_learner/vocabulary/api_client.py:82 | looping over one list and then another is looping over both |
| ApiClient.EarlierLanguagesKept | custom_components/vocabulary_learner/vocabulary/api_client.py:80-115 | an exception in a later language keeps everything the earlier languages gave |
| ApiClient.SkippedShapes | custom_components/vocabulary_learner/vocabulary/api_client.py:83-85 | values that are not lists are skipped as languages, and values that are not dicts are skipped as entries |
| ApiClient.EtymologyKept | custom_components/vocabulary_learner/vocabulary/api_client.py:101-102 | once a truthy etymology is recorded, no later language replaces it |
| ApiClient.FoldGathers | custom_components/vocabulary_learner/vocabulary/api_client.py:82-110 | a loop none of whose steps raises gathers, in order, what each element gives |
| ApiClient.ExampleGathers | custom_components/vocabulary_learner/vocabulary/api_client.py:94-98 | an example that does not raise adds its "text" to the examples |
| ApiClient.SynonymGathers | custom_components/vocabulary_learner/vocabulary/api_client.py:106-110 | a synonym adds what it gives to the synonyms |
| ApiClient.DefinitionGathers | custom_components/vocabulary_learner/vocabulary/api_client.py:88-98 | a definition that does not raise adds its "definition", then its examples in order |
| ApiClient.EntryGathers | custom_components/vocabulary_learner/vocabulary/api_client.py:85-110 | an entry that does not raise adds its definitions with their examples, then its synonyms |
| ApiClient.LanguageGathers | custom_components/vocabulary_learner/vocabulary/api_client.py:83-110 | a language that does not raise adds its entries' lists in order |
| ApiClient.ParseGathersInOrder | custom_components/vocabulary_learner/vocabulary/api_client.py:72-110 | on a response where nothing raises, definitions, examples and synonyms are collected exactly in document order |
| ApiClient.WalkDefinition | custom_components/vocabulary_learner/vocabulary/api_client.py:88-98 | the examples loop computes exactly the definition step |
| ApiClient.WalkEntry | custom_components/vocabulary_learner/vocabulary/api_client.py:85-110 | the definitions and synonyms loops compute exactly the entry step |
| ApiClient.ParseWiktionaryResponse | custom_components/vocabulary_learner/vocabulary/api_client.py:68-115 | the nested loops, left at the first exception, compute exactly the walk |
| ApiClient.WikiLookup | custom_components/vocabulary_learner/vocabulary/api_client.py:229-230 | Wiktionary contributes exactly when its request gave a body |
| ApiClient.FirstOrNull | custom_components/vocabulary_learner/vocabulary/api_client.py:232-235 | an empty list offers nothing |
| ApiClient.GetWordInfo | custom_components/vocabulary_learner/vocabulary/api_client.py:204-249 | a result keeps the word and always has a truthy translation |
| ApiClient.TranslationRule | custom_components/vocabulary_learner/vocabulary/api_client.py:229-249 | there is a result exactly when the first definition is truthy or, for different languages, the machine translation is; the first definition wins |
| ApiClient.TranslatorOnlyWhenNeeded | custom_components/vocabulary_learner/vocabulary/api_client.py:242-247 | with a truthy first definition, or equal languages, LibreTranslate's answer cannot change the result |
| ApiClient.WikiFieldsCopied | custom_components/vocabulary_learner/vocabulary/api_client.py:232-239 | the example is the first example; the synonyms are Wiktionary's; the etymology is Wiktionary's when truthy, else none |
| ApiClient.CleanResponseTranslation | custom_components/vocabulary_learner/vocabulary/api_client.py:68-115 | on a response where nothing raises, the translation offered is the first definition in document order |
| ApiClient.NoSourceNoResult | custom_components/vocabulary_learner/vocabulary/api_client.py:229-249 | with no Wiktionary answer and equal languages there is never a result |
| ConfigFlow.ApplySchema | custom_components/vocabulary_learner/config_flow.py:100-116 | the user step's schema: defaults for missing fields, the two ranges and the language choice; stated by `ConfigFlow.SchemaRule` and `ConfigFlow.DefaultsPass` |
| ConfigFlow.SchemaRule | custom_components/vocabulary_learner/config_flow.py:100-116 | the schema accepts exactly words per day in [1, 100], frequency in [1, 1440] and a listed language, with defaults 10, 60 and "de" for missing fields; given values are kept |
| ConfigFlow.DefaultsPass | custom_components/vocabulary_learner/config_flow.py:100-116 | an empty form passes with all defaults |
| ConfigFlow.ValidateConfig | custom_components/vocabulary_learner/config_flow.py:121-145 | the only errors are the empty-path error and the no-source error |
| ConfigFlow.ValidationRule | custom_components/vocabulary_learner/config_flow.py:123-145 | the empty-path error comes exactly for a given path of white space only; the no-source error exactly for no path with the API off; otherwise the configuration passes |
| ConfigFlow.ValidationDefaults | custom_components/vocabulary_learner/config_flow.py:121-145 | with neither key the API default (on) makes the configuration valid; a path with a non-space character passes whatever the API switch says |
| ConfigFlow.UniqueId | custom_components/vocabulary_learner/config_flow.py:82 | the unique id `DOMAIN + "_" + name` the user step sets; `ConfigFlow.StepUserRule` states the abort when it is already configured |
| ConfigFlow.StepUser | custom_components/vocabulary_learner/config_flow.py:70-119 | no input shows the empty form, and a created entry holds the configuration and is titled with its name |
| ConfigFlow.StepUserRule | custom_components/vocabulary_learner/config_flow.py:76-95 | an entry is created exactly for a valid configuration with an unused unique id; an invalid one gets the `invalid_vocab_file` error; a valid duplicate aborts |

## Left out

- Network I/O is not modelled: aiohttp sessions, URLs, timeouts and HTTP statuses. The decoded Wiktionary body and LibreTranslate's answer are parameters of `ApiClient.GetWordInfo`, so `get_languages` is not modelled.
- File reading is not modelled: `open`, the encoding fallbacks and `json.load`. The parsers start from the decoded text or JSON value, and `Parser.DetectFormat` takes the file's text as `None` when it cannot be read.
- CSV and TSV parsing is not modelled; it depends on `csv.Sniffer` and `DictReader` behaviour.
- `parse_file` is not modelled; it only dispatches on the detected format.
- Persistence is not modelled: the Home Assistant `Store` calls, `async_load`, `async_save`, `async_export`, and every awaited save. A save is the end of the in-memory update that precedes it.
- `load_vocabulary` and the coordinator's `_load_vocabulary` are not modelled; they read storage, a file or the API. `Coordinator.VocabularyCoordinator.NextWord` therefore returns None for an empty vocabulary without trying to load one.
- The refresh loop is not modelled: `_async_update_data`, `async_request_refresh`, and the assignment of `current_word`. `Coordinator.Notification` takes the current word as a parameter.
- The notification timers (`call_later`) and the `notify` service call are not modelled. `Coordinator.Notification` returns what would be sent.
- The options flow, the form display, and the coercion of form text to numbers are not modelled. The form's fields arrive typed.
- Each nested loop of the source is one method per level: `Parser.ParseJson`, `Parser.CollectMembers` and `Parser.CollectItems`; `ApiClient.ParseWiktionaryResponse`, `ApiClient.WalkEntry` and `ApiClient.WalkDefinition`; `WordManagement.WordManager.SeedProgress` inside `save_vocabulary`. Control flow, including the early exit on an exception, is unchanged.
- Logging is not modelled, and neither are exception message texts other than the two of `_validate_config`.
- Scheduler.CalculateNextReview: uses exact reals. Python float rounding, such as `int(interval * easiness)` coming out one lower at an exact product, is not reproduced.
- Scheduler.WordPriority: ties between floats are exact equalities of reals.
- Scheduler.UpdatedProgress: is modelled on values. The source mutates the dict it is given and returns it, but its one caller passes a fresh `to_dict()` copy, so the aliasing is not observable there.
- Scheduler.UpdatedProgress: stores the new review times as `At` stamps. The source stores ISO strings, `update_progress` copies them into `WordProgress` through `setattr`, and the following `to_dict` calls `isoformat()` on a string and fails. That discrepancy is not reproduced: `WordManagement.StampValue` reads the text back as the instant it names.
- WordManagement.ApplyDict: treats a value whose type does not match its attribute (a string review count, say) as the field's own type. Values are typed in the model.
- WordManagement.ApplyDict: ignores every key that is not one of the nine record fields. `hasattr` is also true for the names of methods and special attributes (`to_dict`, `from_dict`, `__class__`, and so on), which `setattr` would then overwrite on that record.
- WordManagement.StatisticsBounds: its hypothesis, that every record belongs to a vocabulary word, is not an invariant `WordManagement.WordManager` keeps. The marks and `update_progress` create a record for any word, and `save_vocabulary` keeps the records of words it drops. `WordManagement.PercentOverHundred` shows a percentage above 100 in such a state.
- WordManagement.WithStatus: models `get_known_words` and its two siblings as sets, so the order of their lists is left out.
- WordManagement.WordManager: `WordProgress` objects are values in a map. Sharing one object between two holders is left out (the source never does it).
- Clock and time zones: `datetime.now()` is the `now` parameter, and a composite operation such as `mark_word_known` uses one `now` throughout. The source reads the clock three times there (word_manager.py line 162, spaced_repetition.py lines 66 and 144), microseconds apart. Time-zone awareness is left out.
- Coordinator.ParseClock: accepts ASCII digits only. `strptime` also accepts other Unicode decimal digits.
- Parser.Extension: follows `pathlib` without normalising repeated or trailing slashes, and `lower()` is ASCII only.
- Storage.VocabularyStorage: statistics values are integers. Non-integer values an import could bring are not modelled.
- ApiClient.ParseResponse: walks every member of a decoded object, so a name that occurs twice is walked twice, and `Json.Lookup` keeps the first of the two. `json.load` keeps one member per name: the last value, at the first occurrence's position. Decoded Wiktionary bodies do not repeat names.
- Parser.MemberEntries: walks every member of a top-level object in the same way, so a repeated name contributes both of its values where the source sees only the last one, at the first occurrence's position.
