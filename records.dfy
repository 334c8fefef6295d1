/** The dictionary shapes that pass between the components: a word's
    progress as a `dict` (what `WordProgress.to_dict` produces and the
    scheduler reads and writes), a vocabulary entry as a `dict` (what
    storage keeps), the statistics `dict`, and the word-with-progress
    `dict` the coordinator hands to the scheduler. Every key that Python
    may find missing is an `Option`: `None` means the key is absent. */
module Records {
  import opened Common
  import opened Json

  /** The three statuses the program writes. Statuses are kept as text,
      because stored progress may carry any other string. */
  const UNKNOWN: string := "unknown"
  const LEARNING: string := "learning"
  const KNOWN: string := "known"

  /** Instants are whole seconds on one clock. */
  type Timestamp = int
  const SECONDS_PER_DAY: int := 86400

  /** A timestamp as it is stored in a progress dict: `None` (or an empty
      string), a text `fromisoformat` rejects, or the ISO text of instant `t`. */
  datatype Stamp = NullStamp | Unparseable | At(t: Timestamp)

  /** `datetime.fromisoformat(s)` guarded by `if s:` and `except (ValueError,
      TypeError)`: anything but a well-formed ISO text reads as no time. */
  function ParseStamp(s: Option<Stamp>): (r: Option<Timestamp>)
    ensures r.Some? <==> s.Some? && s.value.At?
    ensures r.Some? ==> s == Some(At(r.value))
  {
    match s
    case Some(At(t)) => Some(t)
    case _ => None
  }

  /** A progress dict. The nine named keys are the attributes of
      `WordProgress`; `extra` holds any other key a stored dict may carry. */
  datatype ProgressDict = ProgressDict(
    word: Option<string>,
    status: Option<string>,
    reviewCount: Option<int>,
    lastReview: Option<Stamp>,
    nextReview: Option<Stamp>,
    easiness: Option<real>,
    interval: Option<int>,
    consecutiveCorrect: Option<int>,
    consecutiveIncorrect: Option<int>,
    extra: map<string, Value>)

  /** `{}`. */
  const EMPTY_PROGRESS: ProgressDict :=
    ProgressDict(None, None, None, None, None, None, None, None, None, map[])

  /** A vocabulary entry as a dict (`VocabularyEntry.to_dict`). `word`,
      `translation` and `example` are absent or strings; `synonyms` and
      `etymology` are kept as whatever value they hold, `Null` when absent. */
  datatype EntryDict = EntryDict(
    word: Option<string>,
    translation: Option<string>,
    example: Option<string>,
    synonyms: Value,
    etymology: Value)

  /** The statistics dict. Storage's default carries the first seven keys;
      the word manager's carries the four counts and `progress_percent`;
      `extra` holds any other key an imported dict may carry. */
  datatype Stats = Stats(
    totalWords: Option<int>,
    knownWords: Option<int>,
    learningWords: Option<int>,
    unknownWords: Option<int>,
    wordsToday: Option<int>,
    streakDays: Option<int>,
    lastStudyDate: Option<Value>,
    progressPercent: Option<real>,
    extra: map<string, Value>)

  /** The dict `_get_next_word` builds per vocabulary entry and
      `get_words_for_review` ranks. */
  datatype WordData = WordData(
    word: string,
    translation: string,
    example: Option<string>,
    synonyms: Value,
    etymology: Value,
    progress: ProgressDict)
}
