/** The progress book (`word_manager.py`): one `WordProgress` record per
    word, its dict form, and the `WordManager` that keeps the vocabulary
    and the word-to-record map, marks words, merges scheduler results and
    writes both back to storage. Awaiting the store's save is outside the
    model; the in-memory effect of each operation is modelled. */
module WordManagement {
  import opened Common
  import opened Json
  import opened Records
  import opened Parser
  import opened Storage

  /** A word's learning record. A timestamp is `None` when the word was
      never reviewed (or the stored text did not parse). */
  datatype WordProgress = WordProgress(
    word: string,
    status: string,
    reviewCount: int,
    lastReview: Option<Timestamp>,
    nextReview: Option<Timestamp>,
    easiness: real,
    interval: int,
    consecutiveCorrect: int,
    consecutiveIncorrect: int)

  /** `WordProgress(word=word)`: every other field at its default. */
  function NewProgress(word: string): WordProgress {
    WordProgress(word, UNKNOWN, 0, None, None, 2.5, 1, 0, 0)
  }

  /** How `to_dict` writes a timestamp: its ISO text, or `None`. */
  function StampOf(t: Option<Timestamp>): (s: Stamp)
    ensures ParseStamp(Some(s)) == t
  {
    if t.Some? then At(t.value) else NullStamp
  }

  /** `WordProgress.to_dict`: all nine keys, nothing else. */
  function ToDict(p: WordProgress): ProgressDict {
    ProgressDict(Some(p.word), Some(p.status), Some(p.reviewCount),
                 Some(StampOf(p.lastReview)), Some(StampOf(p.nextReview)),
                 Some(p.easiness), Some(p.interval),
                 Some(p.consecutiveCorrect), Some(p.consecutiveIncorrect), map[])
  }

  /** `WordProgress.from_dict`: a missing key takes the constructor's
      default, a timestamp that is missing, empty or not ISO text is `None`,
      and any other key is ignored. */
  function FromDict(d: ProgressDict): (p: WordProgress)
    ensures d.word.None? ==> p.word == ""
    ensures d.status.None? ==> p.status == UNKNOWN
    ensures d.reviewCount.None? ==> p.reviewCount == 0
    ensures d.easiness.None? ==> p.easiness == 2.5
    ensures d.interval.None? ==> p.interval == 1
    ensures d.consecutiveCorrect.None? ==> p.consecutiveCorrect == 0
    ensures d.consecutiveIncorrect.None? ==> p.consecutiveIncorrect == 0
    ensures p.lastReview.Some? <==> d.lastReview.Some? && d.lastReview.value.At?
    ensures p.nextReview.Some? <==> d.nextReview.Some? && d.nextReview.value.At?
  {
    WordProgress(d.word.GetOr(""), d.status.GetOr(UNKNOWN), d.reviewCount.GetOr(0),
                 ParseStamp(d.lastReview), ParseStamp(d.nextReview),
                 d.easiness.GetOr(2.5), d.interval.GetOr(1),
                 d.consecutiveCorrect.GetOr(0), d.consecutiveIncorrect.GetOr(0))
  }

  /** Writing a record and reading it back gives the same record. */
  lemma ProgressRoundTrip(p: WordProgress)
    ensures FromDict(ToDict(p)) == p
  {
  }

  /** A dict in the form `to_dict` writes: every key present, timestamps
      absent or well-formed, no other key. */
  predicate Canonical(d: ProgressDict) {
    && d.word.Some? && d.status.Some? && d.reviewCount.Some?
    && d.lastReview.Some? && !d.lastReview.value.Unparseable?
    && d.nextReview.Some? && !d.nextReview.value.Unparseable?
    && d.easiness.Some? && d.interval.Some?
    && d.consecutiveCorrect.Some? && d.consecutiveIncorrect.Some?
    && d.extra == map[]
  }

  /** Reading a dict and writing it back gives the same dict exactly when
      the dict was already in canonical form. */
  lemma DictRoundTrip(d: ProgressDict)
    ensures ToDict(FromDict(d)) == d <==> Canonical(d)
  {
    if Canonical(d) {
      assert StampOf(ParseStamp(d.lastReview)) == d.lastReview.value;
      assert StampOf(ParseStamp(d.nextReview)) == d.nextReview.value;
    }
  }

  // ---------------------------------------------------------------
  // The marks, on one record
  // ---------------------------------------------------------------

  /** What `mark_known` does to a record at time `now`. */
  function Known(p: WordProgress, now: Timestamp): WordProgress {
    p.(status := KNOWN, lastReview := Some(now),
       consecutiveCorrect := p.consecutiveCorrect + 1, consecutiveIncorrect := 0)
  }

  /** What `mark_unknown` does to a record at time `now`. */
  function Unknown(p: WordProgress, now: Timestamp): WordProgress {
    p.(status := UNKNOWN, lastReview := Some(now),
       consecutiveIncorrect := p.consecutiveIncorrect + 1, consecutiveCorrect := 0)
  }

  /** What `mark_learning` does to a record at time `now`: only an unknown
      word is promoted (and stamped). */
  function Learning(p: WordProgress, now: Timestamp): WordProgress {
    if p.status == UNKNOWN then p.(status := LEARNING, lastReview := Some(now)) else p
  }

  /** The part of a record the scheduler owns. */
  function Schedule(p: WordProgress): (int, Option<Timestamp>, real, int) {
    (p.reviewCount, p.nextReview, p.easiness, p.interval)
  }

  /** Marking a word touches its status, review stamp and runs, never its
      schedule or its word. */
  lemma MarksKeepSchedule(p: WordProgress, now: Timestamp)
    ensures Schedule(Known(p, now)) == Schedule(p) && Known(p, now).word == p.word
    ensures Schedule(Unknown(p, now)) == Schedule(p) && Unknown(p, now).word == p.word
    ensures Schedule(Learning(p, now)) == Schedule(p) && Learning(p, now).word == p.word
  {
  }

  /** A known mark extends the run of successes and ends the run of
      failures; an unknown mark does the opposite. */
  lemma MarkRuns(p: WordProgress, now: Timestamp)
    ensures Known(p, now).consecutiveCorrect == p.consecutiveCorrect + 1 && Known(p, now).consecutiveIncorrect == 0
    ensures Unknown(p, now).consecutiveIncorrect == p.consecutiveIncorrect + 1 && Unknown(p, now).consecutiveCorrect == 0
    ensures Known(p, now).status == KNOWN && Unknown(p, now).status == UNKNOWN
    ensures Known(p, now).lastReview == Some(now) && Unknown(p, now).lastReview == Some(now)
  {
  }

  /** The learning mark promotes an unknown word and leaves "learning" and
      "known" (and any other status) as they are; marking twice is marking once. */
  lemma LearningRule(p: WordProgress, t1: Timestamp, t2: Timestamp)
    ensures Learning(p, t1).status == if p.status == UNKNOWN then LEARNING else p.status
    ensures p.status != UNKNOWN ==> Learning(p, t1) == p
    ensures Learning(Learning(p, t1), t2) == Learning(p, t1)
  {
  }

  // ---------------------------------------------------------------
  // Merging a scheduler result
  // ---------------------------------------------------------------

  /** The in-memory value `setattr` leaves for a timestamp key: the
      instant the text denotes, `None` for anything else. */
  function StampValue(s: Stamp): (t: Option<Timestamp>)
    ensures t == ParseStamp(Some(s))
  {
    if s.At? then Some(s.t) else None
  }

  /** The `setattr` loop of `update_progress`: every key that names a
      `WordProgress` attribute overwrites it; any other key is ignored. */
  function ApplyDict(p: WordProgress, d: ProgressDict): WordProgress {
    WordProgress(
      d.word.GetOr(p.word),
      d.status.GetOr(p.status),
      d.reviewCount.GetOr(p.reviewCount),
      if d.lastReview.Some? then StampValue(d.lastReview.value) else p.lastReview,
      if d.nextReview.Some? then StampValue(d.nextReview.value) else p.nextReview,
      d.easiness.GetOr(p.easiness),
      d.interval.GetOr(p.interval),
      d.consecutiveCorrect.GetOr(p.consecutiveCorrect),
      d.consecutiveIncorrect.GetOr(p.consecutiveIncorrect))
  }

  /** Merging a complete dict replaces the record by the one it describes;
      merging `{}` changes nothing; keys outside the record are ignored. */
  lemma ApplyDictRules(p: WordProgress, q: WordProgress, d: ProgressDict, m: map<string, Value>)
    ensures ApplyDict(p, ToDict(q)) == q
    ensures ApplyDict(p, EMPTY_PROGRESS) == p
    ensures ApplyDict(p, d.(extra := m)) == ApplyDict(p, d)
    ensures Canonical(d) ==> ApplyDict(p, d) == FromDict(d)
  {
  }

  // ---------------------------------------------------------------
  // Vocabulary-wide helpers
  // ---------------------------------------------------------------

  /** The words of a vocabulary. */
  function Words(vocabulary: seq<VocabularyEntry>): set<string> {
    set k | 0 <= k < |vocabulary| :: vocabulary[k].word
  }

  /** A vocabulary has at most as many distinct words as entries. */
  lemma {:induction false} WordsBound(vocabulary: seq<VocabularyEntry>)
    ensures |Words(vocabulary)| <= |vocabulary|
  {
    if vocabulary != [] {
      var last := |vocabulary| - 1;
      var front := vocabulary[..last];
      WordsBound(front);
      assert Words(vocabulary) == Words(front) + {vocabulary[last].word} by {
        forall w | w in Words(vocabulary)
          ensures w in Words(front) + {vocabulary[last].word}
        {
          var k :| 0 <= k < |vocabulary| && vocabulary[k].word == w;
          if k < last {
            assert front[k].word == w;
          }
        }
        forall w | w in Words(front)
          ensures w in Words(vocabulary)
        {
          var k :| 0 <= k < |front| && front[k].word == w;
          assert vocabulary[k].word == w;
        }
      }
    }
  }

  /** The map after seeding: every record of `records` kept, and a default
      record for each vocabulary word that had none. */
  function Seed(records: map<string, WordProgress>, vocabulary: seq<VocabularyEntry>): map<string, WordProgress> {
    map w | w in records.Keys + Words(vocabulary) :: if w in records then records[w] else NewProgress(w)
  }

  /** Seeding one more entry adds its word's default record if the word
      has none yet. */
  lemma SeedStep(records: map<string, WordProgress>, vocabulary: seq<VocabularyEntry>, i: nat)
    requires i < |vocabulary|
    ensures var before := Seed(records, vocabulary[..i]);
      var w := vocabulary[i].word;
      Seed(records, vocabulary[..i + 1]) == if w in before then before else before[w := NewProgress(w)]
  {
    var w := vocabulary[i].word;
    assert Words(vocabulary[..i + 1]) == Words(vocabulary[..i]) + {w} by {
      var a, b := vocabulary[..i], vocabulary[..i + 1];
      forall v | v in Words(b)
        ensures v in Words(a) + {w}
      {
        var k :| 0 <= k < |b| && b[k].word == v;
        if k < i {
          assert a[k].word == v;
        }
      }
      forall v | v in Words(a)
        ensures v in Words(b)
      {
        var k :| 0 <= k < |a| && a[k].word == v;
        assert b[k].word == v;
      }
      assert b[i].word == w;
    }
  }

  /** A fresh seeding holds a default record for a word when it was a
      vocabulary word, and nothing for any other; a word already having a
      record keeps it. */
  lemma SeedContents(records: map<string, WordProgress>, vocabulary: seq<VocabularyEntry>, w: string)
    ensures w in Seed(records, vocabulary) <==> w in records || exists k :: 0 <= k < |vocabulary| && vocabulary[k].word == w
    ensures w in records ==> Seed(records, vocabulary)[w] == records[w]
    ensures w !in records && w in Seed(records, vocabulary) ==> Seed(records, vocabulary)[w] == NewProgress(w)
  {
  }

  /** The dicts `_save_progress` hands to storage. */
  function ToDicts(records: map<string, WordProgress>): (r: map<string, ProgressDict>)
    ensures r.Keys == records.Keys
    ensures forall w :: w in r ==> FromDict(r[w]) == records[w]
  {
    map w | w in records :: ToDict(records[w])
  }

  /** The entry dicts `save_vocabulary` hands to storage. */
  function EntryDicts(vocabulary: seq<VocabularyEntry>): (r: seq<EntryDict>)
    ensures |r| == |vocabulary|
    ensures forall k :: 0 <= k < |r| ==> r[k] == EntryToDict(vocabulary[k])
  {
    seq(|vocabulary|, k requires 0 <= k < |vocabulary| => EntryToDict(vocabulary[k]))
  }

  /** The words whose record has `status`, as `get_known_words` and its
      siblings list them (without their order). */
  function WithStatus(records: map<string, WordProgress>, status: string): (r: set<string>)
    ensures forall w :: w in r <==> w in records && records[w].status == status
  {
    set w | w in records && records[w].status == status
  }

  /** `get_statistics`: the three lists' lengths, the vocabulary length,
      and the known share in percent (0 for an empty vocabulary). */
  function Statistics(vocabulary: seq<VocabularyEntry>, records: map<string, WordProgress>): Stats {
    var total := |vocabulary|;
    var known := |WithStatus(records, KNOWN)|;
    Stats(Some(total), Some(known), Some(|WithStatus(records, LEARNING)|),
          Some(|WithStatus(records, UNKNOWN)|), None, None, None,
          Some(if total > 0 then known as real / total as real * 100.0 else 0.0), map[])
  }

  lemma SubsetSize<T>(a: set<T>, b: set<T>)
    requires a <= b
    ensures |a| <= |b|
  {
    assert a * b == a;
    assert a + b == b;
    assert a - b == {};
    assert |a - b| + |b - a| + |a * b| == |a + b|;
  }

  /** No word is counted under two statuses, so the three counts together
      are at most the number of records. */
  lemma StatusCountsBound(records: map<string, WordProgress>)
    ensures |WithStatus(records, KNOWN)| + |WithStatus(records, LEARNING)| + |WithStatus(records, UNKNOWN)| <= |records.Keys|
  {
    var k, l, u := WithStatus(records, KNOWN), WithStatus(records, LEARNING), WithStatus(records, UNKNOWN);
    assert k * l == {};
    assert (k + l) * u == {};
    assert |k + l| == |k| + |l|;
    assert |k + l + u| == |k + l| + |u|;
    SubsetSize(k + l + u, records.Keys);
  }

  /** The percentage formula lies between 0 and 100 when the known count
      does not exceed the total. */
  lemma PercentBound(part: nat, total: nat)
    requires part <= total
    ensures 0.0 <= (if total > 0 then part as real / total as real * 100.0 else 0.0) <= 100.0
  {
    if total > 0 {
      assert part as real / total as real <= 1.0;
    }
  }

  /** When every record belongs to a vocabulary word, the three counts
      together are at most the vocabulary length and the percentage lies
      between 0 and 100. */
  lemma StatisticsBounds(vocabulary: seq<VocabularyEntry>, records: map<string, WordProgress>)
    requires records.Keys <= Words(vocabulary)
    ensures var s := Statistics(vocabulary, records);
      && s.knownWords.value + s.learningWords.value + s.unknownWords.value <= s.totalWords.value
      && 0.0 <= s.progressPercent.value <= 100.0
  {
    StatusCountsBound(records);
    SubsetSize(records.Keys, Words(vocabulary));
    WordsBound(vocabulary);
    PercentBound(|WithStatus(records, KNOWN)|, |vocabulary|);
  }

  /** Records are not tied to the vocabulary: a mark or an update creates
      a record for any word, and saving a new vocabulary keeps the records
      of words it drops. Two known records next to a one-word vocabulary
      give a progress of 200 percent. */
  lemma PercentOverHundred(e: VocabularyEntry, other: string, now: Timestamp)
    requires other != e.word
    ensures var records := map[e.word := Known(NewProgress(e.word), now), other := Known(NewProgress(other), now)];
      Statistics([e], records).progressPercent == Some(200.0)
  {
    var records := map[e.word := Known(NewProgress(e.word), now), other := Known(NewProgress(other), now)];
    assert WithStatus(records, KNOWN) == {e.word, other};
    assert |{e.word, other}| == 2;
  }

  /** After a reset every vocabulary word is unknown and nothing else is
      counted. */
  lemma StatisticsAfterReset(vocabulary: seq<VocabularyEntry>)
    ensures var s := Statistics(vocabulary, Seed(map[], vocabulary));
      s.knownWords == Some(0) && s.learningWords == Some(0) && s.unknownWords == Some(|Words(vocabulary)|)
  {
    var records := Seed(map[], vocabulary);
    assert WithStatus(records, KNOWN) == {};
    assert WithStatus(records, LEARNING) == {};
    assert WithStatus(records, UNKNOWN) == Words(vocabulary);
  }

  // ---------------------------------------------------------------
  // The manager
  // ---------------------------------------------------------------

  /** `WordManager`: the vocabulary and the word-to-record map it keeps,
      and the storage it writes to. */
  class WordManager {
    const storage: VocabularyStorage
    var vocabulary: seq<VocabularyEntry>
    var progress: map<string, WordProgress>

    constructor(storage: VocabularyStorage)
      ensures this.storage == storage && vocabulary == [] && progress == map[]
    {
      this.storage := storage;
      vocabulary := [];
      progress := map[];
    }

    /** `get_progress`. */
    function GetProgress(word: string): (r: Option<WordProgress>)
      reads this
      ensures r.Some? <==> word in progress
      ensures r.Some? ==> r.value == progress[word]
    {
      if word in progress then Some(progress[word]) else None
    }

    /** The record a mark works on: the existing one, or a new default. */
    function RecordOf(word: string): WordProgress
      reads this
    {
      if word in progress then progress[word] else NewProgress(word)
    }

    /** `get_statistics`. */
    function GetStatistics(): Stats
      reads this
    {
      Statistics(vocabulary, progress)
    }

    /** `get_word`: the first entry with this word, in vocabulary order. */
    method GetWord(word: string) returns (r: Option<VocabularyEntry>)
      ensures r.Some? ==> exists k :: 0 <= k < |vocabulary| && vocabulary[k] == r.value
                                     && r.value.word == word
                                     && forall j :: 0 <= j < k ==> vocabulary[j].word != word
      ensures r.None? <==> forall k :: 0 <= k < |vocabulary| ==> vocabulary[k].word != word
    {
      var i := 0;
      while i < |vocabulary|
        invariant 0 <= i <= |vocabulary|
        invariant forall j :: 0 <= j < i ==> vocabulary[j].word != word
      {
        if vocabulary[i].word == word {
          return Some(vocabulary[i]);
        }
        i := i + 1;
      }
      return None;
    }

    /** `mark_known`. */
    method MarkKnown(word: string, now: Timestamp)
      modifies this
      ensures progress == old(progress)[word := Known(old(RecordOf(word)), now)]
      ensures vocabulary == old(vocabulary)
    {
      if word !in progress {
        progress := progress[word := NewProgress(word)];
      }
      progress := progress[word := Known(progress[word], now)];
    }

    /** `mark_unknown`. */
    method MarkUnknown(word: string, now: Timestamp)
      modifies this
      ensures progress == old(progress)[word := Unknown(old(RecordOf(word)), now)]
      ensures vocabulary == old(vocabulary)
    {
      if word !in progress {
        progress := progress[word := NewProgress(word)];
      }
      progress := progress[word := Unknown(progress[word], now)];
    }

    /** `mark_learning`. */
    method MarkLearning(word: string, now: Timestamp)
      modifies this
      ensures progress == old(progress)[word := Learning(old(RecordOf(word)), now)]
      ensures vocabulary == old(vocabulary)
    {
      if word !in progress {
        progress := progress[word := NewProgress(word)];
      }
      progress := progress[word := Learning(progress[word], now)];
    }

    /** `update_progress`: the word's record (a new default if it had
        none) takes the dict's known keys; no other record changes. */
    method UpdateProgress(word: string, data: ProgressDict)
      modifies this
      ensures progress == old(progress)[word := ApplyDict(old(RecordOf(word)), data)]
      ensures vocabulary == old(vocabulary)
    {
      if word !in progress {
        progress := progress[word := NewProgress(word)];
      }
      progress := progress[word := ApplyDict(progress[word], data)];
    }

    /** `_save_progress` (and `save_progress`), before the store's save:
        storage gets every record as a dict and recounts its statistics. */
    method SaveProgress()
      modifies storage
      ensures storage.progress == Some(ToDicts(progress))
      ensures storage.statistics == Some(WithCounts(old(storage.GetStatistics()), |storage.GetVocabulary()|,
                                                    Counts(storage.GetVocabulary(), ToDicts(progress))))
      ensures storage.vocabulary == old(storage.vocabulary) && storage.settings == old(storage.settings)
    {
      storage.SetProgress(ToDicts(progress));
      storage.UpdateStatistics();
    }

    /** `save_vocabulary`, before the store's saves: the vocabulary is
        replaced, every existing record is kept, each new word gets a
        default record, then progress is saved. */
    method SaveVocabulary(entries: seq<VocabularyEntry>)
      modifies this, storage
      ensures vocabulary == entries
      ensures progress == Seed(old(progress), entries)
      ensures storage.vocabulary == Some(EntryDicts(entries))
      ensures storage.progress == Some(ToDicts(progress))
      ensures storage.statistics == Some(WithCounts(old(storage.GetStatistics()), |entries|,
                                                    Counts(EntryDicts(entries), ToDicts(progress))))
      ensures storage.settings == old(storage.settings)
    {
      vocabulary := entries;
      storage.SetVocabulary(EntryDicts(entries));
      SeedProgress(entries);
      SaveProgress();
    }

    /** The loop of `save_vocabulary` that gives each new word a fresh record. */
    method SeedProgress(entries: seq<VocabularyEntry>)
      modifies this
      ensures progress == Seed(old(progress), entries)
      ensures vocabulary == old(vocabulary)
    {
      var i := 0;
      assert entries[..0] == [];
      assert Seed(progress, []) == progress;
      ghost var start := progress;
      while i < |entries|
        invariant 0 <= i <= |entries|
        invariant progress == Seed(start, entries[..i])
        invariant vocabulary == old(vocabulary)
      {
        SeedStep(start, entries, i);
        var word := entries[i].word;
        if word !in progress {
          progress := progress[word := NewProgress(word)];
        }
        i := i + 1;
      }
      assert entries[..i] == entries;
    }

    /** `reset_progress`, before the store's save: exactly one default
        record per vocabulary word, then progress is saved. */
    method ResetProgress()
      modifies this, storage
      ensures progress == Seed(map[], vocabulary)
      ensures vocabulary == old(vocabulary)
      ensures storage.progress == Some(ToDicts(progress))
      ensures storage.statistics == Some(WithCounts(old(storage.GetStatistics()), |storage.GetVocabulary()|,
                                                    Counts(storage.GetVocabulary(), ToDicts(progress))))
      ensures storage.vocabulary == old(storage.vocabulary) && storage.settings == old(storage.settings)
    {
      progress := map[];
      var i := 0;
      assert vocabulary[..0] == [];
      assert Seed(map[], []) == map[];
      while i < |vocabulary|
        invariant 0 <= i <= |vocabulary|
        invariant progress == Seed(map[], vocabulary[..i])
        invariant vocabulary == old(vocabulary)
        invariant unchanged(storage)
      {
        SeedStep(map[], vocabulary, i);
        var word := vocabulary[i].word;
        progress := progress[word := NewProgress(word)];
        i := i + 1;
      }
      assert vocabulary[..i] == vocabulary;
      SaveProgress();
    }
  }
}
