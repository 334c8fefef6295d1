/** The storage handler's in-memory data (`storage.py`): the `data` dict
    with its four sections, their getters and setters, the status count
    `update_statistics` writes, the backup import and the progress reset.
    Loading and saving through the host's store are outside the model. */
module Storage {
  import opened Common
  import opened Json
  import opened Records

  /** The statistics `get_statistics` returns when none are stored. */
  const DEFAULT_STATISTICS: Stats :=
    Stats(Some(0), Some(0), Some(0), Some(0), Some(0), Some(0), Some(Null), None, map[])

  /** How many vocabulary words are known, learning and anything else. */
  datatype Tally = Tally(known: nat, learning: nat, unknown: nat) {
    function Total(): nat {
      known + learning + unknown
    }

    function Plus(other: Tally): Tally {
      Tally(known + other.known, learning + other.learning, unknown + other.unknown)
    }
  }

  /** The status `update_statistics` reads for a vocabulary entry: the
      record's status, "unknown" when the word has no record or the record
      no status. A missing word reads as "". */
  function StatusIn(entry: EntryDict, progress: map<string, ProgressDict>): (status: string)
    ensures entry.word.GetOr("") !in progress ==> status == UNKNOWN
  {
    var word := entry.word.GetOr("");
    if word in progress then progress[word].status.GetOr(UNKNOWN) else UNKNOWN
  }

  /** Which count a status goes to: anything but "known" and "learning"
      counts as unknown. */
  datatype Column = KnownColumn | LearningColumn | UnknownColumn

  function ColumnOf(status: string): (c: Column)
    ensures c == KnownColumn <==> status == KNOWN
    ensures c == LearningColumn <==> status == LEARNING
  {
    if status == KNOWN then KnownColumn
    else if status == LEARNING then LearningColumn
    else UnknownColumn
  }

  /** One more word in column `c`. */
  function Count(t: Tally, c: Column): Tally {
    match c
    case KnownColumn => t.(known := t.known + 1)
    case LearningColumn => t.(learning := t.learning + 1)
    case UnknownColumn => t.(unknown := t.unknown + 1)
  }

  /** The three counts over `vocabulary`, word by word. */
  function Counts(vocabulary: seq<EntryDict>, progress: map<string, ProgressDict>): Tally {
    if vocabulary == [] then Tally(0, 0, 0)
    else
      var last := |vocabulary| - 1;
      Count(Counts(vocabulary[..last], progress), ColumnOf(StatusIn(vocabulary[last], progress)))
  }

  /** The first word counted. */
  lemma FirstCount(c: Column)
    ensures Count(Tally(0, 0, 0), c) == match c
      case KnownColumn => Tally(1, 0, 0)
      case LearningColumn => Tally(0, 1, 0)
      case UnknownColumn => Tally(0, 0, 1)
  {
  }

  /** What one word contributes. */
  lemma CountsOne(entry: EntryDict, progress: map<string, ProgressDict>)
    ensures Counts([entry], progress) == match ColumnOf(StatusIn(entry, progress))
      case KnownColumn => Tally(1, 0, 0)
      case LearningColumn => Tally(0, 1, 0)
      case UnknownColumn => Tally(0, 0, 1)
  {
    assert [entry][..0] == [];
    FirstCount(ColumnOf(StatusIn(entry, progress)));
  }

  /** The total of the counts is the number of words counted. */
  lemma {:induction false} CountsTotal(vocabulary: seq<EntryDict>, progress: map<string, ProgressDict>)
    ensures Counts(vocabulary, progress).Total() == |vocabulary|
  {
    if vocabulary != [] {
      var last := |vocabulary| - 1;
      CountsTotal(vocabulary[..last], progress);
    }
  }

  lemma CountAfterPlus(x: Tally, y: Tally, c: Column)
    ensures Count(x.Plus(y), c) == x.Plus(Count(y, c))
  {
  }

  /** Counting is additive over the vocabulary: each word counts on its own. */
  lemma {:induction false} CountsAppend(a: seq<EntryDict>, b: seq<EntryDict>, progress: map<string, ProgressDict>)
    ensures Counts(a + b, progress) == Counts(a, progress).Plus(Counts(b, progress))
  {
    if b == [] {
      assert a + b == a;
    } else {
      var last := |b| - 1;
      var ab := a + b;
      assert ab[..|ab| - 1] == a + b[..last];
      assert ab[|ab| - 1] == b[last];
      CountsAppend(a, b[..last], progress);
      var c := ColumnOf(StatusIn(b[last], progress));
      assert Counts(ab, progress) == Count(Counts(a + b[..last], progress), c);
      CountAfterPlus(Counts(a, progress), Counts(b[..last], progress), c);
    }
  }

  /** With no record for any of its words, the whole vocabulary is unknown. */
  lemma {:induction false} CountsWithoutRecords(vocabulary: seq<EntryDict>, progress: map<string, ProgressDict>)
    requires forall k :: 0 <= k < |vocabulary| ==> vocabulary[k].word.GetOr("") !in progress
    ensures Counts(vocabulary, progress) == Tally(0, 0, |vocabulary|)
  {
    if vocabulary != [] {
      var last := |vocabulary| - 1;
      var front := vocabulary[..last];
      assert forall k :: 0 <= k < |front| ==> front[k] == vocabulary[k];
      CountsWithoutRecords(front, progress);
    }
  }

  /** The counting loop of `update_statistics`. */
  method CountStatuses(vocabulary: seq<EntryDict>, progress: map<string, ProgressDict>)
    returns (known: nat, learning: nat, unknown: nat)
    ensures Tally(known, learning, unknown) == Counts(vocabulary, progress)
    ensures known + learning + unknown == |vocabulary|
  {
    known, learning, unknown := 0, 0, 0;
    var i := 0;
    while i < |vocabulary|
      invariant 0 <= i <= |vocabulary|
      invariant Tally(known, learning, unknown) == Counts(vocabulary[..i], progress)
    {
      assert vocabulary[..i + 1][..i] == vocabulary[..i];
      var status := StatusIn(vocabulary[i], progress);
      if status == KNOWN {
        known := known + 1;
      } else if status == LEARNING {
        learning := learning + 1;
      } else {
        unknown := unknown + 1;
      }
      assert Tally(known, learning, unknown) == Count(Counts(vocabulary[..i], progress), ColumnOf(status));
      i := i + 1;
    }
    assert vocabulary[..i] == vocabulary;
    CountsTotal(vocabulary, progress);
  }

  /** `stats` with the four count keys overwritten and every other key kept. */
  function WithCounts(stats: Stats, total: nat, t: Tally): (r: Stats)
    ensures r.totalWords == Some(total)
    ensures r.knownWords == Some(t.known) && r.learningWords == Some(t.learning) && r.unknownWords == Some(t.unknown)
    ensures r.(totalWords := stats.totalWords, knownWords := stats.knownWords,
               learningWords := stats.learningWords, unknownWords := stats.unknownWords) == stats
  {
    stats.(totalWords := Some(total), knownWords := Some(t.known),
           learningWords := Some(t.learning), unknownWords := Some(t.unknown))
  }

  /** The sections a backup may carry; `None` is a section it lacks. */
  datatype Backup = Backup(
    vocabulary: Option<seq<EntryDict>>,
    progress: Option<map<string, ProgressDict>>,
    statistics: Option<Stats>,
    settings: Option<map<string, Value>>)

  /** `VocabularyLearnerStorage.data`: each section is `None` while the
      key is absent. */
  class VocabularyStorage {
    var vocabulary: Option<seq<EntryDict>>
    var progress: Option<map<string, ProgressDict>>
    var statistics: Option<Stats>
    var settings: Option<map<string, Value>>

    /** A handler whose data is still `{}`. */
    constructor()
      ensures vocabulary.None? && progress.None? && statistics.None? && settings.None?
    {
      vocabulary, progress, statistics, settings := None, None, None, None;
    }

    /** `get_vocabulary`: the stored list, `[]` when there is none. */
    function GetVocabulary(): (r: seq<EntryDict>)
      reads this
      ensures vocabulary.None? ==> r == []
      ensures vocabulary.Some? ==> r == vocabulary.value
    {
      vocabulary.GetOr([])
    }

    /** `get_progress`: the stored map, `{}` when there is none. */
    function GetProgress(): (r: map<string, ProgressDict>)
      reads this
      ensures progress.None? ==> r == map[]
      ensures progress.Some? ==> r == progress.value
    {
      progress.GetOr(map[])
    }

    /** `get_statistics`: the stored dict, the zero-count default when there is none. */
    function GetStatistics(): (r: Stats)
      reads this
      ensures statistics.None? ==> r == DEFAULT_STATISTICS
      ensures statistics.Some? ==> r == statistics.value
    {
      statistics.GetOr(DEFAULT_STATISTICS)
    }

    /** `get_settings`: the stored dict, `{}` when there is none. */
    function GetSettings(): (r: map<string, Value>)
      reads this
      ensures settings.None? ==> r == map[]
      ensures settings.Some? ==> r == settings.value
    {
      settings.GetOr(map[])
    }

    /** `get_word_progress`: the word's record, `None` when it has none. */
    function GetWordProgress(word: string): (r: Option<ProgressDict>)
      reads this
      ensures r.Some? <==> word in GetProgress()
      ensures r.Some? ==> r.value == GetProgress()[word]
    {
      if word in GetProgress() then Some(GetProgress()[word]) else None
    }

    method SetVocabulary(v: seq<EntryDict>)
      modifies this
      ensures vocabulary == Some(v)
      ensures progress == old(progress) && statistics == old(statistics) && settings == old(settings)
    {
      vocabulary := Some(v);
    }

    method SetProgress(p: map<string, ProgressDict>)
      modifies this
      ensures progress == Some(p)
      ensures vocabulary == old(vocabulary) && statistics == old(statistics) && settings == old(settings)
    {
      progress := Some(p);
    }

    method SetStatistics(s: Stats)
      modifies this
      ensures statistics == Some(s)
      ensures vocabulary == old(vocabulary) && progress == old(progress) && settings == old(settings)
    {
      statistics := Some(s);
    }

    method SetSettings(s: map<string, Value>)
      modifies this
      ensures settings == Some(s)
      ensures vocabulary == old(vocabulary) && progress == old(progress) && statistics == old(statistics)
    {
      settings := Some(s);
    }

    /** `set_word_progress`: creates the progress section if it is absent,
        then sets this word's record; no other record changes. */
    method SetWordProgress(word: string, record: ProgressDict)
      modifies this
      ensures progress == Some(old(GetProgress())[word := record])
      ensures GetWordProgress(word) == Some(record)
      ensures forall w :: w != word ==> GetWordProgress(w) == old(GetWordProgress(w))
      ensures vocabulary == old(vocabulary) && statistics == old(statistics) && settings == old(settings)
    {
      if progress.None? {
        progress := Some(map[]);
      }
      progress := Some(progress.value[word := record]);
    }

    /** `update_statistics`: counts the vocabulary's statuses and writes the
        four counts into the statistics, keeping every other key. */
    method UpdateStatistics()
      modifies this
      ensures statistics == Some(WithCounts(old(GetStatistics()), |vocabulary.GetOr([])|,
                                            Counts(vocabulary.GetOr([]), progress.GetOr(map[]))))
      ensures var s := statistics.value;
        s.knownWords.value + s.learningWords.value + s.unknownWords.value == s.totalWords.value == |GetVocabulary()|
      ensures vocabulary == old(vocabulary) && progress == old(progress) && settings == old(settings)
    {
      var words := GetVocabulary();
      var records := GetProgress();
      var known, learning, unknown := CountStatuses(words, records);
      var stats := GetStatistics();
      stats := WithCounts(stats, |words|, Tally(known, learning, unknown));
      SetStatistics(stats);
    }

    /** `async_import` (before the save): each section the backup carries
        replaces the stored one; the others keep their value. */
    method Import(data: Backup)
      modifies this
      ensures vocabulary == if data.vocabulary.Some? then data.vocabulary else old(vocabulary)
      ensures progress == if data.progress.Some? then data.progress else old(progress)
      ensures statistics == if data.statistics.Some? then data.statistics else old(statistics)
      ensures settings == if data.settings.Some? then data.settings else old(settings)
    {
      if data.vocabulary.Some? {
        SetVocabulary(data.vocabulary.value);
      }
      if data.progress.Some? {
        SetProgress(data.progress.value);
      }
      if data.statistics.Some? {
        SetStatistics(data.statistics.value);
      }
      if data.settings.Some? {
        SetSettings(data.settings.value);
      }
    }

    /** `async_reset_progress` (before the save). The progress section
        becomes `{}`. The statistics get known and learning 0, then unknown
        the stored total and words_today 0; `ok` is false when the stored
        statistics lack `total_words`, where the source raises `KeyError`
        after the first two counts were already zeroed in the stored dict. */
    method ResetProgress() returns (ok: bool)
      modifies this
      ensures ok <==> old(GetStatistics()).totalWords.Some?
      ensures progress == Some(map[])
      ensures var before := old(GetStatistics());
        statistics == Some(if ok
          then before.(knownWords := Some(0), learningWords := Some(0),
                       unknownWords := before.totalWords, wordsToday := Some(0))
          else before.(knownWords := Some(0), learningWords := Some(0)))
      ensures vocabulary == old(vocabulary) && settings == old(settings)
      ensures ok ==> GetStatistics().knownWords.value + GetStatistics().learningWords.value
                     + GetStatistics().unknownWords.value == GetStatistics().totalWords.value
    {
      progress := Some(map[]);
      var stats := GetStatistics();
      stats := stats.(knownWords := Some(0), learningWords := Some(0));
      if stats.totalWords.None? {
        statistics := Some(stats);
        return false;
      }
      stats := stats.(unknownWords := stats.totalWords, wordsToday := Some(0));
      SetStatistics(stats);
      ok := true;
    }
  }
}
