/** The coordinator's own logic (`coordinator.py`): the quiet-hours check,
    the choice of the next word, the two review compositions over the word
    manager and the scheduler, and the notification's text and target.
    The refresh loop, timers and the service call are outside the model. */
module Coordinator {
  import opened Common
  import opened Json
  import opened Records
  import opened Parser
  import opened Storage
  import opened Scheduler
  import opened WordManagement

  // ---------------------------------------------------------------
  // Quiet hours
  // ---------------------------------------------------------------

  const MICROS_PER_MINUTE: int := 60000000
  const MICROS_PER_DAY: int := 86400000000

  /** A time of day, in microseconds after midnight. */
  type TimeOfDay = t: int | 0 <= t < MICROS_PER_DAY

  /** What `%H` accepts: `2[0-3]`, `[0-1]\d` or a single digit. */
  predicate HourText(s: string) {
    || (|s| == 1 && IsAsciiDigit(s[0]))
    || (|s| == 2 && '0' <= s[0] <= '1' && IsAsciiDigit(s[1]))
    || (|s| == 2 && s[0] == '2' && '0' <= s[1] <= '3')
  }

  /** What `%M` accepts: `[0-5]\d` or a single digit. */
  predicate MinuteText(s: string) {
    || (|s| == 1 && IsAsciiDigit(s[0]))
    || (|s| == 2 && '0' <= s[0] <= '5' && IsAsciiDigit(s[1]))
  }

  /** `s` is an hour, a colon and a minute, and nothing more. */
  predicate ClockText(s: string) {
    exists i :: 0 < i < |s| && s[i] == ':' && HourText(s[..i]) && MinuteText(s[i + 1..])
  }

  /** The value of one or two digits. */
  lemma TwoDigits(s: string)
    requires 1 <= |s| <= 2 && forall k :: 0 <= k < |s| ==> IsAsciiDigit(s[k])
    ensures |s| == 1 ==> DigitsValue(s) == s[0] as int - '0' as int
    ensures |s| == 2 ==> DigitsValue(s) == 10 * (s[0] as int - '0' as int) + (s[1] as int - '0' as int)
  {
    assert s[..|s| - 1][..0] == [];
    if |s| == 2 {
      assert s[..1][0] == s[0];
      assert DigitsValue(s[..1]) == s[0] as int - '0' as int;
    }
  }

  lemma HourBound(s: string)
    requires HourText(s)
    ensures DigitsValue(s) <= 23
  {
    TwoDigits(s);
  }

  lemma MinuteBound(s: string)
    requires MinuteText(s)
    ensures DigitsValue(s) <= 59
  {
    TwoDigits(s);
  }

  function ClockAt(hour: string, minute: string): (t: TimeOfDay)
    requires HourText(hour) && MinuteText(minute)
  {
    HourBound(hour);
    MinuteBound(minute);
    (DigitsValue(hour) * 60 + DigitsValue(minute)) * MICROS_PER_MINUTE
  }

  /** `datetime.strptime(s, "%H:%M").time()`, `None` where it raises. The
      colon can only be the second or third character. */
  function ParseClock(s: string): (r: Option<TimeOfDay>)
    ensures r.Some? <==> ClockText(s)
    ensures r.Some? ==> r.value % MICROS_PER_MINUTE == 0
    ensures r.Some? ==> exists i ::
              && 0 < i < |s| && s[i] == ':' && HourText(s[..i]) && MinuteText(s[i + 1..])
              && r.value == (DigitsValue(s[..i]) * 60 + DigitsValue(s[i + 1..])) * MICROS_PER_MINUTE
  {
    if 2 < |s| && s[1] == ':' && HourText(s[..1]) && MinuteText(s[2..]) then Some(ClockAt(s[..1], s[2..]))
    else if 3 < |s| && s[2] == ':' && HourText(s[..2]) && MinuteText(s[3..]) then Some(ClockAt(s[..2], s[3..]))
    else None
  }

  /** `_is_quiet_hours` at time of day `now`: configured times (defaults
      22:00 and 08:00) bound an inclusive window that wraps past midnight
      when it starts after it ends; a time that does not parse means not
      quiet. */
  function QuietHours(start: Option<string>, end: Option<string>, now: TimeOfDay): bool {
    var s := ParseClock(start.GetOr("22:00"));
    var e := ParseClock(end.GetOr("08:00"));
    if s.None? || e.None? then false
    else if s.value <= e.value then s.value <= now <= e.value
    else now >= s.value || now <= e.value
  }

  /** A window that wraps past midnight is quiet everywhere except strictly
      between its end and its start; a window within one day is quiet
      exactly on it, both ends included. */
  lemma QuietWindow(start: string, end: string, now: TimeOfDay)
    requires ParseClock(start).Some? && ParseClock(end).Some?
    ensures var s, e := ParseClock(start).value, ParseClock(end).value;
      && (s <= e ==> (QuietHours(Some(start), Some(end), now) <==> s <= now <= e))
      && (s > e ==> (QuietHours(Some(start), Some(end), now) <==> !(e < now < s)))
  {
  }

  /** A start or end time that does not parse silences nothing. */
  lemma UnparseableNeverQuiet(start: string, end: string, now: TimeOfDay)
    requires ParseClock(start).None? || ParseClock(end).None?
    ensures !QuietHours(Some(start), Some(end), now)
  {
  }

  /** The two default times read as 22:00 and 08:00. */
  lemma DefaultClocks()
    ensures ParseClock("22:00") == Some(22 * 60 * MICROS_PER_MINUTE)
    ensures ParseClock("08:00") == Some(8 * 60 * MICROS_PER_MINUTE)
  {
    TwoDigits("00");
    assert MinuteText("00") && DigitsValue("00") == 0;
    assert ParseClock("22:00") == Some(22 * 60 * MICROS_PER_MINUTE) by {
      assert "22:00"[..2] == "22" && "22:00"[3..] == "00";
      TwoDigits("22");
      assert HourText("22") && DigitsValue("22") == 22;
      assert ClockAt("22", "00") == 22 * 60 * MICROS_PER_MINUTE;
    }
    assert ParseClock("08:00") == Some(8 * 60 * MICROS_PER_MINUTE) by {
      assert "08:00"[..2] == "08" && "08:00"[3..] == "00";
      TwoDigits("08");
      assert HourText("08") && DigitsValue("08") == 8;
      assert ClockAt("08", "00") == 8 * 60 * MICROS_PER_MINUTE;
    }
  }

  /** `%H` and `%M` also take a single digit each. */
  lemma ShortClock()
    ensures ParseClock("7:5") == Some(425 * MICROS_PER_MINUTE)
  {
    assert "7:5"[..1] == "7" && "7:5"[2..] == "5";
    TwoDigits("7");
    TwoDigits("5");
  }

  /** An hour past 23, a minute past 59 and a missing colon are refused. */
  lemma RejectedClocks()
    ensures ParseClock("24:00").None? && ParseClock("12:60").None? && ParseClock("1200").None?
  {
    assert ParseClock("24:00").None? by {
      assert "24:00"[..2] == "24";
    }
    assert ParseClock("12:60").None? by {
      assert "12:60"[3..] == "60";
    }
  }

  /** With no times configured the quiet window is 22:00 to 08:00,
      wrapping past midnight. */
  lemma DefaultQuietHours(now: TimeOfDay)
    ensures QuietHours(None, None, now) <==> now >= 22 * 60 * MICROS_PER_MINUTE || now <= 8 * 60 * MICROS_PER_MINUTE
  {
    DefaultClocks();
  }

  // ---------------------------------------------------------------
  // The next word
  // ---------------------------------------------------------------

  /** The progress `_get_next_word` assumes for a word without a record. */
  const DEFAULT_PROGRESS: ProgressDict :=
    ProgressDict(None, Some(UNKNOWN), Some(0), None, None, Some(2.5), Some(1), None, None, map[])

  /** A word with no record is treated as unseen, and so scores the
      highest priority there is. */
  lemma DefaultProgressScoresTop(now: Timestamp)
    ensures WordPriority(DEFAULT_PROGRESS, now) == 1000.0
  {
  }

  /** The dict `_get_next_word` builds for one vocabulary entry: its fields
      and its record as a dict, or the default progress. */
  function WordDataOf(entry: VocabularyEntry, record: Option<WordProgress>): (d: WordData)
    ensures d.word == entry.word && d.translation == entry.translation && d.example == entry.example
    ensures record.Some? ==> d.progress == ToDict(record.value) && FromDict(d.progress) == record.value
    ensures record.None? ==> d.progress == DEFAULT_PROGRESS
  {
    WordData(entry.word, entry.translation, entry.example, entry.synonyms, entry.etymology,
             if record.Some? then ToDict(record.value) else DEFAULT_PROGRESS)
  }

  function RecordFor(records: map<string, WordProgress>, word: string): Option<WordProgress> {
    if word in records then Some(records[word]) else None
  }

  /** What `_get_next_word` hands to the scheduler: one dict per entry, in
      vocabulary order. */
  function Candidates(vocabulary: seq<VocabularyEntry>, records: map<string, WordProgress>): (c: seq<WordData>)
    ensures |c| == |vocabulary|
    ensures forall k :: 0 <= k < |c| ==> c[k] == WordDataOf(vocabulary[k], RecordFor(records, vocabulary[k].word))
  {
    seq(|vocabulary|, k requires 0 <= k < |vocabulary| => WordDataOf(vocabulary[k], RecordFor(records, vocabulary[k].word)))
  }

  /** `_get_next_word`: the head of the ranked candidates, or `None` for an
      empty vocabulary or selection. */
  function NextWordOf(vocabulary: seq<VocabularyEntry>, records: map<string, WordProgress>, maxWords: int, now: Timestamp): Option<WordData> {
    if vocabulary == [] then None
    else
      var review := ReviewSelection(Candidates(vocabulary, records), maxWords, now);
      if review == [] then None else Some(review[0])
  }

  /** There is a next word exactly when the vocabulary is non-empty and the
      limit keeps at least one word; that word is the first of highest
      priority, in vocabulary order. */
  lemma NextWordRule(vocabulary: seq<VocabularyEntry>, records: map<string, WordProgress>, maxWords: int, now: Timestamp)
    ensures NextWordOf(vocabulary, records, maxWords, now).Some? <==> SliceEnd(|vocabulary|, maxWords) > 0
    ensures var c := Candidates(vocabulary, records);
      var pri := Priorities(c, now);
      NextWordOf(vocabulary, records, maxWords, now).Some? ==>
        exists j :: 0 <= j < |c| && NextWordOf(vocabulary, records, maxWords, now).value == c[j]
          && forall i :: 0 <= i < |c| ==> pri[i] < pri[j] || (pri[i] == pri[j] && j <= i)
  {
    var c := Candidates(vocabulary, records);
    var review := ReviewSelection(c, maxWords, now);
    assert |review| == SliceEnd(|c|, maxWords);
    if review != [] {
      HeadIsFirstMaximal(c, maxWords, now);
      var j := RankOrder(c, now)[0];
      assert review[0] == c[j];
    }
  }

  // ---------------------------------------------------------------
  // Reviews: a mark followed by the scheduler's update
  // ---------------------------------------------------------------

  /** The record `mark_word_known` leaves: marked known, then updated by
      the scheduler with quality 5 and merged back. */
  function AfterKnownReview(p: WordProgress, now: Timestamp): WordProgress {
    var marked := Known(p, now);
    ApplyDict(marked, UpdatedProgress(ToDict(marked), 5, now))
  }

  /** The record `mark_word_unknown` leaves: marked unknown, then updated
      by the scheduler with quality 0 and merged back. */
  function AfterUnknownReview(p: WordProgress, now: Timestamp): WordProgress {
    var marked := Unknown(p, now);
    ApplyDict(marked, UpdatedProgress(ToDict(marked), 0, now))
  }

  /** A known review counts twice towards the run of successes (once for
      the mark, once for the scheduler), ends the run of failures, counts
      one review, and makes the word known only after three earlier
      reviews. */
  lemma KnownReviewEffect(p: WordProgress, now: Timestamp)
    ensures var r := AfterKnownReview(p, now);
      && r.word == p.word
      && r.consecutiveCorrect == p.consecutiveCorrect + 2
      && r.consecutiveIncorrect == 0
      && r.reviewCount == p.reviewCount + 1
      && (r.status == KNOWN <==> p.reviewCount >= 3)
      && (r.status == LEARNING <==> p.reviewCount < 3)
      && r.lastReview == Some(now)
      && r.nextReview == Some(now + r.interval * SECONDS_PER_DAY)
    ensures var r := AfterKnownReview(p, now);
      var next := CalculateNextReview(5, p.easiness, p.interval, p.reviewCount, now);
      r.easiness == next.easiness && r.interval == next.interval
  {
    var d := ToDict(Known(p, now));
    UpdateBookkeeping(d, 5, now);
    SuccessfulReview(d, 5, now);
    StatusRule(d, 5, now);
  }

  /** An unknown review resets the interval, leaves the word unknown,
      counts twice towards the run of failures and ends the run of
      successes. */
  lemma UnknownReviewEffect(p: WordProgress, now: Timestamp)
    ensures var r := AfterUnknownReview(p, now);
      && r.word == p.word
      && r.interval == 1
      && r.status == UNKNOWN
      && r.consecutiveIncorrect == p.consecutiveIncorrect + 2
      && r.consecutiveCorrect == 0
      && r.reviewCount == p.reviewCount + 1
      && r.lastReview == Some(now)
  {
    var d := ToDict(Unknown(p, now));
    UpdateBookkeeping(d, 0, now);
    FailedReview(d, 0, now);
  }

  // ---------------------------------------------------------------
  // Notifications
  // ---------------------------------------------------------------

  /** The notification text: a book emoji and the word, the translation
      on the next line, and the example after a blank line when there is
      a non-empty one. */
  function Message(word: string, translation: string, example: Option<string>): string {
    var head := "\U{1F4DA} " + word + "\n" + translation;
    if example.Some? && example.value != [] then head + "\n\nExample: " + example.value else head
  }

  lemma MessageRule(word: string, translation: string, example: Option<string>)
    ensures StartsWith(Message(word, translation, example), "\U{1F4DA} " + word + "\n" + translation)
    ensures example.Some? && example.value != [] ==>
      Message(word, translation, example) == "\U{1F4DA} " + word + "\n" + translation + "\n\nExample: " + example.value
    ensures example.None? || example.value == [] ==> Message(word, translation, example) == "\U{1F4DA} " + word + "\n" + translation
  {
    var head := "\U{1F4DA} " + word + "\n" + translation;
    var m := Message(word, translation, example);
    assert m[..|head|] == head;
  }

  /** The notify service: what follows the last "." of the entity id, or
      the whole id when it has none. */
  function ServiceName(entity: string): (name: string)
    ensures '.' !in name
    ensures '.' !in entity ==> name == entity
    ensures '.' in entity ==> |name| < |entity| && entity == entity[..|entity| - |name|] + name
                               && entity[|entity| - |name| - 1] == '.'
  {
    if '.' in entity then entity[LastIndexOf(entity, '.') + 1..] else entity
  }

  /** A notification as handed to `notify.<service>`. */
  datatype Notice = Notice(service: string, title: string, message: string,
                           word: string, translation: string, example: Option<string>)

  /** One tick of the notification loop: nothing without an entity, during
      quiet hours or without a current word; otherwise the current word's
      notice. */
  function Notification(entity: Option<string>, quiet: bool, current: Option<WordData>): (n: Option<Notice>)
    ensures n.Some? <==> entity.Some? && entity.value != [] && !quiet && current.Some?
    ensures n.Some? ==> (n.value.message == Message(current.value.word, current.value.translation, current.value.example)
                         && n.value.service == ServiceName(entity.value))
  {
    if entity.None? || entity.value == [] || quiet || current.None? then None
    else
      var w := current.value;
      Some(Notice(ServiceName(entity.value), "Vocabulary Learner",
                  Message(w.word, w.translation, w.example), w.word, w.translation, w.example))
  }

  // ---------------------------------------------------------------
  // The coordinator
  // ---------------------------------------------------------------

  class VocabularyCoordinator {
    const wordManager: WordManager

    constructor(wordManager: WordManager)
      ensures this.wordManager == wordManager
    {
      this.wordManager := wordManager;
    }

    /** `_get_next_word`, with a vocabulary already loaded. */
    method NextWord(maxWords: int, now: Timestamp) returns (r: Option<WordData>)
      ensures r == NextWordOf(wordManager.vocabulary, wordManager.progress, maxWords, now)
    {
      var vocabulary := wordManager.vocabulary;
      if vocabulary == [] {
        return None;
      }
      var candidates: seq<WordData> := [];
      var i := 0;
      while i < |vocabulary|
        invariant 0 <= i <= |vocabulary|
        invariant |candidates| == i
        invariant forall k :: 0 <= k < i ==>
          candidates[k] == WordDataOf(vocabulary[k], RecordFor(wordManager.progress, vocabulary[k].word))
      {
        var entry := vocabulary[i];
        var progress := wordManager.GetProgress(entry.word);
        candidates := candidates + [WordDataOf(entry, progress)];
        i := i + 1;
      }
      assert candidates == Candidates(vocabulary, wordManager.progress);
      var review := GetWordsForReview(candidates, maxWords, now);
      if review != [] {
        return Some(review[0]);
      }
      return None;
    }

    /** `mark_word_known` up to and including `save_progress`: the record
        is reviewed and the progress and statistics sections are set in
        storage. Writing storage to disk and the refresh request are not
        modelled. */
    method MarkWordKnown(word: string, now: Timestamp)
      modifies wordManager, wordManager.storage
      ensures wordManager.progress == old(wordManager.progress)[word := AfterKnownReview(old(wordManager.RecordOf(word)), now)]
      ensures wordManager.vocabulary == old(wordManager.vocabulary)
      ensures wordManager.storage.progress == Some(ToDicts(wordManager.progress))
      ensures wordManager.storage.statistics ==
                Some(WithCounts(old(wordManager.storage.GetStatistics()), |wordManager.storage.GetVocabulary()|,
                                Counts(wordManager.storage.GetVocabulary(), ToDicts(wordManager.progress))))
      ensures wordManager.storage.vocabulary == old(wordManager.storage.vocabulary)
      ensures wordManager.storage.settings == old(wordManager.storage.settings)
    {
      ghost var before := wordManager.progress;
      ghost var record := wordManager.RecordOf(word);
      wordManager.MarkKnown(word, now);
      var progress := wordManager.GetProgress(word);
      assert progress == Some(Known(record, now));
      if progress.Some? {
        var updated := UpdatedProgress(ToDict(progress.value), 5, now);
        wordManager.UpdateProgress(word, updated);
        assert wordManager.progress == before[word := AfterKnownReview(record, now)];
      }
      wordManager.SaveProgress();
    }

    /** `mark_word_unknown` up to and including `save_progress`: the record
        is reviewed and the progress and statistics sections are set in
        storage. Writing storage to disk and the refresh request are not
        modelled. */
    method MarkWordUnknown(word: string, now: Timestamp)
      modifies wordManager, wordManager.storage
      ensures wordManager.progress == old(wordManager.progress)[word := AfterUnknownReview(old(wordManager.RecordOf(word)), now)]
      ensures wordManager.vocabulary == old(wordManager.vocabulary)
      ensures wordManager.storage.progress == Some(ToDicts(wordManager.progress))
      ensures wordManager.storage.statistics ==
                Some(WithCounts(old(wordManager.storage.GetStatistics()), |wordManager.storage.GetVocabulary()|,
                                Counts(wordManager.storage.GetVocabulary(), ToDicts(wordManager.progress))))
      ensures wordManager.storage.vocabulary == old(wordManager.storage.vocabulary)
      ensures wordManager.storage.settings == old(wordManager.storage.settings)
    {
      ghost var before := wordManager.progress;
      ghost var record := wordManager.RecordOf(word);
      wordManager.MarkUnknown(word, now);
      var progress := wordManager.GetProgress(word);
      assert progress == Some(Unknown(record, now));
      if progress.Some? {
        var updated := UpdatedProgress(ToDict(progress.value), 0, now);
        wordManager.UpdateProgress(word, updated);
        assert wordManager.progress == before[word := AfterUnknownReview(record, now)];
      }
      wordManager.SaveProgress();
    }
  }
}
