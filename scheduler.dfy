/** The SM-2 scheduler of `spaced_repetition.py`: the easiness and interval
    update, the progress-record update after a review, the priority score,
    and the ranking that picks the words to review next. The clock is the
    parameter `now`; easiness and priorities are exact reals. */
module Scheduler {
  import opened Common
  import opened Records

  const INITIAL_EASINESS: real := 2.5
  const MIN_EASINESS: real := 1.3
  const MIN_INTERVAL: int := 1
  const MAX_INTERVAL: int := 365

  // ---------------------------------------------------------------
  // Easiness and interval
  // ---------------------------------------------------------------

  /** The SM-2 easiness change for a recall quality. */
  function EasinessDelta(quality: int): real {
    0.1 - (5 - quality) as real * (0.08 + (5 - quality) as real * 0.02)
  }

  /** Python's `int(x)` on a float: truncation toward zero. */
  function Trunc(x: real): (n: int)
    ensures x >= 0.0 ==> n as real <= x < n as real + 1.0
    ensures x < 0.0 ==> n as real - 1.0 < x <= n as real
  {
    if x >= 0.0 then x.Floor else -((-x).Floor)
  }

  /** `int(interval * easiness)`, the unclamped interval of a third or
      later successful review. */
  function Scaled(interval: int, easiness: real): int {
    Trunc(interval as real * easiness)
  }

  /** `max(MIN_INTERVAL, min(MAX_INTERVAL, n))`. */
  function ClampInterval(n: int): (r: int)
    ensures MIN_INTERVAL <= r <= MAX_INTERVAL
    ensures MIN_INTERVAL <= n <= MAX_INTERVAL ==> r == n
    ensures n > MAX_INTERVAL ==> r == MAX_INTERVAL
    ensures n < MIN_INTERVAL ==> r == MIN_INTERVAL
  {
    if n > MAX_INTERVAL then MAX_INTERVAL else if n < MIN_INTERVAL then MIN_INTERVAL else n
  }

  /** What `calculate_next_review` returns: the new easiness, the new
      interval in days, and the instant of the next review. */
  datatype NextReview = NextReview(easiness: real, interval: int, due: Timestamp)

  /** `calculate_next_review`. The recall quality is documented as 0..5 but
      not checked, so any integer is accepted. */
  function CalculateNextReview(quality: int, easiness: real, interval: int, reviewCount: int, now: Timestamp): (r: NextReview)
    ensures r.easiness >= MIN_EASINESS
    ensures MIN_INTERVAL <= r.interval <= MAX_INTERVAL
    ensures r.due - now == r.interval * SECONDS_PER_DAY
  {
    var raised := easiness + EasinessDelta(quality);
    var newEasiness := if raised < MIN_EASINESS then MIN_EASINESS else raised;
    var newInterval :=
      if quality < 3 then MIN_INTERVAL
      else if reviewCount == 0 then 1
      else if reviewCount == 1 then 6
      else Scaled(interval, newEasiness);
    var clamped := ClampInterval(newInterval);
    NextReview(newEasiness, clamped, now + clamped * SECONDS_PER_DAY)
  }

  /** The easiness change for each documented quality. */
  lemma EasinessDeltaTable()
    ensures EasinessDelta(5) == 0.1 && EasinessDelta(4) == 0.0
    ensures EasinessDelta(3) == -0.14 && EasinessDelta(2) == -0.32
    ensures EasinessDelta(1) == -0.54 && EasinessDelta(0) == -0.8
  {
  }

  /** The new easiness is the old one plus the SM-2 change, floored at 1.3
      and never capped above. */
  lemma EasinessRule(quality: int, easiness: real, interval: int, reviewCount: int, now: Timestamp)
    ensures var r := CalculateNextReview(quality, easiness, interval, reviewCount, now);
      r.easiness == (if easiness + EasinessDelta(quality) >= MIN_EASINESS
                     then easiness + EasinessDelta(quality) else MIN_EASINESS)
  {
  }

  /** Perfect recall raises every easiness from 1.2 up by 0.1, without bound. */
  lemma EasinessUncapped(easiness: real, interval: int, reviewCount: int, now: Timestamp)
    requires easiness >= 1.2
    ensures CalculateNextReview(5, easiness, interval, reviewCount, now).easiness == easiness + 0.1
    ensures CalculateNextReview(5, easiness, interval, reviewCount, now).easiness > easiness
  {
  }

  /** Over the documented qualities, a better recall and a higher prior
      easiness never give a lower new easiness. */
  lemma EasinessMonotone(q1: int, q2: int, e1: real, e2: real, interval: int, reviewCount: int, now: Timestamp)
    requires 0 <= q1 <= q2 <= 5 && e1 <= e2
    ensures CalculateNextReview(q1, e1, interval, reviewCount, now).easiness
         <= CalculateNextReview(q2, e2, interval, reviewCount, now).easiness
  {
    DeltaMonotone(q1, q2);
  }

  lemma DeltaMonotone(q1: int, q2: int)
    requires 0 <= q1 <= q2 <= 5
    ensures EasinessDelta(q1) <= EasinessDelta(q2)
  {
    EasinessDeltaTable();
  }

  /** The interval rule: a failed recall resets to one day; a successful
      one gives 1, then 6, then the truncated product with the new
      easiness, clamped to [1, 365]. */
  lemma IntervalRule(quality: int, easiness: real, interval: int, reviewCount: int, now: Timestamp)
    ensures var r := CalculateNextReview(quality, easiness, interval, reviewCount, now);
      && (quality < 3 ==> r.interval == 1)
      && (quality >= 3 && reviewCount == 0 ==> r.interval == 1)
      && (quality >= 3 && reviewCount == 1 ==> r.interval == 6)
      && (quality >= 3 && reviewCount != 0 && reviewCount != 1 ==>
            r.interval == ClampInterval(Scaled(interval, r.easiness)))
  {
  }

  /** From the third successful review on, the interval never shrinks
      (short of the 365-day cap). */
  lemma IntervalNeverShrinksOnSuccess(quality: int, easiness: real, interval: int, reviewCount: int, now: Timestamp)
    requires quality >= 3 && reviewCount >= 2 && interval >= 1
    ensures CalculateNextReview(quality, easiness, interval, reviewCount, now).interval
            >= (if interval < MAX_INTERVAL then interval else MAX_INTERVAL)
  {
    var r := CalculateNextReview(quality, easiness, interval, reviewCount, now);
    IntervalRule(quality, easiness, interval, reviewCount, now);
    var e := r.easiness;
    ProductAtLeast(interval as real, e);
    var product := interval as real * e;
    var t := Trunc(product);
    assert t == Scaled(interval, e);
    assert product >= interval as real >= 0.0;
    assert product < t as real + 1.0;
    assert r.interval == ClampInterval(t) && t >= interval;
  }

  lemma ProductAtLeast(x: real, y: real)
    requires x >= 1.0 && y >= 1.0
    ensures x * y >= x
  {
    assert x * y - x == x * (y - 1.0);
  }

  // ---------------------------------------------------------------
  // The progress update after a review
  // ---------------------------------------------------------------

  /** `update_word_progress` on a progress dict. The result is the record
      the source writes back into the dict it was given. */
  function UpdatedProgress(d: ProgressDict, quality: int, now: Timestamp): (r: ProgressDict)
    ensures r.easiness.Some? && r.easiness.value >= MIN_EASINESS
    ensures r.interval.Some? && MIN_INTERVAL <= r.interval.value <= MAX_INTERVAL
    ensures r.consecutiveCorrect.Some? && r.consecutiveIncorrect.Some?
    ensures r.consecutiveCorrect.value == 0 || r.consecutiveIncorrect.value == 0
  {
    var reviewCount := d.reviewCount.GetOr(0);
    var next := CalculateNextReview(quality, d.easiness.GetOr(INITIAL_EASINESS), d.interval.GetOr(MIN_INTERVAL), reviewCount, now);
    var status :=
      if quality >= 4 && reviewCount >= 3 then KNOWN
      else if quality >= 3 then LEARNING
      else UNKNOWN;
    d.(easiness := Some(next.easiness),
       interval := Some(next.interval),
       nextReview := Some(At(next.due)),
       lastReview := Some(At(now)),
       reviewCount := Some(reviewCount + 1),
       consecutiveCorrect := Some(if quality >= 3 then d.consecutiveCorrect.GetOr(0) + 1 else 0),
       consecutiveIncorrect := Some(if quality >= 3 then 0 else d.consecutiveIncorrect.GetOr(0) + 1),
       status := Some(status))
  }

  /** The bookkeeping every review does: one more review, stamped now, the
      next one `interval` days later; the word and the keys the scheduler
      does not know keep their values. */
  lemma UpdateBookkeeping(d: ProgressDict, quality: int, now: Timestamp)
    ensures var r := UpdatedProgress(d, quality, now);
      && r.reviewCount == Some(d.reviewCount.GetOr(0) + 1)
      && r.lastReview == Some(At(now))
      && r.nextReview == Some(At(now + r.interval.value * SECONDS_PER_DAY))
      && r.word == d.word
      && r.extra == d.extra
    ensures var r := UpdatedProgress(d, quality, now);
      var next := CalculateNextReview(quality, d.easiness.GetOr(INITIAL_EASINESS), d.interval.GetOr(MIN_INTERVAL), d.reviewCount.GetOr(0), now);
      r.easiness == Some(next.easiness) && r.interval == Some(next.interval)
  {
  }

  /** A failed recall resets the interval, marks the word unknown, extends
      the run of failures and ends the run of successes, whatever the
      prior state. */
  lemma FailedReview(d: ProgressDict, quality: int, now: Timestamp)
    requires quality < 3
    ensures var r := UpdatedProgress(d, quality, now);
      && r.interval == Some(1)
      && r.status == Some(UNKNOWN)
      && r.consecutiveIncorrect == Some(d.consecutiveIncorrect.GetOr(0) + 1)
      && r.consecutiveCorrect == Some(0)
  {
  }

  /** A successful recall extends the run of successes, ends the run of
      failures, and sets the interval by the prior review count. */
  lemma SuccessfulReview(d: ProgressDict, quality: int, now: Timestamp)
    requires quality >= 3
    ensures var r := UpdatedProgress(d, quality, now);
      && r.consecutiveCorrect == Some(d.consecutiveCorrect.GetOr(0) + 1)
      && r.consecutiveIncorrect == Some(0)
      && (d.reviewCount.GetOr(0) == 0 ==> r.interval == Some(1))
      && (d.reviewCount.GetOr(0) == 1 ==> r.interval == Some(6))
      && (d.reviewCount.GetOr(0) != 0 && d.reviewCount.GetOr(0) != 1 ==>
            r.interval == Some(ClampInterval(Scaled(d.interval.GetOr(MIN_INTERVAL), r.easiness.value))))
  {
  }

  /** The status rule: "known" exactly for a recall of 4 or more after at
      least three earlier reviews, "unknown" exactly for a failed recall,
      "learning" otherwise. */
  lemma StatusRule(d: ProgressDict, quality: int, now: Timestamp)
    ensures var r := UpdatedProgress(d, quality, now);
      var rc := d.reviewCount.GetOr(0);
      && (r.status == Some(KNOWN) <==> quality >= 4 && rc >= 3)
      && (r.status == Some(UNKNOWN) <==> quality < 3)
      && (r.status == Some(LEARNING) <==> quality >= 3 && !(quality >= 4 && rc >= 3))
  {
  }

  /** Scenario: a first perfect review. */
  lemma FirstPerfectReview(d: ProgressDict, now: Timestamp)
    requires d.easiness == Some(2.5) && d.interval == Some(1) && d.reviewCount == Some(0)
    ensures var r := UpdatedProgress(d, 5, now);
      r.easiness == Some(2.6) && r.interval == Some(1) && r.status == Some(LEARNING)
  {
  }

  /** Scenario: a second perfect review uses the six-day interval. */
  lemma SecondPerfectReview(d: ProgressDict, now: Timestamp)
    requires d.easiness == Some(2.5) && d.interval == Some(6) && d.reviewCount == Some(1)
    ensures var r := UpdatedProgress(d, 5, now);
      r.easiness == Some(2.6) && r.interval == Some(6) && r.status == Some(LEARNING)
  {
  }

  /** Scenario: a blackout after four reviews resets the interval and drops
      the easiness by 0.8, floored at 1.3. */
  lemma Blackout(d: ProgressDict, now: Timestamp)
    requires d.easiness == Some(2.0) && d.interval == Some(10) && d.reviewCount == Some(4)
    ensures var r := UpdatedProgress(d, 0, now);
      r.easiness == Some(1.3) && r.interval == Some(1) && r.status == Some(UNKNOWN)
  {
  }

  // ---------------------------------------------------------------
  // Priority
  // ---------------------------------------------------------------

  /** `is_due_for_review`. */
  predicate IsDueForReview(nextReview: Option<Timestamp>, now: Timestamp) {
    nextReview.None? || now >= nextReview.value
  }

  /** `timedelta.days` of `later - earlier`: whole days, rounded down. */
  function DaysBetween(earlier: Timestamp, later: Timestamp): (days: int)
    ensures days * SECONDS_PER_DAY <= later - earlier < (days + 1) * SECONDS_PER_DAY
  {
    (later - earlier) / SECONDS_PER_DAY
  }

  function StatusBonus(status: string): real {
    if status == UNKNOWN then 50.0 else if status == LEARNING then 25.0 else 0.0
  }

  /** `get_priority_score`: higher means review sooner. */
  function PriorityScore(nextReview: Option<Timestamp>, reviewCount: int, easiness: real, status: string, now: Timestamp): real {
    if reviewCount == 0 then 1000.0
    else
      var dueBonus :=
        if nextReview.Some? && IsDueForReview(nextReview, now)
        then 100.0 + DaysBetween(nextReview.value, now) as real * 10.0
        else 0.0;
      dueBonus + (3.0 - easiness) * 5.0 + StatusBonus(status) - reviewCount as real * 0.1
  }

  /** The priority `get_words_for_review` gives a progress dict: the review
      date is parsed, and absent keys take their defaults. */
  function WordPriority(p: ProgressDict, now: Timestamp): real {
    PriorityScore(ParseStamp(p.nextReview), p.reviewCount.GetOr(0), p.easiness.GetOr(INITIAL_EASINESS), p.status.GetOr(UNKNOWN), now)
  }

  /** An unseen word scores exactly 1000, whatever its other fields. */
  lemma UnseenScore(nextReview: Option<Timestamp>, easiness: real, status: string, now: Timestamp)
    ensures PriorityScore(nextReview, 0, easiness, status, now) == 1000.0
  {
  }

  /** The score of a seen word, with each term spelled out: the due bonus
      only for a present review date that has passed, the easiness term,
      the status bonus, and the review-count penalty. */
  lemma SeenScore(nextReview: Option<Timestamp>, reviewCount: int, easiness: real, status: string, now: Timestamp)
    requires reviewCount != 0
    ensures var base := (3.0 - easiness) * 5.0 - reviewCount as real * 0.1;
      var bonus := if status == UNKNOWN then 50.0 else if status == LEARNING then 25.0 else 0.0;
      && (nextReview.None? ==> PriorityScore(nextReview, reviewCount, easiness, status, now) == base + bonus)
      && (nextReview.Some? && now < nextReview.value ==>
            PriorityScore(nextReview, reviewCount, easiness, status, now) == base + bonus)
      && (nextReview.Some? && now >= nextReview.value ==>
            PriorityScore(nextReview, reviewCount, easiness, status, now)
            == 100.0 + 10.0 * ((now - nextReview.value) / SECONDS_PER_DAY) as real + base + bonus)
  {
  }

  /** A seen word never beats an unseen one unless it is overdue or its
      easiness is far below the floor. */
  lemma UnseenOutranksNotDue(nextReview: Option<Timestamp>, reviewCount: int, easiness: real, status: string, now: Timestamp)
    requires reviewCount >= 1 && easiness >= MIN_EASINESS
    requires nextReview.None? || now < nextReview.value
    ensures PriorityScore(nextReview, reviewCount, easiness, status, now) < PriorityScore(None, 0, INITIAL_EASINESS, UNKNOWN, now)
  {
  }

  /** A stored review date that does not parse counts as no date at all. */
  lemma MalformedDateIsAbsent(p: ProgressDict, now: Timestamp)
    ensures WordPriority(p.(nextReview := Some(Unparseable)), now) == WordPriority(p.(nextReview := None), now)
    ensures WordPriority(p.(nextReview := Some(NullStamp)), now) == WordPriority(p.(nextReview := None), now)
  {
  }

  // ---------------------------------------------------------------
  // Ranking: the stable descending sort of `get_words_for_review`
  // ---------------------------------------------------------------

  /** Every element of `order` indexes `pri`. */
  predicate Indices(order: seq<nat>, n: nat) {
    forall k :: 0 <= k < |order| ==> order[k] < n
  }

  function Range(n: nat): (r: seq<nat>)
    ensures |r| == n && forall k :: 0 <= k < n ==> r[k] == k
  {
    seq(n, k requires 0 <= k < n => k)
  }

  /** Item `a` comes before item `b` in a stable descending sort. */
  predicate Precedes(pri: seq<real>, a: nat, b: nat)
    requires a < |pri| && b < |pri|
  {
    pri[a] > pri[b] || (pri[a] == pri[b] && a < b)
  }

  predicate LexSorted(order: seq<nat>, pri: seq<real>)
    requires Indices(order, |pri|)
  {
    forall k, l :: 0 <= k < l < |order| ==> Precedes(pri, order[k], order[l])
  }

  /** Place item `i` after every item whose priority is at least its own. */
  function Insert(order: seq<nat>, i: nat, pri: seq<real>): (r: seq<nat>)
    requires i < |pri| && Indices(order, |pri|)
    ensures |r| == |order| + 1 && Indices(r, |pri|)
    ensures multiset(r) == multiset(order) + multiset{i}
    ensures forall x :: x in r <==> x == i || x in order
  {
    if order == [] || pri[order[0]] < pri[i] then [i] + order
    else
      var rest := Insert(order[1..], i, pri);
      assert order == [order[0]] + order[1..];
      [order[0]] + rest
  }

  /** The items `0..n-1` in the order `sort(key=priority, reverse=True)`
      leaves them; Python's sort is stable, so the insertion is too. */
  function Ranking(pri: seq<real>, n: nat): (r: seq<nat>)
    requires n <= |pri|
    ensures |r| == n && Indices(r, |pri|) && Indices(r, n)
  {
    if n == 0 then []
    else
      var prev := Ranking(pri, n - 1);
      var r := Insert(prev, n - 1, pri);
      assert forall k :: 0 <= k < |r| ==> r[k] in r && (r[k] == n - 1 || r[k] in prev);
      r
  }

  lemma {:induction false} InsertSorted(order: seq<nat>, i: nat, pri: seq<real>)
    requires i < |pri| && Indices(order, |pri|)
    requires LexSorted(order, pri)
    requires forall k :: 0 <= k < |order| ==> order[k] < i
    ensures LexSorted(Insert(order, i, pri), pri)
  {
    var r := Insert(order, i, pri);
    if order == [] {
    } else if pri[order[0]] < pri[i] {
      forall k, l | 0 <= k < l < |r| ensures Precedes(pri, r[k], r[l]) {
        if k == 0 {
          assert r[l] == order[l - 1];
          if l - 1 > 0 {
            assert Precedes(pri, order[0], order[l - 1]);
          }
        } else {
          assert r[k] == order[k - 1] && r[l] == order[l - 1];
        }
      }
    } else {
      var tail := order[1..];
      InsertSorted(tail, i, pri);
      var rest := Insert(tail, i, pri);
      assert r == [order[0]] + rest;
      forall k, l | 0 <= k < l < |r| ensures Precedes(pri, r[k], r[l]) {
        if k == 0 {
          var x := rest[l - 1];
          assert x in rest;
          if x in tail {
            var j :| 0 <= j < |tail| && tail[j] == x;
            assert order[j + 1] == x;
          }
        } else {
          assert r[k] == rest[k - 1] && r[l] == rest[l - 1];
        }
      }
    }
  }

  /** The ranking lists the items by non-increasing priority, and equal
      priorities keep input order. */
  lemma {:induction false} RankingSorted(pri: seq<real>, n: nat)
    requires n <= |pri|
    ensures LexSorted(Ranking(pri, n), pri)
  {
    if n > 0 {
      RankingSorted(pri, n - 1);
      InsertSorted(Ranking(pri, n - 1), n - 1, pri);
    }
  }

  /** The ranking lists every item exactly once. */
  lemma {:induction false} RankingPermutation(pri: seq<real>, n: nat)
    requires n <= |pri|
    ensures multiset(Ranking(pri, n)) == multiset(Range(n))
  {
    if n > 0 {
      var last: nat := n - 1;
      RankingPermutation(pri, last);
      RangeSnoc(last);
      assert Ranking(pri, n) == Insert(Ranking(pri, last), last, pri);
    }
  }

  lemma RangeSnoc(n: nat)
    ensures multiset(Range(n + 1)) == multiset(Range(n)) + multiset{n}
  {
    assert Range(n + 1) == Range(n) + [n];
  }

  /** Python's `xs[:m]` keeps this many of `n` items (a negative `m` counts
      from the end). */
  function SliceEnd(n: nat, m: int): (r: nat)
    ensures r <= n
    ensures m >= 0 ==> r == (if m < n then m else n)
  {
    if m >= 0 then (if m < n then m else n)
    else if n + m > 0 then n + m else 0
  }

  /** The priority of each word, in input order. */
  function Priorities(allWords: seq<WordData>, now: Timestamp): (pri: seq<real>)
    ensures |pri| == |allWords|
  {
    seq(|allWords|, k requires 0 <= k < |allWords| => WordPriority(allWords[k].progress, now))
  }

  function RankOrder(allWords: seq<WordData>, now: Timestamp): (order: seq<nat>)
    ensures |order| == |allWords| && Indices(order, |allWords|)
  {
    Ranking(Priorities(allWords, now), |allWords|)
  }

  /** What `get_words_for_review` returns. */
  function ReviewSelection(allWords: seq<WordData>, maxWords: int, now: Timestamp): seq<WordData> {
    Pick(allWords, RankOrder(allWords, now), SliceEnd(|allWords|, maxWords))
  }

  /** The first `n` words of `order`. */
  function Pick(allWords: seq<WordData>, order: seq<nat>, n: nat): (r: seq<WordData>)
    requires n <= |order| && Indices(order, |allWords|)
    ensures |r| == n && forall k :: 0 <= k < n ==> r[k] == allWords[order[k]]
  {
    seq(n, k requires 0 <= k < n => allWords[order[k]])
  }

  /** `get_words_for_review`: one priority per word, appended in input
      order, then the stable descending sort and the first `maxWords`. */
  method GetWordsForReview(allWords: seq<WordData>, maxWords: int, now: Timestamp) returns (selected: seq<WordData>)
    ensures selected == ReviewSelection(allWords, maxWords, now)
  {
    var withPriority: seq<real> := [];
    var i := 0;
    while i < |allWords|
      invariant 0 <= i <= |allWords|
      invariant |withPriority| == i
      invariant forall k :: 0 <= k < i ==> withPriority[k] == WordPriority(allWords[k].progress, now)
    {
      var progress := allWords[i].progress;
      var nextReview := ParseStamp(progress.nextReview);
      var priority := PriorityScore(nextReview, progress.reviewCount.GetOr(0),
                                    progress.easiness.GetOr(INITIAL_EASINESS), progress.status.GetOr(UNKNOWN), now);
      withPriority := withPriority + [priority];
      i := i + 1;
    }
    assert withPriority == Priorities(allWords, now);
    var order := Ranking(withPriority, |allWords|);
    var m := SliceEnd(|allWords|, maxWords);
    selected := seq(m, k requires 0 <= k < m => allWords[order[k]]);
  }

  /** The selection has `min(maxWords, n)` items for a non-negative limit;
      each is an input item, at a distinct input position, listed by
      non-increasing priority with ties in input order. */
  lemma SelectionProperties(allWords: seq<WordData>, maxWords: int, now: Timestamp)
    ensures var sel := ReviewSelection(allWords, maxWords, now);
      maxWords >= 0 ==> |sel| == (if maxWords < |allWords| then maxWords else |allWords|)
    ensures var sel := ReviewSelection(allWords, maxWords, now);
      var order := RankOrder(allWords, now);
      var pri := Priorities(allWords, now);
      && multiset(order) == multiset(Range(|allWords|))
      && |sel| <= |order|
      && (forall k :: 0 <= k < |sel| ==> sel[k] == allWords[order[k]])
      && (forall k, l :: 0 <= k < l < |sel| ==>
            pri[order[k]] > pri[order[l]] || (pri[order[k]] == pri[order[l]] && order[k] < order[l]))
  {
    var pri := Priorities(allWords, now);
    RankingSorted(pri, |allWords|);
    RankingPermutation(pri, |allWords|);
  }

  /** A word of strictly higher priority is always selected before one of
      lower priority; in particular every unseen word comes before every
      word scoring below 1000. */
  lemma HigherPriorityFirst(allWords: seq<WordData>, now: Timestamp, k: nat, l: nat)
    requires k < |allWords| && l < |allWords|
    ensures var order := RankOrder(allWords, now); var pri := Priorities(allWords, now);
      pri[order[k]] > pri[order[l]] ==> k < l
  {
    var pri := Priorities(allWords, now);
    var order := RankOrder(allWords, now);
    RankingSorted(pri, |allWords|);
    if l < k {
      assert Precedes(pri, order[l], order[k]);
    }
  }

  /** The first selected word has the highest priority, and it is the first
      such word in input order. */
  lemma HeadIsFirstMaximal(allWords: seq<WordData>, maxWords: int, now: Timestamp)
    requires ReviewSelection(allWords, maxWords, now) != []
    ensures var j := RankOrder(allWords, now)[0];
      var pri := Priorities(allWords, now);
      && ReviewSelection(allWords, maxWords, now)[0] == allWords[j]
      && forall i :: 0 <= i < |allWords| ==> pri[i] < pri[j] || (pri[i] == pri[j] && j <= i)
  {
    var pri := Priorities(allWords, now);
    var order := RankOrder(allWords, now);
    RankingSorted(pri, |allWords|);
    RankingPermutation(pri, |allWords|);
    var j := order[0];
    forall i | 0 <= i < |allWords| ensures pri[i] < pri[j] || (pri[i] == pri[j] && j <= i) {
      assert Range(|allWords|)[i] == i;
      assert i in multiset(Range(|allWords|));
      assert i in multiset(order);
      var p :| 0 <= p < |order| && order[p] == i;
      if p > 0 {
        assert Precedes(pri, order[0], order[p]);
      }
    }
  }

  /** Scenario: of an unseen word, a word five days overdue and a word not
      yet due, the first two are picked, unseen first. */
  lemma OverdueScenario(unseen: WordData, overdue: WordData, notDue: WordData, now: Timestamp)
    requires unseen.progress.reviewCount == Some(0)
    requires overdue.progress == EMPTY_PROGRESS.(reviewCount := Some(2), status := Some(LEARNING),
                                                 nextReview := Some(At(now - 5 * SECONDS_PER_DAY)))
    requires notDue.progress == EMPTY_PROGRESS.(reviewCount := Some(2), status := Some(LEARNING),
                                                nextReview := Some(At(now + SECONDS_PER_DAY)))
    ensures ReviewSelection([unseen, overdue, notDue], 2, now) == [unseen, overdue]
  {
    var all := [unseen, overdue, notDue];
    ScenarioPriorities(unseen, overdue, notDue, now);
    RankingOfThree(Priorities(all, now));
    assert RankOrder(all, now) == [0, 1, 2];
    PickTwo(all, RankOrder(all, now));
    assert SliceEnd(3, 2) == 2;
  }

  lemma PickTwo(all: seq<WordData>, order: seq<nat>)
    requires |all| == 3 && order == [0, 1, 2]
    ensures Pick(all, order, 2) == [all[0], all[1]]
  {
  }

  /** The three priorities of the scenario: 1000, then 100 + 5 days of
      10 + (3 - 2.5) * 5 + 25 - 0.2, then the same without the due bonus. */
  lemma ScenarioPriorities(unseen: WordData, overdue: WordData, notDue: WordData, now: Timestamp)
    requires unseen.progress.reviewCount == Some(0)
    requires overdue.progress == EMPTY_PROGRESS.(reviewCount := Some(2), status := Some(LEARNING),
                                                 nextReview := Some(At(now - 5 * SECONDS_PER_DAY)))
    requires notDue.progress == EMPTY_PROGRESS.(reviewCount := Some(2), status := Some(LEARNING),
                                                nextReview := Some(At(now + SECONDS_PER_DAY)))
    ensures Priorities([unseen, overdue, notDue], now) == [1000.0, 177.3, 27.3]
  {
    var pri := Priorities([unseen, overdue, notDue], now);
    assert pri[0] == 1000.0;
    assert DaysBetween(now - 5 * SECONDS_PER_DAY, now) == 5;
    assert pri[1] == 177.3;
    assert pri[2] == 27.3;
  }

  /** Three strictly decreasing priorities rank in input order. */
  lemma RankingOfThree(pri: seq<real>)
    requires pri == [1000.0, 177.3, 27.3]
    ensures Ranking(pri, 3) == [0, 1, 2]
  {
    assert Ranking(pri, 1) == [0];
    InsertLast([0], 1, pri);
    assert Ranking(pri, 2) == [0, 1];
    InsertLast([0, 1], 2, pri);
  }

  /** An item whose priority is at most every ranked item's goes last. */
  lemma {:induction false} InsertLast(order: seq<nat>, i: nat, pri: seq<real>)
    requires i < |pri| && Indices(order, |pri|)
    requires forall k :: 0 <= k < |order| ==> pri[i] <= pri[order[k]]
    ensures Insert(order, i, pri) == order + [i]
  {
    if order != [] {
      InsertLast(order[1..], i, pri);
      assert order == [order[0]] + order[1..];
    }
  }
}
