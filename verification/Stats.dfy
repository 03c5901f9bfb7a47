/**
 * The admin statistics: how many participants there are, how many completed the
 * study, how many are in each arm and how many were screened out.
 */
module Stats {
  import opened JsStrings
  import opened Participants
  import opened Screening

  /** `filter(p).length`: how many elements satisfy `p`. */
  function Count<T>(s: seq<T>, p: T -> bool): (n: nat)
    ensures n <= |s|
  {
    if s == [] then 0 else Count(s[..|s| - 1], p) + (if p(s[|s| - 1]) then 1 else 0)
  }

  /** The set of positions whose element satisfies `p`. */
  function Matching<T>(s: seq<T>, p: T -> bool): set<nat> {
    set i: nat | i < |s| && p(s[i])
  }

  /** The count is the number of positions whose element satisfies the predicate. */
  lemma {:induction false} CountIsMatching<T>(s: seq<T>, p: T -> bool)
    ensures Count(s, p) == |Matching(s, p)|
    decreases |s|
  {
    if s != [] {
      var n := |s| - 1;
      var front := s[..n];
      CountIsMatching(front, p);
      assert forall i: nat :: i < n ==> front[i] == s[i];
      if p(s[n]) {
        assert Matching(s, p) == Matching(front, p) + {n};
      } else {
        assert Matching(s, p) == Matching(front, p);
      }
    }
  }

  /** Counting over two stretches one after the other adds their counts. */
  lemma {:induction false} CountAppend<T>(a: seq<T>, b: seq<T>, p: T -> bool)
    ensures Count(a + b, p) == Count(a, p) + Count(b, p)
    decreases |b|
  {
    if b == [] {
      assert a + b == a;
    } else {
      assert (a + b)[..|a + b| - 1] == a + b[..|b| - 1];
      CountAppend(a, b[..|b| - 1], p);
    }
  }

  /** Two predicates that no element satisfies together count at most the length between them. */
  lemma {:induction false} CountDisjoint<T>(s: seq<T>, p: T -> bool, q: T -> bool)
    requires forall i :: 0 <= i < |s| ==> !(p(s[i]) && q(s[i]))
    ensures Count(s, p) + Count(s, q) <= |s|
    decreases |s|
  {
    if s != [] {
      var front := s[..|s| - 1];
      assert forall i :: 0 <= i < |front| ==> front[i] == s[i];
      CountDisjoint(front, p, q);
    }
  }

  /** A predicate implied by another counts at least as many elements. */
  lemma {:induction false} CountMonotone<T>(s: seq<T>, p: T -> bool, q: T -> bool)
    requires forall i :: 0 <= i < |s| ==> p(s[i]) ==> q(s[i])
    ensures Count(s, p) <= Count(s, q)
    decreases |s|
  {
    if s != [] {
      var front := s[..|s| - 1];
      assert forall i :: 0 <= i < |front| ==> front[i] == s[i];
      CountMonotone(front, p, q);
    }
  }

  /** Two predicates that agree on every element count the same. */
  lemma {:induction false} CountSame<T>(s: seq<T>, p: T -> bool, q: T -> bool)
    requires forall i :: 0 <= i < |s| ==> (p(s[i]) <==> q(s[i]))
    ensures Count(s, p) == Count(s, q)
    decreases |s|
  {
    if s != [] {
      var front := s[..|s| - 1];
      assert forall i :: 0 <= i < |front| ==> front[i] == s[i];
      CountSame(front, p, q);
    }
  }

  predicate HasCompleted(p: Participant) { p.completed }
  predicate InControl(p: Participant) { p.condition == CONTROL }
  predicate InExperimental(p: Participant) { p.condition == EXPERIMENTAL }

  /** The stats handler's exclusion test, `screening_text?.toLowerCase() === "no"`: no trimming. */
  predicate CountedExcluded(p: Participant) { ToLower(p.screeningText) == "no" }

  /** The exclusion test of the screening handler, applied to the stored answer. */
  predicate ScreenedOut(p: Participant) { IsExcluded(p.screeningText) }

  datatype StatsReply = StatsReply(total: nat, completed: nat, control: nat, experimental: nat, excluded: nat)

  /**
   * The stats reply as the handler computes it: the number of rows, and for each
   * counter the number of positions whose row passes that counter's filter. Every
   * counter is at most the total, the two arms together are at most the total, and
   * every participant counted as excluded was indeed excluded by the screening
   * handler (the converse fails; see `TrailingSpaceNotCounted`).
   */
  function AdminStats(rows: seq<Participant>): (r: StatsReply)
    ensures r.total == |rows|
    ensures r.completed == |Matching(rows, HasCompleted)|
    ensures r.control == |Matching(rows, InControl)|
    ensures r.experimental == |Matching(rows, InExperimental)|
    ensures r.excluded == |Matching(rows, CountedExcluded)|
    ensures r.completed <= r.total && r.excluded <= r.total
    ensures r.control + r.experimental <= r.total
    ensures r.excluded <= Count(rows, ScreenedOut)
  {
    CountIsMatching(rows, HasCompleted);
    CountIsMatching(rows, InControl);
    CountIsMatching(rows, InExperimental);
    CountIsMatching(rows, CountedExcluded);
    CountDisjoint(rows, InControl, InExperimental);
    forall i | 0 <= i < |rows| ensures CountedExcluded(rows[i]) ==> ScreenedOut(rows[i]) {
      CountedIsScreenedOut(rows[i].screeningText);
    }
    CountMonotone(rows, CountedExcluded, ScreenedOut);
    StatsReply(
      |rows|,
      Count(rows, HasCompleted),
      Count(rows, InControl),
      Count(rows, InExperimental),
      Count(rows, CountedExcluded))
  }

  /** The stats handler counts as excluded exactly the rows whose stored answer is one of the four bare spellings of "no". */
  lemma CountedExcludedIff(rows: seq<Participant>)
    ensures forall i :: 0 <= i < |rows| ==> (i in Matching(rows, CountedExcluded) <==> rows[i].screeningText in NO_SPELLINGS)
  {
    forall i | 0 <= i < |rows| ensures i in Matching(rows, CountedExcluded) <==> rows[i].screeningText in NO_SPELLINGS {
      LowerIsNo(rows[i].screeningText);
    }
  }

  /** An answer that lower-cases to "no" has no whitespace around it, so the screening handler excludes it too. */
  lemma CountedIsScreenedOut(s: string)
    ensures ToLower(s) == "no" ==> IsExcluded(s)
  {
    if ToLower(s) == "no" {
      LowerIsNo(s);
      ExcludedIff(s);
      assert |s| == 2 && s[..0] == [] && s[2..] == [] && s[0..2] == s;
      assert AllWhitespace(s[..0]) && AllWhitespace(s[2..]);
    }
  }

  /**
   * The discrepancy: a participant who answered "No " is excluded at screening and
   * never assigned a condition, yet the stats handler does not count them as
   * excluded.
   */
  lemma TrailingSpaceNotCounted(p: Participant)
    requires p.screeningText == "No "
    ensures ScreenedOut(p) && !CountedExcluded(p)
    ensures AdminStats([p]).excluded == 0
  {
    ScreeningExamples();
    assert |ToLower(p.screeningText)| == 3;
  }

  /** The stats reply with `excluded` counting the rows whose stored answer passes the screening test. */
  function CorrectedAdminStats(rows: seq<Participant>): (r: StatsReply)
    ensures r.total == |rows|
    ensures r.completed <= r.total && r.excluded <= r.total
    ensures r.control + r.experimental <= r.total
    ensures r.excluded == Count(rows, ScreenedOut)
    ensures r.(excluded := 0) == AdminStats(rows).(excluded := 0)
  {
    CountDisjoint(rows, InControl, InExperimental);
    StatsReply(
      |rows|,
      Count(rows, HasCompleted),
      Count(rows, InControl),
      Count(rows, InExperimental),
      Count(rows, ScreenedOut))
  }

  /**
   * The corrected counter counts exactly the stored answers the screening handler
   * excludes: the positions whose answer is a spelling of "no" with only
   * whitespace around it. It never counts fewer than the handler's, and agrees
   * with it when no answer that counts as "no" carries surrounding whitespace.
   */
  lemma CorrectedExcludedCounts(rows: seq<Participant>)
    ensures CorrectedAdminStats(rows).excluded == |Matching(rows, ScreenedOut)|
    ensures forall i :: 0 <= i < |rows| ==> (i in Matching(rows, ScreenedOut) <==> IsExcluded(rows[i].screeningText))
    ensures AdminStats(rows).excluded <= CorrectedAdminStats(rows).excluded
    ensures (forall i :: 0 <= i < |rows| ==> (ScreenedOut(rows[i]) ==> CountedExcluded(rows[i]))) ==>
      AdminStats(rows).excluded == CorrectedAdminStats(rows).excluded
  {
    CountIsMatching(rows, ScreenedOut);
    if forall i :: 0 <= i < |rows| ==> (ScreenedOut(rows[i]) ==> CountedExcluded(rows[i])) {
      forall i | 0 <= i < |rows| ensures CountedExcluded(rows[i]) <==> ScreenedOut(rows[i]) {
        CountedIsScreenedOut(rows[i].screeningText);
      }
      CountSame(rows, CountedExcluded, ScreenedOut);
    }
  }

  /** Statistics of two batches of participants add up. */
  lemma CorrectedStatsAdd(a: seq<Participant>, b: seq<Participant>)
    ensures var sa, sb, s := CorrectedAdminStats(a), CorrectedAdminStats(b), CorrectedAdminStats(a + b);
      && s.total == sa.total + sb.total
      && s.completed == sa.completed + sb.completed
      && s.control == sa.control + sb.control
      && s.experimental == sa.experimental + sb.experimental
      && s.excluded == sa.excluded + sb.excluded
  {
    CountAppend(a, b, HasCompleted);
    CountAppend(a, b, InControl);
    CountAppend(a, b, InExperimental);
    CountAppend(a, b, ScreenedOut);
  }
}
