/**
 * The browse page's filter chain over the public sessions: an optional
 * case-insensitive search, then an optional type filter, then an optional
 * difficulty filter, each narrowing the previous list.
 */
module Browse {
  import opened Wrappers
  import Sequences
  import opened Sessions

  /** The select value that switches a filter off. */
  const All: string := "all"

  /** `toLowerCase` on one character, for the ASCII letters. */
  function LowerChar(c: char): char {
    if 'A' <= c <= 'Z' then (c as int + 32) as char else c
  }

  function Lower(s: string): (r: string)
    ensures |r| == |s|
    ensures forall i :: 0 <= i < |s| ==> r[i] == LowerChar(s[i])
  {
    if s == [] then [] else [LowerChar(s[0])] + Lower(s[1..])
  }

  /** `sub` occurs in `s` starting at index `i`. */
  predicate OccursAt(s: string, sub: string, i: nat) {
    i + |sub| <= |s| && s[i..i + |sub|] == sub
  }

  /** `String.prototype.includes`: `sub` occurs in `s` at some position. */
  function Contains(s: string, sub: string): (r: bool)
    ensures r <==> exists i: nat :: OccursAt(s, sub, i)
    decreases |s|
  {
    if sub <= s then
      assert OccursAt(s, sub, 0);
      true
    else if s == [] then false
    else
      var r := Contains(s[1..], sub);
      assert forall i: nat :: OccursAt(s[1..], sub, i) <==> OccursAt(s, sub, i + 1) by {
        forall i: nat
          ensures OccursAt(s[1..], sub, i) <==> OccursAt(s, sub, i + 1)
        {
          if i + |sub| <= |s[1..]| {
            assert s[1..][i..i + |sub|] == s[i + 1..i + 1 + |sub|];
          }
        }
      }
      assert !OccursAt(s, sub, 0);
      assert (exists i: nat :: OccursAt(s, sub, i)) ==> exists i: nat :: OccursAt(s[1..], sub, i) by {
        if exists i: nat :: OccursAt(s, sub, i) {
          var k: nat :| OccursAt(s, sub, k);
          assert k != 0;
          assert OccursAt(s[1..], sub, k - 1);
        }
      }
      r
  }

  /** The search test: the term occurs, ignoring case, in the title, the description or the instructor. */
  predicate MatchesSearch(s: WellnessSession, term: string)
    ensures term == "" ==> MatchesSearch(s, term)
  {
    var needle := Lower(term);
    assert needle == "" ==> OccursAt(Lower(s.title), needle, 0);
    Contains(Lower(s.title), needle) || Contains(Lower(s.description), needle) ||
    (s.instructor.Some? && Contains(Lower(s.instructor.value), needle))
  }

  function Matches(term: string): WellnessSession -> bool {
    (s: WellnessSession) => MatchesSearch(s, term)
  }

  function OfType(sessionType: string): WellnessSession -> bool {
    (s: WellnessSession) => s.sessionType == sessionType
  }

  function OfDifficulty(difficulty: string): WellnessSession -> bool {
    (s: WellnessSession) => s.difficulty == difficulty
  }

  /** One step of the chain: filter by `p` only when the step is switched on. */
  function Step(sessions: seq<WellnessSession>, active: bool, p: WellnessSession -> bool): (r: seq<WellnessSession>)
    ensures |r| <= |sessions|
    ensures !active ==> r == sessions
    ensures active ==> forall i :: 0 <= i < |r| ==> p(r[i])
  {
    if active then Sequences.Filter(sessions, p) else sessions
  }

  /** The list the page shows, filtered step by step as the page does. */
  function BrowseFilter(sessions: seq<WellnessSession>, searchTerm: string, typeFilter: string, difficultyFilter: string)
    : (r: seq<WellnessSession>)
    ensures |r| <= |sessions|
    ensures searchTerm == "" && typeFilter == All && difficultyFilter == All ==> r == sessions
    ensures difficultyFilter != All ==> forall i :: 0 <= i < |r| ==> r[i].difficulty == difficultyFilter
  {
    var searched := Step(sessions, searchTerm != "", Matches(searchTerm));
    var typed := Step(searched, typeFilter != All, OfType(typeFilter));
    Step(typed, difficultyFilter != All, OfDifficulty(difficultyFilter))
  }

  /** Whether a session passes every active criterion at once. */
  predicate Keeps(s: WellnessSession, searchTerm: string, typeFilter: string, difficultyFilter: string) {
    && (searchTerm == "" || MatchesSearch(s, searchTerm))
    && (typeFilter == All || s.sessionType == typeFilter)
    && (difficultyFilter == All || s.difficulty == difficultyFilter)
  }

  function Gate(active: bool, p: WellnessSession -> bool): WellnessSession -> bool {
    (s: WellnessSession) => !active || p(s)
  }

  function Both(p: WellnessSession -> bool, q: WellnessSession -> bool): WellnessSession -> bool {
    (s: WellnessSession) => p(s) && q(s)
  }

  function KeepsAll(searchTerm: string, typeFilter: string, difficultyFilter: string): WellnessSession -> bool {
    (s: WellnessSession) => Keeps(s, searchTerm, typeFilter, difficultyFilter)
  }

  /** A step is one filter by its gate, which lets everything through when the step is off. */
  lemma StepIsFilter(sessions: seq<WellnessSession>, active: bool, p: WellnessSession -> bool)
    ensures Step(sessions, active, p) == Sequences.Filter(sessions, Gate(active, p))
  {
    if !active {
      Sequences.FilterKeepsAll(sessions, Gate(active, p));
    } else {
      Sequences.FilterFilter(sessions, p, Gate(true, (s: WellnessSession) => true), Gate(active, p));
      Sequences.FilterKeepsAll(Sequences.Filter(sessions, p), Gate(true, (s: WellnessSession) => true));
    }
  }

  /** A step after a filter is one filter by the conjunction of the two. */
  lemma StepAfterFilter(sessions: seq<WellnessSession>, q: WellnessSession -> bool, active: bool,
                        p: WellnessSession -> bool, both: WellnessSession -> bool)
    requires forall x :: both(x) == (q(x) && (!active || p(x)))
    ensures Step(Sequences.Filter(sessions, q), active, p) == Sequences.Filter(sessions, both)
  {
    StepIsFilter(Sequences.Filter(sessions, q), active, p);
    Sequences.FilterFilter(sessions, q, Gate(active, p), both);
  }

  /** The chain is one filter by the conjunction of the active criteria: the order of the steps does not matter. */
  lemma BrowseFilterIsOneFilter(sessions: seq<WellnessSession>, searchTerm: string, typeFilter: string, difficultyFilter: string)
    ensures BrowseFilter(sessions, searchTerm, typeFilter, difficultyFilter)
         == Sequences.Filter(sessions, KeepsAll(searchTerm, typeFilter, difficultyFilter))
  {
    var g1 := Gate(searchTerm != "", Matches(searchTerm));
    var g12 := Both(g1, Gate(typeFilter != All, OfType(typeFilter)));
    var searched := Step(sessions, searchTerm != "", Matches(searchTerm));
    var typed := Step(searched, typeFilter != All, OfType(typeFilter));
    assert searched == Sequences.Filter(sessions, g1) by {
      StepIsFilter(sessions, searchTerm != "", Matches(searchTerm));
    }
    assert typed == Sequences.Filter(sessions, g12) by {
      StepAfterFilter(sessions, g1, typeFilter != All, OfType(typeFilter), g12);
    }
    StepAfterFilter(sessions, g12, difficultyFilter != All, OfDifficulty(difficultyFilter),
                    KeepsAll(searchTerm, typeFilter, difficultyFilter));
  }

  /**
   * The page shows exactly the sessions that pass every active criterion, in
   * their original order.
   */
  lemma BrowseFilterKeeps(sessions: seq<WellnessSession>, searchTerm: string, typeFilter: string, difficultyFilter: string)
    ensures Sequences.IsSubsequence(BrowseFilter(sessions, searchTerm, typeFilter, difficultyFilter), sessions)
    ensures forall s :: s in BrowseFilter(sessions, searchTerm, typeFilter, difficultyFilter) <==>
                        s in sessions && Keeps(s, searchTerm, typeFilter, difficultyFilter)
  {
    var keep := KeepsAll(searchTerm, typeFilter, difficultyFilter);
    var r := BrowseFilter(sessions, searchTerm, typeFilter, difficultyFilter);
    assert r == Sequences.Filter(sessions, keep) by {
      BrowseFilterIsOneFilter(sessions, searchTerm, typeFilter, difficultyFilter);
    }
    Sequences.FilterSubsequence(sessions, keep);
    forall s
      ensures s in r <==> s in sessions && Keeps(s, searchTerm, typeFilter, difficultyFilter)
    {
      assert keep(s) == Keeps(s, searchTerm, typeFilter, difficultyFilter);
    }
  }

  /** Every shown session matches the search term and the type, when those filters are active. */
  lemma BrowseFilterCriteria(sessions: seq<WellnessSession>, searchTerm: string, typeFilter: string, difficultyFilter: string)
    ensures var r := BrowseFilter(sessions, searchTerm, typeFilter, difficultyFilter);
            && (searchTerm != "" ==> forall i :: 0 <= i < |r| ==> MatchesSearch(r[i], searchTerm))
            && (typeFilter != All ==> forall i :: 0 <= i < |r| ==> r[i].sessionType == typeFilter)
  {
    var r := BrowseFilter(sessions, searchTerm, typeFilter, difficultyFilter);
    BrowseFilterKeeps(sessions, searchTerm, typeFilter, difficultyFilter);
    forall i | 0 <= i < |r|
      ensures searchTerm != "" ==> MatchesSearch(r[i], searchTerm)
      ensures typeFilter != All ==> r[i].sessionType == typeFilter
    {
      assert r[i] in r;
      assert Keeps(r[i], searchTerm, typeFilter, difficultyFilter);
    }
  }

  /** Lower-casing twice is lower-casing once. */
  lemma LowerIdempotent(t: string)
    ensures Lower(Lower(t)) == Lower(t)
  {
    forall i | 0 <= i < |t|
      ensures Lower(Lower(t))[i] == Lower(t)[i]
    {
    }
  }

  /** The search ignores the case of the term: a term finds what its lower-case form finds. */
  lemma SearchIgnoresCase(s: WellnessSession, term: string)
    ensures MatchesSearch(s, term) == MatchesSearch(s, Lower(term))
  {
    LowerIdempotent(term);
  }

  /** The search ignores the case of the title: "CALM" and "calm" both find a session titled "Calm". */
  lemma SearchIgnoresTitleCase(s: WellnessSession)
    requires s.title == "Calm"
    ensures MatchesSearch(s, "CALM") && MatchesSearch(s, "calm")
  {
    assert Lower("CALM") == "calm";
    assert Lower("Calm") == "calm";
    assert Lower("calm") == "calm";
    assert Contains("calm", "calm");
  }
}
