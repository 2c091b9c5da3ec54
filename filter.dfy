/** The filtered view of `LauncherState::update_filter`: every entry is scored
    against the filter term, unmatched entries are dropped, and the rest are
    stably sorted by descending score. */
module Filter {
  import opened Types
  import opened Sorting

  /** The fuzzy scorer, `SkimMatcherV2::fuzzy_match(choice, pattern)`: `None`
      when `pattern` does not match `choice`, else its score. */
  type Matcher = (string, string) -> Option<int>

  datatype MatchResult = MatchResult(rowIdx: nat, score: int)

  /** The `filter_map` over the enumerated entries: one result per matching
      entry, in entry order. */
  function Matches(entries: seq<LauncherEntry>, term: string, matcher: Matcher): (r: seq<MatchResult>)
    ensures |r| <= |entries|
    ensures forall k :: 0 <= k < |r| ==> r[k].rowIdx < |entries|
  {
    if entries == [] then []
    else
      var n := |entries| - 1;
      Matches(entries[..n], term, matcher)
        + match matcher(entries[n].labelText, term)
          case Some(score) => [MatchResult(n, score)]
          case None => []
  }

  /** `a.score.cmp(&b.score).reverse()` read as "a may come first". */
  function ScoreGeq(a: MatchResult, b: MatchResult): bool {
    a.score >= b.score
  }

  function Ranking(entries: seq<LauncherEntry>, term: string, matcher: Matcher): (r: seq<MatchResult>)
    ensures |r| <= |entries|
    ensures forall k :: 0 <= k < |r| ==> r[k].rowIdx < |entries|
  {
    var ms := Matches(entries, term, matcher);
    var r := SortBy(ms, ScoreGeq);
    assert forall k :: 0 <= k < |r| ==> r[k].rowIdx < |entries| by {
      forall k | 0 <= k < |r| ensures r[k].rowIdx < |entries| {
        SortByMembers(ms, ScoreGeq, r[k]);
      }
    }
    r
  }

  /** The filtered view: the whole list for an empty term, else the entries
      the ranking names, in ranking order. */
  function Filtered(entries: seq<LauncherEntry>, term: string, matcher: Matcher): (r: seq<LauncherEntry>)
    ensures |r| <= |entries|
    ensures forall k :: 0 <= k < |r| ==> r[k] in entries
  {
    if term == [] then entries
    else
      var rk := Ranking(entries, term, matcher);
      seq(|rk|, k requires 0 <= k < |rk| => entries[rk[k].rowIdx])
  }

  predicate RowsIncreasing(s: seq<MatchResult>) {
    forall i, j :: 0 <= i < j < |s| ==> s[i].rowIdx < s[j].rowIdx
  }

  /** Descending score; equal scores in ascending row order. */
  predicate Ranked(s: seq<MatchResult>) {
    forall i, j :: 0 <= i < j < |s| ==>
      s[i].score > s[j].score || (s[i].score == s[j].score && s[i].rowIdx < s[j].rowIdx)
  }

  /** Results come in entry order and carry each entry's own score. */
  lemma {:induction false} MatchesSound(entries: seq<LauncherEntry>, term: string, matcher: Matcher)
    ensures var ms := Matches(entries, term, matcher);
      && RowsIncreasing(ms)
      && (forall k :: 0 <= k < |ms| ==> matcher(entries[ms[k].rowIdx].labelText, term) == Some(ms[k].score))
  {
    if entries != [] {
      var n := |entries| - 1;
      var init := entries[..n];
      MatchesSound(init, term, matcher);
      var prev := Matches(init, term, matcher);
      assert forall k :: 0 <= k < |prev| ==> init[prev[k].rowIdx] == entries[prev[k].rowIdx];
    }
  }

  /** Every matching entry has a result. */
  lemma {:induction false} MatchesComplete(entries: seq<LauncherEntry>, term: string, matcher: Matcher, i: nat)
    requires i < |entries| && matcher(entries[i].labelText, term).Some?
    ensures exists k :: 0 <= k < |Matches(entries, term, matcher)| && Matches(entries, term, matcher)[k].rowIdx == i
  {
    var n := |entries| - 1;
    var init := entries[..n];
    var ms := Matches(entries, term, matcher);
    var prev := Matches(init, term, matcher);
    assert forall k :: 0 <= k < |prev| ==> ms[k] == prev[k];
    if i < n {
      assert init[i] == entries[i];
      MatchesComplete(init, term, matcher, i);
      var k :| 0 <= k < |prev| && prev[k].rowIdx == i;
      assert ms[k].rowIdx == i;
    } else {
      assert ms[|ms| - 1].rowIdx == i;
    }
  }

  lemma {:induction false} InsertRanked(x: MatchResult, t: seq<MatchResult>)
    requires Ranked(t)
    requires forall k :: 0 <= k < |t| ==> x.rowIdx < t[k].rowIdx
    ensures Ranked(InsertBy(x, t, ScoreGeq))
  {
    if t == [] || ScoreGeq(x, t[0]) {
    } else {
      var rest := t[1..];
      assert Ranked(rest) by {
        forall i, j | 0 <= i < j < |rest|
          ensures rest[i].score > rest[j].score || (rest[i].score == rest[j].score && rest[i].rowIdx < rest[j].rowIdx)
        {
          assert rest[i] == t[i + 1] && rest[j] == t[j + 1];
        }
      }
      InsertRanked(x, rest);
      var u := InsertBy(x, rest, ScoreGeq);
      forall k | 0 <= k < |u|
        ensures t[0].score > u[k].score || (t[0].score == u[k].score && t[0].rowIdx < u[k].rowIdx)
      {
        assert u[k] in multiset(rest) + multiset{x};
        if u[k] != x {
          assert u[k] in rest;
          var j :| 0 <= j < |rest| && rest[j] == u[k];
          assert t[j + 1] == u[k];
        }
      }
    }
  }

  /** The sort is stable: equal scores keep the rows' original order. */
  lemma {:induction false} SortRanked(s: seq<MatchResult>)
    requires RowsIncreasing(s)
    ensures Ranked(SortBy(s, ScoreGeq))
  {
    if s != [] {
      var rest := s[1..];
      assert RowsIncreasing(rest) by {
        forall i, j | 0 <= i < j < |rest| ensures rest[i].rowIdx < rest[j].rowIdx {
          assert rest[i] == s[i + 1] && rest[j] == s[j + 1];
        }
      }
      SortRanked(rest);
      var t := SortBy(rest, ScoreGeq);
      forall k | 0 <= k < |t| ensures s[0].rowIdx < t[k].rowIdx {
        SortByMembers(rest, ScoreGeq, t[k]);
        var j :| 0 <= j < |rest| && rest[j] == t[k];
        assert s[j + 1] == t[k];
      }
      InsertRanked(s[0], t);
    }
  }

  /** The ranking names each matching entry exactly once, with its score, in
      descending score order, ties in entry order. */
  lemma RankingSpec(entries: seq<LauncherEntry>, term: string, matcher: Matcher)
    ensures var rk := Ranking(entries, term, matcher);
      && Ranked(rk)
      && DistinctBy(rk, (m: MatchResult) => m.rowIdx)
      && (forall k :: 0 <= k < |rk| ==> matcher(entries[rk[k].rowIdx].labelText, term) == Some(rk[k].score))
      && (forall i :: 0 <= i < |entries| && matcher(entries[i].labelText, term).Some? ==>
            exists k :: 0 <= k < |rk| && rk[k].rowIdx == i)
  {
    var ms := Matches(entries, term, matcher);
    var rk := Ranking(entries, term, matcher);
    MatchesSound(entries, term, matcher);
    SortRanked(ms);
    SortByDistinct(ms, ScoreGeq, (m: MatchResult) => m.rowIdx);
    forall k | 0 <= k < |rk| ensures matcher(entries[rk[k].rowIdx].labelText, term) == Some(rk[k].score) {
      SortByMembers(ms, ScoreGeq, rk[k]);
    }
    forall i | 0 <= i < |entries| && matcher(entries[i].labelText, term).Some?
      ensures exists k :: 0 <= k < |rk| && rk[k].rowIdx == i
    {
      MatchesComplete(entries, term, matcher, i);
      var k :| 0 <= k < |ms| && ms[k].rowIdx == i;
      SortByMembers(ms, ScoreGeq, ms[k]);
      var k' :| 0 <= k' < |rk| && rk[k'] == ms[k];
    }
  }

  /** An empty term shows every entry, in catalog order. */
  lemma FilteredEmptyTerm(entries: seq<LauncherEntry>, matcher: Matcher)
    ensures Filtered(entries, [], matcher) == entries
  {
  }

  /** A non-empty term keeps only matching entries, each at most once by
      position, never more than the catalog, and in non-increasing score. */
  lemma FilteredNonEmptyTerm(entries: seq<LauncherEntry>, term: string, matcher: Matcher)
    requires term != []
    ensures var f := Filtered(entries, term, matcher);
      && |f| <= |entries|
      && (forall k :: 0 <= k < |f| ==> matcher(f[k].labelText, term).Some?)
      && (forall i, j :: 0 <= i < j < |f| ==>
            matcher(f[i].labelText, term).value >= matcher(f[j].labelText, term).value)
      && (forall i :: 0 <= i < |entries| && matcher(entries[i].labelText, term).Some? ==> entries[i] in f)
  {
    var rk := Ranking(entries, term, matcher);
    var f := Filtered(entries, term, matcher);
    RankingSpec(entries, term, matcher);
    forall i | 0 <= i < |entries| && matcher(entries[i].labelText, term).Some? ensures entries[i] in f {
      var k :| 0 <= k < |rk| && rk[k].rowIdx == i;
      assert f[k] == entries[i];
    }
  }
}
