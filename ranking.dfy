/** The selection step of `score_prompts_with_corrections.py`'s `main`: the result rows built
    in sorted prompt order, the corrections applied to them, the two stable descending
    rankings and the top 7 patterns and top 5 anti-patterns. */
module Ranking {
  import opened Wrappers
  import opened Strings
  import opened Scoring

  /** One entry of `results`. */
  datatype ResultRow = ResultRow(
    pid: string, baseScore: real, baseViolation: real, adjScore: real, adjViolation: real, preview: string)

  /** The two sort keys: `adj_score` and `adj_violation`. */
  datatype RankKey = ByScore | ByViolation

  function Key(row: ResultRow, k: RankKey): real
  {
    match k
    case ByScore => row.adjScore
    case ByViolation => row.adjViolation
  }

  // ---------------------------------------------------------------------------
  // Stable descending sort

  /** Places `x` in front of the first row whose key is not greater than its own, so that
      `x`, which came earlier, stays ahead of rows with an equal key. */
  function InsertDescending(x: ResultRow, s: seq<ResultRow>, k: RankKey): (r: seq<ResultRow>)
    ensures multiset(r) == multiset(s) + multiset{x}
    decreases |s|
  {
    if s == [] then [x]
    else if Key(s[0], k) <= Key(x, k) then [x] + s
    else
      assert s == [s[0]] + s[1..];
      [s[0]] + InsertDescending(x, s[1..], k)
  }

  /** `sorted(rows, key=..., reverse=True)`. */
  function SortDescending(s: seq<ResultRow>, k: RankKey): (r: seq<ResultRow>)
    ensures multiset(r) == multiset(s)
    decreases |s|
  {
    if s == [] then []
    else
      assert s == [s[0]] + s[1..];
      InsertDescending(s[0], SortDescending(s[1..], k), k)
  }

  /** The order the ranking produces on rows built in prompt order: higher key first, and
      on equal keys the lexicographically smaller prompt id first. */
  predicate RanksBefore(a: ResultRow, b: ResultRow, k: RankKey)
  {
    Key(a, k) > Key(b, k) || (Key(a, k) == Key(b, k) && Less(a.pid, b.pid))
  }

  ghost predicate Ranked(s: seq<ResultRow>, k: RankKey)
  {
    forall i, j :: 0 <= i < j < |s| ==> RanksBefore(s[i], s[j], k)
  }

  ghost predicate PidOrdered(s: seq<ResultRow>)
  {
    forall i, j :: 0 <= i < j < |s| ==> Less(s[i].pid, s[j].pid)
  }

  lemma RanksBeforeTransitive(a: ResultRow, b: ResultRow, c: ResultRow, k: RankKey)
    requires RanksBefore(a, b, k) && RanksBefore(b, c, k)
    ensures RanksBefore(a, c, k)
  {
    if Key(a, k) == Key(b, k) == Key(c, k) {
      LessTransitive(a.pid, b.pid, c.pid);
    }
  }

  lemma {:induction false} InsertRanked(x: ResultRow, s: seq<ResultRow>, k: RankKey)
    requires Ranked(s, k)
    requires forall y :: y in s ==> Less(x.pid, y.pid)
    ensures Ranked(InsertDescending(x, s, k), k)
    decreases |s|
  {
    if s == [] {
    } else if Key(s[0], k) <= Key(x, k) {
      forall j | 0 <= j < |s| ensures RanksBefore(x, s[j], k) {
        assert s[j] in s;
        if j > 0 {
          assert RanksBefore(s[0], s[j], k);
        }
      }
      RankedCons(x, s, k);
    } else {
      RankedTail(s, k);
      forall y | y in s[1..] ensures Less(x.pid, y.pid) {
        assert y in s;
      }
      InsertRanked(x, s[1..], k);
      HeadBeforeInserted(x, s, k);
      RankedCons(s[0], InsertDescending(x, s[1..], k), k);
    }
  }

  /** A row ranked before every row of a ranked list can be put in front of it. */
  lemma RankedCons(h: ResultRow, t: seq<ResultRow>, k: RankKey)
    requires Ranked(t, k)
    requires forall j :: 0 <= j < |t| ==> RanksBefore(h, t[j], k)
    ensures Ranked([h] + t, k)
  {
    var r := [h] + t;
    forall i, j | 0 <= i < j < |r| ensures RanksBefore(r[i], r[j], k) {
      assert r[j] == t[j - 1];
      if i > 0 {
        assert r[i] == t[i - 1];
      }
    }
  }

  /** When `x` goes past the head of `s`, that head ranks before every row of the rest. */
  lemma HeadBeforeInserted(x: ResultRow, s: seq<ResultRow>, k: RankKey)
    requires Ranked(s, k) && s != [] && Key(s[0], k) > Key(x, k)
    ensures forall j :: 0 <= j < |InsertDescending(x, s[1..], k)| ==>
              RanksBefore(s[0], InsertDescending(x, s[1..], k)[j], k)
  {
    var t := InsertDescending(x, s[1..], k);
    forall j | 0 <= j < |t| ensures RanksBefore(s[0], t[j], k) {
      assert t[j] in multiset(t);
      if t[j] != x {
        assert t[j] in multiset(s[1..]);
        var m :| 0 <= m < |s| - 1 && s[1..][m] == t[j];
        assert s[m + 1] == t[j];
      }
    }
  }

  /** Ranking rows listed in strictly increasing prompt order yields them descending by key,
      ties in prompt order: the stability of Python's sort on the sorted-id `results`. */
  lemma {:induction false} SortRanked(s: seq<ResultRow>, k: RankKey)
    requires PidOrdered(s)
    ensures Ranked(SortDescending(s, k), k)
    decreases |s|
  {
    if s != [] {
      assert PidOrdered(s[1..]) by {
        forall i, j | 0 <= i < j < |s| - 1 ensures Less(s[1..][i].pid, s[1..][j].pid) {
          assert s[1..][i] == s[i + 1] && s[1..][j] == s[j + 1];
        }
      }
      SortRanked(s[1..], k);
      var t := SortDescending(s[1..], k);
      forall y | y in t ensures Less(s[0].pid, y.pid) {
        assert y in multiset(t);
        assert y in multiset(s[1..]);
        var m :| 0 <= m < |s| - 1 && s[1..][m] == y;
        assert s[m + 1] == y;
      }
      InsertRanked(s[0], t, k);
    }
  }

  /** A ranked list is in descending key order. */
  lemma RankedDescending(s: seq<ResultRow>, k: RankKey)
    requires Ranked(s, k)
    ensures forall i, j :: 0 <= i < j < |s| ==> Key(s[i], k) >= Key(s[j], k)
  {
  }

  /** Two ranked arrangements of the same rows are the same list: the ranking is fully
      determined by the keys and the prompt ids. */
  lemma {:induction false} RankedUnique(a: seq<ResultRow>, b: seq<ResultRow>, k: RankKey)
    requires Ranked(a, k) && Ranked(b, k) && multiset(a) == multiset(b)
    ensures a == b
    decreases |a|
  {
    if a != [] {
      RankedSameHead(a, b, k);
      MultisetTail(a, b);
      RankedTail(a, k);
      RankedTail(b, k);
      RankedUnique(a[1..], b[1..], k);
      assert a == [a[0]] + a[1..] && b == [b[0]] + b[1..];
    } else {
      assert |multiset(b)| == 0;
    }
  }

  /** Dropping the first row keeps a list ranked. */
  lemma RankedTail(s: seq<ResultRow>, k: RankKey)
    requires Ranked(s, k) && s != []
    ensures Ranked(s[1..], k)
  {
    forall i, j | 0 <= i < j < |s| - 1 ensures RanksBefore(s[1..][i], s[1..][j], k) {
      assert s[1..][i] == s[i + 1] && s[1..][j] == s[j + 1];
    }
  }

  /** Two ranked arrangements of the same non-empty rows start with the same row. */
  lemma RankedSameHead(a: seq<ResultRow>, b: seq<ResultRow>, k: RankKey)
    requires Ranked(a, k) && Ranked(b, k) && multiset(a) == multiset(b) && a != []
    ensures b != [] && a[0] == b[0]
  {
    assert a[0] in multiset(b);
    assert b[0] in multiset(a);
    var i :| 0 <= i < |b| && b[i] == a[0];
    var j :| 0 <= j < |a| && a[j] == b[0];
    if i > 0 && j > 0 {
      assert RanksBefore(b[0], a[0], k) && RanksBefore(a[0], b[0], k);
      RanksBeforeTransitive(a[0], b[0], a[0], k);
      LessIrreflexive(a[0].pid);
      assert false;
    }
  }

  /** Equal multisets of non-empty lists with equal heads have equal tails. */
  lemma MultisetTail(a: seq<ResultRow>, b: seq<ResultRow>)
    requires multiset(a) == multiset(b) && a != [] && b != [] && a[0] == b[0]
    ensures multiset(a[1..]) == multiset(b[1..])
  {
    assert a == [a[0]] + a[1..] && b == [b[0]] + b[1..];
    assert multiset(a) == multiset{a[0]} + multiset(a[1..]);
    assert multiset(b) == multiset{b[0]} + multiset(b[1..]);
    assert multiset(a[1..]) == multiset(a) - multiset{a[0]};
    assert multiset(b[1..]) == multiset(b) - multiset{b[0]};
  }

  // ---------------------------------------------------------------------------
  // The rows of `results`

  /** A row as first appended: the adjusted values start as the base values. */
  function BaseRow(pid: string, r: Rating): ResultRow
  {
    ResultRow(pid, CalcScore(r), CalcViolation(r), CalcScore(r), CalcViolation(r), r.preview)
  }

  /** Whether the event list, when one is given, names only known severities. */
  predicate Consistent(corrections: Option<seq<Correction>>)
  {
    corrections.None? || FirstUnknown(corrections.value).None?
  }

  /** A row once `main` is done with it: without corrections the base values, with them the
      values `apply_corrections` computes. */
  function FinalRow(pid: string, r: Rating, corrections: Option<seq<Correction>>): ResultRow
    requires Consistent(corrections)
  {
    match corrections
    case None => BaseRow(pid, r)
    case Some(cs) =>
      AdjustmentFails(pid, cs);
      var f := Adjustment(pid, cs).value;
      BaseRow(pid, r).(adjScore := AdjustedScore(r, f), adjViolation := AdjustedViolation(r, f))
  }

  /** Without corrections the adjusted values are the base values; with them the score can
      only fall and the violation only rise (for non-negative scores). */
  lemma FinalRowBounds(pid: string, r: Rating, corrections: Option<seq<Correction>>)
    requires Consistent(corrections)
    ensures var row := FinalRow(pid, r, corrections);
            && row.pid == pid && row.baseScore == CalcScore(r) && row.baseViolation == CalcViolation(r)
            && (corrections.None? ==> row.adjScore == row.baseScore && row.adjViolation == row.baseViolation)
            && row.adjViolation >= row.baseViolation
            && (row.baseScore >= 0.0 ==> 0.0 <= row.adjScore <= row.baseScore)
  {
    if corrections.Some? {
      AdjustmentFails(pid, corrections.value);
      AdjustedBounds(pid, r, corrections.value);
    }
  }

  /** The row `main` ends up with for every rated prompt. */
  ghost function FinalRows(ratings: map<string, Rating>, corrections: Option<seq<Correction>>): map<string, ResultRow>
    requires Consistent(corrections)
  {
    map pid | pid in ratings :: FinalRow(pid, ratings[pid], corrections)
  }

  /** The row filed under a prompt id is that prompt's row. */
  ghost predicate KeyedByPid(table: map<string, ResultRow>)
  {
    forall pid :: pid in table ==> table[pid].pid == pid
  }

  lemma FinalRowsKeyed(ratings: map<string, Rating>, corrections: Option<seq<Correction>>)
    requires Consistent(corrections)
    ensures FinalRows(ratings, corrections).Keys == ratings.Keys
    ensures KeyedByPid(FinalRows(ratings, corrections))
  {
  }

  datatype Selection = Selection(patterns: seq<ResultRow>, antiPatterns: seq<ResultRow>)

  /** `by_score[:n]` or `by_violation[:n]` is the top of the ranking of the rows in `table`:
      `min(n, |table|)` of them in ranking order, and every prompt left out ranking below
      every one chosen. */
  ghost predicate TopOf(top: seq<ResultRow>, n: nat, k: RankKey, table: map<string, ResultRow>)
  {
    && |top| == (if |table| < n then |table| else n)
    && Ranked(top, k)
    && (forall i :: 0 <= i < |top| ==> top[i].pid in table && top[i] == table[top[i].pid])
    && (forall pid, i :: pid in table && 0 <= i < |top| && (forall j :: 0 <= j < |top| ==> top[j].pid != pid) ==>
          RanksBefore(top[i], table[pid], k))
  }

  /** The rows for the prompts in `pids`, in that order. */
  ghost predicate RowsFor(rows: seq<ResultRow>, pids: seq<string>, table: map<string, ResultRow>)
  {
    && |rows| == |pids|
    && forall m :: 0 <= m < |rows| ==> pids[m] in table && rows[m] == table[pids[m]]
  }

  /** Each of the first `n` rows of a rearrangement is one of the original rows. */
  lemma TopMembers(sorted: seq<ResultRow>, rows: seq<ResultRow>, n: nat)
    requires multiset(sorted) == multiset(rows)
    ensures forall i :: 0 <= i < |Take(sorted, n)| ==> Take(sorted, n)[i] in rows
  {
    var top := Take(sorted, n);
    forall i | 0 <= i < |top| ensures top[i] in rows {
      assert top[i] == sorted[i] && sorted[i] in multiset(rows);
    }
  }

  /** A row of a ranked list whose prompt is not among the first `n` ranks below each of them. */
  lemma LeftOutBelow(sorted: seq<ResultRow>, n: nat, k: RankKey, x: ResultRow)
    requires Ranked(sorted, k) && x in sorted
    requires forall j :: 0 <= j < |Take(sorted, n)| ==> Take(sorted, n)[j].pid != x.pid
    ensures forall i :: 0 <= i < |Take(sorted, n)| ==> RanksBefore(Take(sorted, n)[i], x, k)
  {
    var top := Take(sorted, n);
    var q :| 0 <= q < |sorted| && sorted[q] == x;
    forall i | 0 <= i < |top| ensures RanksBefore(top[i], x, k) {
      assert top[i] == sorted[i];
    }
  }

  /** The first `n` rows of a ranked list are ranked. */
  lemma TopRanked(sorted: seq<ResultRow>, n: nat, k: RankKey)
    requires Ranked(sorted, k)
    ensures Ranked(Take(sorted, n), k)
  {
    var top := Take(sorted, n);
    forall i, j | 0 <= i < j < |top| ensures RanksBefore(top[i], top[j], k) {
      assert top[i] == sorted[i] && top[j] == sorted[j];
    }
  }

  /** Rows listed in prompt-id order when the ids are sorted. */
  lemma RowsPidOrdered(rows: seq<ResultRow>, pids: seq<string>, table: map<string, ResultRow>)
    requires KeyedByPid(table) && StrictlySorted(pids) && RowsFor(rows, pids, table)
    ensures PidOrdered(rows)
  {
    forall i, j | 0 <= i < j < |rows| ensures Less(rows[i].pid, rows[j].pid) {
      assert rows[i].pid == pids[i] && rows[j].pid == pids[j];
    }
  }

  /** Every row of a rearrangement of the rows for `pids` is the table's row for its prompt. */
  lemma TopInTable(rows: seq<ResultRow>, pids: seq<string>, top: seq<ResultRow>, table: map<string, ResultRow>)
    requires KeyedByPid(table) && RowsFor(rows, pids, table)
    requires forall i :: 0 <= i < |top| ==> top[i] in rows
    ensures forall i :: 0 <= i < |top| ==> top[i].pid in table && top[i] == table[top[i].pid]
  {
    forall i | 0 <= i < |top| ensures top[i].pid in table && top[i] == table[top[i].pid] {
      assert top[i] in rows;
      var m :| 0 <= m < |rows| && rows[m] == top[i];
    }
  }

  /** Every prompt of the table missing from the first `n` ranks below each of them. */
  lemma TopLeftOut(rows: seq<ResultRow>, pids: seq<string>, sorted: seq<ResultRow>, n: nat, k: RankKey,
                   table: map<string, ResultRow>)
    requires KeyedByPid(table) && RowsFor(rows, pids, table) && (forall x :: x in table ==> x in pids)
    requires Ranked(sorted, k) && multiset(sorted) == multiset(rows)
    ensures forall pid, i ::
              (&& pid in table && 0 <= i < |Take(sorted, n)|
               && (forall j :: 0 <= j < |Take(sorted, n)| ==> Take(sorted, n)[j].pid != pid)) ==>
              RanksBefore(Take(sorted, n)[i], table[pid], k)
  {
    var top := Take(sorted, n);
    forall pid | pid in table && (forall j :: 0 <= j < |top| ==> top[j].pid != pid)
      ensures forall i :: 0 <= i < |top| ==> RanksBefore(top[i], table[pid], k)
    {
      var m :| 0 <= m < |pids| && pids[m] == pid;
      assert rows[m] in multiset(sorted) && rows[m].pid == pid;
      LeftOutBelow(sorted, n, k, rows[m]);
    }
  }

  /** Taking the first `n` of the ranked rows of all prompts gives the top `n`. */
  lemma TakeTop(rows: seq<ResultRow>, pids: seq<string>, n: nat, k: RankKey, table: map<string, ResultRow>)
    requires KeyedByPid(table)
    requires StrictlySorted(pids) && |pids| == |table| && (forall x :: x in pids <==> x in table)
    requires RowsFor(rows, pids, table)
    ensures TopOf(Take(SortDescending(rows, k), n), n, k, table)
  {
    var sorted := SortDescending(rows, k);
    RowsPidOrdered(rows, pids, table);
    SortRanked(rows, k);
    assert |sorted| == |rows| by { assert |multiset(sorted)| == |multiset(rows)|; }
    TopRanked(sorted, n, k);
    TopMembers(sorted, rows, n);
    TopInTable(rows, pids, Take(sorted, n), table);
    TopLeftOut(rows, pids, sorted, n, k, table);
  }

  /** The rows of the top `n` belong to distinct prompts. */
  lemma TopDistinct(top: seq<ResultRow>, n: nat, k: RankKey, table: map<string, ResultRow>)
    requires TopOf(top, n, k, table)
    ensures forall i, j :: 0 <= i < j < |top| ==> top[i].pid != top[j].pid
  {
    forall i, j | 0 <= i < j < |top| ensures top[i].pid != top[j].pid {
      if top[i].pid == top[j].pid {
        assert top[i] == top[j];
        LessIrreflexive(top[i].pid);
      }
    }
  }

  /** The values `apply_corrections` records for a prompt complete its final row. */
  lemma UpdatedRow(pid: string, r: Rating, cs: seq<Correction>, score: real, violation: real)
    requires FirstUnknown(cs).None? && Adjustment(pid, cs).Some?
    requires score == AdjustedScore(r, Adjustment(pid, cs).value)
    requires violation == AdjustedViolation(r, Adjustment(pid, cs).value)
    ensures BaseRow(pid, r).(adjScore := score, adjViolation := violation) == FinalRow(pid, r, Some(cs))
  {
  }

  // ---------------------------------------------------------------------------
  // The selection in `main`

  /** The known-severity check `main` performs while printing each correction: the lookup
      fails on the first unknown severity. */
  method CheckSeverities(corrections: seq<Correction>) returns (r: Option<ScoringError>)
    ensures r.None? <==> FirstUnknown(corrections).None?
    ensures r.Some? ==> r.value == UnknownSeverity(FirstUnknown(corrections).value)
  {
    var j := 0;
    while j < |corrections|
      invariant 0 <= j <= |corrections|
      invariant FirstUnknown(corrections[..j]).None?
    {
      if Penalties(corrections[j].severity).None? {
        FirstUnknownAt(corrections, j);
        return Some(UnknownSeverity(corrections[j].severity));
      }
      FirstUnknownExtend(corrections, j);
      j := j + 1;
    }
    assert corrections[..j] == corrections;
    return None;
  }

  /** The loop building `results` in sorted prompt order, adjusted values set to the base. */
  method BaseResults(ratings: map<string, Rating>, pids: seq<string>) returns (results: seq<ResultRow>)
    requires forall m :: 0 <= m < |pids| ==> pids[m] in ratings
    ensures |results| == |pids|
    ensures forall m :: 0 <= m < |pids| ==> results[m] == BaseRow(pids[m], ratings[pids[m]])
  {
    results := [];
    var i := 0;
    while i < |pids|
      invariant 0 <= i <= |pids| && |results| == i
      invariant forall m :: 0 <= m < i ==> results[m] == BaseRow(pids[m], ratings[pids[m]])
    {
      results := results + [BaseRow(pids[i], ratings[pids[i]])];
      i := i + 1;
    }
  }

  /** The loop copying the adjusted values `apply_corrections` computed into each result. */
  method UpdateResults(results: seq<ResultRow>, pids: seq<string>, ratings: map<string, Rating>,
                       cs: seq<Correction>, adj: Adjusted)
    returns (updated: seq<ResultRow>)
    requires FirstUnknown(cs).None?
    requires |results| == |pids| && forall m :: 0 <= m < |pids| ==> pids[m] in ratings
    requires forall m :: 0 <= m < |pids| ==> results[m] == BaseRow(pids[m], ratings[pids[m]])
    requires adj.scores.Keys == ratings.Keys && adj.violations.Keys == ratings.Keys
    requires Recorded(ratings, cs, adj.scores, adj.violations)
    ensures |updated| == |pids|
    ensures forall m :: 0 <= m < |pids| ==> updated[m] == FinalRow(pids[m], ratings[pids[m]], Some(cs))
  {
    updated := results;
    var k := 0;
    while k < |updated|
      invariant 0 <= k <= |updated| == |pids|
      invariant forall m :: 0 <= m < k ==> updated[m] == FinalRow(pids[m], ratings[pids[m]], Some(cs))
      invariant forall m :: k <= m < |updated| ==> updated[m] == BaseRow(pids[m], ratings[pids[m]])
    {
      var pid := updated[k].pid;
      assert pid == pids[k] && pid in ratings;
      UpdatedRow(pid, ratings[pid], cs, adj.scores[pid], adj.violations[pid]);
      updated := updated[k := updated[k].(adjScore := adj.scores[pid], adjViolation := adj.violations[pid])];
      k := k + 1;
    }
  }

  /** `main` from the loaded ratings (and the loaded corrections, when a corrections file is
      given) to the two selections. */
  method Select(ratings: map<string, Rating>, corrections: Option<seq<Correction>>)
    returns (r: Result<Selection, ScoringError>)
    ensures r.Failure? <==> !Consistent(corrections)
    ensures r.Failure? ==> r.error == UnknownSeverity(FirstUnknown(corrections.value).value)
    ensures r.Success? ==>
              && Consistent(corrections)
              && TopOf(r.value.patterns, 7, ByScore, FinalRows(ratings, corrections))
              && TopOf(r.value.antiPatterns, 5, ByViolation, FinalRows(ratings, corrections))
  {
    var pids := SortedKeys(ratings.Keys);
    var results := BaseResults(ratings, pids);
    if corrections.Some? {
      var cs := corrections.value;
      var bad := CheckSeverities(cs);
      if bad.Some? {
        return Failure(bad.value);
      }
      var adj := ApplyCorrections(ratings, cs);
      assert adj.Success?;
      results := UpdateResults(results, pids, ratings, cs, adj.value);
    }
    ghost var table := FinalRows(ratings, corrections);
    FinalRowsKeyed(ratings, corrections);
    assert RowsFor(results, pids, table);
    var byScore := SortDescending(results, ByScore);
    var byViolation := SortDescending(results, ByViolation);
    TakeTop(results, pids, 7, ByScore, table);
    TakeTop(results, pids, 5, ByViolation, table);
    return Success(Selection(Take(byScore, 7), Take(byViolation, 5)));
  }
}
