/** Streaks of cash shifts that came out short, or over, one after the other. */
module VarianceRuns {
  import opened Sums

  datatype Direction = Balanced | Short | Over

  datatype Shift = Shift(user: nat, closedAt: int, variance: int)

  function DirectionOf(variance: int, tolerance: nat): Direction {
    if variance <= tolerance && variance + tolerance >= 0 then Balanced else if variance < 0 then Short else Over
  }

  function Dir(s: Shift, tolerance: nat): Direction { DirectionOf(s.variance, tolerance) }

  /** A streak of shifts from .. to of one user, in closing order. */
  datatype Pattern = Pattern(user: nat, direction: Direction, from: nat, to: nat, total: int, ongoing: bool)

  predicate SameDirection(shifts: seq<Shift>, tolerance: nat, from: nat, to: nat)
    requires from < to <= |shifts|
  {
    !Dir(shifts[from], tolerance).Balanced?
    && forall i :: from <= i < to ==> Dir(shifts[i], tolerance) == Dir(shifts[from], tolerance)
  }

  /** A streak that no neighbouring shift extends. */
  predicate MaximalRun(shifts: seq<Shift>, tolerance: nat, from: nat, to: nat) {
    && from < to <= |shifts| && SameDirection(shifts, tolerance, from, to)
    && (from > 0 ==> Dir(shifts[from - 1], tolerance) != Dir(shifts[from], tolerance))
    && (to < |shifts| ==> Dir(shifts[to], tolerance) != Dir(shifts[from], tolerance))
  }

  function VarianceFn(): Shift -> int { (s: Shift) => s.variance }

  predicate PatternIs(shifts: seq<Shift>, tolerance: nat, p: Pattern) {
    && MaximalRun(shifts, tolerance, p.from, p.to)
    && p.user == shifts[p.from].user && p.direction == Dir(shifts[p.from], tolerance)
    && p.total == Sum(shifts[p.from..p.to], VarianceFn())
    && (p.ongoing <==> p.to == |shifts|)
  }

  /** Exactly the maximal streaks of at least `minStreak` shifts that end by `n`, once each, in order. */
  predicate PatternsOf(shifts: seq<Shift>, tolerance: nat, minStreak: nat, ps: seq<Pattern>) {
    && (forall k :: 0 <= k < |ps| ==> PatternIs(shifts, tolerance, ps[k]) && ps[k].to - ps[k].from >= minStreak)
    && (forall j, k :: 0 <= j < k < |ps| ==> ps[j].to <= ps[k].from)
    && (forall from, to ::
          0 <= from < to <= |shifts| && MaximalRun(shifts, tolerance, from, to) && to - from >= minStreak ==>
          exists k :: 0 <= k < |ps| && ps[k].from == from && ps[k].to == to)
  }

  /** Two maximal streaks are the same or do not meet. */
  lemma MaximalRunsApart(shifts: seq<Shift>, tolerance: nat, a: nat, b: nat, c: nat, d: nat)
    requires MaximalRun(shifts, tolerance, a, b) && MaximalRun(shifts, tolerance, c, d)
    ensures (a == c && b == d) || b <= c || d <= a
  {
  }

  /** A streak that no neighbour extends, on the shifts themselves: all short, or all over, by more than the
      tolerance. */
  lemma MaximalOnShifts(shifts: seq<Shift>, tolerance: nat, from: nat, to: nat)
    requires from < to <= |shifts|
    ensures MaximalRun(shifts, tolerance, from, to) <==>
              || ((forall i :: from <= i < to ==> shifts[i].variance < -(tolerance as int))
                  && (from > 0 ==> shifts[from - 1].variance >= -(tolerance as int))
                  && (to < |shifts| ==> shifts[to].variance >= -(tolerance as int)))
              || ((forall i :: from <= i < to ==> shifts[i].variance > tolerance)
                  && (from > 0 ==> shifts[from - 1].variance <= tolerance)
                  && (to < |shifts| ==> shifts[to].variance <= tolerance))
  {
    forall i | 0 <= i < |shifts|
      ensures Dir(shifts[i], tolerance).Short? <==> shifts[i].variance < -(tolerance as int)
      ensures Dir(shifts[i], tolerance).Over? <==> shifts[i].variance > tolerance
    {
    }
    hide DirectionOf, Dir;
  }

  /** A reported streak, on the shifts themselves: every one of them was short, or over, by more than the
      tolerance; the shift before it and the one after it were not; the total is what they were out by. */
  lemma StreakOnShifts(shifts: seq<Shift>, tolerance: nat, p: Pattern)
    requires PatternIs(shifts, tolerance, p)
    ensures p.from < p.to <= |shifts| && p.user == shifts[p.from].user && (p.ongoing <==> p.to == |shifts|)
    ensures p.total == Sum(shifts[p.from..p.to], (x: Shift) => x.variance)
    ensures p.direction.Short? || p.direction.Over?
    ensures p.direction.Short? ==>
              && (forall i :: p.from <= i < p.to ==> shifts[i].variance < -(tolerance as int))
              && (p.from > 0 ==> shifts[p.from - 1].variance >= -(tolerance as int))
              && (p.to < |shifts| ==> shifts[p.to].variance >= -(tolerance as int))
    ensures p.direction.Over? ==>
              && (forall i :: p.from <= i < p.to ==> shifts[i].variance > tolerance)
              && (p.from > 0 ==> shifts[p.from - 1].variance <= tolerance)
              && (p.to < |shifts| ==> shifts[p.to].variance <= tolerance)
  {
    SumSame(shifts[p.from..p.to], VarianceFn(), shifts[p.from..p.to], (x: Shift) => x.variance);
    assert Dir(shifts[p.from], tolerance) == p.direction;
  }

  /** Everything the walk has closed off by shift `n`. */
  predicate FoundBy(shifts: seq<Shift>, tolerance: nat, minStreak: nat, ps: seq<Pattern>, n: nat) {
    && (forall k :: 0 <= k < |ps| ==>
          PatternIs(shifts, tolerance, ps[k]) && ps[k].to - ps[k].from >= minStreak && ps[k].to <= n)
    && (forall j, k :: 0 <= j < k < |ps| ==> ps[j].to <= ps[k].from)
    && (forall from, to ::
          (0 <= from < to <= n <= |shifts| && MaximalRun(shifts, tolerance, from, to) && to - from >= minStreak) ==>
            exists k :: 0 <= k < |ps| && ps[k].from == from && ps[k].to == to)
  }

  /** The open run at shift i: empty after a BALANCED one, else it began at `start` and could not have begun earlier. */
  predicate OpenRun(shifts: seq<Shift>, tolerance: nat, start: nat, i: nat) {
    && start <= i <= |shifts|
    && (start < i ==> SameDirection(shifts, tolerance, start, i))
    && (0 < start < i ==> Dir(shifts[start - 1], tolerance) != Dir(shifts[start], tolerance))
    && (start == i && i > 0 ==> Dir(shifts[i - 1], tolerance).Balanced?)
  }

  lemma RunEndsAt(shifts: seq<Shift>, tolerance: nat, start: nat, i: nat, from: nat, to: nat)
    requires OpenRun(shifts, tolerance, start, i) && MaximalRun(shifts, tolerance, from, to) && start < to <= i
    ensures from == start < i && to == i
  {
  }

  method TotalOf(shifts: seq<Shift>, from: nat, to: nat) returns (total: int)
    requires from <= to <= |shifts|
    ensures total == Sum(shifts[from..to], VarianceFn())
  {
    var k := from;
    total := 0;
    assert shifts[from..from] == [];
    while k < to
      invariant from <= k <= to && total == Sum(shifts[from..k], VarianceFn())
    {
      assert shifts[from..k + 1] == shifts[from..k] + [shifts[k]];
      SumAppend(shifts[from..k], shifts[k], VarianceFn());
      total := total + shifts[k].variance;
      k := k + 1;
    }
  }

  lemma OpenRunCloses(shifts: seq<Shift>, tolerance: nat, start: nat, i: nat)
    requires OpenRun(shifts, tolerance, start, i)
    requires start < i < |shifts| ==> Dir(shifts[i], tolerance) != Dir(shifts[start], tolerance)
    ensures start <= i <= |shifts| && (start < i ==> MaximalRun(shifts, tolerance, start, i))
  {
  }

  /** Closing the open run at shift i adds it if it is long enough, and nothing else was missing. */
  method Flush(shifts: seq<Shift>, tolerance: nat, minStreak: nat, patterns: seq<Pattern>, start: nat, i: nat,
               isLast: bool)
    returns (ps: seq<Pattern>)
    requires minStreak >= 1 && OpenRun(shifts, tolerance, start, i)
             && FoundBy(shifts, tolerance, minStreak, patterns, start)
    requires isLast <==> i == |shifts|
    requires start < i < |shifts| ==> Dir(shifts[i], tolerance) != Dir(shifts[start], tolerance)
    ensures FoundBy(shifts, tolerance, minStreak, ps, i)
  {
    ps := patterns;
    OpenRunCloses(shifts, tolerance, start, i);
    hide MaximalRun, SameDirection, OpenRun, Sum;
    if i - start >= minStreak {
      var total := TotalOf(shifts, start, i);
      ps := patterns + [Pattern(shifts[start].user, Dir(shifts[start], tolerance), start, i, total, isLast)];
    }
    NothingMissed(shifts, tolerance, minStreak, patterns, ps, start, i);
  }

  lemma NothingMissed(shifts: seq<Shift>, tolerance: nat, minStreak: nat, before: seq<Pattern>, ps: seq<Pattern>,
                      start: nat, i: nat)
    requires OpenRun(shifts, tolerance, start, i) && FoundBy(shifts, tolerance, minStreak, before, start)
             && before <= ps
    requires start < i && i - start >= minStreak ==>
               |ps| == |before| + 1 && ps[|before|].from == start && ps[|before|].to == i
    ensures forall from, to ::
            0 <= from < to <= i && MaximalRun(shifts, tolerance, from, to) && to - from >= minStreak ==>
              exists k :: 0 <= k < |ps| && ps[k].from == from && ps[k].to == to
  {
    forall from, to | 0 <= from < to <= i && MaximalRun(shifts, tolerance, from, to) && to - from >= minStreak
      ensures exists k :: 0 <= k < |ps| && ps[k].from == from && ps[k].to == to
    {
      if to <= start {
        var k :| 0 <= k < |before| && before[k].from == from && before[k].to == to;
        assert ps[k] == before[k];
      } else {
        RunEndsAt(shifts, tolerance, start, i, from, to);
        assert ps[|before|].from == from;
      }
    }
  }

  /** The walk over one user's shifts in closing order. */
  method DetectRuns(shifts: seq<Shift>, tolerance: nat, minStreak: nat) returns (ps: seq<Pattern>)
    requires minStreak >= 1
    ensures PatternsOf(shifts, tolerance, minStreak, ps)
  {
    ps := [];
    var start, i := 0, 0;
    while i < |shifts|
      invariant 0 <= start <= i <= |shifts|
      invariant OpenRun(shifts, tolerance, start, i) && FoundBy(shifts, tolerance, minStreak, ps, start)
    {
      var d := Dir(shifts[i], tolerance);
      if d.Balanced? {
        ps := Flush(shifts, tolerance, minStreak, ps, start, i, false);
        start := i + 1;
        SkipBalanced(shifts, tolerance, minStreak, ps, i);
      } else if start < i && Dir(shifts[start], tolerance) != d {
        ps := Flush(shifts, tolerance, minStreak, ps, start, i, false);
        start := i;
      }
      i := i + 1;
    }
    ps := Flush(shifts, tolerance, minStreak, ps, start, i, true);
  }

  lemma SkipBalanced(shifts: seq<Shift>, tolerance: nat, minStreak: nat, ps: seq<Pattern>, i: nat)
    requires i < |shifts| && Dir(shifts[i], tolerance).Balanced? && FoundBy(shifts, tolerance, minStreak, ps, i)
    ensures FoundBy(shifts, tolerance, minStreak, ps, i + 1)
  {
    forall from, to | 0 <= from < to <= i + 1 && MaximalRun(shifts, tolerance, from, to) && to - from >= minStreak
      ensures exists k :: 0 <= k < |ps| && ps[k].from == from && ps[k].to == to
    {
    }
  }

  // ---- Per user ----

  function OfUser(shifts: seq<Shift>, u: nat): seq<Shift> {
    if shifts == [] then []
    else OfUser(shifts[..|shifts| - 1], u) + (if shifts[|shifts| - 1].user == u then [shifts[|shifts| - 1]] else [])
  }

  function Place(sorted: seq<Shift>, s: Shift): seq<Shift> {
    if sorted == [] || sorted[|sorted| - 1].closedAt <= s.closedAt then sorted + [s]
    else Place(sorted[..|sorted| - 1], s) + [sorted[|sorted| - 1]]
  }

  /** Stable sort by closing time. */
  function ByClosing(shifts: seq<Shift>): seq<Shift> {
    if shifts == [] then [] else Place(ByClosing(shifts[..|shifts| - 1]), shifts[|shifts| - 1])
  }

  predicate InClosingOrder(shifts: seq<Shift>) {
    forall i, j :: 0 <= i < j < |shifts| ==> shifts[i].closedAt <= shifts[j].closedAt
  }

  lemma {:induction false} PlaceKeeps(sorted: seq<Shift>, s: Shift)
    requires InClosingOrder(sorted)
    ensures InClosingOrder(Place(sorted, s))
    ensures forall x :: x in Place(sorted, s) ==> x == s || x in sorted
  {
    if sorted != [] && sorted[|sorted| - 1].closedAt > s.closedAt {
      var k := |sorted| - 1;
      PlaceKeeps(sorted[..k], s);
      var p := Place(sorted[..k], s);
      forall i | 0 <= i < |p| ensures p[i].closedAt <= sorted[k].closedAt { assert p[i] in p; }
    }
  }

  lemma {:induction false} PlaceAdds(sorted: seq<Shift>, s: Shift)
    ensures multiset(Place(sorted, s)) == multiset(sorted) + multiset{s}
  {
    if sorted != [] && sorted[|sorted| - 1].closedAt > s.closedAt {
      var k := |sorted| - 1;
      PlaceAdds(sorted[..k], s);
      assert sorted == sorted[..k] + [sorted[k]];
    }
  }

  lemma {:induction false} ByClosingSorts(shifts: seq<Shift>)
    ensures InClosingOrder(ByClosing(shifts)) && multiset(ByClosing(shifts)) == multiset(shifts)
  {
    if shifts != [] {
      var k := |shifts| - 1;
      ByClosingSorts(shifts[..k]);
      assert ByClosing(shifts) == Place(ByClosing(shifts[..k]), shifts[k]);
      hide *;
      PlaceKeeps(ByClosing(shifts[..k]), shifts[k]);
      PlaceAdds(ByClosing(shifts[..k]), shifts[k]);
      assert shifts == shifts[..k] + [shifts[k]];
    }
  }

  lemma {:induction false} OfUserCounts(shifts: seq<Shift>, u: nat, x: Shift)
    ensures multiset(OfUser(shifts, u))[x] == if x.user == u then multiset(shifts)[x] else 0
  {
    if shifts != [] {
      var k := |shifts| - 1;
      OfUserCounts(shifts[..k], u, x);
      assert shifts == shifts[..k] + [shifts[k]];
    }
  }

  /** The shifts that closed at the same moment, in the order given. */
  function ClosedAt(shifts: seq<Shift>, t: int): seq<Shift> {
    if shifts == [] then []
    else ClosedAt(shifts[..|shifts| - 1], t)
         + (if shifts[|shifts| - 1].closedAt == t then [shifts[|shifts| - 1]] else [])
  }

  lemma {:induction false} PlaceIsStable(sorted: seq<Shift>, s: Shift, t: int)
    ensures ClosedAt(Place(sorted, s), t) == ClosedAt(sorted, t) + (if s.closedAt == t then [s] else [])
  {
    if sorted == [] || sorted[|sorted| - 1].closedAt <= s.closedAt {
      assert (sorted + [s])[..|sorted|] == sorted;
    } else {
      var k := |sorted| - 1;
      PlaceIsStable(sorted[..k], s, t);
      var p := Place(sorted[..k], s);
      assert (p + [sorted[k]])[..|p|] == p;
    }
  }

  lemma {:induction false} ByClosingIsStable(shifts: seq<Shift>, t: int)
    ensures ClosedAt(ByClosing(shifts), t) == ClosedAt(shifts, t)
  {
    if shifts != [] {
      var k := |shifts| - 1;
      ByClosingIsStable(shifts[..k], t);
      PlaceIsStable(ByClosing(shifts[..k]), shifts[k], t);
    }
  }

  /** All the shifts of the user and nobody else's, each as often as given, by closing time, and in the
      order given where they closed together. */
  ghost predicate Examined(shifts: seq<Shift>, u: nat, ordered: seq<Shift>) {
    && InClosingOrder(ordered)
    && (forall x :: multiset(ordered)[x] == if x.user == u then multiset(shifts)[x] else 0)
    && (forall t :: ClosedAt(ordered, t) == ClosedAt(OfUser(shifts, u), t))
  }

  lemma OrderedIsExamined(shifts: seq<Shift>, u: nat)
    ensures Examined(shifts, u, ByClosing(OfUser(shifts, u)))
  {
    hide ByClosing, OfUser, ClosedAt, InClosingOrder;
    var own := OfUser(shifts, u);
    ByClosingSorts(own);
    forall x ensures multiset(ByClosing(own))[x] == if x.user == u then multiset(shifts)[x] else 0 {
      OfUserCounts(shifts, u, x);
    }
    forall t ensures ClosedAt(ByClosing(own), t) == ClosedAt(own, t) { ByClosingIsStable(own, t); }
  }

  /** The patterns of a user: the maximal runs of that user's shifts by closing time. */
  ghost predicate ReportOk(shifts: seq<Shift>, tolerance: nat, minStreak: nat, u: nat, ps: seq<Pattern>) {
    exists ordered :: Examined(shifts, u, ordered) && PatternsOf(ordered, tolerance, minStreak, ps)
  }

  lemma OwnReport(shifts: seq<Shift>, tolerance: nat, minStreak: nat, u: nat, ps: seq<Pattern>)
    requires PatternsOf(ByClosing(OfUser(shifts, u)), tolerance, minStreak, ps)
    ensures ReportOk(shifts, tolerance, minStreak, u, ps)
  {
    hide Examined, PatternsOf, ByClosing, OfUser;
    OrderedIsExamined(shifts, u);
  }

  /** detectVariancePatterns, user by user: over all of that user's shifts, sound, complete and without
      overlaps. */
  method DetectVariancePatterns(shifts: seq<Shift>, tolerance: nat, minStreak: nat)
    returns (report: map<nat, seq<Pattern>>)
    requires minStreak >= 1
    ensures forall u :: u in report <==> exists i :: 0 <= i < |shifts| && shifts[i].user == u
    ensures forall u :: u in report ==> ReportOk(shifts, tolerance, minStreak, u, report[u])
  {
    hide PatternsOf, ReportOk, ByClosing, OfUser;
    report := map[];
    var i := 0;
    while i < |shifts|
      invariant 0 <= i <= |shifts|
      invariant forall u :: u in report <==> exists k :: 0 <= k < i && shifts[k].user == u
      invariant forall u :: u in report ==> ReportOk(shifts, tolerance, minStreak, u, report[u])
    {
      var u := shifts[i].user;
      if u !in report {
        var ps := DetectRuns(ByClosing(OfUser(shifts, u)), tolerance, minStreak);
        OwnReport(shifts, tolerance, minStreak, u, ps);
        report := report[u := ps];
      }
      i := i + 1;
    }
  }
}
