/** Choosing the station for a task among the candidates the kitchen service reports. */
module StationSelector {
  import opened Common

  datatype DispatchCandidate = DispatchCandidate(
    station: StationId, status: string, health: string,
    capacity: int, busySlots: int, visibleBacklogSize: int, visibleBacklogLimit: int)

  predicate Eligible(c: DispatchCandidate) {
    c.status == "available" && c.health == "ok" && c.visibleBacklogSize < c.visibleBacklogLimit
  }

  /** Byte order of identifiers. */
  predicate TextLess(a: string, b: string) {
    if b == "" then false
    else if a == "" then true
    else a[0] < b[0] || (a[0] == b[0] && TextLess(a[1..], b[1..]))
  }

  predicate Less(a: DispatchCandidate, b: DispatchCandidate) {
    if a.visibleBacklogSize != b.visibleBacklogSize then a.visibleBacklogSize < b.visibleBacklogSize
    else if a.busySlots != b.busySlots then a.busySlots < b.busySlots
    else TextLess(a.station, b.station)
  }

  /** a is a proper prefix of b, or has the smaller character where they first differ. */
  ghost predicate Precedes(a: string, b: string) {
    exists i :: 0 <= i <= |a| && i <= |b| && DiffersAt(a, b, i)
  }

  predicate DiffersAt(a: string, b: string, i: nat)
    requires i <= |a| && i <= |b|
  {
    a[..i] == b[..i] && i < |b| && (i == |a| || a[i] < b[i])
  }

  /** Fewer rows on the screen, then fewer busy slots, then the earlier identifier. */
  ghost predicate Preferred(c: DispatchCandidate, d: DispatchCandidate) {
    && c.visibleBacklogSize <= d.visibleBacklogSize
    && (c.visibleBacklogSize == d.visibleBacklogSize ==> c.busySlots <= d.busySlots)
    && (c.visibleBacklogSize == d.visibleBacklogSize && c.busySlots == d.busySlots ==> Precedes(c.station, d.station))
  }

  lemma {:induction false} TextLessExactly(a: string, b: string)
    ensures TextLess(a, b) <==> Precedes(a, b)
  {
    if a == "" || b == "" || a[0] != b[0] {
      assert TextLess(a, b) ==> DiffersAt(a, b, 0);
    } else {
      TextLessExactly(a[1..], b[1..]);
      if i :| 0 <= i <= |a[1..]| && i <= |b[1..]| && DiffersAt(a[1..], b[1..], i) {
        assert a[..i + 1] == [a[0]] + a[1..][..i] && b[..i + 1] == [b[0]] + b[1..][..i];
        assert DiffersAt(a, b, i + 1);
      }
      if i :| 0 <= i <= |a| && i <= |b| && DiffersAt(a, b, i) {
        assert i > 0 && a[1..][..i - 1] == a[..i][1..] && b[1..][..i - 1] == b[..i][1..];
        assert DiffersAt(a[1..], b[1..], i - 1);
      }
    }
  }

  /** The comparator says which of two stations is preferred. */
  lemma LessExactly(c: DispatchCandidate, d: DispatchCandidate)
    ensures Less(c, d) <==> Preferred(c, d)
  {
    TextLessExactly(c.station, d.station);
  }

  lemma {:induction false} TextLessIsTotal(a: string, b: string)
    ensures a != b ==> TextLess(a, b) || TextLess(b, a)
    ensures !(TextLess(a, b) && TextLess(b, a))
    ensures !TextLess(a, a)
  {
    if a != "" && b != "" {
      TextLessIsTotal(a[1..], b[1..]);
      assert a == [a[0]] + a[1..] && b == [b[0]] + b[1..];
    }
    if a != "" { TextLessIsTotal(a[1..], a[1..]); }
  }

  lemma {:induction false} TextLessTransitive(a: string, b: string, c: string)
    requires TextLess(a, b) && TextLess(b, c)
    ensures TextLess(a, c)
  {
    if a != "" && a[0] == b[0] == c[0] { TextLessTransitive(a[1..], b[1..], c[1..]); }
  }

  lemma LessIsStrictOrder(a: DispatchCandidate, b: DispatchCandidate, c: DispatchCandidate)
    ensures Less(a, b) && Less(b, c) ==> Less(a, c)
    ensures a.station != b.station ==> Less(a, b) || Less(b, a)
    ensures !(Less(a, b) && Less(b, a))
  {
    TextLessIsTotal(a.station, b.station);
    if TextLess(a.station, b.station) && TextLess(b.station, c.station) {
      TextLessTransitive(a.station, b.station, c.station);
    }
  }

  /** Some order the sorting routine may leave the slice in. */
  ghost predicate SortedBy(s: seq<DispatchCandidate>) {
    forall i, j | 0 <= i < j < |s| :: !Less(s[j], s[i])
  }

  function Insert(s: seq<DispatchCandidate>, c: DispatchCandidate): seq<DispatchCandidate> {
    if s == [] || !Less(c, s[|s| - 1]) then s + [c] else Insert(s[..|s| - 1], c) + [s[|s| - 1]]
  }

  function Sort(s: seq<DispatchCandidate>): seq<DispatchCandidate> {
    if s == [] then [] else Insert(Sort(s[..|s| - 1]), s[|s| - 1])
  }

  /** c may stand after the whole list. */
  ghost predicate AtLeastAll(s: seq<DispatchCandidate>, c: DispatchCandidate) {
    forall i | 0 <= i < |s| :: !Less(c, s[i])
  }

  lemma {:induction false} InsertSorted(s: seq<DispatchCandidate>, c: DispatchCandidate)
    requires SortedBy(s)
    ensures SortedBy(Insert(s, c))
    ensures forall d :: AtLeastAll(s, d) && !Less(d, c) ==> AtLeastAll(Insert(s, c), d)
  {
    if s != [] {
      var n := |s| - 1;
      if Less(c, s[n]) {
        InsertSorted(s[..n], c);
        LessIsStrictOrder(s[n], c, c);
        assert AtLeastAll(s[..n], s[n]);
        assert forall d :: AtLeastAll(s, d) ==> AtLeastAll(s[..n], d);
      } else {
        forall i | 0 <= i < n ensures !Less(c, s[i]) { NotLessTransitive(c, s[n], s[i]); }
      }
    }
  }

  lemma {:induction false} InsertPermutes(s: seq<DispatchCandidate>, c: DispatchCandidate)
    ensures multiset(Insert(s, c)) == multiset(s) + multiset{c}
  {
    if s != [] {
      assert s == s[..|s| - 1] + [s[|s| - 1]];
      if Less(c, s[|s| - 1]) { InsertPermutes(s[..|s| - 1], c); }
    }
  }

  lemma NotLessTransitive(a: DispatchCandidate, b: DispatchCandidate, c: DispatchCandidate)
    requires !Less(a, b) && !Less(b, c)
    ensures !Less(a, c)
  {
    if Less(a, c) {
      if b.station == c.station && b.visibleBacklogSize == c.visibleBacklogSize && b.busySlots == c.busySlots {
        TextLessIsTotal(a.station, b.station);
      } else {
        TextLessIsTotal(b.station, c.station);
        LessIsStrictOrder(a, c, b);
      }
    }
  }

  lemma {:induction false} SortSorted(s: seq<DispatchCandidate>)
    ensures SortedBy(Sort(s)) && multiset(Sort(s)) == multiset(s)
  {
    if s != [] {
      assert s == s[..|s| - 1] + [s[|s| - 1]];
      SortSorted(s[..|s| - 1]);
      InsertSorted(Sort(s[..|s| - 1]), s[|s| - 1]);
      InsertPermutes(Sort(s[..|s| - 1]), s[|s| - 1]);
    }
  }

  /** c is the best of the candidates: eligible, and preferred to every other eligible one. */
  ghost predicate Best(candidates: seq<DispatchCandidate>, c: DispatchCandidate) {
    && c in candidates && c.status == "available" && c.health == "ok" && c.visibleBacklogSize < c.visibleBacklogLimit
    && (forall d | d in candidates && Eligible(d) :: d == c || Preferred(c, d))
  }

  /** No candidate is available, healthy and below its limit. */
  predicate NoneFits(candidates: seq<DispatchCandidate>) {
    forall c | c in candidates ::
      c.status != "available" || c.health != "ok" || c.visibleBacklogSize >= c.visibleBacklogLimit
  }

  ghost predicate DistinctStations(candidates: seq<DispatchCandidate>) {
    forall c, d | c in candidates && d in candidates && c.station == d.station :: c == d
  }

  /** The best candidate does not depend on the order of the list. */
  lemma BestIsUnique(s: seq<DispatchCandidate>, t: seq<DispatchCandidate>, c: DispatchCandidate, d: DispatchCandidate)
    requires multiset(s) == multiset(t) && Best(s, c) && Best(t, d)
    ensures c == d
  {
    assert c in multiset(s) && d in multiset(t);
    assert d in multiset(s) && c in multiset(t);
    LessExactly(c, d);
    LessExactly(d, c);
    LessIsStrictOrder(c, d, c);
  }

  /** The eligible ones among the first n candidates. */
  function EligibleUpTo(candidates: seq<DispatchCandidate>, n: nat): seq<DispatchCandidate>
    requires n <= |candidates|
  {
    if n == 0 then []
    else EligibleUpTo(candidates, n - 1) + (if Eligible(candidates[n - 1]) then [candidates[n - 1]] else [])
  }

  function Choose(candidates: seq<DispatchCandidate>): Option<DispatchCandidate> {
    var sorted := Sort(EligibleUpTo(candidates, |candidates|));
    if |sorted| == 0 then None else Some(sorted[0])
  }

  method SelectStation(candidates: seq<DispatchCandidate>) returns (choice: Option<DispatchCandidate>)
    ensures choice == Choose(candidates) && (choice.None? <==> NoneFits(candidates))
    ensures DistinctStations(candidates) && choice.Some? ==> Best(candidates, choice.value)
  {
    ChoosesUnlessNoneFits(candidates);
    if DistinctStations(candidates) { ChooseIsBest(candidates); }
    var filtered: seq<DispatchCandidate> := [];
    for k := 0 to |candidates|
      invariant filtered == EligibleUpTo(candidates, k)
    {
      var candidate := candidates[k];
      if candidate.status != "available" {
        continue;
      }
      if candidate.health != "ok" {
        continue;
      }
      if candidate.visibleBacklogSize >= candidate.visibleBacklogLimit {
        continue;
      }
      filtered := filtered + [candidate];
    }
    var sorted := Sort(filtered);
    SortSorted(filtered);
    assert |sorted| == |multiset(sorted)| && |filtered| == |multiset(filtered)|;
    if |filtered| == 0 {
      return None;
    }
    return Some(sorted[0]);
  }

  lemma {:induction false} EligibleExactly(candidates: seq<DispatchCandidate>, n: nat, c: DispatchCandidate)
    requires n <= |candidates|
    ensures c in EligibleUpTo(candidates, n) <==> c in candidates[..n] && Eligible(c)
  {
    if n > 0 {
      EligibleExactly(candidates, n - 1, c);
      assert candidates[..n] == candidates[..n - 1] + [candidates[n - 1]];
    }
  }

  lemma ArrangedExactly(candidates: seq<DispatchCandidate>, sorted: seq<DispatchCandidate>, c: DispatchCandidate)
    requires multiset(sorted) == multiset(EligibleUpTo(candidates, |candidates|))
    ensures c in sorted <==> c in candidates && Eligible(c)
  {
    EligibleExactly(candidates, |candidates|, c);
    assert candidates[..|candidates|] == candidates;
    assert c in sorted <==> c in multiset(sorted);
  }

  /** However the sorting routine arranges equals, the head of any sorted arrangement is the best candidate. */
  lemma HeadIsBest(candidates: seq<DispatchCandidate>, sorted: seq<DispatchCandidate>)
    requires DistinctStations(candidates) && SortedBy(sorted) && sorted != []
    requires multiset(sorted) == multiset(EligibleUpTo(candidates, |candidates|))
    ensures Best(candidates, sorted[0])
  {
    var best := sorted[0];
    ArrangedExactly(candidates, sorted, best);
    forall d | d in candidates && Eligible(d) ensures d == best || Preferred(best, d) {
      ArrangedExactly(candidates, sorted, d);
      var i :| 0 <= i < |sorted| && sorted[i] == d;
      LessIsStrictOrder(best, d, best);
      LessExactly(best, d);
    }
  }

  /** The choice is the best candidate, and there is none only when no candidate is eligible. */
  lemma ChooseIsBest(candidates: seq<DispatchCandidate>)
    requires DistinctStations(candidates)
    ensures Choose(candidates).None? <==> NoneFits(candidates)
    ensures Choose(candidates).Some? ==> Best(candidates, Choose(candidates).value)
  {
    var filtered := EligibleUpTo(candidates, |candidates|);
    SortSorted(filtered);
    ChoosesUnlessNoneFits(candidates);
    if Sort(filtered) != [] { HeadIsBest(candidates, Sort(filtered)); }
  }

  lemma ChoosesUnlessNoneFits(candidates: seq<DispatchCandidate>)
    ensures Choose(candidates).None? <==> NoneFits(candidates)
  {
    var filtered := EligibleUpTo(candidates, |candidates|);
    SortSorted(filtered);
    forall c | c in candidates ensures Eligible(c) <==> c in Sort(filtered) {
      ArrangedExactly(candidates, Sort(filtered), c);
    }
    if Sort(filtered) != [] { ArrangedExactly(candidates, Sort(filtered), Sort(filtered)[0]); }
  }
}
