/** Live driver positions: the HTTP location handler of app.ts, for one driver. */
module LiveLocation {
  import opened Prelude
  import opened Geography

  datatype Fix = Fix(at: int, place: Coordinate)

  /** `lastSeen` is absent when the stored time cannot be read. */
  datatype Live = Live(place: Coordinate, lastSeen: Option<int>)

  const MAX_SKEW_MS := 120_000

  predicate IsCurrent(live: Live, fix: Fix) { live.lastSeen.None? || fix.at >= live.lastSeen.value }

  function Take(live: Live, fix: Fix): Live {
    if IsCurrent(live, fix) then Live(fix.place, Some(fix.at)) else live
  }

  function TakeAll(live: Live, fixes: seq<Fix>): Live
    decreases |fixes|
  {
    if fixes == [] then live else TakeAll(Take(live, fixes[0]), fixes[1..])
  }

  datatype Answer = Accepted | Stale | Future | NotPersisted

  class DriverPosition {
    var live: Live
    var history: seq<Fix>

    constructor (live: Live)
      ensures this.live == live && history == []
    {
      this.live := live;
      history := [];
    }

    /** A fix too far in the future is refused; any other moves the live position if it is current,
        and goes to history, current or not. When the write fails there is no history entry, but
        the live position stays where it was moved to. */
    method PostLocation(fix: Fix, now: int, persisted: bool) returns (answer: Answer)
      modifies this
      ensures answer.Future? <==> fix.at > now + 120_000
      ensures answer.Future? ==> live == old(live) && history == old(history)
      ensures !answer.Future? ==> live == Take(old(live), fix)
      ensures !answer.Future? ==>
                live == if old(live).lastSeen.Some? && fix.at < old(live).lastSeen.value then old(live)
                        else Live(fix.place, Some(fix.at))
      ensures !answer.Future? ==> history == old(history) + if persisted then [fix] else []
      ensures !answer.Future? ==> (answer.NotPersisted? <==> !persisted)
      ensures !answer.Future? && persisted ==> (answer.Accepted? <==> IsCurrent(old(live), fix))
    {
      if fix.at > now + MAX_SKEW_MS {
        return Future;
      }
      var isCurrent := live.lastSeen.None? || fix.at >= live.lastSeen.value;
      if isCurrent {
        live := Live(fix.place, Some(fix.at));
      }
      if !persisted {
        return NotPersisted;
      }
      history := history + [fix];
      return if isCurrent then Accepted else Stale;
    }
  }

  /** A fix whose write fails leaves the live position as it was if and only if it is not current,
      or says what was known. */
  lemma FailedFixUndoneExactly(live: Live, fix: Fix)
    ensures Take(live, fix) == live <==> !IsCurrent(live, fix) || live == Live(fix.place, Some(fix.at))
  {
  }

  /** In plain terms: a fix as new as the last one, or newer, or the first that can be compared, is
      taken over with its place and time; an older one is not. */
  lemma TakeIs(live: Live, fix: Fix)
    ensures Take(live, fix)
            == if live.lastSeen.Some? && fix.at < live.lastSeen.value then live else Live(fix.place, Some(fix.at))
  {
  }

  predicate DistinctTimes(fixes: seq<Fix>) {
    forall i, j :: 0 <= i < j < |fixes| ==> fixes[i].at != fixes[j].at
  }

  /** `after` is the newest of the fixes at or after the initial time, or the initial position. */
  ghost predicate NewestOf(before: Live, fixes: seq<Fix>, after: Live) {
    && (forall f :: f in fixes ==> after.lastSeen.Some? && f.at <= after.lastSeen.value)
    && (before.lastSeen.Some? ==> after.lastSeen.Some? && before.lastSeen.value <= after.lastSeen.value)
    && (|| (exists f :: f in fixes && IsCurrent(before, f) && after == Live(f.place, Some(f.at)))
        || (after == before && forall f :: f in fixes ==> !IsCurrent(before, f)))
  }

  lemma {:induction false} TakeAllIsNewest(live: Live, fixes: seq<Fix>)
    ensures NewestOf(live, fixes, TakeAll(live, fixes))
    decreases |fixes|
  {
    if fixes != [] {
      var first, rest := fixes[0], fixes[1..];
      assert forall f :: f in fixes <==> f == first || f in rest;
      TakeAllIsNewest(Take(live, first), rest);
    }
  }

  lemma SameTimeSameFix(fixes: seq<Fix>, f: Fix, g: Fix)
    requires DistinctTimes(fixes) && f in fixes && g in fixes && f.at == g.at
    ensures f == g
  {
  }

  /** Fixes with distinct times give the same live position in any order of arrival. */
  lemma ArrivalOrderDoesNotMatter(live: Live, fixes: seq<Fix>, other: seq<Fix>)
    requires multiset(fixes) == multiset(other) && DistinctTimes(fixes)
    ensures TakeAll(live, fixes) == TakeAll(live, other)
  {
    TakeAllIsNewest(live, fixes);
    TakeAllIsNewest(live, other);
    forall f ensures f in fixes <==> f in other {
      assert f in multiset(fixes) <==> f in multiset(other);
    }
    var a, b := TakeAll(live, fixes), TakeAll(live, other);
    if f :| f in fixes && IsCurrent(live, f) && a == Live(f.place, Some(f.at)) {
      var g :| g in other && IsCurrent(live, g) && b == Live(g.place, Some(g.at));
      SameTimeSameFix(fixes, f, g);
    }
  }

  /** Two fixes commute exactly when their times differ, or they agree, or neither is current. */
  lemma TwoFixesCommuteExactly(live: Live, f: Fix, g: Fix)
    ensures Take(Take(live, f), g) == Take(Take(live, g), f)
            <==> f.at != g.at || f.place == g.place || !IsCurrent(live, f)
  {
  }
}
