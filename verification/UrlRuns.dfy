/** Whole runs of updates of the search screen, against the same runs on states alone. */
module UrlRuns {
  import opened Text
  import opened UrlParams
  import opened UrlState
  import opened UrlLens

  /** Where an update leaves the screen. */
  function Updated(url: Pairs, local: (string, string), next: Update, clock: Clock): Result<(Pairs, (string, string))> {
    var cur := Read(url, local, clock);
    if cur.Throws? then Throws
    else var m := Merge(cur.value, next); Ok((Write(url, m), WriteLocal(local, m)))
  }

  /** URL and kept range after a run; once a URL cannot be read, no further update is possible. */
  function Run(url: Pairs, local: (string, string), updates: seq<Update>, clock: Clock)
    : Result<(Pairs, (string, string))>
  {
    if updates == [] then Ok((url, local))
    else
      var r := Run(url, local, updates[..|updates| - 1], clock);
      if r.Throws? then Throws else Updated(r.value.0, r.value.1, updates[|updates| - 1], clock)
  }

  /** The state the screen shows after a run, or the failure to show one. */
  function Shown(url: Pairs, local: (string, string), updates: seq<Update>, clock: Clock): Result<State> {
    var r := Run(url, local, updates, clock);
    if r.Throws? then Throws else Read(r.value.0, r.value.1, clock)
  }

  /** The same run on states alone, without a URL. */
  function Fold(cur: State, local: (string, string), updates: seq<Update>, clock: Clock): (State, (string, string)) {
    if updates == [] then (cur, local)
    else
      var before := Fold(cur, local, updates[..|updates| - 1], clock);
      var m := Merge(before.0, updates[|updates| - 1]);
      (Normal(m, before.1, clock), WriteLocal(before.1, m))
  }

  // ---- which runs stay readable

  /** The time mode after the first `k` updates. */
  function ModeAfter(absolute: bool, updates: seq<Update>, k: nat): bool
    requires k <= |updates|
  {
    if k == 0 then absolute
    else
      var u := updates[k - 1];
      GivenText(u.startTime) || GivenText(u.endTime) || Else(u.absolute, ModeAfter(absolute, updates, k - 1))
  }

  /** Update `k` leaves the screen relative to an inherited name: one it gives itself, or, if it is the
      first, one the screen had from the start and an absolute range kept out of use. */
  predicate Trips(cur: State, updates: seq<Update>, k: nat)
    requires k < |updates|
  {
    && !ModeAfter(cur.absolute, updates, k + 1)
    && (if updates[k].duration.Some? then InheritedName(updates[k].duration.value)
        else k == 0 && InheritedName(cur.duration))
  }

  ghost predicate Safe(cur: State, updates: seq<Update>) {
    forall k :: 0 <= k < |updates| ==> !Trips(cur, updates, k)
  }

  lemma {:induction false} ModePrefix(absolute: bool, updates: seq<Update>, n: nat, k: nat)
    requires k <= n <= |updates|
    ensures ModeAfter(absolute, updates[..n], k) == ModeAfter(absolute, updates, k)
  {
    if k > 0 { ModePrefix(absolute, updates, n, k - 1); }
  }

  lemma SafeOneMore(cur: State, updates: seq<Update>)
    requires updates != []
    ensures var n := |updates| - 1; Safe(cur, updates) <==> Safe(cur, updates[..n]) && !Trips(cur, updates, n)
  {
    hide ModeAfter, InheritedName;
    var n := |updates| - 1;
    forall k: nat | k < n ensures Trips(cur, updates[..n], k) == Trips(cur, updates, k) {
      ModePrefix(cur.absolute, updates, n, k + 1);
    }
  }

  /** What a run without a trip keeps of the state: the mode, and a listed duration once one update is made. */
  lemma {:induction false} FoldKeeps(cur: State, local: (string, string), updates: seq<Update>, clock: Clock)
    ensures var s := Fold(cur, local, updates, clock).0;
      && s.absolute == ModeAfter(cur.absolute, updates, |updates|)
      && (updates != [] ==> !InheritedName(s.duration))
    decreases |updates|
  {
    hide InheritedName, DurationMs, WriteLocal;
    if updates != [] {
      var n := |updates| - 1;
      FoldKeeps(cur, local, updates[..n], clock);
      ModePrefix(cur.absolute, updates, n, n);
      var before := Fold(cur, local, updates[..n], clock);
      NormalKeeps(Merge(before.0, updates[n]), before.1, clock);
    }
  }

  lemma NormalKeeps(m: State, local: (string, string), clock: Clock)
    ensures var s := Normal(m, local, clock); s.absolute == m.absolute && !InheritedName(s.duration)
  {
    hide InheritedName, DurationMs;
    OneHour();
    ListedIsNotInherited(m.duration);
    ListedIsNotInherited(DEFAULT_DURATION);
  }

  lemma MergedTrips(cur: State, local: (string, string), updates: seq<Update>, clock: Clock)
    requires updates != []
    ensures var n := |updates| - 1;
      Trips(cur, updates, n) <==> !Readable(Merge(Fold(cur, local, updates[..n], clock).0, updates[n]))
  {
    hide InheritedName, Fold;
    var n := |updates| - 1;
    FoldKeeps(cur, local, updates[..n], clock);
    ModePrefix(cur.absolute, updates, n, n);
    if n == 0 { NoUpdates(cur, local, updates[..n], clock); }
  }

  lemma NoUpdates(cur: State, local: (string, string), updates: seq<Update>, clock: Clock)
    requires updates == []
    ensures Fold(cur, local, updates, clock) == (cur, local)
  {
  }

  /** From any readable URL: a run of updates stays readable exactly when no update trips, and then the
      state shown is the one the updates fold to without a URL. */
  lemma {:induction false} RunsRead(url: Pairs, local: (string, string), updates: seq<Update>, clock: Clock)
    requires Read(url, local, clock).Ok?
    ensures var cur := Read(url, local, clock).value;
      && Shown(url, local, updates, clock) ==
           (if Safe(cur, updates) then Ok(Fold(cur, local, updates, clock).0) else Throws)
      && (Safe(cur, updates) ==>
            Run(url, local, updates, clock).Ok?
            && Run(url, local, updates, clock).value.1 == Fold(cur, local, updates, clock).1)
    decreases |updates|
  {
    hide Read, Merge, Write, WriteLocal, Normal, Readable, Safe, Trips;
    var cur := Read(url, local, clock).value;
    if updates == [] {
      assert Safe(cur, updates) by { NothingTrips(cur); }
    } else {
      var n := |updates| - 1;
      var before := updates[..n];
      RunsRead(url, local, before, clock);
      SafeOneMore(cur, updates);
      MergedTrips(cur, local, updates, clock);
      if Safe(cur, before) {
        var r := Run(url, local, before, clock).value;
        PutGet(r.0, Merge(Fold(cur, local, before, clock).0, updates[n]), r.1, clock);
      }
    }
  }

  lemma NothingTrips(cur: State)
    ensures Safe(cur, [])
  {
  }

  // ---- runs of the updates the screen itself makes

  /** Updates as their type has them: a duration given is a listed one. */
  predicate Typed(updates: seq<Update>) { forall u <- updates :: u.duration.Some? ==> Listed(u.duration.value) }

  /** A relative screen that can be read has a listed duration. */
  lemma RelativeIsListed(url: Pairs, local: (string, string), clock: Clock)
    requires Read(url, local, clock).Ok? && !Read(url, local, clock).value.absolute
    ensures Listed(Read(url, local, clock).value.duration)
  {
    hide KeyText, GetAll, ParseChips, ParseColumns, Trim, ReadPage, ReadPageSize, ReadDuration, DurationMs,
      InheritedName,
      ReadRefresh;
  }

  /** With typed updates only the first one can lock the screen: exactly when the URL started out absolute
      with an inherited name for its duration, and the update makes it relative without giving another. */
  lemma TypedRunsLockIff(url: Pairs, local: (string, string), updates: seq<Update>, clock: Clock)
    requires Read(url, local, clock).Ok? && Typed(updates)
    ensures var cur := Read(url, local, clock).value;
      Shown(url, local, updates, clock).Throws? <==>
        && cur.absolute && InheritedName(cur.duration)
        && updates != [] && updates[0].duration.None? && !ModeAfter(cur.absolute, updates, 1)
  {
    hide Read, Shown, Fold, Run, InheritedName, DurationMs, ModeAfter;
    var cur := Read(url, local, clock).value;
    RunsRead(url, local, updates, clock);
    forall k: nat | k < |updates| && updates[k].duration.Some? ensures !InheritedName(updates[k].duration.value) {
      assert updates[k] in updates;
      ListedIsNotInherited(updates[k].duration.value);
    }
    if !cur.absolute {
      RelativeIsListed(url, local, clock);
      ListedIsNotInherited(cur.duration);
    }
    if updates != [] && Trips(cur, updates, 0) {
      assert !Safe(cur, updates);
    }
  }

  const KEEP := Update(None, None, None, None, None, None, None, None, None, None, None, None, None, None, None, None,
                       None, None, None, None, None)

  /** An absolute URL whose unused duration names an inherited member. */
  const LOCKABLE: Pairs := [("tr", "abs"), ("dur", "toString")]

  lemma LockableValues(k: Key)
    ensures Values(LOCKABLE, k) == if k.KTr? then ["abs"] else if k.KDur? then ["toString"] else []
  {
    hide KeyText;
    assert KeyText(KTr) == "tr" && KeyText(KDur) == "dur" by { TrAndDur(); }
    if KeyText(k) == "tr" { KeysDistinct(k, KTr); }
    if KeyText(k) == "dur" { KeysDistinct(k, KDur); }
    assert LOCKABLE[1..] == [("dur", "toString")];
    assert LOCKABLE[1..][1..] == [];
  }

  lemma TrAndDur()
    ensures KeyText(KTr) == "tr" && KeyText(KDur) == "dur"
  {
  }

  lemma ToStringInherited()
    ensures InheritedName("toString") && !Listed("toString")
  {
    assert INHERITED[8] == "toString";
  }

  lemma LockableReads(local: (string, string), clock: Clock)
    ensures Read(LOCKABLE, local, clock).Ok?
    ensures var s := Read(LOCKABLE, local, clock).value; s.absolute && s.duration == "toString"
  {
    hide KeyText, GetAll, Values, Trim, ReadPage, ReadPageSize, ReadRefresh, DurationMs, InheritedName;
    forall k: Key ensures Values(LOCKABLE, k) == if k.KTr? then ["abs"] else if k.KDur? then ["toString"] else [] {
      LockableValues(k);
    }
    ToStringInherited();
    assert ParseColumns([]) == Ok([]);
  }

  /** The concrete lock: this URL is shown, and switching it to relative time leaves one that is not. */
  lemma SwitchLocks(local: (string, string), clock: Clock)
    ensures Read(LOCKABLE, local, clock).Ok?
    ensures Shown(LOCKABLE, local, [KEEP.(absolute := Some(false))], clock).Throws?
  {
    hide Read, Shown, InheritedName, DurationMs;
    LockableReads(local, clock);
    ToStringInherited();
    TypedRunsLockIff(LOCKABLE, local, [KEEP.(absolute := Some(false))], clock);
  }

  /** No run of updates touches a parameter the screen does not manage. */
  lemma {:induction false} RunsLeaveUnmanaged(url: Pairs, local: (string, string), updates: seq<Update>, clock: Clock,
                                              j: string)
    requires Run(url, local, updates, clock).Ok? && !Managed(j)
    ensures GetAll(Run(url, local, updates, clock).value.0, j) == GetAll(url, j)
    decreases |updates|
  {
    hide Read, Merge, Write, WriteLocal, GetAll, Managed;
    if updates != [] {
      var before := updates[..|updates| - 1];
      RunsLeaveUnmanaged(url, local, before, clock, j);
      var r := Run(url, local, before, clock).value;
      UnmanagedUntouched(r.0, Merge(Read(r.0, r.1, clock).value, updates[|updates| - 1]), j);
    }
  }
}
