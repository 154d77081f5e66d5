/** The soak and deadline clock of nff_ota_trial_tick (sdk-c/src/nff_ota.c): wrapping
    32-bit stamps against true elapsed time. */
module TrialTimer {
  import opened Bytes
  import opened Wrappers

  const TWO31 := 0x8000_0000

  const CONFIRM_MS := 60_000
  const SOAK_MS := 5_000

  /** One call of the tick: true milliseconds since boot and the verdict of the health gate. */
  datatype Tick = Tick(time: nat, healthy: bool)

  datatype Verdict = Waiting | Commit | Rollback

  /** `nff_port_millis()` at a true time. */
  function Millis(time: int): (m: nat)
    ensures m < TWO32
  {
    time % TWO32
  }

  /** A uint32 difference read as int32. */
  function Signed(x: int): (d: int)
    ensures -TWO31 <= d < TWO31
  {
    var m := x % TWO32;
    if m < TWO31 then m else m - TWO32
  }

  /** The soak stamp: 0 is reserved for "not yet". */
  function Stamp(time: nat): (m: nat)
    ensures 0 < m < TWO32
  {
    if Millis(time) == 0 then 1 else Millis(time)
  }

  /** One tick on the stored stamps. */
  function Decide(since: nat, deadline: nat, t: Tick): (nat, Verdict) {
    if t.healthy then
      var since' := if since == 0 then Stamp(t.time) else since;
      (since', if Signed(Millis(t.time) - since') >= SOAK_MS then Commit else Waiting)
    else
      (0, if Signed(Millis(t.time) - deadline) >= 0 then Rollback else Waiting)
  }

  /** The stored soak stamp after a run of ticks. */
  function Since(ticks: seq<Tick>): nat {
    if ticks == [] then 0 else Decide(Since(ticks[..|ticks| - 1]), 0, ticks[|ticks| - 1]).0
  }

  function DeadlineOf(start: nat): nat {
    (Millis(start) + CONFIRM_MS) % TWO32
  }

  function VerdictAt(start: nat, ticks: seq<Tick>, t: Tick): Verdict {
    Decide(Since(ticks), DeadlineOf(start), t).1
  }

  /** True time of the first tick of the healthy streak that ends the run. */
  function SoakStart(ticks: seq<Tick>): Option<nat> {
    if ticks == [] || !ticks[|ticks| - 1].healthy then None
    else
      var before := SoakStart(ticks[..|ticks| - 1]);
      if before.Some? then before else Some(ticks[|ticks| - 1].time)
  }

  ghost predicate InOrder(start: nat, ticks: seq<Tick>) {
    && (forall i :: 0 <= i < |ticks| ==> start <= ticks[i].time)
    && (forall i, j :: 0 <= i < j < |ticks| ==> ticks[i].time <= ticks[j].time)
  }

  /** No tick so far decided the trial. */
  ghost predicate Undecided(start: nat, ticks: seq<Tick>) {
    forall k :: 0 <= k < |ticks| ==> VerdictAt(start, ticks[..k], ticks[k]) == Waiting
  }

  lemma SinceGrows(ticks: seq<Tick>, t: Tick, deadline: nat)
    ensures Since(ticks + [t]) == Decide(Since(ticks), deadline, t).0
  {
    hide Millis, Signed, Stamp;
    assert (ticks + [t])[..|ticks|] == ticks;
  }

  lemma OrderGrows(start: nat, ticks: seq<Tick>, t: Tick)
    requires InOrder(start, ticks) && start <= t.time
    requires ticks != [] ==> ticks[|ticks| - 1].time <= t.time
    ensures InOrder(start, ticks + [t])
  {
    var all := ticks + [t];
    forall i, j | 0 <= i < j < |all| ensures all[i].time <= all[j].time {
      if j == |ticks| && i < |ticks| - 1 {
        assert ticks[i].time <= ticks[|ticks| - 1].time;
      }
    }
  }

  /** One more waiting tick extends an undecided run. */
  lemma RunGrows(start: nat, ticks: seq<Tick>, t: Tick)
    requires InOrder(start, ticks) && Undecided(start, ticks) && start <= t.time
    requires ticks != [] ==> ticks[|ticks| - 1].time <= t.time
    ensures InOrder(start, ticks + [t])
    ensures Since(ticks + [t]) == Decide(Since(ticks), DeadlineOf(start), t).0
    ensures VerdictAt(start, ticks, t) == Waiting ==> Undecided(start, ticks + [t])
  {
    OrderGrows(start, ticks, t);
    hide VerdictAt, Since, Decide, InOrder, Undecided;
    SinceGrows(ticks, t, DeadlineOf(start));
    if VerdictAt(start, ticks, t) == Waiting {
      UndecidedGrows(start, ticks, t);
    }
  }

  lemma UndecidedGrows(start: nat, ticks: seq<Tick>, t: Tick)
    requires Undecided(start, ticks) && VerdictAt(start, ticks, t) == Waiting
    ensures Undecided(start, ticks + [t])
  {
    hide VerdictAt;
    var all := ticks + [t];
    forall k | 0 <= k < |all| ensures VerdictAt(start, all[..k], all[k]) == Waiting {
      assert all[..k] == ticks[..k];
      if k == |ticks| {
        assert ticks[..k] == ticks;
      }
    }
  }

  /** The stamp in memory always stands for the start of the current healthy streak. */
  lemma {:induction false} SinceIsStamp(ticks: seq<Tick>)
    ensures Since(ticks) == match SoakStart(ticks) case None => 0 case Some(t) => Stamp(t)
  {
    if ticks != [] {
      SinceIsStamp(ticks[..|ticks| - 1]);
    }
  }

  /** The streak really is one: every tick from its start on was healthy, and the tick
      before it, if any, was not. */
  lemma {:induction false} SoakIsHealthyStreak(ticks: seq<Tick>) returns (k: nat)
    requires SoakStart(ticks).Some?
    ensures k < |ticks| && ticks[k].time == SoakStart(ticks).value
    ensures forall j :: k <= j < |ticks| ==> ticks[j].healthy
    ensures k == 0 || !ticks[k - 1].healthy
  {
    var n := |ticks| - 1;
    if SoakStart(ticks[..n]).Some? {
      k := SoakIsHealthyStreak(ticks[..n]);
    } else {
      k := n;
    }
  }

  lemma {:induction false} StreakStartsBefore(start: nat, ticks: seq<Tick>, i: nat)
    requires InOrder(start, ticks) && i < |ticks|
    requires forall j :: i <= j < |ticks| ==> ticks[j].healthy
    ensures SoakStart(ticks).Some? && start <= SoakStart(ticks).value <= ticks[i].time
  {
    var n := |ticks| - 1;
    if i < n {
      StreakStartsBefore(start, ticks[..n], i);
    } else if SoakStart(ticks[..n]).Some? {
      var k := SoakIsHealthyStreak(ticks[..n]);
    }
  }

  /** A commit is sound at any clock value: the streak it ends is healthy throughout and
      at least the soak window long in true time. */
  lemma CommitIsSoaked(start: nat, ticks: seq<Tick>, t: Tick)
    requires InOrder(start, ticks + [t]) && VerdictAt(start, ticks, t) == Commit
    ensures t.healthy && SoakStart(ticks + [t]).Some?
    ensures t.time - SoakStart(ticks + [t]).value >= 5_000
    ensures exists k :: 0 <= k <= |ticks| && (ticks + [t])[k].time == SoakStart(ticks + [t]).value
              && forall j :: k <= j <= |ticks| ==> (ticks + [t])[j].healthy
  {
    hide Millis, Signed, Stamp, VerdictAt, SoakStart, InOrder;
    OnlyHealthyCommits(start, ticks, t);
    HealthyVerdict(start, ticks, t);
    var all := ticks + [t];
    var k := SoakIsHealthyStreak(all);
    NoneAfterLast(start, ticks, t, k);
    StampGap(all[k].time, t.time);
  }

  lemma NoneAfterLast(start: nat, ticks: seq<Tick>, t: Tick, k: nat)
    requires InOrder(start, ticks + [t]) && k <= |ticks|
    ensures (ticks + [t])[k].time <= t.time
  {
    assert (ticks + [t])[|ticks|] == t;
  }

  lemma OnlyHealthyCommits(start: nat, ticks: seq<Tick>, t: Tick)
    ensures VerdictAt(start, ticks, t) == Commit ==> t.healthy
  {
  }

  lemma StampGap(from: nat, to: nat)
    requires from <= to
    ensures Signed(Millis(to) - Stamp(from)) >= SOAK_MS ==> to - from >= SOAK_MS
    ensures to - from < TWO31 ==>
              Signed(Millis(to) - Stamp(from)) == to - from - (if Millis(from) == 0 then 1 else 0)
  {
    var d := to - from;
    var e := d - (if Millis(from) == 0 then 1 else 0);
    assert (Millis(to) - Stamp(from)) % TWO32 == e % TWO32 by {
      SubMod(to, from, if Millis(from) == 0 then 1 else 0);
    }
  }

  lemma SubMod(a: nat, b: nat, c: nat)
    ensures (a % TWO32 - b % TWO32 - c) % TWO32 == (a - b - c) % TWO32
  {
  }

  /** Within 2^31 ms of the streak's start, a healthy tick commits exactly when the soak
      window has elapsed (one millisecond later if the streak started on a wrapped zero). */
  lemma CommitIffSoaked(start: nat, ticks: seq<Tick>, t: Tick)
    requires InOrder(start, ticks + [t]) && t.healthy
    requires t.time - SoakStart(ticks + [t]).GetOr(t.time) < 0x8000_0000
    ensures var from := SoakStart(ticks + [t]).GetOr(t.time);
            VerdictAt(start, ticks, t) == Commit <==>
              t.time - from >= 5_000 + (if Millis(from) == 0 then 1 else 0)
  {
    hide Millis, Signed, Stamp, VerdictAt, SoakStart;
    HealthyVerdict(start, ticks, t);
    var all := ticks + [t];
    var k := SoakIsHealthyStreak(all);
    NoneAfterLast(start, ticks, t, k);
    StampGap(all[k].time, t.time);
  }

  lemma HealthyVerdict(start: nat, ticks: seq<Tick>, t: Tick)
    requires t.healthy
    ensures SoakStart(ticks + [t]).Some?
    ensures VerdictAt(start, ticks, t) == Commit <==>
              Signed(Millis(t.time) - Stamp(SoakStart(ticks + [t]).value)) >= SOAK_MS
  {
    hide Millis, Signed, Stamp;
    var all := ticks + [t];
    assert all[..|ticks|] == ticks && all[|ticks|] == t;
    SinceIsStamp(ticks);
    StampNonZero(if SoakStart(ticks).Some? then SoakStart(ticks).value else 0);
  }

  lemma StampNonZero(time: nat)
    ensures Stamp(time) != 0
  {
  }

  lemma UnhealthyVerdict(start: nat, ticks: seq<Tick>, t: Tick)
    requires !t.healthy
    ensures VerdictAt(start, ticks, t) == Rollback <==> Signed(Millis(t.time) - DeadlineOf(start)) >= 0
  {
    hide Millis, Signed, DeadlineOf;
  }

  lemma DeadlineGap(start: nat, time: nat)
    ensures Signed(Millis(time) - DeadlineOf(start)) >= 0 <==> (time - (start + CONFIRM_MS)) % TWO32 < TWO31
  {
    hide Signed;
    AddMod(start, CONFIRM_MS);
    SubMod(time, start + CONFIRM_MS, 0);
    SignOfResidue(Millis(time) - DeadlineOf(start));
  }

  lemma AddMod(a: nat, b: nat)
    ensures (a % TWO32 + b) % TWO32 == (a + b) % TWO32
  {
  }

  lemma SignOfResidue(x: int)
    ensures Signed(x) >= 0 <==> x % TWO32 < TWO31
  {
  }

  /** An unhealthy tick rolls back exactly when the wrapped distance past the deadline is
      below 2^31 ms; within 2^31 ms of the deadline that is the true comparison. */
  lemma RollbackIffPastDeadline(start: nat, ticks: seq<Tick>, t: Tick)
    requires !t.healthy
    ensures VerdictAt(start, ticks, t) == Rollback <==> (t.time - (start + 60_000)) % 0x1_0000_0000 < 0x8000_0000
    ensures -0x8000_0000 <= t.time - (start + 60_000) < 0x8000_0000 ==>
              (VerdictAt(start, ticks, t) == Rollback <==> t.time >= start + 60_000)
  {
    UnhealthyVerdict(start, ticks, t);
    hide VerdictAt;
    DeadlineGap(start, t.time);
    var d := t.time - (start + CONFIRM_MS);
    if 0 <= d {
      assert d < TWO31 ==> d % TWO32 == d;
    } else {
      assert -TWO31 <= d ==> d % TWO32 == d + TWO32;
    }
  }

  /** Bounded resolution: an undecided trial has no tick more than 5000 ms after a tick at or
      past the deadline, while ticks lie within 2^31 ms of the deadline and of the start of
      their healthy streak. */
  lemma ResolvedInTime(start: nat, ticks: seq<Tick>, i: nat, j: nat)
    requires InOrder(start, ticks) && Undecided(start, ticks)
    requires i <= j < |ticks| && ticks[i].time >= start + 60_000
    requires ticks[j].time - (start + 60_000) < 0x8000_0000
    requires ticks[j].time - SoakStart(ticks[..j + 1]).GetOr(ticks[j].time) < 0x8000_0000
    ensures ticks[j].time <= ticks[i].time + 5_000
    ensures forall k :: i <= k <= j ==> ticks[k].healthy
  {
    hide VerdictAt, SoakStart, Millis;
    forall k | i <= k <= j ensures ticks[k].healthy {
      assert VerdictAt(start, ticks[..k], ticks[k]) == Waiting;
      if !ticks[k].healthy {
        RollbackIffPastDeadline(start, ticks[..k], ticks[k]);
      }
    }
    var upto := ticks[..j + 1];
    StreakStartsBefore(start, upto, i);
    assert upto == ticks[..j] + [ticks[j]];
    CommitIffSoaked(start, ticks[..j], ticks[j]);
  }

  /** The widest gap between ticks that still guarantees resolution: over twelve days. */
  const MAX_GAP := 0x4000_0000 - SOAK_MS / 2

  /** The time since the tick before, or since the boot. */
  function Gap(start: nat, ticks: seq<Tick>, k: nat): int
    requires k < |ticks|
  {
    ticks[k].time - (if k == 0 then start else ticks[k - 1].time)
  }

  ghost predicate Frequent(start: nat, ticks: seq<Tick>, gap: nat) {
    forall k :: 0 <= k < |ticks| ==> Gap(start, ticks, k) <= gap
  }

  /** Frequent ticks keep every undecided healthy streak within the soak window. */
  lemma {:induction false} StreakStaysShort(start: nat, ticks: seq<Tick>, j: nat)
    requires InOrder(start, ticks) && Undecided(start, ticks) && Frequent(start, ticks, MAX_GAP)
    requires j < |ticks| && ticks[j].healthy
    ensures SoakStart(ticks[..j + 1]).Some?
    ensures ticks[j].time - SoakStart(ticks[..j + 1]).value <= SOAK_MS
    decreases j
  {
    hide VerdictAt, Millis, Undecided;
    var upto := ticks[..j + 1];
    assert upto[..j] == ticks[..j] && upto == ticks[..j] + [ticks[j]];
    if SoakStart(ticks[..j]).Some? {
      assert ticks[j - 1].healthy && Gap(start, ticks, j) <= MAX_GAP;
      StreakStaysShort(start, ticks, j - 1);
      WaitedAt(start, ticks, j);
      CommitIffSoaked(start, ticks[..j], ticks[j]);
    }
  }

  lemma WaitedAt(start: nat, ticks: seq<Tick>, j: nat)
    requires Undecided(start, ticks) && j < |ticks|
    ensures VerdictAt(start, ticks[..j], ticks[j]) == Waiting
  {
  }

  /** The first tick at or past the deadline. */
  lemma {:induction false} FirstPast(start: nat, ticks: seq<Tick>, i: nat) returns (f: nat)
    requires i < |ticks| && ticks[i].time >= start + CONFIRM_MS
    ensures f <= i && ticks[f].time >= start + CONFIRM_MS
    ensures f == 0 || ticks[f - 1].time < start + CONFIRM_MS
  {
    f := i;
    if i > 0 && ticks[i - 1].time >= start + CONFIRM_MS {
      f := FirstPast(start, ticks, i - 1);
    }
  }

  lemma {:induction false} HealthyFromDeadline(start: nat, ticks: seq<Tick>, f: nat, j: nat)
    requires InOrder(start, ticks) && Undecided(start, ticks) && Frequent(start, ticks, MAX_GAP)
    requires f <= j < |ticks| && ticks[f].time >= start + CONFIRM_MS
    requires f == 0 || ticks[f - 1].time < start + CONFIRM_MS
    ensures ticks[j].healthy && ticks[j].time <= ticks[f].time + SOAK_MS
    decreases j
  {
    hide VerdictAt, SoakStart, Undecided, InOrder;
    if f < j {
      HealthyFromDeadline(start, ticks, f, j - 1);
    }
    assert Gap(start, ticks, f) <= MAX_GAP && Gap(start, ticks, j) <= MAX_GAP;
    WaitedAt(start, ticks, j);
    if !ticks[j].healthy {
      InOrderPast(start, ticks, f, j);
      RollbackIffPastDeadline(start, ticks[..j], ticks[j]);
    }
    StreakStaysShort(start, ticks, j);
    ResolvedInTime(start, ticks, f, j);
  }

  lemma InOrderPast(start: nat, ticks: seq<Tick>, i: nat, j: nat)
    requires InOrder(start, ticks) && i <= j < |ticks|
    ensures ticks[i].time <= ticks[j].time
  {
  }

  /** Bounded resolution at any clock value: with ticks at most MAX_GAP apart, an undecided
      trial has no tick more than 5000 ms after a tick at or past the deadline. */
  lemma ResolvedByFrequentTicks(start: nat, ticks: seq<Tick>, i: nat, j: nat)
    requires InOrder(start, ticks) && Undecided(start, ticks) && Frequent(start, ticks, MAX_GAP)
    requires i <= j < |ticks| && ticks[i].time >= start + 60_000
    ensures ticks[j].time <= ticks[i].time + 5_000
  {
    hide InOrder, Undecided, Frequent;
    var f := FirstPast(start, ticks, i);
    HealthyFromDeadline(start, ticks, f, j);
    InOrderPast(start, ticks, f, i);
  }

  /** No run of ticks that lie at most `gap` apart stays undecided for more than the soak
      window after a tick at or past the deadline. */
  ghost predicate AlwaysResolves(gap: nat) {
    forall start: nat, ticks: seq<Tick>, i, j ::
      InOrder(start, ticks) && Undecided(start, ticks) && Frequent(start, ticks, gap)
      && 0 <= i <= j < |ticks| && ticks[i].time >= start + 60_000
      ==> ticks[j].time <= ticks[i].time + 5_000
  }

  /** One millisecond more, and a run can escape: a healthy spell that starts late and breaks
      off puts the next unhealthy tick 2^31 ms past the deadline, which reads as before it. */
  function Escape(start: nat): seq<Tick> {
    var late := start + CONFIRM_MS - 1 + MAX_GAP + 1;
    [Tick(start + CONFIRM_MS - 1, false), Tick(late, true), Tick(late + SOAK_MS - 1, true),
     Tick(late + SOAK_MS - 1 + MAX_GAP + 1, false)]
  }

  lemma EscapeIsUndecided(start: nat)
    ensures InOrder(start, Escape(start)) && Undecided(start, Escape(start)) && Frequent(start, Escape(start), MAX_GAP + 1)
  {
    var e := Escape(start);
    assert e[3].time == start + CONFIRM_MS + TWO31;
    EscapeStarts(start);
    EscapeStreak(start);
    RollbackIffPastDeadline(start, e[..3], e[3]);
    hide VerdictAt, SoakStart;
    forall k | 0 <= k < |e| ensures VerdictAt(start, e[..k], e[k]) == Waiting {
      assert e[..0] == [];
      UnhealthyNeverCommits(start, e[..3], e[3]);
    }
  }

  lemma UnhealthyNeverCommits(start: nat, ticks: seq<Tick>, t: Tick)
    requires !t.healthy
    ensures VerdictAt(start, ticks, t) != Commit
  {
  }

  lemma HealthyNeverRollsBack(start: nat, ticks: seq<Tick>, t: Tick)
    requires t.healthy
    ensures VerdictAt(start, ticks, t) != Rollback
  {
  }

  lemma EscapeStarts(start: nat)
    ensures VerdictAt(start, [], Escape(start)[0]) == Waiting
  {
    RollbackIffPastDeadline(start, [], Escape(start)[0]);
    UnhealthyNeverCommits(start, [], Escape(start)[0]);
  }

  lemma SpellStarts(ticks: seq<Tick>, t: Tick)
    requires t.healthy && SoakStart(ticks).None?
    ensures SoakStart(ticks + [t]) == Some(t.time)
  {
    assert (ticks + [t])[..|ticks|] == ticks;
  }

  lemma SpellGoesOn(ticks: seq<Tick>, t: Tick)
    requires t.healthy && SoakStart(ticks).Some?
    ensures SoakStart(ticks + [t]) == SoakStart(ticks)
  {
    assert (ticks + [t])[..|ticks|] == ticks;
  }

  lemma EscapeStreak(start: nat)
    ensures VerdictAt(start, Escape(start)[..1], Escape(start)[1]) == Waiting
    ensures VerdictAt(start, Escape(start)[..2], Escape(start)[2]) == Waiting
  {
    var e := Escape(start);
    SpellStarts(e[..1], e[1]);
    assert e[..2] == e[..1] + [e[1]];
    SpellGoesOn(e[..2], e[2]);
    hide VerdictAt, SoakStart;
    CommitIffSoaked(start, e[..1], e[1]);
    CommitIffSoaked(start, e[..2], e[2]);
    HealthyNeverRollsBack(start, e[..1], e[1]);
    HealthyNeverRollsBack(start, e[..2], e[2]);
  }

  /** Bounded resolution holds for ticks at most `gap` apart exactly up to MAX_GAP, 2^30 - 2500
      milliseconds. */
  lemma ResolvesIffFrequent(gap: nat)
    ensures AlwaysResolves(gap) <==> gap <= 0x4000_0000 - 2_500
  {
    hide InOrder, Undecided;
    if gap <= MAX_GAP {
      forall start: nat, ticks: seq<Tick>, i, j | InOrder(start, ticks) && Undecided(start, ticks) && Frequent(start, ticks, gap)
          && 0 <= i <= j < |ticks| && ticks[i].time >= start + CONFIRM_MS
        ensures ticks[j].time <= ticks[i].time + SOAK_MS
      {
        FrequentMore(start, ticks, gap, MAX_GAP);
        ResolvedByFrequentTicks(start, ticks, i, j);
      }
    } else {
      var e := Escape(0);
      EscapeIsUndecided(0);
      FrequentMore(0, e, MAX_GAP + 1, gap);
      assert !AlwaysResolves(gap) by {
        assert e[1].time >= CONFIRM_MS && e[3].time > e[1].time + SOAK_MS;
      }
    }
  }

  lemma FrequentMore(start: nat, ticks: seq<Tick>, gap: nat, wider: nat)
    requires Frequent(start, ticks, gap) && gap <= wider
    ensures Frequent(start, ticks, wider)
  {
  }

  /** A bound on the gaps is needed: a first, unhealthy tick 2^31 ms past the deadline is read
      as still to come by the signed comparison. */
  lemma LateFirstTickWaits(start: nat)
    ensures VerdictAt(start, [], Tick(start + 60_000 + 0x8000_0000, false)) == Waiting
  {
    RollbackIffPastDeadline(start, [], Tick(start + CONFIRM_MS + TWO31, false));
  }
}
