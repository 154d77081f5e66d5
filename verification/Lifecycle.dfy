/** The OTA life cycle across reboots: sdk-c/src/nff_ota.c driven by nff_core.c, over two
    flash slots, persistent NVS keys and volatile RAM. Every SDK call is one atomic step. */
module Lifecycle {
  import opened Wrappers
  import Bytes
  import T = TrialTimer

  const MAX_TRIAL_BOOTS := 3

  // ---------------------------------------------------------------------
  // State
  // ---------------------------------------------------------------------

  /** A version string as sscanf("%d.%d.%d") sees it. */
  datatype Version = Parsed(major: int, minor: int, patch: int) | Malformed

  /** `version_le` */
  predicate VersionLe(a: Version, b: Version) {
    && a.Parsed? && b.Parsed?
    && (if a.major != b.major then a.major < b.major
        else if a.minor != b.minor then a.minor < b.minor
        else a.patch <= b.patch)
  }

  /** `b` is strictly newer than `a`: the first component that differs is larger. */
  predicate StrictlyNewer(a: Version, b: Version) {
    && a.Parsed? && b.Parsed?
    && (a.major < b.major
        || (a.major == b.major && a.minor < b.minor)
        || (a.major == b.major && a.minor == b.minor && a.patch < b.patch))
  }

  /** A firmware image and the version it was built as. */
  datatype Image = Image(id: int, version: Version)

  /** A flash slot; `valid` is the bootloader's mark. */
  datatype Slot = Slot(image: Image, valid: bool)

  /** A stored version string, tagged with the number of the trial that wrote it. */
  datatype Tag = Tag(version: Version, trial: nat)

  /** The persistent keys. */
  datatype Nvs = Nvs(trial: bool, version: Option<Tag>, bootCount: nat,
                     pending: bool, committed: bool, adopted: Option<Version>)

  /** The fields of `g_nff` that matter here; `reported` is the version of the configuration,
      fixed at boot. */
  datatype Ram = Ram(trial: bool, deadline: nat, healthSince: nat, pendingResult: bool,
                     pendingCommitted: bool, pendingVersion: Option<Tag>, markedValid: bool,
                     reported: Version)

  function ClearedRam(reported: Version): Ram {
    Ram(false, 0, 0, false, false, None, false, reported)
  }

  /** An `ota_result` message. */
  datatype Report = Report(trial: nat, version: Version, committed: bool)

  /** Bookkeeping the device itself does not have: the images confirmed so far, the images
      put on trial (trial number n is entry n - 1), the trials that were confirmed, the
      boots each trial armed probation on, and the published results. */
  datatype History = History(confirmed: seq<Image>, offered: seq<Image>, won: set<nat>, arms: map<nat, nat>,
                             reports: seq<Report>)
  {
    /** The number of the latest trial. */
    function Trials(): nat {
      |offered|
    }
  }

  /** `adopts`: the firmware's configuration loader prefers the stored adopted version to the
      one built into the running image. `bootedAt` is bookkeeping: the number of images
      confirmed when this boot began. */
  datatype State = State(adopts: bool, slots: seq<Slot>, boot: nat, on: bool, running: nat, nvs: Nvs, ram: Ram,
                         start: nat, now: nat, bootedAt: nat, ticks: seq<T.Tick>, hist: History)

  predicate Shape(s: State) {
    |s.slots| == 2 && s.boot < 2 && s.running < 2 && s.hist.confirmed != []
  }

  /** The image last confirmed: factory image or last commit. */
  function Confirmed(s: State): Image
    requires Shape(s)
  {
    s.hist.confirmed[|s.hist.confirmed| - 1]
  }

  function Bump(m: map<nat, nat>, k: nat): map<nat, nat> {
    m[k := (if k in m then m[k] else 0) + 1]
  }

  // ---------------------------------------------------------------------
  // The SDK calls as functions
  // ---------------------------------------------------------------------

  function ClearTrial(n: Nvs): Nvs {
    n.(trial := false, bootCount := 0)
  }

  function QueueRolledBack(n: Nvs, version: Option<Tag>): Nvs {
    ClearTrial(n.(pending := true, version := version, committed := false))
  }

  /** `nff_ota_rollback`: queue the result, revert the boot slot, reboot. */
  function RolledBack(s: State): State
    requires Shape(s)
  {
    s.(nvs := QueueRolledBack(s.nvs, s.ram.pendingVersion), ram := s.ram.(trial := false),
       boot := 1 - s.running, on := false)
  }

  /** `nff_ota_boot_check` */
  function BootChecked(s: State): State
    requires Shape(s)
  {
    if !s.nvs.trial then s
    else
      var s1 := s.(ram := s.ram.(pendingVersion := s.nvs.version));
      if s1.boot != s1.running then
        s1.(boot := s1.running, nvs := QueueRolledBack(s1.nvs, s1.ram.pendingVersion))
      else
        var s2 := s1.(nvs := s1.nvs.(bootCount := s1.nvs.bootCount + 1));
        if s2.nvs.bootCount >= MAX_TRIAL_BOOTS then RolledBack(s2)
        else s2.(ram := s2.ram.(trial := true, healthSince := 0, deadline := T.DeadlineOf(s2.now)),
                 hist := s2.hist.(arms := Bump(s2.hist.arms, s2.hist.Trials())))
  }

  /** The pending-result hand-over in `nff_init`. */
  function PendingTaken(s: State): State {
    if !s.nvs.pending then s
    else s.(ram := s.ram.(pendingResult := true, pendingVersion := s.nvs.version, pendingCommitted := s.nvs.committed),
            nvs := s.nvs.(pending := false, version := None, committed := false))
  }

  /** The version the configuration carries after a power-up into a slot. */
  function ConfigVersion(s: State, slot: nat): Version
    requires Shape(s) && slot < 2
  {
    if s.adopts && s.nvs.adopted.Some? then s.nvs.adopted.value else s.slots[slot].image.version
  }

  /** Power-up into a slot: cleared RAM, boot check, hand-over. */
  function Booted(s: State, slot: nat, time: nat): State
    requires Shape(s) && slot < 2
  {
    var s1 := s.(on := true, running := slot, ram := ClearedRam(ConfigVersion(s, slot)),
                 start := time, now := time, bootedAt := |s.hist.confirmed|, ticks := []);
    var s2 := BootChecked(s1);
    if s2.on then PendingTaken(s2) else s2
  }

  function ReportOf(tag: Option<Tag>, committed: bool): Report {
    match tag
    case None => Report(0, Malformed, committed)
    case Some(t) => Report(t.trial, t.version, committed)
  }

  /** `nff_ota_check_pending_result` */
  function ResultPublished(s: State): State {
    if !s.ram.pendingResult then s
    else s.(ram := s.ram.(pendingResult := false),
            hist := s.hist.(reports := s.hist.reports + [ReportOf(s.ram.pendingVersion, s.ram.pendingCommitted)]))
  }

  function MarkedValid(s: State): State
    requires Shape(s)
  {
    s.(slots := s.slots[s.running := s.slots[s.running].(valid := true)], ram := s.ram.(markedValid := true))
  }

  /** A connection: the publisher runs once, and once more when `nff_connect` made it. */
  function Connected(s: State, viaConnect: bool): State
    requires Shape(s)
  {
    var s1 := ResultPublished(s);
    if !viaConnect then s1
    else
      var s2 := ResultPublished(s1);
      if !s2.ram.trial && !s2.ram.markedValid then MarkedValid(s2) else s2
  }

  /** `nff_ota_commit` */
  function Committed(s: State): State
    requires Shape(s)
  {
    var s1 := MarkedValid(s);
    s1.(hist := s1.hist.(reports := s1.hist.reports + [ReportOf(s1.ram.pendingVersion, true)],
                         confirmed := s1.hist.confirmed + [s1.slots[s1.running].image],
                         won := s1.hist.won + {s1.hist.Trials()}),
        nvs := ClearTrial(s1.nvs.(adopted := if s1.ram.pendingVersion.Some? then Some(s1.ram.pendingVersion.value.version)
                                             else None)),
        ram := s1.ram.(trial := false))
  }

  /** `nff_ota_trial_tick` at true time `time` with the health gate's answer. */
  function Ticked(s: State, time: nat, healthy: bool): State
    requires Shape(s)
  {
    var s0 := s.(now := time);
    if !s.ram.trial then s0
    else
      var t := T.Tick(time, healthy);
      var (since, verdict) := T.Decide(s.ram.healthSince, s.ram.deadline, t);
      var s1 := s0.(ram := s0.ram.(healthSince := since), ticks := s0.ticks + [t]);
      match verdict
      case Waiting => s1
      case Commit => Committed(s1)
      case Rollback => RolledBack(s1)
  }

  /** A verified download: the other slot is written and selected, the trial recorded,
      and the device reboots. */
  function Installed(s: State, image: Image): State
    requires Shape(s)
  {
    var other := 1 - s.running;
    s.(slots := s.slots[other := Slot(image, false)], boot := other, on := false,
       nvs := s.nvs.(trial := true, version := Some(Tag(image.version, s.hist.Trials() + 1)), bootCount := 0),
       hist := s.hist.(offered := s.hist.offered + [image]))
  }

  /** A failed download leaves the other slot in any state. */
  function Scribbled(s: State, left: Slot): State
    requires Shape(s)
  {
    s.(slots := s.slots[1 - s.running := left])
  }

  // ---------------------------------------------------------------------
  // Runs
  // ---------------------------------------------------------------------

  /** How a download ends: the commanded image is in the other slot, or anything is. */
  datatype Fetched = Verified | Failed(left: Slot)

  datatype Event =
    | Boot(fallback: bool, time: nat)
    | Connect(viaConnect: bool)
    | Tick(time: nat, healthy: bool)
    | OtaCommand(offer: Option<Image>, fetched: Fetched)
    | Reboot

  /** The first answer to an `ota` command; `offer` is None when a field is missing. */
  datatype Answer = Busy | MissingFields | DowngradeRejected | Started

  function AnswerTo(s: State, offer: Option<Image>): Answer {
    if s.ram.trial then Busy
    else if offer.None? then MissingFields
    else if !VersionLe(s.ram.reported, offer.value.version) then DowngradeRejected
    else Started
  }

  predicate Accepts(s: State, image: Image) {
    AnswerTo(s, Some(image)) == Started
  }

  ghost predicate Enabled(s: State, e: Event)
    requires Shape(s)
  {
    match e
    // The bootloader falls back only from an image nobody confirmed.
    case Boot(fallback, _) => !s.on && (fallback ==> !s.slots[s.boot].valid)
    case Connect(_) => s.on
    case Tick(time, _) => s.on && time >= s.now
    case OtaCommand(_, _) => s.on
    case Reboot => s.on
  }

  function Next(s: State, e: Event): State
    requires Shape(s)
  {
    match e
    case Boot(fallback, time) => Booted(s, if fallback then 1 - s.boot else s.boot, time)
    case Connect(via) => Connected(s, via)
    case Tick(time, healthy) => Ticked(s, time, healthy)
    case OtaCommand(offer, fetched) =>
      if AnswerTo(s, offer) != Started then s
      else if fetched.Failed? then Scribbled(s, fetched.left)
      else Installed(s, offer.value)
    case Reboot => s.(on := false)
  }

  /** A device fresh from the factory, powered off. */
  ghost predicate Initial(s: State) {
    && Shape(s) && !s.on
    && s.hist == History([s.slots[s.boot].image], [], {}, map[], []) && s.slots[s.boot].valid
    && s.nvs == Nvs(false, None, 0, false, false, None)
  }

  /** `states` is a run from a factory device under `events`. */
  ghost predicate IsRun(states: seq<State>, events: seq<Event>) {
    && |states| == |events| + 1
    && Initial(states[0])
    && (forall i :: 0 <= i < |events| ==>
          Shape(states[i]) && Enabled(states[i], events[i]) && states[i + 1] == Next(states[i], events[i]))
  }

  // ---------------------------------------------------------------------
  // The invariant
  // ---------------------------------------------------------------------

  /** While on trial, the other slot holds the last confirmed image, marked valid, and the
      selected slot the image on trial, not marked; otherwise the selected slot holds the
      confirmed image. */
  ghost predicate SlotsSafe(s: State)
    requires Shape(s)
  {
    && s.slots[if s.nvs.trial then 1 - s.boot else s.boot] == Slot(Confirmed(s), true)
    && (s.nvs.trial ==> s.hist.offered != [] && s.slots[s.boot] == Slot(s.hist.offered[|s.hist.offered| - 1], false))
  }

  ghost predicate TrialRecorded(s: State)
    requires Shape(s)
  {
    s.nvs.trial ==>
      && s.nvs.version == Some(Tag(s.slots[s.boot].image.version, s.hist.Trials()))
      && !s.nvs.pending
      && s.nvs.bootCount < MAX_TRIAL_BOOTS
      && s.nvs.bootCount == (if s.hist.Trials() in s.hist.arms then s.hist.arms[s.hist.Trials()] else 0)
  }

  ghost predicate RamAgrees(s: State)
    requires Shape(s)
  {
    s.on ==>
      && s.ram.trial == s.nvs.trial && s.running == s.boot && !s.nvs.pending
      && (s.ram.trial ==>
            && s.ram.pendingVersion == s.nvs.version && !s.ram.pendingResult
            && s.ram.healthSince == T.Since(s.ticks) && s.ram.deadline == T.DeadlineOf(s.start))
  }

  ghost predicate TicksOk(s: State) {
    s.on ==>
      && T.InOrder(s.start, s.ticks) && s.start <= s.now
      && (s.ticks != [] ==> s.ticks[|s.ticks| - 1].time <= s.now)
      && (s.ram.trial ==> T.Undecided(s.start, s.ticks))
  }

  ghost predicate Reported(s: State, trial: nat) {
    exists i :: 0 <= i < |s.hist.reports| && s.hist.reports[i].trial == trial
  }

  /** A published result tells what became of the trial it names. */
  predicate Truthful(h: History, r: Report) {
    && 1 <= r.trial <= h.Trials()
    && r.version == h.offered[r.trial - 1].version
    && (r.committed <==> r.trial in h.won)
  }

  /** A queued result: a rolled-back trial that was not reported yet. */
  ghost predicate Queued(s: State, tag: Option<Tag>, committed: bool) {
    && tag.Some? && Truthful(s.hist, ReportOf(tag, committed)) && !committed
    && !Reported(s, tag.value.trial)
  }

  /** Each trial is reported at most once and truthfully. */
  ghost predicate ReportsOk(s: State) {
    && (forall i, j :: 0 <= i < j < |s.hist.reports| ==> s.hist.reports[i].trial != s.hist.reports[j].trial)
    && (forall i :: 0 <= i < |s.hist.reports| ==> Truthful(s.hist, s.hist.reports[i]))
    && (s.nvs.trial ==> !Reported(s, s.hist.Trials()) && s.hist.Trials() !in s.hist.won)
    && (s.nvs.pending ==> Queued(s, s.nvs.version, s.nvs.committed))
    && (s.on && s.ram.pendingResult ==> Queued(s, s.ram.pendingVersion, s.ram.pendingCommitted))
    && (forall t :: t in s.hist.won ==> 1 <= t <= s.hist.Trials())
  }

  ghost predicate ArmsOk(s: State) {
    forall t :: t in s.hist.arms ==> t <= s.hist.Trials() && s.hist.arms[t] < MAX_TRIAL_BOOTS
  }

  /** Outside a trial the configuration names the confirmed image, or, after a commit of this
      very boot, possibly the image confirmed before it. */
  ghost predicate ReportedOk(s: State)
    requires Shape(s)
  {
    s.on ==>
      && s.bootedAt <= |s.hist.confirmed| <= s.bootedAt + 1
      && (if s.ram.trial then |s.hist.confirmed| == s.bootedAt && s.ram.reported == ConfigVersion(s, s.running)
          else s.ram.reported == Confirmed(s).version || Lags(s))
  }

  /** The configuration still names the image that was confirmed before the last commit. */
  predicate Lags(s: State)
    requires Shape(s)
  {
    && s.adopts && |s.hist.confirmed| == s.bootedAt + 1 && s.bootedAt >= 1
    && s.ram.reported == s.hist.confirmed[s.bootedAt - 1].version
  }

  /** `version` is at least that of the last confirmed image, or with `adopts` of the one before. */
  predicate NotFarBelow(adopts: bool, confirmed: seq<Image>, version: Version)
    requires confirmed != []
  {
    || VersionLe(confirmed[|confirmed| - 1].version, version)
    || (adopts && |confirmed| >= 2 && VersionLe(confirmed[|confirmed| - 2].version, version))
  }

  /** `fw_adopted` names the confirmed image; confirmed versions go down at most one step. */
  ghost predicate VersionsOk(s: State)
    requires Shape(s)
  {
    && (s.nvs.adopted.Some? ==> s.nvs.adopted.value == Confirmed(s).version)
    && (s.nvs.trial ==> NotFarBelow(s.adopts, s.hist.confirmed, s.slots[s.boot].image.version))
    && (forall i :: 0 < i < |s.hist.confirmed| ==>
          NotFarBelow(s.adopts, s.hist.confirmed[..i], s.hist.confirmed[i].version))
  }

  /** A device whose factory version does not parse never takes an update. */
  predicate StuckOk(s: State)
    requires Shape(s)
  {
    s.hist.confirmed[0].version.Malformed? ==> s.hist.offered == [] && |s.hist.confirmed| == 1
  }

  /** The slots and the trial record, in flash and in RAM. */
  ghost predicate TrialInv(s: State) {
    Shape(s) && SlotsSafe(s) && TrialRecorded(s) && RamAgrees(s) && ArmsOk(s)
  }

  ghost predicate VersionInv(s: State) {
    Shape(s) && ReportedOk(s) && VersionsOk(s) && StuckOk(s)
  }

  ghost predicate Inv(s: State) {
    TrialInv(s) && TicksOk(s) && ReportsOk(s) && VersionInv(s)
  }

  lemma InitialInv(s: State)
    requires Initial(s)
    ensures Inv(s)
  {
  }

  lemma ConnectKeepsReports(s: State, via: bool)
    requires Inv(s) && s.on
    ensures ReportsOk(Connected(s, via))
  {
    hide VersionInv, TicksOk, ArmsOk;
  }

  lemma ConnectKeepsInv(s: State, via: bool)
    requires Inv(s) && s.on
    ensures Inv(Connected(s, via))
  {
    hide ReportsOk, VersionInv, T.InOrder, T.Undecided, T.Since, T.DeadlineOf, ArmsOk;
    ConnectKeepsReports(s, via);
    ConnectKeepsVersions(s, via);
    ConnectKeepsArms(s, via);
  }

  lemma ConnectKeepsArms(s: State, via: bool)
    requires ArmsOk(s) && Shape(s)
    ensures ArmsOk(Connected(s, via))
  {
  }

  lemma ConnectKeepsVersions(s: State, via: bool)
    requires Inv(s) && s.on
    ensures VersionInv(Connected(s, via))
  {
    hide ReportsOk, VersionLe, NotFarBelow, TicksOk, ArmsOk;
  }

  lemma InstallKeepsReports(s: State, image: Image)
    requires Inv(s) && s.on && Accepts(s, image)
    ensures ReportsOk(Installed(s, image))
  {
    hide VersionInv, TicksOk, ArmsOk;
  }

  lemma InstallKeepsVersions(s: State, image: Image)
    requires Inv(s) && s.on && Accepts(s, image)
    ensures VersionInv(Installed(s, image))
  {
    hide ReportsOk, TicksOk, ArmsOk;
  }

  lemma InstallKeepsInv(s: State, image: Image)
    requires Inv(s) && s.on && Accepts(s, image)
    ensures Inv(Installed(s, image))
  {
    InstallKeepsReports(s, image);
    InstallKeepsVersions(s, image);
    hide ReportsOk, VersionInv, T.InOrder, T.Undecided, T.Since, T.DeadlineOf;
  }

  lemma BootKeepsTrial(s: State, fallback: bool, time: nat)
    requires Inv(s) && Enabled(s, Boot(fallback, time))
    ensures TrialInv(Next(s, Boot(fallback, time))) && TicksOk(Next(s, Boot(fallback, time)))
  {
    hide ReportsOk, VersionInv;
  }

  lemma BootKeepsVersions(s: State, fallback: bool, time: nat)
    requires Inv(s) && Enabled(s, Boot(fallback, time))
    ensures VersionInv(Next(s, Boot(fallback, time)))
  {
    hide ReportsOk, VersionLe, NotFarBelow, TicksOk, ArmsOk;
  }

  lemma BootKeepsReports(s: State, fallback: bool, time: nat)
    requires Inv(s) && Enabled(s, Boot(fallback, time))
    ensures ReportsOk(Next(s, Boot(fallback, time)))
  {
    hide VersionInv, TicksOk, ArmsOk;
  }

  lemma BootKeepsInv(s: State, fallback: bool, time: nat)
    requires Inv(s) && Enabled(s, Boot(fallback, time))
    ensures Inv(Next(s, Boot(fallback, time)))
  {
    hide Next;
    BootKeepsTrial(s, fallback, time);
    BootKeepsVersions(s, fallback, time);
    BootKeepsReports(s, fallback, time);
  }

  /** The state right before the verdict of a trial tick is acted on. */
  function Judged(s: State, time: nat, healthy: bool): State {
    var t := T.Tick(time, healthy);
    s.(now := time, ram := s.ram.(healthSince := T.Decide(s.ram.healthSince, s.ram.deadline, t).0),
       ticks := s.ticks + [t])
  }

  /** The tick itself only moves the clock, the streak's stamp and the list of ticks. */
  lemma JudgedKeeps(s: State, time: nat, healthy: bool)
    requires Inv(s) && s.on && s.ram.trial && time >= s.now
    ensures var j := Judged(s, time, healthy);
            && TrialInv(j) && ReportsOk(j) && VersionInv(j)
            && T.InOrder(j.start, j.ticks) && j.start <= j.now
            && (T.VerdictAt(s.start, s.ticks, T.Tick(time, healthy)) == T.Waiting ==> TicksOk(j))
  {
    hide T.Decide, T.Since, T.InOrder, T.Undecided, T.DeadlineOf, T.VerdictAt, VersionLe, NotFarBelow;
    T.RunGrows(s.start, s.ticks, T.Tick(time, healthy));
  }

  lemma CommitKeepsReports(s: State)
    requires TrialInv(s) && ReportsOk(s) && s.on && s.ram.trial
    ensures ReportsOk(Committed(s))
  {
    hide ArmsOk;
  }

  lemma CommitKeepsVersions(s: State)
    requires TrialInv(s) && VersionInv(s) && s.on && s.ram.trial
    ensures VersionInv(Committed(s))
  {
    hide ArmsOk, VersionLe;
    var c, d := s.hist.confirmed, Committed(s).hist.confirmed;
    forall i | 0 < i < |d| ensures NotFarBelow(s.adopts, d[..i], d[i].version) {
      assert d[..i] == c[..i];
      if i == |c| {
        assert c[..i] == c;
      }
    }
  }

  lemma CommitKeepsInv(s: State, time: nat, healthy: bool)
    requires Inv(s) && s.on && s.ram.trial && time >= s.now
    ensures Inv(Committed(Judged(s, time, healthy)))
  {
    hide T.Decide, T.Since, T.InOrder, T.Undecided, T.DeadlineOf, ReportsOk, VersionInv;
    var j := Judged(s, time, healthy);
    JudgedKeeps(s, time, healthy);
    CommitKeepsReports(j);
    CommitKeepsVersions(j);
  }

  lemma RollbackKeepsReports(s: State)
    requires TrialInv(s) && ReportsOk(s) && s.on && s.ram.trial
    ensures ReportsOk(RolledBack(s))
  {
    hide ArmsOk;
  }

  lemma RollbackKeepsInv(s: State, time: nat, healthy: bool)
    requires Inv(s) && s.on && s.ram.trial && time >= s.now
    ensures Inv(RolledBack(Judged(s, time, healthy)))
  {
    hide T.Decide, T.Since, T.InOrder, T.Undecided, T.DeadlineOf, ReportsOk, NotFarBelow;
    var j := Judged(s, time, healthy);
    JudgedKeeps(s, time, healthy);
    RollbackKeepsReports(j);
  }

  lemma TickKeepsInv(s: State, time: nat, healthy: bool)
    requires Inv(s) && s.on && time >= s.now
    ensures Inv(Ticked(s, time, healthy))
  {
    hide T.Decide, T.Since, T.InOrder, T.Undecided, T.DeadlineOf, Committed, RolledBack;
    if s.ram.trial {
      match T.VerdictAt(s.start, s.ticks, T.Tick(time, healthy))
      case Waiting => JudgedKeeps(s, time, healthy);
      case Commit => CommitKeepsInv(s, time, healthy);
      case Rollback => RollbackKeepsInv(s, time, healthy);
    }
  }

  lemma CommandKeepsInv(s: State, offer: Option<Image>, fetched: Fetched)
    requires Inv(s) && s.on
    ensures Inv(Next(s, OtaCommand(offer, fetched)))
  {
    hide Installed, T.InOrder, T.Undecided, T.Since, T.DeadlineOf;
    if AnswerTo(s, offer) == Started && fetched == Verified {
      InstallKeepsInv(s, offer.value);
    }
  }

  lemma RebootKeepsInv(s: State)
    requires Inv(s) && s.on
    ensures Inv(Next(s, Reboot))
  {
  }

  lemma StepKeepsInv(s: State, e: Event)
    requires Inv(s) && Enabled(s, e)
    ensures Inv(Next(s, e))
  {
    hide Inv, Booted, Connected, Ticked, Installed, Scribbled;
    match e
    case Boot(fallback, time) => BootKeepsInv(s, fallback, time);
    case Connect(via) => ConnectKeepsInv(s, via);
    case Tick(time, healthy) => TickKeepsInv(s, time, healthy);
    case OtaCommand(offer, fetched) => CommandKeepsInv(s, offer, fetched);
    case Reboot => RebootKeepsInv(s);
  }

  /** Every state of every run keeps the invariant. */
  lemma {:induction false} RunKeepsInv(states: seq<State>, events: seq<Event>, i: nat)
    requires IsRun(states, events) && i < |states|
    ensures Inv(states[i])
  {
    hide Next, Inv, Enabled, Initial;
    if i == 0 {
      InitialInv(states[0]);
    } else {
      RunKeepsInv(states, events, i - 1);
      assert states[i - 1 + 1] == Next(states[i - 1], events[i - 1]);
      StepKeepsInv(states[i - 1], events[i - 1]);
    }
  }

  // ---------------------------------------------------------------------
  // What holds in every run
  // ---------------------------------------------------------------------

  /** While the trial flag is set the other slot holds the last confirmed image. */
  lemma RollbackTargetPreserved(states: seq<State>, events: seq<Event>, i: nat)
    requires IsRun(states, events) && i < |states| && Shape(states[i]) && states[i].nvs.trial
    ensures states[i].slots[1 - states[i].boot] == Slot(Confirmed(states[i]), true)
  {
    RunKeepsInv(states, events, i);
  }

  /** Every image that runs outside a trial is the confirmed one: a rollback, a crash loop
      or a bootloader fallback always lands there. */
  lemma RunsConfirmedOutsideTrials(states: seq<State>, events: seq<Event>, i: nat)
    requires IsRun(states, events) && i < |states| && Shape(states[i])
    requires states[i].on && !states[i].ram.trial
    ensures states[i].slots[states[i].running] == Slot(Confirmed(states[i]), true)
  {
    RunKeepsInv(states, events, i);
  }

  lemma FallbackLandsOnConfirmed(states: seq<State>, events: seq<Event>, i: nat, time: nat)
    requires IsRun(states, events) && i < |events| && events[i] == Boot(true, time) && Shape(states[i + 1])
    ensures var s := states[i + 1];
            s.on && !s.nvs.trial && s.boot == s.running && s.slots[s.running] == Slot(Confirmed(states[i]), true)
  {
    RunKeepsInv(states, events, i);
    RunKeepsInv(states, events, i + 1);
  }

  /** A commit ends a healthy streak of at least the soak window in true time. */
  lemma CommitsAreSoaked(states: seq<State>, events: seq<Event>, i: nat, time: nat, healthy: bool)
    requires IsRun(states, events) && i < |events| && events[i] == Tick(time, healthy)
    requires |states[i + 1].hist.confirmed| > |states[i].hist.confirmed|
    ensures healthy
    ensures var from := T.SoakStart(states[i].ticks + [T.Tick(time, healthy)]);
            from.Some? && time - from.value >= 5_000
  {
    hide T.Decide, T.Since, T.InOrder, T.Undecided, T.DeadlineOf, T.SoakStart;
    RunKeepsInv(states, events, i);
    var s := states[i];
    assert states[i + 1] == Next(s, events[i]);
    T.RunGrows(s.start, s.ticks, T.Tick(time, healthy));
    T.CommitIsSoaked(s.start, s.ticks, T.Tick(time, healthy));
  }

  /** Only a tick confirms an image, and it confirms the image under trial. */
  lemma OnlyTicksConfirm(states: seq<State>, events: seq<Event>, i: nat)
    requires IsRun(states, events) && i < |events| && Shape(states[i])
    requires states[i + 1].hist.confirmed != states[i].hist.confirmed
    ensures events[i].Tick? && states[i].nvs.trial
    ensures states[i + 1].hist.confirmed == states[i].hist.confirmed + [states[i].slots[states[i].boot].image]
  {
    hide Inv, Next, Enabled;
    RunKeepsInv(states, events, i);
    assert states[i + 1] == Next(states[i], events[i]);
    StepConfirms(states[i], events[i]);
  }

  lemma StepConfirms(s: State, e: Event)
    requires Inv(s) && Enabled(s, e) && Next(s, e).hist.confirmed != s.hist.confirmed
    ensures e.Tick? && s.nvs.trial && Next(s, e).hist.confirmed == s.hist.confirmed + [s.slots[s.boot].image]
  {
    hide ReportsOk, VersionInv, TicksOk, ArmsOk, T.Decide;
  }

  /** One trial arms probation on at most two boots. */
  lemma ArmsAreBounded(states: seq<State>, events: seq<Event>, i: nat, trial: nat)
    requires IsRun(states, events) && i < |states| && trial in states[i].hist.arms
    ensures states[i].hist.arms[trial] <= 2
  {
    RunKeepsInv(states, events, i);
  }

  /** One trial publishes at most one final result, so never both outcomes. */
  lemma OneReportPerTrial(states: seq<State>, events: seq<Event>, i: nat, j: nat, k: nat)
    requires IsRun(states, events) && i < |states|
    requires j < |states[i].hist.reports| && k < |states[i].hist.reports|
    requires states[i].hist.reports[j].trial == states[i].hist.reports[k].trial
    ensures j == k
  {
    RunKeepsInv(states, events, i);
  }

  /** Every published result tells the truth: committed exactly for confirmed trials, and
      with the version of the image that was on trial. */
  lemma ReportsAreTruthful(states: seq<State>, events: seq<Event>, i: nat, j: nat)
    requires IsRun(states, events) && i < |states| && j < |states[i].hist.reports|
    ensures Truthful(states[i].hist, states[i].hist.reports[j])
  {
    RunKeepsInv(states, events, i);
  }

  /** An image on probation is never marked valid, so the bootloader may still reject it. */
  lemma ProbationStaysUnmarked(states: seq<State>, events: seq<Event>, i: nat)
    requires IsRun(states, events) && i < |states| && Shape(states[i]) && states[i].nvs.trial
    ensures !states[i].slots[states[i].boot].valid
  {
    RunKeepsInv(states, events, i);
  }

  /** A trial that is still undecided has no tick more than the soak window after a tick at
      or past its deadline, at any clock value, as long as the device ticks at all. */
  lemma TrialsResolveInTime(states: seq<State>, events: seq<Event>, i: nat, j: nat, k: nat)
    requires IsRun(states, events) && i < |states| && states[i].on && states[i].ram.trial
    requires T.Frequent(states[i].start, states[i].ticks, T.MAX_GAP)
    requires j <= k < |states[i].ticks|
    requires states[i].ticks[j].time >= states[i].start + 60_000
    ensures states[i].ticks[k].time <= states[i].ticks[j].time + 5_000
  {
    hide T.InOrder, T.Undecided, T.Frequent;
    RunKeepsInv(states, events, i);
    T.ResolvedByFrequentTicks(states[i].start, states[i].ticks, j, k);
  }

  // ---------------------------------------------------------------------
  // What each event does from any state of a run
  // ---------------------------------------------------------------------

  /** A power-up into the selected slot: the first two boots of a trial arm probation, the
      third gives up on it; otherwise a queued result is handed to RAM. */
  lemma PowerUp(s: State, time: nat)
    requires Inv(s) && !s.on
    ensures Enabled(s, Boot(false, time))
    ensures var z := Next(s, Boot(false, time));
            && Shape(z) && z.running == s.boot && z.slots == s.slots && z.start == z.now == time
            && !z.ram.markedValid && z.hist.reports == s.hist.reports && z.hist.confirmed == s.hist.confirmed
            && (s.nvs.trial && s.nvs.bootCount < 2 ==>
                  && z.on && z.ram.trial && z.boot == s.boot && z.ram.healthSince == 0
                  && z.nvs == s.nvs.(bootCount := s.nvs.bootCount + 1))
            && (s.nvs.trial && s.nvs.bootCount == 2 ==>
                  && !z.on && z.boot == 1 - s.boot
                  && z.nvs == Nvs(false, s.nvs.version, 0, true, false, s.nvs.adopted))
            && (!s.nvs.trial ==>
                  && z.on && !z.ram.trial && z.boot == s.boot && !z.nvs.trial && !z.nvs.pending
                  && (z.ram.pendingResult <==> s.nvs.pending)
                  && (s.nvs.pending ==>
                        && z.ram.pendingVersion == s.nvs.version && !z.ram.pendingCommitted
                        && z.nvs == Nvs(false, None, s.nvs.bootCount, false, false, s.nvs.adopted))
                  && (!s.nvs.pending ==> z.ram == Ram(false, 0, 0, false, false, None, false, z.ram.reported)))
  {
    hide VersionInv, TicksOk, ArmsOk, T.DeadlineOf, T.Since, Reported, Truthful;
  }

  /** The bootloader's fallback ends the trial on the other slot, with the result in RAM. */
  lemma FallBack(s: State, time: nat)
    requires Inv(s) && !s.on && s.nvs.trial
    ensures Enabled(s, Boot(true, time))
    ensures var z := Next(s, Boot(true, time));
            && Shape(z) && z.on && !z.ram.trial && !z.nvs.trial && z.running == z.boot == 1 - s.boot
            && z.slots == s.slots && z.hist == s.hist
            && z.ram.pendingResult && z.ram.pendingVersion == s.nvs.version && !z.ram.pendingCommitted
  {
    hide VersionInv, TicksOk, ArmsOk, T.DeadlineOf, T.Since, ReportsOk;
  }

  /** A connection publishes the result held in RAM, once, and nothing else; made by
      `nff_connect` outside a trial it marks the running slot valid. */
  lemma Publishes(s: State, via: bool)
    requires Inv(s) && s.on
    ensures var z := Next(s, Connect(via));
            && Shape(z) && !z.ram.pendingResult
            && z == s.(ram := z.ram, hist := z.hist) && z.hist == s.hist.(reports := z.hist.reports)
            && z.ram == s.ram.(pendingResult := false, markedValid := s.ram.markedValid || (via && !s.ram.trial))
            && (!s.ram.pendingResult ==> z.hist.reports == s.hist.reports)
            && (s.ram.pendingResult ==>
                  && s.ram.pendingVersion.Some?
                  && var tag := s.ram.pendingVersion.value;
                     z.hist.reports == s.hist.reports + [Report(tag.trial, tag.version, false)])
  {
    hide VersionInv, TicksOk, ArmsOk, T.DeadlineOf, T.Since, Reported, Truthful;
  }

  lemma RollsBack(s: State)
    requires Shape(s)
    ensures var z := RolledBack(s);
            && Shape(z) && !z.on && z.boot == 1 - s.running && z.slots == s.slots && z.ram == s.ram.(trial := false)
            && z.hist == s.hist && z.nvs == Nvs(false, s.ram.pendingVersion, 0, true, false, s.nvs.adopted)
  {
  }

  /** An unhealthy tick only ends the healthy streak, or gives the trial up with its result
      queued. Within 2^31 ms of the deadline it gives up exactly when the deadline, 60 s
      after the power-up, has passed. */
  lemma UnhealthyTick(s: State, time: nat)
    requires Inv(s) && s.on && s.ram.trial && s.now <= time
    ensures var z := Next(s, Tick(time, false));
            && Shape(z) && z.slots == s.slots && z.hist == s.hist
            && (z.on ==> z.ram == s.ram.(healthSince := 0) && z.nvs == s.nvs && z.boot == s.boot)
            && (!z.on ==>
                  z.boot == 1 - s.boot && z.nvs == Nvs(false, s.nvs.version, 0, true, false, s.nvs.adopted))
            && (time < s.start + 60_000 + 0x8000_0000 ==> (!z.on <==> time >= s.start + 60_000))
  {
    hide VersionInv, ReportsOk, ArmsOk, T.DeadlineOf, T.Since, T.InOrder, T.Undecided, RolledBack, Committed, SlotsSafe;
    T.RollbackIffPastDeadline(s.start, s.ticks, T.Tick(time, false));
    T.UnhealthyNeverCommits(s.start, s.ticks, T.Tick(time, false));
    hide T.Signed, T.Millis;
    RollsBack(Judged(s, time, false));
  }

  lemma Commits(s: State)
    requires TrialInv(s) && s.on && s.ram.trial
    ensures var z := Committed(s);
            var v := s.slots[s.boot].image.version;
            && Shape(z) && z.on && !z.ram.trial && z.boot == s.boot && z.running == s.running
            && z.slots == s.slots[s.boot := Slot(s.slots[s.boot].image, true)]
            && z.nvs == Nvs(false, s.nvs.version, 0, false, s.nvs.committed, Some(v))
            && z.hist == s.hist.(reports := s.hist.reports + [Report(|s.hist.offered|, v, true)],
                                 confirmed := s.hist.confirmed + [s.slots[s.boot].image],
                                 won := s.hist.won + {|s.hist.offered|})
  {
    hide ArmsOk, T.Since, T.DeadlineOf;
  }

  /** A healthy tick either only starts or keeps the soak stamp, or commits: the running image
      is marked, recorded as adopted and confirmed, and the result is published. Within 2^31 ms
      of the streak's start it commits exactly when the streak is 5 s old. */
  lemma HealthyTick(s: State, time: nat)
    requires Inv(s) && s.on && s.ram.trial && s.now <= time
    ensures var z := Next(s, Tick(time, true));
            var from := T.SoakStart(s.ticks + [T.Tick(time, true)]).GetOr(time);
            var v := s.slots[s.boot].image.version;
            && Shape(z) && z.on && z.boot == s.boot && z.running == s.running
            && (z.ram.trial ==> z.slots == s.slots && z.nvs == s.nvs && z.hist == s.hist)
            && (!z.ram.trial ==>
                  && z.slots == s.slots[s.boot := Slot(s.slots[s.boot].image, true)]
                  && z.nvs == Nvs(false, s.nvs.version, 0, false, s.nvs.committed, Some(v))
                  && z.hist.reports == s.hist.reports + [Report(|s.hist.offered|, v, true)]
                  && z.hist.confirmed == s.hist.confirmed + [s.slots[s.boot].image]
                  && z.hist.offered == s.hist.offered)
            && (time - from < 0x8000_0000 ==>
                  (!z.ram.trial <==> time - from >= 5_000 + (if from % 0x1_0000_0000 == 0 then 1 else 0)))
  {
    hide VersionInv, ReportsOk, ArmsOk, T.DeadlineOf, T.Since, T.InOrder, T.Undecided, RolledBack, Committed, T.SoakStart;
    var t := T.Tick(time, true);
    T.HealthyNeverRollsBack(s.start, s.ticks, t);
    T.RunGrows(s.start, s.ticks, t);
    var from := T.SoakStart(s.ticks + [t]).GetOr(time);
    if time - from < 0x8000_0000 {
      T.CommitIffSoaked(s.start, s.ticks, t);
    }
    JudgedKeeps(s, time, true);
    hide T.Signed, T.Millis, Inv, T.Decide;
    Commits(Judged(s, time, true));
  }

  /** A tick outside a trial only moves the clock, and a reboot only cuts the power. */
  lemma QuietSteps(s: State, time: nat, healthy: bool)
    requires Inv(s) && s.on
    ensures !s.ram.trial ==> Next(s, Tick(time, healthy)) == s.(now := time)
    ensures Enabled(s, Reboot) && Next(s, Reboot) == s.(on := false)
  {
    hide Inv;
  }

  /** A command is taken exactly outside a trial and with a version that is the reported one
      or later; any other answer, and a failed download, leave all but the other slot alone. */
  lemma CommandsTaken(s: State, offer: Option<Image>, fetched: Fetched)
    requires Inv(s) && s.on
    ensures var z := Next(s, OtaCommand(offer, fetched));
            && (AnswerTo(s, offer) == Busy <==> s.ram.trial)
            && (AnswerTo(s, offer) == MissingFields <==> !s.ram.trial && offer.None?)
            && (AnswerTo(s, offer) == Started <==>
                  && !s.ram.trial && offer.Some? && s.ram.reported.Parsed? && offer.value.version.Parsed?
                  && var a, b := s.ram.reported, offer.value.version;
                     (a.major < b.major || (a.major == b.major && (a.minor < b.minor
                      || (a.minor == b.minor && a.patch <= b.patch)))))
            && (AnswerTo(s, offer) != Started ==> z == s)
            && (AnswerTo(s, offer) == Started && fetched.Failed? ==>
                  z == s.(slots := z.slots) && |z.slots| == 2
                  && z.slots[1 - s.running] == fetched.left && z.slots[s.running] == s.slots[s.running])
            && (AnswerTo(s, offer) == Started && fetched == Verified ==>
                  && Shape(z) && !z.on && z.boot == 1 - s.running
                  && z.slots[z.boot] == Slot(offer.value, false) && z.slots[s.running] == s.slots[s.running]
                  && z.hist == s.hist.(offered := s.hist.offered + [offer.value])
                  && z.nvs == Nvs(true, Some(Tag(offer.value.version, |s.hist.offered| + 1)), 0, false, s.nvs.committed,
                                  s.nvs.adopted))
  {
    hide VersionInv, TicksOk, ArmsOk, ReportsOk;
  }

  // ---------------------------------------------------------------------
  // Every trial is reported
  // ---------------------------------------------------------------------

  ghost predicate QueuedInFlash(s: State, trial: nat) {
    s.nvs.pending && s.nvs.version.Some? && s.nvs.version.value.trial == trial
  }

  ghost predicate QueuedInRam(s: State, trial: nat) {
    s.on && s.ram.pendingResult && s.ram.pendingVersion.Some? && s.ram.pendingVersion.value.trial == trial
  }

  /** The trial is still on, or its result is published or queued. */
  ghost predicate Accounted(s: State, trial: nat) {
    || (s.nvs.trial && trial == |s.hist.offered|)
    || QueuedInFlash(s, trial) || QueuedInRam(s, trial) || Reported(s, trial)
  }

  /** The power goes while a result waits in RAM: the queue in flash is already cleared. */
  predicate CutsOff(s: State, e: Event)
    requires Shape(s)
  {
    s.on && s.ram.pendingResult && !Next(s, e).on
  }

  lemma ReportsPersist(s: State, z: State, trial: nat)
    requires |s.hist.reports| <= |z.hist.reports| && z.hist.reports[..|s.hist.reports|] == s.hist.reports
    requires Reported(s, trial)
    ensures Reported(z, trial)
  {
    var i :| 0 <= i < |s.hist.reports| && s.hist.reports[i].trial == trial;
    assert z.hist.reports[i] == s.hist.reports[i];
  }

  lemma LastReported(z: State, trial: nat)
    requires z.hist.reports != [] && z.hist.reports[|z.hist.reports| - 1].trial == trial
    ensures Reported(z, trial)
  {
  }

  lemma SameReports(s: State, z: State, trial: nat)
    requires z.hist.reports == s.hist.reports
    ensures Reported(z, trial) <==> Reported(s, trial)
  {
  }

  lemma BootAccounts(s: State, fallback: bool, time: nat, trial: nat)
    requires Inv(s) && Enabled(s, Boot(fallback, time)) && Accounted(s, trial)
    ensures Accounted(Next(s, Boot(fallback, time)), trial)
  {
    var z := Next(s, Boot(fallback, time));
    hide Next, VersionInv, TicksOk, ReportsOk, RamAgrees;
    if fallback {
      FallBack(s, time);
    } else {
      PowerUp(s, time);
    }
    hide SlotsSafe;
    SameReports(s, z, trial);
    hide Reported;
    OnlyCommandsOffer(s, Boot(fallback, time));
  }

  lemma OnlyCommandsOffer(s: State, e: Event)
    requires Shape(s) && Enabled(s, e) && !e.OtaCommand?
    ensures Next(s, e).hist.offered == s.hist.offered
  {
    hide T.Decide;
  }

  lemma ConnectAccounts(s: State, via: bool, trial: nat)
    requires Inv(s) && s.on && Accounted(s, trial)
    ensures var z := Next(s, Connect(via));
            z.on && Accounted(z, trial) && ((z.nvs.trial && trial == |z.hist.offered|) || Reported(z, trial))
  {
    var z := Next(s, Connect(via));
    Publishes(s, via);
    hide Next, VersionInv, TicksOk, ReportsOk, SlotsSafe, TrialRecorded;
    if Reported(s, trial) {
      ReportsPersist(s, z, trial);
    } else if QueuedInRam(s, trial) {
      LastReported(z, trial);
    }
  }

  lemma TickAccounts(s: State, time: nat, healthy: bool, trial: nat)
    requires Inv(s) && Enabled(s, Tick(time, healthy)) && Accounted(s, trial)
    ensures Accounted(Next(s, Tick(time, healthy)), trial) && !CutsOff(s, Tick(time, healthy))
  {
    var z := Next(s, Tick(time, healthy));
    if !s.ram.trial {
      QuietSteps(s, time, healthy);
      hide Next, Inv;
      SameReports(s, z, trial);
    } else if healthy {
      HealthyTick(s, time);
      hide Next, VersionInv, TicksOk, ReportsOk, T.SoakStart;
      if Reported(s, trial) {
        ReportsPersist(s, z, trial);
      } else if !z.ram.trial {
        LastReported(z, trial);
      }
    } else {
      UnhealthyTick(s, time);
      hide Next, VersionInv, TicksOk, ReportsOk;
      SameReports(s, z, trial);
    }
  }

  lemma CommandAccounts(s: State, offer: Option<Image>, fetched: Fetched, trial: nat)
    requires Inv(s) && s.on && 1 <= trial && (trial <= |s.hist.offered| ==> Accounted(s, trial))
    requires trial <= |Next(s, OtaCommand(offer, fetched)).hist.offered|
    ensures var e := OtaCommand(offer, fetched);
            Accounted(Next(s, e), trial) <==> !(CutsOff(s, e) && QueuedInRam(s, trial))
  {
    var z := Next(s, OtaCommand(offer, fetched));
    CommandsTaken(s, offer, fetched);
    if QueuedInRam(s, trial) {
      QueuedIsUnreported(s, trial);
    }
    hide Next, VersionInv, TicksOk, ReportsOk, SlotsSafe, AnswerTo;
    SameReports(s, z, trial);
  }

  /** A result that waits in RAM is of an earlier trial and not published yet. */
  lemma QueuedIsUnreported(s: State, trial: nat)
    requires Inv(s) && QueuedInRam(s, trial)
    ensures !Reported(s, trial) && 1 <= trial <= |s.hist.offered| && !s.nvs.trial && !QueuedInFlash(s, trial)
  {
    hide VersionInv, TicksOk, ArmsOk, SlotsSafe;
  }

  /** No step loses track of a trial, except the loss of power while its result is in RAM. */
  lemma StepAccounts(s: State, e: Event, trial: nat)
    requires Inv(s) && Enabled(s, e) && 1 <= trial <= |Next(s, e).hist.offered|
    requires trial <= |s.hist.offered| ==> Accounted(s, trial)
    ensures Accounted(Next(s, e), trial) <==> !(CutsOff(s, e) && QueuedInRam(s, trial))
  {
    if e.OtaCommand? {
      CommandAccounts(s, e.offer, e.fetched, trial);
    } else {
      OnlyCommandsOffer(s, e);
      hide Next, Inv;
      match e
      case Boot(fallback, time) => BootAccounts(s, fallback, time, trial);
      case Connect(via) => ConnectAccounts(s, via, trial);
      case Tick(time, healthy) => TickAccounts(s, time, healthy, trial);
      case Reboot => RebootAccounts(s, trial);
    }
  }

  lemma RebootAccounts(s: State, trial: nat)
    requires Inv(s) && s.on && Accounted(s, trial)
    ensures Accounted(Next(s, Reboot), trial) <==> !(CutsOff(s, Reboot) && QueuedInRam(s, trial))
  {
    QuietSteps(s, 0, false);
    if QueuedInRam(s, trial) {
      QueuedIsUnreported(s, trial);
    }
    hide Next, VersionInv, TicksOk, ReportsOk, SlotsSafe;
    SameReports(s, Next(s, Reboot), trial);
  }

  /** Every trial of every state is still on, queued or published. */
  ghost predicate AllAccounted(states: seq<State>) {
    forall i, trial :: 0 <= i < |states| && 1 <= trial <= |states[i].hist.offered| ==> Accounted(states[i], trial)
  }

  ghost predicate NeverCutOff(states: seq<State>, events: seq<Event>)
    requires IsRun(states, events)
  {
    forall i :: 0 <= i < |events| ==> !(states[i].on && states[i].ram.pendingResult && !states[i + 1].on)
  }

  lemma {:induction false} RunAccounts(states: seq<State>, events: seq<Event>, i: nat, trial: nat)
    requires IsRun(states, events) && NeverCutOff(states, events)
    requires i < |states| && 1 <= trial <= |states[i].hist.offered|
    ensures Accounted(states[i], trial)
  {
    hide Next, Inv, Enabled, Accounted;
    if i > 0 {
      RunKeepsInv(states, events, i - 1);
      assert states[i - 1 + 1] == Next(states[i - 1], events[i - 1]);
      if trial <= |states[i - 1].hist.offered| {
        RunAccounts(states, events, i - 1, trial);
      }
      StepAccounts(states[i - 1], events[i - 1], trial);
    }
  }

  /** A power cut with a result in RAM loses that result. */
  lemma CutOffLoses(states: seq<State>, events: seq<Event>, i: nat)
    requires IsRun(states, events) && i < |events|
    requires states[i].on && states[i].ram.pendingResult && !states[i + 1].on
    ensures !AllAccounted(states)
  {
    RunKeepsInv(states, events, i);
    var s := states[i];
    HeldIsQueued(s);
    var trial := s.ram.pendingVersion.value.trial;
    QueuedIsUnreported(s, trial);
    assert states[i + 1] == Next(s, events[i]);
    if AllAccounted(states) {
      assert Accounted(s, trial);
      StepAccounts(s, events[i], trial);
    }
  }

  lemma HeldIsQueued(s: State)
    requires Inv(s) && s.on && s.ram.pendingResult
    ensures s.ram.pendingVersion.Some? && QueuedInRam(s, s.ram.pendingVersion.value.trial)
  {
  }

  /** No result of any trial of a run is ever lost exactly when the power never goes while a
      result waits in RAM for the connection. */
  lemma NothingLostIff(states: seq<State>, events: seq<Event>)
    requires IsRun(states, events)
    ensures AllAccounted(states) <==> NeverCutOff(states, events)
  {
    assert |states| == |events| + 1;
    hide IsRun, Accounted;
    if NeverCutOff(states, events) {
      forall i, trial | 0 <= i < |states| && 1 <= trial <= |states[i].hist.offered| ensures Accounted(states[i], trial) {
        RunAccounts(states, events, i, trial);
      }
    } else {
      var i :| 0 <= i < |events| && states[i].on && states[i].ram.pendingResult && !states[i + 1].on;
      CutOffLoses(states, events, i);
    }
  }

  /** After a connection in such a run every trial but one that is still on has been reported. */
  lemma ConnectionReportsAll(states: seq<State>, events: seq<Event>, i: nat, via: bool, trial: nat)
    requires IsRun(states, events) && NeverCutOff(states, events)
    requires i < |events| && events[i] == Connect(via) && 1 <= trial <= |states[i].hist.offered|
    ensures Reported(states[i + 1], trial) || (states[i].nvs.trial && trial == |states[i].hist.offered|)
  {
    hide Inv, Next, Accounted, Reported;
    RunKeepsInv(states, events, i);
    RunAccounts(states, events, i, trial);
    assert states[i + 1] == Next(states[i], events[i]);
    ConnectAccounts(states[i], via, trial);
    Publishes(states[i], via);
  }

  /** The device runs the confirmed image of `s` and has published one more result: that the
      trial `s` was on was rolled back. */
  predicate Reverted(s: State, z: State)
    requires Shape(s)
  {
    && Shape(z) && z.on && !z.ram.trial && !z.nvs.trial && z.slots[z.running] == Slot(Confirmed(s), true)
    && z.hist.reports == s.hist.reports + [Report(|s.hist.offered|, s.slots[s.boot].image.version, false)]
  }

  lemma QueueIsDelivered(s: State, z: State, time: nat, via: bool)
    requires Inv(s) && s.nvs.trial && Inv(z) && !z.on && z.boot == 1 - s.boot && !z.nvs.trial && z.nvs.pending
    requires z.nvs.version == s.nvs.version && z.slots == s.slots && z.hist.reports == s.hist.reports
    ensures var y := Next(z, Boot(false, time));
            Shape(y) && y.on && Reverted(s, Next(y, Connect(via)))
  {
    hide VersionInv, TicksOk, ReportsOk, ArmsOk;
    StepKeepsInv(z, Boot(false, time));
    PowerUp(z, time);
    var y := Next(z, Boot(false, time));
    hide Next, RamAgrees;
    Publishes(y, via);
  }

  /** A boot that rejects the image on trial ends in a published rollback. */
  lemma FallbackReverts(s: State, time: nat, via: bool)
    requires Inv(s) && !s.on && s.nvs.trial
    ensures Enabled(s, Boot(true, time))
    ensures var y := Next(s, Boot(true, time));
            Shape(y) && y.on && Reverted(s, Next(y, Connect(via)))
  {
    hide VersionInv, TicksOk, ReportsOk, ArmsOk;
    FallBack(s, time);
    StepKeepsInv(s, Boot(true, time));
    var y := Next(s, Boot(true, time));
    hide Next, RamAgrees;
    Publishes(y, via);
  }

  /** A trial that is unhealthy at its deadline ends in a published rollback. */
  lemma TimeoutReverts(s: State, time: nat, time': nat, via: bool)
    requires Inv(s) && s.on && s.ram.trial
    requires s.now <= time && s.start + 60_000 <= time < s.start + 60_000 + 0x8000_0000
    ensures var x := Next(s, Tick(time, false));
            Shape(x) && !x.on && var y := Next(x, Boot(false, time'));
            Shape(y) && y.on && Reverted(s, Next(y, Connect(via)))
  {
    UnhealthyTick(s, time);
    StepKeepsInv(s, Tick(time, false));
    hide Next, VersionInv, TicksOk, ReportsOk, ArmsOk, SlotsSafe, TrialRecorded;
    QueueIsDelivered(s, Next(s, Tick(time, false)), time', via);
  }

  /** A power-up that crashes: it arms probation and the power goes again. */
  lemma CrashedBoot(s: State, time: nat)
    requires Inv(s) && !s.on && s.nvs.trial && s.nvs.bootCount < 2
    ensures var y := Next(s, Boot(false, time));
            Shape(y) && y.on && y.ram.trial && var z := Next(y, Reboot);
            && Inv(z) && !z.on && z.boot == s.boot && z.slots == s.slots && z.hist.reports == s.hist.reports
            && z.hist.confirmed == s.hist.confirmed && z.nvs == s.nvs.(bootCount := s.nvs.bootCount + 1)
  {
    PowerUp(s, time);
    StepKeepsInv(s, Boot(false, time));
    var y := Next(s, Boot(false, time));
    QuietSteps(y, 0, false);
    StepKeepsInv(y, Reboot);
    hide Next, Inv;
  }

  /** A trial image that crashes on each of three boots ends in a published rollback. */
  lemma CrashLoopReverts(s: State, t0: nat, t1: nat, t2: nat, t3: nat, via: bool)
    requires Inv(s) && !s.on && s.nvs.trial && s.nvs.bootCount == 0
    ensures var a := Next(s, Boot(false, t0));
            Shape(a) && a.on && a.ram.trial && var b := Next(a, Reboot);
            Shape(b) && !b.on && var c := Next(b, Boot(false, t1));
            Shape(c) && c.on && c.ram.trial && var d := Next(c, Reboot);
            Shape(d) && !d.on && var e := Next(d, Boot(false, t2));
            Shape(e) && !e.on && var f := Next(e, Boot(false, t3));
            Shape(f) && f.on && Reverted(s, Next(f, Connect(via)))
  {
    hide Next, VersionInv, TicksOk, ReportsOk, ArmsOk, SlotsSafe, TrialRecorded, RamAgrees;
    CrashedBoot(s, t0);
    var b := Next(Next(s, Boot(false, t0)), Reboot);
    CrashedBoot(b, t1);
    var d := Next(Next(b, Boot(false, t1)), Reboot);
    PowerUp(d, t2);
    StepKeepsInv(d, Boot(false, t2));
    QueueIsDelivered(s, Next(d, Boot(false, t2)), t3, via);
  }

  // ---------------------------------------------------------------------
  // Versions
  // ---------------------------------------------------------------------

  lemma NewerOrEqual(a: Version, b: Version)
    requires a.Parsed? && b.Parsed?
    ensures VersionLe(a, b) <==> a == b || StrictlyNewer(a, b)
    ensures StrictlyNewer(a, b) <==> !VersionLe(b, a)
  {
  }

  /** A command whose version is not strictly newer than the reported one is taken exactly
      outside a trial when the two versions are equal. */
  lemma SameVersionIsTaken(s: State, image: Image)
    ensures Accepts(s, image) && !StrictlyNewer(s.ram.reported, image.version)
        <==> !s.ram.trial && s.ram.reported.Parsed? && image.version == s.ram.reported
  {
    if s.ram.reported.Parsed? && image.version.Parsed? {
      NewerOrEqual(s.ram.reported, image.version);
    }
  }

  /** The recorded adopted version always names the confirmed image, through rollbacks too. */
  lemma AdoptedNamesConfirmed(states: seq<State>, events: seq<Event>, i: nat)
    requires IsRun(states, events) && i < |states| && Shape(states[i])
    ensures states[i].nvs.adopted.Some? ==> states[i].nvs.adopted.value == Confirmed(states[i]).version
  {
    RunKeepsInv(states, events, i);
  }

  /** The version commands are compared with is the confirmed image's, except between a
      commit and the next boot of a device that adopts, where it may be the previous one's. */
  lemma ReportedNamesConfirmed(states: seq<State>, events: seq<Event>, i: nat)
    requires IsRun(states, events) && i < |states| && Shape(states[i])
    requires states[i].on && !states[i].ram.trial
    ensures states[i].ram.reported == Confirmed(states[i]).version || Lags(states[i])
  {
    RunKeepsInv(states, events, i);
  }

  /** Every confirmed version is at least that of one of the two images confirmed before. */
  lemma VersionsDropAtMostOneStep(states: seq<State>, events: seq<Event>, i: nat, k: nat)
    requires IsRun(states, events) && i < |states| && 0 < k < |states[i].hist.confirmed|
    ensures NotFarBelow(states[i].adopts, states[i].hist.confirmed[..k], states[i].hist.confirmed[k].version)
  {
    RunKeepsInv(states, events, i);
  }

  ghost predicate Ascending(s: State) {
    forall k :: 0 < k < |s.hist.confirmed| ==>
      VersionLe(s.hist.confirmed[k - 1].version, s.hist.confirmed[k].version)
  }

  /** All runs of `s` only ever confirm versions in ascending order. */
  ghost predicate NeverDowngrades(s: State) {
    forall states, events, i :: IsRun(states, events) && states[0] == s && 0 <= i < |states| ==> Ascending(states[i])
  }

  lemma {:induction false} RunKeepsFactory(states: seq<State>, events: seq<Event>, i: nat)
    requires IsRun(states, events) && i < |states|
    ensures Shape(states[i]) && states[i].adopts == states[0].adopts
    ensures states[i].hist.confirmed[0] == states[0].hist.confirmed[0]
  {
    hide Inv;
    if i > 0 {
      RunKeepsFactory(states, events, i - 1);
      assert states[i - 1 + 1] == Next(states[i - 1], events[i - 1]);
      RunKeepsInv(states, events, i);
      StepKeepsFactory(states[i - 1], events[i - 1]);
    }
  }

  lemma StepKeepsFactory(s: State, e: Event)
    requires Shape(s) && Enabled(s, e)
    ensures Shape(Next(s, e)) && Next(s, e).adopts == s.adopts && Next(s, e).hist.confirmed[0] == s.hist.confirmed[0]
  {
    hide Booted, Connected, Ticked, Installed;
    match e
    case Boot(fallback, time) => BootKeepsFactory(s, if fallback then 1 - s.boot else s.boot, time);
    case Connect(via) => ConnectKeepsFactory(s, via);
    case Tick(time, healthy) => TickKeepsFactory(s, time, healthy);
    case OtaCommand(offer, fetched) =>
      if offer.Some? {
        InstallKeepsFactory(s, offer.value);
      }
    case Reboot =>
  }

  predicate SameFactory(s: State, z: State)
    requires Shape(s)
  {
    Shape(z) && z.adopts == s.adopts && z.hist.confirmed[0] == s.hist.confirmed[0]
  }

  lemma BootKeepsFactory(s: State, slot: nat, time: nat)
    requires Shape(s) && slot < 2
    ensures SameFactory(s, Booted(s, slot, time))
  {
  }

  lemma ConnectKeepsFactory(s: State, via: bool)
    requires Shape(s)
    ensures SameFactory(s, Connected(s, via))
  {
  }

  lemma TickKeepsFactory(s: State, time: nat, healthy: bool)
    requires Shape(s)
    ensures SameFactory(s, Ticked(s, time, healthy))
  {
    hide T.Decide;
  }

  lemma InstallKeepsFactory(s: State, image: Image)
    requires Shape(s)
    ensures SameFactory(s, Installed(s, image))
  {
  }

  lemma SafeFactory(s: State)
    requires Initial(s) && (s.adopts ==> Confirmed(s).version.Malformed?)
    ensures NeverDowngrades(s)
  {
    hide Next, Enabled;
    forall states: seq<State>, events: seq<Event>, i | IsRun(states, events) && states[0] == s && 0 <= i < |states|
      ensures Ascending(states[i])
    {
      RunKeepsInv(states, events, i);
      RunKeepsFactory(states, events, i);
      var c := states[i].hist.confirmed;
      forall k | 0 < k < |c| ensures VersionLe(c[k - 1].version, c[k].version) {
        assert NotFarBelow(states[i].adopts, c[..k], c[k].version);
      }
    }
  }

  lemma Extend(states: seq<State>, events: seq<Event>, e: Event) returns (longer: seq<State>)
    requires IsRun(states, events) && Shape(states[|events|]) && Enabled(states[|events|], e)
    ensures longer == states + [Next(states[|events|], e)] && IsRun(longer, events + [e])
  {
    hide Next, Enabled, Initial;
    longer := states + [Next(states[|events|], e)];
  }

  /** Installing an accepted image and booting it arms the trial. */
  lemma ArmedTrial(s: State, image: Image)
    requires Shape(s) && s.on && !s.nvs.pending && Accepts(s, image)
    ensures var a := Next(s, OtaCommand(Some(image), Verified));
            var b := Next(a, Boot(false, 1));
            && !a.on && b.on && Shape(b) && b.ram.trial && b.ram.healthSince == 0 && b.now == 1
            && b.slots[b.running].image == image && b.nvs.version.Some? && b.nvs.version.value.version == image.version
            && b.ram.pendingVersion == b.nvs.version && b.hist.confirmed == s.hist.confirmed
            && b.adopts == s.adopts && b.nvs.adopted == s.nvs.adopted && b.ram.reported == ConfigVersion(b, b.running)
            && b.nvs.version.value.trial == |s.hist.offered| + 1
  {
  }

  lemma FirstHealthyTick(b: State)
    requires Shape(b) && b.on && b.ram.trial && b.ram.healthSince == 0
    ensures Next(b, Tick(1, true)) == b.(now := 1, ram := b.ram.(healthSince := 1), ticks := b.ticks + [T.Tick(1, true)])
  {
    hide Committed, RolledBack;
  }

  lemma SoakedTick(c: State)
    requires Shape(c) && c.on && c.ram.trial && c.ram.healthSince == 1
    ensures var t := T.Tick(1 + T.SOAK_MS, true);
            Next(c, Tick(1 + T.SOAK_MS, true)) == Committed(c.(now := 1 + T.SOAK_MS, ticks := c.ticks + [t]))
  {
    hide Committed, RolledBack;
  }

  lemma HealthyTrialCommits(b: State)
    requires Shape(b) && b.on && b.ram.trial && b.ram.healthSince == 0 && b.now == 1 && b.ram.pendingVersion.Some?
    ensures var c := Next(b, Tick(1, true));
            var d := Next(c, Tick(1 + T.SOAK_MS, true));
            && Shape(c) && c.on && c.now == 1 && Shape(d) && d.on && !d.ram.trial
            && d.hist.confirmed == b.hist.confirmed + [b.slots[b.running].image]
            && d.nvs.adopted == Some(b.ram.pendingVersion.value.version)
            && d.ram.reported == b.ram.reported && d.adopts == b.adopts && d.hist.reports == b.hist.reports
                 + [Report(b.ram.pendingVersion.value.trial, b.ram.pendingVersion.value.version, true)]
  {
    FirstHealthyTick(b);
    var c := Next(b, Tick(1, true));
    hide Next;
    SoakedTick(c);
  }

  lemma NoneQueuedWhileOn(states: seq<State>, events: seq<Event>, i: nat)
    requires IsRun(states, events) && i < |states| && states[i].on
    ensures !states[i].nvs.pending
  {
    RunKeepsInv(states, events, i);
  }

  /** What an upgrade of `y` to `image` leaves. */
  predicate Upgraded(y: State, z: State, image: Image) {
    && Shape(z) && z.on && !z.ram.trial && z.adopts == y.adopts
    && z.hist.confirmed == y.hist.confirmed + [image] && z.nvs.adopted == Some(image.version)
    && z.hist.reports != []
    && z.hist.reports[|z.hist.reports| - 1] == Report(|y.hist.offered| + 1, image.version, true)
    && z.ram.reported == if y.adopts && y.nvs.adopted.Some? then y.nvs.adopted.value else image.version
  }

  lemma UpgradeSteps(y: State, image: Image)
    requires Shape(y) && y.on && !y.nvs.pending && Accepts(y, image)
    ensures var e0, e1, e2, e3 := OtaCommand(Some(image), Verified), Boot(false, 1), Tick(1, true), Tick(5_001, true);
            Enabled(y, e0) && var a := Next(y, e0);
            Shape(a) && Enabled(a, e1) && var b := Next(a, e1);
            Shape(b) && Enabled(b, e2) && var c := Next(b, e2);
            Shape(c) && Enabled(c, e3) && Upgraded(y, Next(c, e3), image)
  {
    ArmedTrial(y, image);
    var b := Next(Next(y, OtaCommand(Some(image), Verified)), Boot(false, 1));
    HealthyTrialCommits(b);
    hide Next, Accepts;
  }

  /** An accepted image that stays healthy for five seconds is confirmed, adopted and reported. */
  lemma Upgrade(states: seq<State>, events: seq<Event>, image: Image)
    returns (states': seq<State>, events': seq<Event>)
    requires IsRun(states, events) && states[|events|].on && Shape(states[|events|])
    requires Accepts(states[|events|], image)
    ensures IsRun(states', events') && states'[0] == states[0]
    ensures events' == events + [OtaCommand(Some(image), Verified), Boot(false, 1), Tick(1, true), Tick(5_001, true)]
    ensures Upgraded(states[|events|], states'[|events'|], image)
  {
    NoneQueuedWhileOn(states, events, |events|);
    hide Next, IsRun, Accepts, Enabled, Upgraded;
    UpgradeSteps(states[|events|], image);
    var e0, e1, e2, e3 := OtaCommand(Some(image), Verified), Boot(false, 1), Tick(1, true), Tick(5_001, true);
    states' := Extend(states, events, e0);
    states' := Extend(states', events + [e0], e1);
    states' := Extend(states', events + [e0] + [e1], e2);
    states' := Extend(states', events + [e0] + [e1] + [e2], e3);
    events' := events + [e0] + [e1] + [e2] + [e3];
  }

  /** A device that adopts: after two updates without a further reboot its configuration
      still names the first, so a third below the second is taken and confirmed. */
  lemma AdoptingDowngrades(s: State) returns (states: seq<State>, events: seq<Event>)
    requires Initial(s) && s.adopts && Confirmed(s).version.Parsed?
    ensures IsRun(states, events) && states[0] == s && !Ascending(states[|events|])
  {
    var v := Confirmed(s).version;
    var two, one := v.(patch := v.patch + 2), v.(patch := v.patch + 1);
    FirstBoot(s);
    hide Next, ConfigVersion;
    states := Extend([s], [], Boot(false, 0));
    events := [] + [Boot(false, 0)];
    states, events := Upgrade(states, events, Image(0, v));
    states, events := Upgrade(states, events, Image(1, two));
    states, events := Upgrade(states, events, Image(2, one));
    var c := states[|events|].hist.confirmed;
    assert c[|c| - 2].version == two && c[|c| - 1].version == one;
  }

  lemma FirstBoot(s: State)
    requires Initial(s)
    ensures IsRun([s], []) && Enabled(s, Boot(false, 0))
    ensures var z := Next(s, Boot(false, 0));
            && Shape(z) && z.on && !z.ram.trial && z.ram.reported == Confirmed(s).version
            && z.adopts == s.adopts && z.hist == s.hist && z.nvs == s.nvs
  {
  }

  /** Versions never go down in any run exactly when versions are built into the images, or
      the factory version does not parse and no update is ever taken. */
  lemma NeverDowngradesIff(s: State)
    requires Initial(s)
    ensures NeverDowngrades(s) <==> !s.adopts || Confirmed(s).version.Malformed?
  {
    hide Ascending;
    if s.adopts && Confirmed(s).version.Parsed? {
      var states, events := AdoptingDowngrades(s);
    } else {
      SafeFactory(s);
    }
  }

  // ---------------------------------------------------------------------
  // The device, in place
  // ---------------------------------------------------------------------

  /** `g_nff`, the NVS keys and the two slots, updated by the SDK calls. */
  class Device {
    const adopts: bool
    var slots: seq<Slot>
    var boot: nat
    var on: bool
    var running: nat
    var nvs: Nvs
    var ram: Ram
    var start: nat
    var now: nat
    /** Bookkeeping: the images confirmed when this boot began, its ticks, and what happened so far. */
    var bootedAt: nat
    var ticks: seq<T.Tick>
    var hist: History

    constructor (factory: seq<Slot>, slot: nat, adopting: bool)
      requires |factory| == 2 && slot < 2 && factory[slot].valid
      ensures Initial(Snapshot()) && adopts == adopting
    {
      adopts := adopting;
      slots, boot, running, on := factory, slot, slot, false;
      nvs, ram := Nvs(false, None, 0, false, false, None), ClearedRam(factory[slot].image.version);
      start, now, bootedAt, ticks := 0, 0, 0, [];
      hist := History([factory[slot].image], [], {}, map[], []);
    }

    function Snapshot(): State
      reads this
    {
      State(adopts, slots, boot, on, running, nvs, ram, start, now, bootedAt, ticks, hist)
    }

    /** `ota_clear_trial_nvs` */
    method ClearTrialNvs()
      modifies this`nvs
      ensures nvs == ClearTrial(old(nvs))
    {
      nvs := nvs.(trial := false);
      nvs := nvs.(bootCount := 0);
    }

    /** `nff_ota_commit` */
    method Commit()
      requires Shape(Snapshot())
      modifies this
      ensures Snapshot() == Committed(old(Snapshot()))
    {
      slots := slots[running := slots[running].(valid := true)];
      ram := ram.(markedValid := true);
      hist := hist.(reports := hist.reports + [ReportOf(ram.pendingVersion, true)],
                    confirmed := hist.confirmed + [slots[running].image], won := hist.won + {hist.Trials()});
      nvs := nvs.(adopted := if ram.pendingVersion.Some? then Some(ram.pendingVersion.value.version) else None);
      ClearTrialNvs();
      ram := ram.(trial := false);
    }

    /** `nff_ota_rollback` */
    method Rollback()
      requires Shape(Snapshot())
      modifies this
      ensures Snapshot() == RolledBack(old(Snapshot()))
    {
      nvs := nvs.(pending := true);
      nvs := nvs.(version := ram.pendingVersion);
      nvs := nvs.(committed := false);
      ClearTrialNvs();
      ram := ram.(trial := false);
      boot := 1 - running;
      on := false;
    }

    /** `nff_ota_boot_check` */
    method BootCheck()
      requires Shape(Snapshot())
      modifies this
      ensures Snapshot() == BootChecked(old(Snapshot()))
    {
      if !nvs.trial {
        return;
      }
      ram := ram.(pendingVersion := nvs.version);
      if boot != running {
        boot := running;
        nvs := nvs.(pending := true, version := ram.pendingVersion, committed := false);
        ClearTrialNvs();
        return;
      }
      var boots := nvs.bootCount + 1;
      nvs := nvs.(bootCount := boots);
      if boots >= MAX_TRIAL_BOOTS {
        Rollback();
        return;
      }
      ram := ram.(trial := true, healthSince := 0);
      ram := ram.(deadline := (T.Millis(now) + T.CONFIRM_MS) % Bytes.TWO32);
      hist := hist.(arms := Bump(hist.arms, hist.Trials()));
    }

    /** `nff_init` after a power-up into `slot`. */
    method Init(slot: nat, time: nat)
      requires Shape(Snapshot()) && slot < 2
      modifies this
      ensures Snapshot() == Booted(old(Snapshot()), slot, time)
    {
      var version := if adopts && nvs.adopted.Some? then nvs.adopted.value else slots[slot].image.version;
      on, running, ram := true, slot, ClearedRam(version);
      start, now, bootedAt, ticks := time, time, |hist.confirmed|, [];
      BootCheck();
      if on && nvs.pending {
        ram := ram.(pendingResult := true, pendingVersion := nvs.version);
        ram := ram.(pendingCommitted := nvs.committed);
        nvs := nvs.(pending := false, version := None, committed := false);
      }
    }

    /** `nff_ota_check_pending_result` */
    method CheckPendingResult()
      modifies this
      ensures Snapshot() == ResultPublished(old(Snapshot()))
    {
      if !ram.pendingResult {
        return;
      }
      ram := ram.(pendingResult := false);
      hist := hist.(reports := hist.reports + [ReportOf(ram.pendingVersion, ram.pendingCommitted)]);
    }

    /** `nff_mqtt_after_connect`, and the rest of `nff_connect` when that made the connection. */
    method OnConnected(viaConnect: bool)
      requires Shape(Snapshot())
      modifies this
      ensures Snapshot() == Connected(old(Snapshot()), viaConnect)
    {
      CheckPendingResult();
      if viaConnect {
        CheckPendingResult();
        if !ram.trial && !ram.markedValid {
          slots := slots[running := slots[running].(valid := true)];
          ram := ram.(markedValid := true);
        }
      }
    }

    /** `nff_ota_trial_tick` */
    method TrialTick(time: nat, healthy: bool)
      requires Shape(Snapshot())
      modifies this
      ensures Snapshot() == Ticked(old(Snapshot()), time, healthy)
    {
      hide Committed, RolledBack, T.Millis, T.Signed;
      now := time;
      if !ram.trial {
        return;
      }
      ticks := ticks + [T.Tick(time, healthy)];
      var millis := T.Millis(time);
      if healthy {
        if ram.healthSince == 0 {
          ram := ram.(healthSince := if millis == 0 then 1 else millis);
        }
        if T.Signed(millis - ram.healthSince) >= T.SOAK_MS {
          Commit();
        }
        return;
      }
      ram := ram.(healthSince := 0);
      if T.Signed(millis - ram.deadline) >= 0 {
        Rollback();
      }
    }

    /** `nff_ota_handle_cmd` with the extracted fields and the outcome of the download given. */
    method HandleOta(offer: Option<Image>, fetched: Fetched) returns (answer: Answer)
      requires Shape(Snapshot())
      modifies this
      ensures answer == AnswerTo(old(Snapshot()), offer)
      ensures Snapshot() == Next(old(Snapshot()), OtaCommand(offer, fetched))
    {
      if ram.trial {
        return Busy;
      }
      if offer.None? {
        return MissingFields;
      }
      var image := offer.value;
      if !VersionLe(ram.reported, image.version) {
        return DowngradeRejected;
      }
      var other := 1 - running;
      match fetched
      case Failed(left) =>
        slots := slots[other := left];
        return Started;
      case Verified =>
        slots := slots[other := Slot(image, false)];
        boot := other;
        hist := hist.(offered := hist.offered + [image]);
        nvs := nvs.(trial := true, version := Some(Tag(image.version, hist.Trials())), bootCount := 0);
        on := false;
        return Started;
    }
  }
}
