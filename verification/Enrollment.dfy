/** Enrollment over a lossy network: the fleet worker of nff_fleet/enroll_worker.py, the
    database rows it updates, and the devices of sdk-c/src/nff_claim.c and nff_core.c. */
module Enrollment {
  import opened Wrappers
  import Store

  // ---------------------------------------------------------------------
  // The rows
  // ---------------------------------------------------------------------

  datatype RowState = Pending | Accepted | Claimed

  datatype Row = Row(hwid: string, project: string, state: RowState, certIssued: bool)

  type Rows = map<nat, Row>

  /** How one wait of `fulfill_one` ends. */
  datatype Answer = Applied | Refused | TimedOut | PublishFailed

  function Settle(rows: Rows, id: nat, a: Answer): (r: Rows)
    requires id in rows
    ensures r.Keys == rows.Keys
  {
    match a
    case Applied => rows[id := rows[id].(state := Claimed)]
    case Refused | TimedOut => rows[id := rows[id].(certIssued := true)]
    case PublishFailed => rows
  }

  /** The fleet side of a sweep over several enrollments. */
  function SettleAll(rows: Rows, ids: seq<nat>, answers: seq<Answer>): (r: Rows)
    requires |ids| == |answers| && forall id :: id in ids ==> id in rows
    ensures r.Keys == rows.Keys
  {
    if ids == [] then rows
    else
      var n := |ids| - 1;
      Settle(SettleAll(rows, ids[..n], answers[..n]), ids[n], answers[n])
  }

  function ClaimByDevice(rows: Rows, hwid: string): Rows {
    map id | id in rows ::
      if rows[id].hwid == hwid && rows[id].state == Accepted then rows[id].(state := Claimed) else rows[id]
  }

  /** The rows a grace sweep re-opens: issued a certificate, never acknowledged, gone stale. */
  function Reopened(rows: Rows, stale: set<nat>): Rows {
    map id | id in rows ::
      if id in stale && rows[id].state == Accepted && rows[id].certIssued then rows[id].(certIssued := false) else rows[id]
  }

  /** Re-opening only takes the certificate mark off accepted rows that went stale. */
  lemma ReopenedRow(rows: Rows, stale: set<nat>, id: nat)
    requires id in rows
    ensures Reopened(rows, stale).Keys == rows.Keys
    ensures Reopened(rows, stale)[id] ==
              rows[id].(certIssued := rows[id].certIssued && !(id in stale && rows[id].state == Accepted))
  {
  }

  /** A heartbeat finalizes every accepted row of its device, and touches nothing else. */
  lemma ClaimedByHeartbeat(rows: Rows, hwid: string, id: nat)
    requires id in rows
    ensures ClaimByDevice(rows, hwid).Keys == rows.Keys
    ensures rows[id].hwid == hwid && rows[id].state == Accepted ==>
              ClaimByDevice(rows, hwid)[id] == rows[id].(state := Claimed)
    ensures rows[id].hwid != hwid || rows[id].state != Accepted ==> ClaimByDevice(rows, hwid)[id] == rows[id]
  {
  }

  /** Accepted and still awaiting a certificate. */
  predicate Waits(r: Row) {
    r.state == Accepted && !r.certIssued
  }

  /** What `get_accepted_unfulfilled` may return: waiting rows, all of them below the limit. */
  ghost predicate IsWorkList(rows: Rows, ids: seq<nat>, limit: nat) {
    && |ids| <= limit
    && Distinct(ids)
    && (forall id :: id in ids ==> id in rows && Waits(rows[id]))
    && (|ids| < limit ==> forall id :: id in rows && Waits(rows[id]) ==> id in ids)
  }

  class Worker {
    var rows: Rows

    constructor (r: Rows)
      ensures rows == r
    {
      rows := r;
    }

    method MarkClaimed(id: nat)
      requires id in rows
      modifies this
      ensures rows == old(rows)[id := old(rows)[id].(state := Claimed)]
    {
      rows := rows[id := rows[id].(state := Claimed)];
    }

    method MarkCertIssued(id: nat)
      requires id in rows
      modifies this
      ensures rows == old(rows)[id := old(rows)[id].(certIssued := true)]
    {
      rows := rows[id := rows[id].(certIssued := true)];
    }

    /** `fulfill_one`, given how its wait ends. */
    method FulfillOne(id: nat, a: Answer) returns (claimed: bool)
      requires id in rows
      modifies this
      ensures rows == Settle(old(rows), id, a)
      ensures claimed <==> a == Applied
      ensures rows[id] == if a == Applied then old(rows)[id].(state := Claimed)
                          else if a == PublishFailed then old(rows)[id]
                          else old(rows)[id].(certIssued := true)
      ensures forall other :: other in rows && other != id ==> rows[other] == old(rows)[other]
    {
      match a
      case TimedOut =>
        MarkCertIssued(id);
        return false;
      case PublishFailed =>
        return false;
      case Applied =>
        MarkClaimed(id);
        return true;
      case Refused =>
        MarkCertIssued(id);
        return false;
    }

    /** One pass of `_worker_loop` over its work list. A row is claimed afterwards exactly
        when it was before or one of its rollovers was answered "applied". */
    method Sweep(ids: seq<nat>, answers: seq<Answer>)
      requires |ids| == |answers| && forall id :: id in ids ==> id in rows
      modifies this
      ensures rows == SettleAll(old(rows), ids, answers)
      ensures forall id :: id in rows ==>
        (rows[id].state == Claimed <==> old(rows)[id].state == Claimed || WasApplied(ids, answers, id))
    {
      hide WasApplied;
      for i := 0 to |ids|
        invariant rows == SettleAll(old(rows), ids[..i], answers[..i])
      {
        assert ids[..i + 1][..i] == ids[..i] && answers[..i + 1][..i] == answers[..i];
        var _ := FulfillOne(ids[i], answers[i]);
      }
      assert ids[..|ids|] == ids && answers[..|ids|] == answers;
      forall id | id in rows
        ensures rows[id].state == Claimed <==> old(rows)[id].state == Claimed || WasApplied(ids, answers, id)
      {
        SweepClaimsTheAnswered(old(rows), ids, answers, id);
      }
    }

    /** One whole pass: re-open stale rows, fetch a work list, work it off. A row waits
        afterwards exactly if it was accepted, without a certificate or with one gone stale,
        and was not on the list or its rollover could not be published. */
    method Pass(stale: set<nat>, limit: nat, ids: seq<nat>, answers: seq<Answer>)
      requires |ids| == |answers| && IsWorkList(Reopened(rows, stale), ids, limit)
      modifies this
      ensures rows == SettleAll(Reopened(old(rows), stale), ids, answers)
      ensures forall id :: id in rows ==>
        (rows[id].state == Accepted && !rows[id].certIssued <==>
           && old(rows)[id].state == Accepted && (!old(rows)[id].certIssued || id in stale)
           && (id !in ids || exists i :: 0 <= i < |ids| && ids[i] == id && answers[i] == PublishFailed))
    {
      ghost var reopened := Reopened(rows, stale);
      rows := Reopened(rows, stale);
      Sweep(ids, answers);
      forall id | id in rows
        ensures Waits(rows[id]) <==>
          Waits(reopened[id]) && (id !in ids || exists i :: 0 <= i < |ids| && ids[i] == id && answers[i] == PublishFailed)
      {
        SweepWorksOff(reopened, ids, answers, id);
      }
    }
  }

  lemma {:induction false} SettledElsewhere(rows: Rows, ids: seq<nat>, answers: seq<Answer>, id: nat)
    requires |ids| == |answers| && forall x :: x in ids ==> x in rows
    requires id in rows && id !in ids
    ensures SettleAll(rows, ids, answers)[id] == rows[id]
  {
    if ids != [] {
      var n := |ids| - 1;
      assert ids[n] in ids;
      SettledElsewhere(rows, ids[..n], answers[..n], id);
    }
  }

  predicate Distinct(ids: seq<nat>) {
    forall j, k :: 0 <= j < k < |ids| ==> ids[j] != ids[k]
  }

  /** In a sweep over distinct rows each one is settled by its own answer. */
  lemma {:induction false} SettledByItsAnswer(rows: Rows, ids: seq<nat>, answers: seq<Answer>, i: nat)
    requires |ids| == |answers| && forall x :: x in ids ==> x in rows
    requires Distinct(ids) && i < |ids|
    ensures SettleAll(rows, ids, answers)[ids[i]] == Settle(rows, ids[i], answers[i])[ids[i]]
  {
    var n := |ids| - 1;
    if i == n {
      SettledElsewhere(rows, ids[..n], answers[..n], ids[n]);
    } else {
      SettledByItsAnswer(rows, ids[..n], answers[..n], i);
      assert ids[i] != ids[n];
    }
  }

  lemma SweepWorksOff(rows: Rows, ids: seq<nat>, answers: seq<Answer>, id: nat)
    requires |ids| == |answers| && id in rows && forall x :: x in ids ==> x in rows && Waits(rows[x])
    requires Distinct(ids)
    ensures Waits(SettleAll(rows, ids, answers)[id]) <==>
              Waits(rows[id]) && (id !in ids || exists i :: 0 <= i < |ids| && ids[i] == id && answers[i] == PublishFailed)
  {
    hide SettleAll;
    if id in ids {
      var i :| 0 <= i < |ids| && ids[i] == id;
      SettledByItsAnswer(rows, ids, answers, i);
    } else {
      SettledElsewhere(rows, ids, answers, id);
    }
  }

  /** Row `id` got an "applied" answer. */
  ghost predicate WasApplied(ids: seq<nat>, answers: seq<Answer>, id: nat)
    requires |ids| == |answers|
  {
    exists i :: 0 <= i < |ids| && ids[i] == id && answers[i] == Applied
  }

  lemma AppliedAtLast(ids: seq<nat>, answers: seq<Answer>, id: nat)
    requires |ids| == |answers| && ids != []
    ensures var n := |ids| - 1;
            WasApplied(ids, answers, id) <==> (ids[n] == id && answers[n] == Applied) || WasApplied(ids[..n], answers[..n], id)
  {
    var n := |ids| - 1;
    if WasApplied(ids[..n], answers[..n], id) {
      var i :| 0 <= i < n && ids[..n][i] == id && answers[..n][i] == Applied;
      assert ids[i] == id && answers[i] == Applied;
    }
    if i :| 0 <= i < |ids| && ids[i] == id && answers[i] == Applied {
      assert i == n || (ids[..n][i] == id && answers[..n][i] == Applied);
    }
  }

  lemma {:induction false} SweepClaimsTheAnswered(rows: Rows, ids: seq<nat>, answers: seq<Answer>, id: nat)
    requires |ids| == |answers| && id in rows && forall x :: x in ids ==> x in rows
    ensures SettleAll(rows, ids, answers)[id].state == Claimed <==>
              rows[id].state == Claimed || WasApplied(ids, answers, id)
  {
    hide WasApplied;
    if ids == [] {
      assert !WasApplied(ids, answers, id) by {
        NoneApplied(id);
      }
    } else {
      var n := |ids| - 1;
      SweepClaimsTheAnswered(rows, ids[..n], answers[..n], id);
      AppliedAtLast(ids, answers, id);
    }
  }

  lemma NoneApplied(id: nat)
    ensures !WasApplied([], [], id)
  {
  }

  // ---------------------------------------------------------------------
  // The protocol
  // ---------------------------------------------------------------------

  datatype Mode = Off | Bootstrap | Operational

  datatype Device = Device(table: Store.Table, mode: Mode)

  /** `issued`: every rollover ever published, with the hardware id it is bound to; it may be
      delivered late, often or never. `acks`: hardware ids with an "applied" answer published. */
  datatype State = State(rows: Rows, worker: Option<nat>, issued: set<(string, Store.Creds)>,
                         acks: set<string>, devices: map<string, Device>)

  datatype Event =
    | Accept(id: nat)
    | Fulfill(id: nat, creds: Store.Creds)
    | Answered(answer: Answer)
    | Reconcile(id: nat)
    | Heartbeat(hwid: string)
    | Rollover(hwid: string, creds: Store.Creds, budget: nat, published: bool)
    | PowerLoss(hwid: string)
    | Boot(hwid: string)

  /** The DER blobs the fleet issues are never empty. */
  predicate IsIssuable(c: Store.Creds) {
    Store.Storable(c) && c.cert != [] && c.key != [] && c.chain != [] && c.ca != [] && c.verifyKey != []
  }

  predicate Enabled(s: State, e: Event) {
    match e
    case Accept(id) => id in s.rows && s.rows[id].state == Pending
    case Fulfill(id, c) =>
      s.worker == None && id in s.rows && s.rows[id].state != Pending && c.project == s.rows[id].project && IsIssuable(c)
    case Answered(a) =>
      s.worker.Some? && s.worker.value in s.rows && (a == Applied ==> s.rows[s.worker.value].hwid in s.acks)
    case Reconcile(id) => id in s.rows && s.rows[id].state == Accepted && s.rows[id].certIssued
    case Heartbeat(h) => h in s.devices && s.devices[h].mode == Operational
    case Rollover(h, c, _, _) => h in s.devices && s.devices[h].mode == Bootstrap && (h, c) in s.issued
    case PowerLoss(h) => h in s.devices
    case Boot(h) => h in s.devices && s.devices[h].mode == Off
  }

  /** `nff_store_load` succeeds. */
  ghost predicate Loads(t: Store.Table) {
    exists cfg :: Store.LoadsConfig(t, Ok(cfg))
  }

  /** `nff_claim_handle_rollover` on a payload that delivers `c`, with flash that performs at
      most `budget` more writes. */
  function Handle(s: State, h: string, c: Store.Creds, budget: nat, published: bool): State
    requires h in s.devices
  {
    var d := s.devices[h];
    if |c.project| >= 64 || c.ca == [] then s
    else
      var (f, ok) := Store.Run(Store.Flash(d.table, budget), Store.SaveWrites(c));
      s.(devices := s.devices[h := Device(f.table, if ok then Off else d.mode)],
         acks := if ok && published then s.acks + {h} else s.acks)
  }

  /** A disabled event does nothing. */
  ghost function Step(s: State, e: Event): State {
    if !Enabled(s, e) then s
    else
      match e
      case Accept(id) => s.(rows := s.rows[id := s.rows[id].(state := Accepted)])
      case Fulfill(id, c) => s.(worker := Some(id), issued := s.issued + {(s.rows[id].hwid, c)})
      case Answered(a) => s.(rows := Settle(s.rows, s.worker.value, a), worker := None)
      case Reconcile(id) => s.(rows := s.rows[id := s.rows[id].(certIssued := false)])
      case Heartbeat(h) => s.(rows := ClaimByDevice(s.rows, h))
      case Rollover(h, c, budget, published) => Handle(s, h, c, budget, published)
      case PowerLoss(h) => s.(devices := s.devices[h := s.devices[h].(mode := Off)])
      case Boot(h) =>
        var t := s.devices[h].table;
        var m := if Store.IsClaimed(t) && Loads(t) then Operational else Bootstrap;
        s.(devices := s.devices[h := Device(t, m)])
  }

  ghost function Exec(s: State, es: seq<Event>): State {
    if es == [] then s else Step(Exec(s, es[..|es| - 1]), es[|es| - 1])
  }

  /** Nothing accepted, nothing sent; every device unclaimed, with any leftovers in flash. */
  predicate Init(s: State) {
    && s.worker == None && s.issued == {} && s.acks == {}
    && (forall id :: id in s.rows ==> s.rows[id].state == Pending && s.rows[id].hwid in s.devices)
    && (forall h :: h in s.devices ==> s.devices[h].mode == Off && !Store.IsClaimed(s.devices[h].table))
  }

  // ---------------------------------------------------------------------
  // What every run keeps
  // ---------------------------------------------------------------------

  /** The flash loads exactly the set `c`. */
  ghost predicate Stores(t: Store.Table, c: Store.Creds) {
    && Store.IsClaimed(t) && Store.Complete(c)
    && forall r :: Store.LoadsConfig(t, r) <==> r == Store.Expected(c)
  }

  /** The device stored a set issued for its hardware id. */
  ghost predicate HoldsIssued(s: State, h: string) {
    h in s.devices && exists c :: (h, c) in s.issued && Stores(s.devices[h].table, c)
  }

  ghost predicate ForARow(s: State, h: string, c: Store.Creds) {
    exists id :: id in s.rows && s.rows[id].hwid == h && s.rows[id].project == c.project
  }

  ghost predicate DeviceOk(s: State, h: string)
    requires h in s.devices
  {
    var d := s.devices[h];
    && (Store.IsClaimed(d.table) ==> HoldsIssued(s, h))
    && (d.mode == Bootstrap ==> !Store.IsClaimed(d.table))
    && (d.mode == Operational ==> Store.IsClaimed(d.table))
  }

  predicate IsClaimedDevice(s: State, h: string) {
    h in s.devices && Store.IsClaimed(s.devices[h].table)
  }

  ghost predicate Inv(s: State) {
    && (forall h :: h in s.devices ==> DeviceOk(s, h))
    && (forall h :: h in s.acks ==> IsClaimedDevice(s, h))
    && (forall id :: id in s.rows ==> s.rows[id].hwid in s.devices)
    && (forall id :: id in s.rows && s.rows[id].state == Claimed ==> IsClaimedDevice(s, s.rows[id].hwid))
    && (s.worker.Some? ==> s.worker.value in s.rows)
    && (forall h, c :: (h, c) in s.issued ==> IsIssuable(c) && ForARow(s, h, c))
  }

  /** What no step takes back: identities, claims, stored sets, claimed flags, answers. */
  ghost predicate Grows(s: State, s': State) {
    && s'.rows.Keys == s.rows.Keys && s'.devices.Keys == s.devices.Keys
    && (forall id :: id in s.rows ==> s'.rows[id].hwid == s.rows[id].hwid && s'.rows[id].project == s.rows[id].project)
    && (forall id :: id in s.rows && s.rows[id].state == Claimed ==> s'.rows[id].state == Claimed)
    && s.issued <= s'.issued && s.acks <= s'.acks
    && (forall h :: h in s.devices && Store.IsClaimed(s.devices[h].table) ==>
          s'.devices[h].table == s.devices[h].table)
  }

  lemma FullSaveStores(t: Store.Table, c: Store.Creds)
    requires Store.Storable(c) && Store.Complete(c)
    ensures Stores(Store.Apply(t, Store.SaveWrites(c)), c)
  {
    hide Store.LoadsConfig, Store.Apply, Store.SaveWrites;
    Store.FullSaveClaims(t, c);
    forall r ensures Store.LoadsConfig(Store.Apply(t, Store.SaveWrites(c)), r) <==> r == Store.Expected(c) {
      Store.SaveThenLoad(t, c, r);
    }
  }

  /** A save either runs to its end, and then the set is stored and the flag set, or leaves an
      unclaimed device unclaimed. */
  lemma SaveIsAllOrNothing(t: Store.Table, budget: nat, c: Store.Creds)
    requires Store.Storable(c) && Store.Complete(c) && !Store.IsClaimed(t)
    ensures var (f, ok) := Store.Run(Store.Flash(t, budget), Store.SaveWrites(c));
            (ok ==> Stores(f.table, c)) && (!ok ==> !Store.IsClaimed(f.table))
  {
    hide Stores, Store.SaveWrites, Store.Apply, Store.Run;
    var k := Store.RunIsPrefix(Store.Flash(t, budget), Store.SaveWrites(c));
    if k == |Store.SaveWrites(c)| {
      assert Store.SaveWrites(c)[..k] == Store.SaveWrites(c);
      FullSaveStores(t, c);
    } else {
      Store.InterruptedSaveKeepsClaim(t, c, k);
    }
  }

  lemma DeviceKept(s: State, s': State, h: string)
    requires h in s.devices && DeviceOk(s, h) && h in s'.devices && s'.devices[h] == s.devices[h]
    requires s.issued <= s'.issued
    ensures DeviceOk(s', h)
  {
    hide Store.IsClaimed, Stores;
  }

  /** A step that touches one device, and that one properly, keeps the invariant. */
  lemma OneDeviceStep(s: State, s': State, h: string)
    requires Inv(s) && h in s.devices && Grows(s, s') && DeviceOk(s', h)
    requires s'.rows == s.rows && s'.issued == s.issued && s'.worker == s.worker
    requires s'.acks <= s.acks + {h} && (h in s'.acks && h !in s.acks ==> IsClaimedDevice(s', h))
    requires s'.devices == s.devices[h := s'.devices[h]]
    ensures Inv(s')
  {
    hide Store.IsClaimed, IsIssuable, DeviceOk;
    forall g | g in s'.devices ensures DeviceOk(s', g) {
      if g != h {
        DeviceKept(s, s', g);
      }
    }
    forall g, c | (g, c) in s'.issued ensures ForARow(s', g, c) {
      assert ForARow(s, g, c);
    }
  }

  lemma RolloverStep(s: State, h: string, c: Store.Creds, budget: nat, published: bool)
    requires Inv(s) && Enabled(s, Rollover(h, c, budget, published))
    ensures var s' := Handle(s, h, c, budget, published); Grows(s, s') && Inv(s')
  {
    hide Store.Run, Store.SaveWrites;
    var s' := Handle(s, h, c, budget, published);
    if |c.project| < 64 && c.ca != [] {
      assert DeviceOk(s, h);
      SaveIsAllOrNothing(s.devices[h].table, budget, c);
      var (f, ok) := Store.Run(Store.Flash(s.devices[h].table, budget), Store.SaveWrites(c));
      hide Stores;
      assert s'.devices[h].table == f.table;
      assert Store.IsClaimed(f.table) <==> ok by {
        FlagFollowsStored(f.table, c);
      }
      hide Store.IsClaimed;
      assert ok ==> HoldsIssued(s', h);
      assert DeviceOk(s', h);
      OneDeviceStep(s, s', h);
    }
  }

  lemma FlagFollowsStored(t: Store.Table, c: Store.Creds)
    ensures Stores(t, c) ==> Store.IsClaimed(t)
  {
  }

  lemma StoredLoads(t: Store.Table, c: Store.Creds)
    requires Stores(t, c)
    ensures Loads(t)
  {
    hide Store.LoadsConfig;
    assert Store.LoadsConfig(t, Store.Expected(c));
    assert Store.Expected(c).Ok?;
  }

  /** A claimed device boots into operation: its flash loads. */
  lemma BootStep(s: State, h: string)
    requires Inv(s) && Enabled(s, Boot(h))
    ensures var s' := Step(s, Boot(h)); Grows(s, s') && Inv(s')
    ensures Step(s, Boot(h)).devices[h].mode == Operational <==> Store.IsClaimed(s.devices[h].table)
  {
    hide Stores, Store.IsClaimed, Loads;
    var s' := Step(s, Boot(h));
    var t := s.devices[h].table;
    assert DeviceOk(s, h);
    if Store.IsClaimed(t) {
      var c :| (h, c) in s.issued && Stores(t, c);
      StoredLoads(t, c);
      assert (h, c) in s'.issued && Stores(s'.devices[h].table, c);
    }
    OneDeviceStep(s, s', h);
  }

  lemma PowerLossStep(s: State, h: string)
    requires Inv(s) && Enabled(s, PowerLoss(h))
    ensures var s' := Step(s, PowerLoss(h)); Grows(s, s') && Inv(s')
  {
    hide Stores, Store.IsClaimed, Loads, Handle;
    var s' := Step(s, PowerLoss(h));
    assert DeviceOk(s, h);
    assert HoldsIssued(s, h) ==> HoldsIssued(s', h);
    OneDeviceStep(s, s', h);
  }

  /** Steps of the fleet alone. */
  lemma FleetStep(s: State, s': State)
    requires Inv(s) && Grows(s, s') && s'.devices == s.devices && s'.acks == s.acks
    requires forall id :: id in s'.rows && s'.rows[id].state == Claimed ==>
               s.rows[id].state == Claimed || IsClaimedDevice(s, s.rows[id].hwid)
    requires s'.worker.Some? ==> s'.worker.value in s'.rows
    requires forall h, c :: (h, c) in s'.issued ==> (h, c) in s.issued || (IsIssuable(c) && ForARow(s, h, c))
    ensures Inv(s')
  {
    hide Store.IsClaimed, DeviceOk, IsIssuable;
    forall g | g in s'.devices ensures DeviceOk(s', g) {
      DeviceKept(s, s', g);
    }
    forall g, c | (g, c) in s'.issued ensures IsIssuable(c) && ForARow(s', g, c) {
      assert ForARow(s, g, c);
      var id :| id in s.rows && s.rows[id].hwid == g && s.rows[id].project == c.project;
      assert id in s'.rows;
    }
  }

  lemma FleetEvent(s: State, e: Event)
    requires Inv(s) && Enabled(s, e) && !e.Rollover? && !e.Boot? && !e.PowerLoss?
    ensures Inv(Step(s, e)) && Grows(s, Step(s, e))
  {
    hide Handle, Store.IsClaimed, DeviceOk, IsIssuable, Loads, ForARow;
    match e
    case Heartbeat(h) =>
      HeartbeatMeansClaimed(s, h);
      FleetStep(s, Step(s, e));
    case Fulfill(id, c) =>
      RowIsARow(s, id, c);
      FleetStep(s, Step(s, e));
    case _ =>
      FleetStep(s, Step(s, e));
  }

  lemma HeartbeatMeansClaimed(s: State, h: string)
    requires Inv(s) && Enabled(s, Heartbeat(h))
    ensures IsClaimedDevice(s, h)
  {
    hide Store.IsClaimed, HoldsIssued;
    assert DeviceOk(s, h);
  }

  lemma RowIsARow(s: State, id: nat, c: Store.Creds)
    requires id in s.rows && s.rows[id].project == c.project
    ensures ForARow(s, s.rows[id].hwid, c)
  {
  }

  lemma StepKeepsInv(s: State, e: Event)
    requires Inv(s)
    ensures Inv(Step(s, e)) && Grows(s, Step(s, e))
  {
    hide Inv;
    if Enabled(s, e) {
      hide Enabled;
      match e
      case Rollover(h, c, budget, published) =>
        RolloverStep(s, h, c, budget, published);
      case Boot(h) =>
        BootStep(s, h);
      case PowerLoss(h) =>
        PowerLossStep(s, h);
      case _ =>
        FleetEvent(s, e);
    }
  }

  lemma {:induction false} RunKeepsInv(s: State, es: seq<Event>)
    requires Init(s)
    ensures Inv(Exec(s, es)) && Grows(s, Exec(s, es))
  {
    hide Inv, Step, Store.IsClaimed;
    if es == [] {
      InitHolds(s);
    } else {
      var n := |es| - 1;
      RunKeepsInv(s, es[..n]);
      StepKeepsInv(Exec(s, es[..n]), es[n]);
    }
  }

  lemma InitHolds(s: State)
    requires Init(s)
    ensures Inv(s)
  {
  }

  /** Claimed is never undone, an issued rollover never forgotten, a stored set never lost:
      every later state keeps them. */
  lemma {:induction false} LaterStatesGrow(s: State, es: seq<Event>, more: seq<Event>)
    requires Init(s)
    ensures Grows(Exec(s, es), Exec(s, es + more))
  {
    hide Inv, Step, Init, Store.IsClaimed;
    if more == [] {
      assert es + more == es;
    } else {
      var n := |more| - 1;
      assert (es + more)[..|es + more| - 1] == es + more[..n];
      LaterStatesGrow(s, es, more[..n]);
      RunKeepsInv(s, es + more[..n]);
      StepKeepsInv(Exec(s, es + more[..n]), more[n]);
    }
  }

  // ---------------------------------------------------------------------
  // Safety
  // ---------------------------------------------------------------------

  /** In every run: an "applied" answer in flight means the device's claimed flag is set, and
      a claimed row means the device's flash loads exactly a set issued for its hardware id,
      for the project of some row of that hardware id. */
  lemma ClaimedMeansStored(s: State, es: seq<Event>)
    requires Init(s)
    ensures var z := Exec(s, es);
            && (forall h :: h in z.acks ==> h in z.devices && Store.IsClaimed(z.devices[h].table))
            && forall id :: id in z.rows && z.rows[id].state == Claimed ==>
                 exists c :: && (z.rows[id].hwid, c) in z.issued
                             && z.rows[id].hwid in z.devices && Stores(z.devices[z.rows[id].hwid].table, c)
                             && ForARow(s, z.rows[id].hwid, c)
  {
    hide Step, Init, Store.IsClaimed, Stores;
    RunKeepsInv(s, es);
    var z := Exec(s, es);
    forall id | id in z.rows && z.rows[id].state == Claimed
      ensures exists c :: && (z.rows[id].hwid, c) in z.issued
                          && z.rows[id].hwid in z.devices && Stores(z.devices[z.rows[id].hwid].table, c)
                          && ForARow(s, z.rows[id].hwid, c)
    {
      var h := z.rows[id].hwid;
      assert DeviceOk(z, h);
      var c :| (h, c) in z.issued && Stores(z.devices[h].table, c);
      assert ForARow(z, h, c);
    }
  }

  /** Every claimed row is backed by a stored set issued for its hardware id and its project. */
  ghost predicate Backed(s: State) {
    forall id :: id in s.rows && s.rows[id].state == Claimed ==>
      exists c :: && (s.rows[id].hwid, c) in s.issued && c.project == s.rows[id].project
                  && s.rows[id].hwid in s.devices && Stores(s.devices[s.rows[id].hwid].table, c)
  }

  /** A hardware id enrolled in a project that fits the device's buffer is enrolled in no other. */
  predicate OneProject(rows: Rows) {
    forall a, b :: a in rows && b in rows && rows[a].hwid == rows[b].hwid && |rows[a].project| < 64
      ==> rows[a].project == rows[b].project
  }

  lemma OneProjectIsSafe(s: State, es: seq<Event>)
    requires Init(s) && OneProject(s.rows)
    ensures Backed(Exec(s, es))
  {
    hide Step, Init, Exec, Store.IsClaimed;
    ClaimedMeansStored(s, es);
    RunKeepsInv(s, es);
    var z := Exec(s, es);
    forall id | id in z.rows && z.rows[id].state == Claimed
      ensures exists c :: && (z.rows[id].hwid, c) in z.issued && c.project == z.rows[id].project
                          && z.rows[id].hwid in z.devices && Stores(z.devices[z.rows[id].hwid].table, c)
    {
      var h := z.rows[id].hwid;
      var c :| (h, c) in z.issued && h in z.devices && Stores(z.devices[h].table, c) && ForARow(s, h, c);
      var a :| a in s.rows && s.rows[a].hwid == h && s.rows[a].project == c.project;
      assert s.rows[id].hwid == h;
    }
  }

  /** Two rows of one device in different projects: the answer that the first rollover's late
      delivery provokes is taken for the second's, and claims the second row. */
  function MixUp(a: nat, b: nat, hwid: string, ca: Store.Creds, cb: Store.Creds): seq<Event> {
    [Boot(hwid), Accept(a), Accept(b), Fulfill(a, ca), Answered(TimedOut), Fulfill(b, cb),
     Rollover(hwid, ca, |Store.SaveWrites(ca)|, true), Answered(Applied)]
  }

  function SampleCreds(project: string): (c: Store.Creds)
    ensures IsIssuable(c) && c.project == project
  {
    Store.Creds(project, [1], [1], [1], [1], [1])
  }

  lemma {:induction false} ExecSnoc(s: State, es: seq<Event>, e: Event)
    ensures Exec(s, es + [e]) == Step(Exec(s, es), e)
  {
    assert (es + [e])[..|es|] == es;
  }

  /** The first six events: `a` issued and given up on, `b` issued and awaited. */
  lemma MixUpStart(s: State, a: nat, b: nat, ca: Store.Creds, cb: Store.Creds)
    requires Init(s) && a in s.rows && b in s.rows && a != b && s.rows[a].hwid == s.rows[b].hwid
    requires IsIssuable(ca) && ca.project == s.rows[a].project && IsIssuable(cb) && cb.project == s.rows[b].project
    ensures var h := s.rows[a].hwid;
            var z := Exec(s, MixUp(a, b, h, ca, cb)[..6]);
            && z.worker == Some(b) && b in z.rows && z.rows[b].hwid == h && z.rows[b].project == cb.project
            && (h, ca) in z.issued && h in z.devices && z.devices[h].mode == Bootstrap
            && !Store.IsClaimed(z.devices[h].table)
  {
    hide IsIssuable, Store.IsClaimed, Loads, Store.SaveWrites;
    var h := s.rows[a].hwid;
    var m := MixUp(a, b, h, ca, cb);
    var z1 := Step(s, m[0]);
    assert z1.devices[h].mode == Bootstrap;
    var z2 := Step(z1, m[1]);
    var z3 := Step(z2, m[2]);
    var z4 := Step(z3, m[3]);
    var z5 := Step(z4, m[4]);
    var z6 := Step(z5, m[5]);
    hide Step;
    assert m[..6] == [] + [m[0]] + [m[1]] + [m[2]] + [m[3]] + [m[4]] + [m[5]];
    ExecSnoc(s, [], m[0]);
    ExecSnoc(s, [] + [m[0]], m[1]);
    ExecSnoc(s, [] + [m[0]] + [m[1]], m[2]);
    ExecSnoc(s, [] + [m[0]] + [m[1]] + [m[2]], m[3]);
    ExecSnoc(s, [] + [m[0]] + [m[1]] + [m[2]] + [m[3]], m[4]);
    ExecSnoc(s, [] + [m[0]] + [m[1]] + [m[2]] + [m[3]] + [m[4]], m[5]);
  }

  /** The last two: the late set is stored, its answer claims `b`. */
  lemma MixUpEnd(z: State, h: string, b: nat, ca: Store.Creds)
    requires z.worker == Some(b) && b in z.rows && z.rows[b].hwid == h
    requires (h, ca) in z.issued && h in z.devices && z.devices[h].mode == Bootstrap
    requires IsIssuable(ca) && |ca.project| < 64 && !Store.IsClaimed(z.devices[h].table)
    ensures var y := Step(Step(z, Rollover(h, ca, |Store.SaveWrites(ca)|, true)), Answered(Applied));
            && b in y.rows && y.rows[b].state == Claimed && y.rows[b].hwid == h && y.rows[b].project == z.rows[b].project
            && h in y.devices && Stores(y.devices[h].table, ca)
  {
    hide Store.SaveWrites, Store.Run, Store.IsClaimed, Stores;
    var budget := |Store.SaveWrites(ca)|;
    var f := Store.Flash(z.devices[h].table, budget);
    SaveIsAllOrNothing(z.devices[h].table, budget, ca);
    var k := Store.RunIsPrefix(f, Store.SaveWrites(ca));
    assert Store.Run(f, Store.SaveWrites(ca)).1;
    assert h in Handle(z, h, ca, budget, true).acks;
  }

  lemma OneStoredSet(t: Store.Table, c: Store.Creds, d: Store.Creds)
    requires Stores(t, c) && Stores(t, d)
    ensures c.project == d.project
  {
    hide Store.LoadsConfig;
    assert Store.LoadsConfig(t, Store.Expected(c));
  }

  lemma MixUpIsUnsafe(s: State, a: nat, b: nat, ca: Store.Creds, cb: Store.Creds)
    requires Init(s) && a in s.rows && b in s.rows && s.rows[a].hwid == s.rows[b].hwid
    requires |s.rows[a].project| < 64 && s.rows[a].project != s.rows[b].project
    requires IsIssuable(ca) && ca.project == s.rows[a].project && IsIssuable(cb) && cb.project == s.rows[b].project
    ensures !Backed(Exec(s, MixUp(a, b, s.rows[a].hwid, ca, cb)))
  {
    hide Step, Init, IsIssuable, Stores;
    var h := s.rows[a].hwid;
    var m := MixUp(a, b, h, ca, cb);
    var z := Exec(s, m[..6]);
    MixUpStart(s, a, b, ca, cb);
    MixUpEnd(z, h, b, ca);
    assert m == m[..6] + [m[6]] + [m[7]];
    ExecSnoc(s, m[..6], m[6]);
    ExecSnoc(s, m[..6] + [m[6]], m[7]);
    var y := Exec(s, m);
    forall c | (h, c) in y.issued && Stores(y.devices[h].table, c) ensures c.project != y.rows[b].project {
      OneStoredSet(y.devices[h].table, c, ca);
    }
  }

  /** Every run leaves every claimed row backed by a stored set for its own project exactly when
      no hardware id is enrolled in two projects: the wait for an answer is keyed by the
      hardware id alone. */
  lemma SafeIffOneProject(s: State)
    requires Init(s)
    ensures OneProject(s.rows) <==> forall es :: Backed(Exec(s, es))
  {
    hide Init, Backed, Exec, Step;
    if OneProject(s.rows) {
      forall es ensures Backed(Exec(s, es)) {
        OneProjectIsSafe(s, es);
      }
    } else {
      var a, b :| a in s.rows && b in s.rows && s.rows[a].hwid == s.rows[b].hwid
        && |s.rows[a].project| < 64 && s.rows[a].project != s.rows[b].project;
      MixUpIsUnsafe(s, a, b, SampleCreds(s.rows[a].project), SampleCreds(s.rows[b].project));
    }
  }

  // ---------------------------------------------------------------------
  // Progress
  // ---------------------------------------------------------------------

  /** What a delivered rollover does: nothing when the project does not fit or the trust anchor
      is missing; a save that is cut short leaves the device running and unanswered; a full one
      stores the set and reboots, and the answer is in flight unless its publication failed. */
  lemma HandledRollover(s: State, h: string, c: Store.Creds, budget: nat, published: bool)
    requires h in s.devices
    ensures var z := Handle(s, h, c, budget, published);
            var n := |Store.SaveWrites(c)|;
            && z == s.(devices := z.devices, acks := z.acks) && z.devices.Keys == s.devices.Keys
            && (forall g :: g in s.devices && g != h ==> z.devices[g] == s.devices[g])
            && (|c.project| >= 64 || c.ca == [] ==> z == s)
            && (|c.project| <= 63 && c.ca != [] && budget < n ==>
                  && z.devices[h].mode == s.devices[h].mode && z.acks == s.acks
                  && z.devices[h].table == Store.Apply(s.devices[h].table, Store.SaveWrites(c)[..budget]))
            && (|c.project| <= 63 && c.ca != [] && budget >= n ==>
                  && z.devices[h] == Device(Store.Apply(s.devices[h].table, Store.SaveWrites(c)), Off)
                  && z.acks == if published then s.acks + {h} else s.acks)
  {
    hide Store.SaveWrites, Store.Run, Store.Apply;
    var ws := Store.SaveWrites(c);
    var k := Store.RunIsPrefix(Store.Flash(s.devices[h].table, budget), ws);
    assert ws[..|ws|] == ws;
  }

  /** Power goes and comes back; nothing else changes. */
  lemma PowerCycle(s: State, h: string)
    requires h in s.devices
    ensures Step(s, PowerLoss(h)) == s.(devices := s.devices[h := Device(s.devices[h].table, Off)])
    ensures s.devices[h].mode == Off ==>
              Step(s, Boot(h)).devices == s.devices[h := Device(s.devices[h].table, Step(s, Boot(h)).devices[h].mode)]
  {
    hide Store.IsClaimed, Loads, Handle;
  }

  /** The set is published, arrives, is stored, and the answer gets back. */
  function Delivery(id: nat, hwid: string, c: Store.Creds): seq<Event> {
    [Fulfill(id, c), Rollover(hwid, c, |Store.SaveWrites(c)|, true), Answered(Applied)]
  }

  ghost predicate Delivered(s: State, id: nat, c: Store.Creds) {
    && id in s.rows && s.rows[id].state == Claimed
    && s.rows[id].hwid in s.devices && Stores(s.devices[s.rows[id].hwid].table, c)
  }

  lemma DeliveryClaims(s: State, id: nat, c: Store.Creds)
    requires Inv(s) && s.worker == None && id in s.rows && s.rows[id].state == Accepted
    requires c.project == s.rows[id].project && IsIssuable(c) && |c.project| < 64
    requires s.rows[id].hwid in s.devices && s.devices[s.rows[id].hwid].mode == Bootstrap
    ensures Delivered(Exec(s, Delivery(id, s.rows[id].hwid, c)), id, c)
  {
    var h := s.rows[id].hwid;
    assert DeviceOk(s, h);
    hide IsIssuable, Store.IsClaimed, Loads, Store.SaveWrites, Inv, Stores;
    var f, r := Fulfill(id, c), Rollover(h, c, |Store.SaveWrites(c)|, true);
    var y := Step(s, f);
    assert y == s.(worker := Some(id), issued := s.issued + {(h, c)});
    MixUpEnd(y, h, id, c);
    hide Step;
    assert Delivery(id, h, c) == [] + [f] + [r] + [Answered(Applied)];
    ExecSnoc(s, [], f);
    ExecSnoc(s, [] + [f], r);
    ExecSnoc(s, [] + [f] + [r], Answered(Applied));
  }

  /** A powered device of a pending row is claimed by accepting it and delivering a set. */
  lemma AcceptedGetsClaimed(s: State, id: nat, c: Store.Creds)
    requires Init(s) && id in s.rows && c.project == s.rows[id].project && IsIssuable(c) && |c.project| < 64
    ensures var h := s.rows[id].hwid;
            Delivered(Exec(s, [Boot(h), Accept(id)] + Delivery(id, h, c)), id, c)
  {
    var h := s.rows[id].hwid;
    hide IsIssuable, Store.IsClaimed, Loads, Inv, Delivery, Delivered;
    var start := [Boot(h), Accept(id)];
    assert Step(s, Boot(h)).devices[h].mode == Bootstrap;
    var y := Step(Step(s, Boot(h)), Accept(id));
    assert y.worker == None && y.rows[id] == s.rows[id].(state := Accepted) && y.devices[h].mode == Bootstrap;
    assert start == [] + [Boot(h)] + [Accept(id)];
    ExecSnoc(s, [], Boot(h));
    ExecSnoc(s, [] + [Boot(h)], Accept(id));
    RunKeepsInv(s, start);
    hide Step, Init, Exec;
    ExecAppend(s, start, Delivery(id, h, c));
    DeliveryClaims(y, id, c);
  }

  lemma Reopens(s: State, id: nat)
    requires id in s.rows && s.rows[id].state == Accepted && s.rows[id].certIssued
    ensures Step(s, Reconcile(id)) == s.(rows := s.rows[id := s.rows[id].(certIssued := false)])
  {
    hide Store.IsClaimed, Loads;
  }

  /** A rollover that got lost is issued again: the row is re-opened, and a delivery claims it. */
  lemma LostRolloverIsRetried(s: State, id: nat, c: Store.Creds)
    requires Inv(s) && s.worker == None && id in s.rows && s.rows[id].state == Accepted && s.rows[id].certIssued
    requires c.project == s.rows[id].project && IsIssuable(c) && |c.project| < 64
    requires s.rows[id].hwid in s.devices && s.devices[s.rows[id].hwid].mode == Bootstrap
    ensures Waits(Step(s, Reconcile(id)).rows[id])
    ensures Delivered(Exec(s, [Reconcile(id)] + Delivery(id, s.rows[id].hwid, c)), id, c)
  {
    var h := s.rows[id].hwid;
    StepKeepsInv(s, Reconcile(id));
    var y := Step(s, Reconcile(id));
    Reopens(s, id);
    hide IsIssuable, Store.IsClaimed, Loads, Inv, Delivery, Delivered, Step;
    assert [] + [Reconcile(id)] == [Reconcile(id)];
    ExecSnoc(s, [], Reconcile(id));
    assert Exec(s, []) == s;
    hide Exec;
    ExecAppend(s, [Reconcile(id)], Delivery(id, h, c));
    DeliveryClaims(y, id, c);
  }

  /** An answer that got lost is made up for: the device stored its set, so it boots into
      operation, and its first heartbeat claims the row. */
  lemma LostAnswerIsRecovered(s: State, id: nat)
    requires Inv(s) && id in s.rows && s.rows[id].state == Accepted
    requires IsClaimedDevice(s, s.rows[id].hwid) && s.devices[s.rows[id].hwid].mode == Off
    ensures var h := s.rows[id].hwid;
            var z := Exec(s, [Boot(h), Heartbeat(h)]);
            id in z.rows && z.rows[id].state == Claimed && z.rows[id].hwid == h && h in z.devices
            && z.devices[h].mode == Operational
  {
    var h := s.rows[id].hwid;
    BootsIntoOperation(s, h);
    var y := Step(s, Boot(h));
    HeartbeatClaims(y, id);
    assert [Boot(h), Heartbeat(h)] == [] + [Boot(h)] + [Heartbeat(h)];
    hide Step, Inv, Store.IsClaimed;
    ExecSnoc(s, [], Boot(h));
    ExecSnoc(s, [] + [Boot(h)], Heartbeat(h));
  }

  lemma BootsIntoOperation(s: State, h: string)
    requires Inv(s) && IsClaimedDevice(s, h) && s.devices[h].mode == Off
    ensures var y := Step(s, Boot(h)); h in y.devices && y.devices[h].mode == Operational && y.rows == s.rows
  {
    BootStep(s, h);
    hide Store.IsClaimed, Loads, Inv;
  }

  lemma HeartbeatClaims(y: State, id: nat)
    requires id in y.rows && y.rows[id].state == Accepted
    requires y.rows[id].hwid in y.devices && y.devices[y.rows[id].hwid].mode == Operational
    ensures var z := Step(y, Heartbeat(y.rows[id].hwid));
            z.devices == y.devices && id in z.rows && z.rows[id] == y.rows[id].(state := Claimed)
  {
    hide Store.IsClaimed, Loads;
  }

  // ---------------------------------------------------------------------
  // The worker inside the protocol
  // ---------------------------------------------------------------------

  /** What devices do on their own while the worker waits. */
  predicate IsDeviceEvent(e: Event) {
    e.Rollover? || e.PowerLoss? || e.Boot?
  }

  predicate AreDeviceEvents(es: seq<Event>) {
    forall k :: 0 <= k < |es| ==> IsDeviceEvent(es[k])
  }

  /** One round of a sweep: what is issued, what devices do meanwhile, how the wait ends. */
  datatype Round = Round(id: nat, creds: Store.Creds, meanwhile: seq<Event>, answer: Answer)

  function Ids(rounds: seq<Round>): (ids: seq<nat>)
    ensures |ids| == |rounds|
  {
    if rounds == [] then [] else Ids(rounds[..|rounds| - 1]) + [rounds[|rounds| - 1].id]
  }

  function Answers(rounds: seq<Round>): (a: seq<Answer>)
    ensures |a| == |rounds|
  {
    if rounds == [] then [] else Answers(rounds[..|rounds| - 1]) + [rounds[|rounds| - 1].answer]
  }

  function WaitEvents(r: Round): seq<Event> {
    [Fulfill(r.id, r.creds)] + r.meanwhile
  }

  function SweepEvents(rounds: seq<Round>): seq<Event> {
    if rounds == [] then []
    else
      var r := rounds[|rounds| - 1];
      SweepEvents(rounds[..|rounds| - 1]) + WaitEvents(r) + [Answered(r.answer)]
  }

  /** The round can take place from `s` after the rounds before it: its row is accepted, its
      set is for the row, and an "applied" answer is in flight by the end of the wait. */
  ghost predicate CanTakePlace(s: State, before: seq<Round>, r: Round) {
    && r.id in s.rows && s.rows[r.id].state != Pending
    && IsIssuable(r.creds) && r.creds.project == s.rows[r.id].project && AreDeviceEvents(r.meanwhile)
    && (r.answer == Applied ==> s.rows[r.id].hwid in Exec(s, SweepEvents(before) + WaitEvents(r)).acks)
  }

  lemma {:induction false} ExecAppend(s: State, a: seq<Event>, b: seq<Event>)
    ensures Exec(s, a + b) == Exec(Exec(s, a), b)
  {
    hide Step;
    if b == [] {
      assert a + b == a;
    } else {
      var n := |b| - 1;
      assert (a + b)[..|a + b| - 1] == a + b[..n];
      ExecAppend(s, a, b[..n]);
    }
  }

  lemma DeviceEventKeepsFleet(s: State, e: Event)
    requires IsDeviceEvent(e)
    ensures Step(s, e).rows == s.rows && Step(s, e).worker == s.worker
  {
    hide Store.Run, Store.SaveWrites, Store.IsClaimed, Loads;
  }

  lemma {:induction false} DeviceEventsKeepFleet(s: State, es: seq<Event>)
    requires AreDeviceEvents(es)
    ensures Exec(s, es).rows == s.rows && Exec(s, es).worker == s.worker
  {
    hide Step;
    if es != [] {
      var n := |es| - 1;
      DeviceEventsKeepFleet(s, es[..n]);
      DeviceEventKeepsFleet(Exec(s, es[..n]), es[n]);
    }
  }

  /** The rows keep their identities and never become pending again. */
  ghost predicate SameRows(s: State, z: State) {
    && z.rows.Keys == s.rows.Keys
    && forall id :: id in s.rows ==>
         z.rows[id].hwid == s.rows[id].hwid && z.rows[id].project == s.rows[id].project
         && (s.rows[id].state != Pending ==> z.rows[id].state != Pending)
  }

  lemma OneRound(s: State, r: Round)
    requires s.worker == None && r.id in s.rows && s.rows[r.id].state != Pending
    requires IsIssuable(r.creds) && r.creds.project == s.rows[r.id].project && AreDeviceEvents(r.meanwhile)
    requires r.answer == Applied ==> s.rows[r.id].hwid in Exec(s, WaitEvents(r)).acks
    ensures var z := Step(Exec(s, WaitEvents(r)), Answered(r.answer));
            z.rows == Settle(s.rows, r.id, r.answer) && z.worker == None
  {
    hide IsIssuable;
    var f := Fulfill(r.id, r.creds);
    var w := Exec(s, WaitEvents(r));
    ExecAppend(s, [f], r.meanwhile);
    ExecSnoc(s, [], f);
    assert [] + [f] == [f] && Exec(s, []) == s;
    assert Step(s, f).rows == s.rows && Step(s, f).worker == Some(r.id);
    hide Exec;
    DeviceEventsKeepFleet(Step(s, f), r.meanwhile);
    assert Enabled(w, Answered(r.answer));
  }

  /** A sweep whose waits are interleaved with any steps of the devices is a run of the
      protocol, and leaves the rows as the worker's sweep does. */
  lemma {:induction false} SweepIsARun(s: State, rounds: seq<Round>)
    requires s.worker == None
    requires forall k :: 0 <= k < |rounds| ==> CanTakePlace(s, rounds[..k], rounds[k])
    ensures forall id :: id in Ids(rounds) ==> id in s.rows
    ensures var z := Exec(s, SweepEvents(rounds));
            z.rows == SettleAll(s.rows, Ids(rounds), Answers(rounds)) && z.worker == None && SameRows(s, z)
  {
    hide Step, CanTakePlace;
    if rounds != [] {
      var n := |rounds| - 1;
      var front, r := rounds[..n], rounds[n];
      forall k | 0 <= k < n ensures CanTakePlace(s, front[..k], front[k]) {
        assert CanTakePlace(s, rounds[..k], rounds[k]);
        assert front[..k] == rounds[..k];
      }
      SweepIsARun(s, front);
      assert CanTakePlace(s, front, r);
      LastRound(s, front, r);
      assert Ids(rounds)[..n] == Ids(front) && Answers(rounds)[..n] == Answers(front);
    }
  }

  lemma LastRound(s: State, front: seq<Round>, r: Round)
    requires CanTakePlace(s, front, r) && Exec(s, SweepEvents(front)).worker == None
    requires SameRows(s, Exec(s, SweepEvents(front)))
    ensures r.id in s.rows
    ensures var z := Exec(s, SweepEvents(front) + WaitEvents(r) + [Answered(r.answer)]);
            z.rows == Settle(Exec(s, SweepEvents(front)).rows, r.id, r.answer) && z.worker == None && SameRows(s, z)
  {
    hide Step, Exec, IsIssuable, AreDeviceEvents, WaitEvents, SweepEvents;
    var y := Exec(s, SweepEvents(front));
    ExecAppend(s, SweepEvents(front), WaitEvents(r));
    ExecSnoc(s, SweepEvents(front) + WaitEvents(r), Answered(r.answer));
    OneRound(y, r);
  }
}
