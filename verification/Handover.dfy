/** The single-slot hand-over of an OTA command from the receive callback to the nff task
    (sdk-c/src/nff_cmd.c, nff_ota_pending_tick): every interleaving of their small steps. */
module Handover {
  import opened Wrappers

  /** The characters of a command as received; they may include NULs. */
  type Payload = seq<char>

  /** What a reader of C strings sees of it. */
  function Visible(p: Payload): (v: Payload)
    ensures v <= p && '\0' !in v && ('\0' !in p ==> v == p)
  {
    if p == [] || p[0] == '\0' then [] else [p[0]] + Visible(p[1..])
  }

  function AllVisible(ps: seq<Payload>): seq<Payload> {
    if ps == [] then [] else AllVisible(ps[..|ps| - 1]) + [Visible(ps[|ps| - 1])]
  }

  lemma {:induction false} VisibleStops(p: Payload, n: nat)
    requires n <= |p| && '\0' !in p[..n] && (n == |p| || p[n] == '\0')
    ensures Visible(p) == p[..n]
  {
    if n > 0 {
      assert p[..n][0] == p[0] && p[1..][..n - 1] == p[..n][1..];
      VisibleStops(p[1..], n - 1);
      assert p[..n] == [p[0]] + p[1..][..n - 1];
    }
  }

  datatype Owner = Rx | Task

  /** Where the receive callback stands. */
  datatype RxAt =
    | RxIdle
    | RxLocking(p: Payload)
    | RxChecking(p: Payload)
    | RxCopying(p: Payload, i: nat)
    | RxParking(p: Payload)
    | RxUnlocking

  /** Where the nff task stands; `read` is what the handler has read of the buffer so far. */
  datatype TaskAt =
    | TaskIdle
    | TaskHandling(read: Payload)
    | TaskLocking
    | TaskClearing
    | TaskUnlocking

  /** `active` is state == OTA_ACTIVE; `accepted` and `handled` record what was parked and
      what the handler has read to the end. */
  datatype State = State(lock: Option<Owner>, pending: bool, active: bool, buf: seq<char>,
                         rx: RxAt, task: TaskAt, accepted: seq<Payload>, handled: seq<Payload>)

  datatype Step =
    | Receive(p: Payload)
    | RxStep
    | TaskStep
    | SetActive(on: bool)

  /** Commands fit the buffer with their terminator. */
  predicate Fits(s: State, p: Payload) {
    |p| < |s.buf|
  }

  predicate Enabled(s: State, step: Step) {
    match step
    case Receive(p) => s.rx == RxIdle && Fits(s, p)
    case RxStep => s.rx != RxIdle && (s.rx.RxLocking? ==> s.lock == None)
    case TaskStep =>
      && (s.task.TaskLocking? ==> s.lock == None)
      && (s.task.TaskHandling? ==> |s.task.read| < |s.buf|)
    case SetActive(_) => true
  }

  /** One step of `nff_cmd_dispatch` on an OTA command. */
  function RxNext(s: State): State
    requires s.rx.RxCopying? ==> s.rx.i < |s.buf|
  {
    match s.rx
    case RxIdle => s
    case RxLocking(p) => s.(lock := Some(Rx), rx := RxChecking(p))
    case RxChecking(p) =>
      if s.pending || s.active then s.(rx := RxUnlocking) else s.(rx := RxCopying(p, 0))
    case RxCopying(p, i) =>
      var c := if i < |p| then p[i] else '\0';
      s.(buf := s.buf[i := c], rx := if i < |p| then RxCopying(p, i + 1) else RxParking(p))
    case RxParking(p) => s.(pending := true, accepted := s.accepted + [p], rx := RxUnlocking)
    case RxUnlocking => s.(lock := None, rx := RxIdle)
  }

  /** One step of `nff_ota_pending_tick`; the flag is polled without the lock and the
      handler reads the buffer in place, character by character. */
  function TaskNext(s: State): State
    requires s.task.TaskHandling? ==> |s.task.read| < |s.buf|
  {
    match s.task
    case TaskIdle => if s.pending then s.(task := TaskHandling([])) else s
    case TaskHandling(read) =>
      var c := s.buf[|read|];
      if c == '\0' then s.(handled := s.handled + [read], task := TaskLocking)
      else s.(task := TaskHandling(read + [c]))
    case TaskLocking => s.(lock := Some(Task), task := TaskClearing)
    case TaskClearing => s.(pending := false, task := TaskUnlocking)
    case TaskUnlocking => s.(lock := None, task := TaskIdle)
  }

  predicate CopyInBounds(s: State) {
    s.rx.RxCopying? ==> s.rx.i < |s.buf|
  }

  function Next(s: State, step: Step): State
    requires CopyInBounds(s) && Enabled(s, step)
  {
    match step
    case Receive(p) => s.(rx := RxLocking(p))
    case RxStep => RxNext(s)
    case TaskStep => TaskNext(s)
    case SetActive(on) => s.(active := on)
  }

  predicate Initial(s: State) {
    s.lock == None && !s.pending && s.rx == RxIdle && s.task == TaskIdle && s.accepted == [] && s.handled == []
  }

  /** `states` is a run under `steps`, in any interleaving. */
  ghost predicate IsRun(states: seq<State>, steps: seq<Step>) {
    && |states| == |steps| + 1
    && Initial(states[0])
    && (forall k :: 0 <= k < |steps| ==>
          CopyInBounds(states[k]) && Enabled(states[k], steps[k]) && states[k + 1] == Next(states[k], steps[k]))
  }

  // ---------------------------------------------------------------------
  // The invariant
  // ---------------------------------------------------------------------

  predicate LockAgrees(s: State) {
    && (s.lock == Some(Rx) <==> s.rx.RxChecking? || s.rx.RxCopying? || s.rx.RxParking? || s.rx.RxUnlocking?)
    && (s.lock == Some(Task) <==> s.task.TaskClearing? || s.task.TaskUnlocking?)
  }

  /** The buffer holds `p` and its terminator. */
  predicate Holds(s: State, p: Payload) {
    Fits(s, p) && s.buf[..|p| + 1] == p + ['\0']
  }

  predicate RxAgrees(s: State) {
    match s.rx
    case RxLocking(p) => Fits(s, p)
    case RxChecking(p) => Fits(s, p)
    case RxCopying(p, i) => Fits(s, p) && !s.pending && i <= |p| && s.buf[..i] == p[..i]
    case RxParking(p) => !s.pending && Holds(s, p)
    case _ => true
  }

  predicate TaskAgrees(s: State) {
    && (s.task.TaskHandling? || s.task.TaskLocking? || s.task.TaskClearing? ==> s.pending)
    && (s.task.TaskUnlocking? ==> !s.pending)
    && (s.pending ==> s.accepted != [] && Holds(s, s.accepted[|s.accepted| - 1]))
    && (s.task.TaskHandling? ==>
          && |s.task.read| <= |s.accepted[|s.accepted| - 1]| && '\0' !in s.task.read
          && s.task.read == s.accepted[|s.accepted| - 1][..|s.task.read|])
    && s.handled == AllVisible(if s.pending && (s.task.TaskIdle? || s.task.TaskHandling?)
                               then s.accepted[..|s.accepted| - 1] else s.accepted)
  }

  predicate Inv(s: State) {
    LockAgrees(s) && RxAgrees(s) && TaskAgrees(s)
  }

  lemma CopyKeepsInv(s: State, p: Payload, i: nat)
    requires Inv(s) && s.rx == RxCopying(p, i)
    ensures CopyInBounds(s) && Inv(RxNext(s))
  {
    hide AllVisible, Visible;
    var t := RxNext(s);
    assert t.buf[..i + 1] == s.buf[..i] + [t.buf[i]];
    if i < |p| {
      assert p[..i + 1] == p[..i] + [p[i]];
    } else {
      assert p[..i] == p;
    }
  }

  lemma ParkKeepsInv(s: State, p: Payload)
    requires Inv(s) && s.rx == RxParking(p)
    ensures Inv(RxNext(s))
  {
    hide AllVisible, Visible;
    var t := RxNext(s);
    assert t.accepted[..|t.accepted| - 1] == s.accepted;
  }

  lemma RxKeepsInv(s: State)
    requires Inv(s) && Enabled(s, RxStep)
    ensures CopyInBounds(s) && Inv(Next(s, RxStep))
  {
    hide AllVisible, Visible;
    match s.rx
    case RxCopying(p, i) => CopyKeepsInv(s, p, i);
    case RxParking(p) => ParkKeepsInv(s, p);
    case _ =>
  }

  /** The handler's next character is the accepted command's, or the terminator behind it. */
  lemma NextCharacter(s: State, read: Payload)
    requires Inv(s) && s.task == TaskHandling(read)
    ensures s.accepted != []
    ensures var p := s.accepted[|s.accepted| - 1];
            |read| <= |p| < |s.buf| && s.buf[|read|] == if |read| < |p| then p[|read|] else '\0'
  {
    hide AllVisible, Visible;
    var p := s.accepted[|s.accepted| - 1];
    assert s.buf[..|p| + 1][|read|] == (p + ['\0'])[|read|];
  }

  /** A finished reading adds what is visible of the command accepted last. */
  lemma FinishedReading(s: State, read: Payload)
    requires Inv(s) && s.task == TaskHandling(read) && |read| < |s.buf| && s.buf[|read|] == '\0'
    ensures s.accepted != [] && read == Visible(s.accepted[|s.accepted| - 1])
    ensures s.handled + [read] == AllVisible(s.accepted)
  {
    hide Holds, LockAgrees, RxAgrees;
    NextCharacter(s, read);
    VisibleStops(s.accepted[|s.accepted| - 1], |read|);
  }

  lemma TaskKeepsInv(s: State)
    requires Inv(s) && Enabled(s, TaskStep)
    ensures Inv(TaskNext(s))
  {
    hide AllVisible, Visible;
    match s.task
    case TaskHandling(read) =>
      NextCharacter(s, read);
      if s.buf[|read|] == '\0' {
        FinishedReading(s, read);
      }
    case _ =>
  }

  lemma StepKeepsInv(s: State, step: Step)
    requires Inv(s) && Enabled(s, step)
    ensures CopyInBounds(s) && Inv(Next(s, step))
  {
    match step
    case RxStep => RxKeepsInv(s);
    case TaskStep => TaskKeepsInv(s);
    case _ =>
  }

  lemma {:induction false} RunKeepsInv(states: seq<State>, steps: seq<Step>, k: nat)
    requires IsRun(states, steps) && k < |states|
    ensures Inv(states[k])
  {
    hide Inv, Next, Enabled;
    if k == 0 {
      InitialInv(states[0]);
    } else {
      RunKeepsInv(states, steps, k - 1);
      assert states[k - 1 + 1] == Next(states[k - 1], steps[k - 1]);
      StepKeepsInv(states[k - 1], steps[k - 1]);
    }
  }

  lemma InitialInv(s: State)
    requires Initial(s)
    ensures Inv(s)
  {
  }

  // ---------------------------------------------------------------------
  // What holds in every interleaving
  // ---------------------------------------------------------------------

  /** The buffer never changes while the handler is reading it. */
  lemma NeverWrittenWhileRead(states: seq<State>, steps: seq<Step>, k: nat)
    requires IsRun(states, steps) && k < |steps| && states[k].task.TaskHandling?
    ensures states[k + 1].buf == states[k].buf && !states[k].rx.RxCopying?
  {
    RunKeepsInv(states, steps, k);
    assert states[k + 1] == Next(states[k], steps[k]);
  }

  /** When the handler finishes, it has read exactly the command accepted last, up to its
      first NUL; so all of it when it holds none. */
  lemma HandlerSeesAccepted(states: seq<State>, steps: seq<Step>, k: nat)
    requires IsRun(states, steps) && k < |steps| && states[k + 1].handled != states[k].handled
    ensures states[k].accepted != []
    ensures var p := states[k].accepted[|states[k].accepted| - 1];
            states[k + 1].handled == states[k].handled + [Visible(p)] && ('\0' !in p ==> Visible(p) == p)
  {
    hide Inv, Next, Enabled;
    RunKeepsInv(states, steps, k);
    assert states[k + 1] == Next(states[k], steps[k]);
    OnlyFinishingHandles(states[k], steps[k]);
  }

  lemma OnlyFinishingHandles(s: State, step: Step)
    requires Inv(s) && CopyInBounds(s) && Enabled(s, step) && Next(s, step).handled != s.handled
    ensures s.accepted != []
    ensures Next(s, step).handled == s.handled + [Visible(s.accepted[|s.accepted| - 1])]
  {
    hide AllVisible, Visible, Inv;
    if s.task.TaskHandling? && step.TaskStep? {
      FinishedReading(s, s.task.read);
    }
  }

  /** Accepted commands are handled once each and in order: at any moment the handled ones
      are all accepted ones except possibly the last, and that one is still parked. */
  lemma HandledOnceInOrder(states: seq<State>, steps: seq<Step>, k: nat)
    requires IsRun(states, steps) && k < |states|
    ensures var s := states[k];
            s.handled == AllVisible(s.accepted)
            || (s.pending && s.accepted != [] && s.handled == AllVisible(s.accepted[..|s.accepted| - 1]))
    ensures !states[k].pending ==> states[k].handled == AllVisible(states[k].accepted)
  {
    RunKeepsInv(states, steps, k);
  }

  // ---------------------------------------------------------------------
  // An idle device takes a command, a busy one refuses it
  // ---------------------------------------------------------------------

  /** `steps` are possible from `s` and lead to `z`. */
  ghost predicate Leads(s: State, steps: seq<Step>, z: State)
    decreases |steps|
  {
    if steps == [] then z == s
    else CopyInBounds(s) && Enabled(s, steps[0]) && Leads(Next(s, steps[0]), steps[1..], z)
  }

  lemma Leads1(s: State, step: Step)
    requires CopyInBounds(s) && Enabled(s, step)
    ensures Leads(s, [step], Next(s, step))
  {
    hide Next;
    assert Leads(Next(s, step), [step][1..], Next(s, step));
  }

  lemma {:induction false} LeadsOn(s: State, first: seq<Step>, y: State, then_: seq<Step>, z: State)
    requires Leads(s, first, y) && Leads(y, then_, z)
    ensures Leads(s, first + then_, z)
    decreases |first|
  {
    hide Next, Enabled;
    if first == [] {
      assert first + then_ == then_;
    } else {
      LeadsOn(Next(s, first[0]), first[1..], y, then_, z);
      assert (first + then_)[1..] == first[1..] + then_;
    }
  }

  /** `n` steps of the receive callback. */
  function RxSteps(n: nat): seq<Step> { seq(n, _ => RxStep) }

  function TaskSteps(n: nat): seq<Step> { seq(n, _ => TaskStep) }

  lemma StepsJoin(m: nat, n: nat)
    ensures RxSteps(m) + RxSteps(n) == RxSteps(m + n) && RxSteps(1) == [RxStep]
    ensures TaskSteps(m) + TaskSteps(n) == TaskSteps(m + n) && TaskSteps(1) == [TaskStep]
  {
  }

  /** The copy loop writes the rest of the command and its terminator. */
  lemma {:induction false} CopyFinishes(s: State, p: Payload, i: nat) returns (z: State)
    requires Inv(s) && s.rx == RxCopying(p, i)
    ensures Leads(s, RxSteps(|p| - i + 1), z) && z == s.(buf := z.buf, rx := RxParking(p)) && Inv(z)
    ensures Holds(z, p)
    decreases |p| - i
  {
    CopyKeepsInv(s, p, i);
    var y := Next(s, RxStep);
    Leads1(s, RxStep);
    if i < |p| {
      z := CopyFinishes(y, p, i + 1);
      LeadsOn(s, [RxStep], y, RxSteps(|p| - i), z);
      StepsJoin(1, |p| - i);
    } else {
      z := y;
      StepsJoin(1, 0);
    }
  }

  /** With nothing parked or active and the lock free, the callback alone parks the command. */
  lemma IdleParks(s: State, p: Payload) returns (z: State)
    requires Inv(s) && Fits(s, p) && s.rx == RxIdle && s.lock == None && !s.pending && !s.active
    ensures Leads(s, [Receive(p)] + RxSteps(|p| + 5), z) && Inv(z)
    ensures z == s.(buf := z.buf, pending := true, accepted := s.accepted + [p]) && Holds(z, p)
  {
    hide AllVisible, Visible;
    var a := Next(s, Receive(p));
    Leads1(s, Receive(p));
    var b := Next(a, RxStep);
    Leads1(a, RxStep);
    StepKeepsInv(a, RxStep);
    var c := Next(b, RxStep);
    Leads1(b, RxStep);
    StepKeepsInv(b, RxStep);
    var d := CopyFinishes(c, p, 0);
    var e := Next(d, RxStep);
    Leads1(d, RxStep);
    StepKeepsInv(d, RxStep);
    z := Next(e, RxStep);
    Leads1(e, RxStep);
    StepKeepsInv(e, RxStep);
    hide Leads, Next, Inv;
    LeadsOn(a, [RxStep], b, [RxStep], c);
    StepsJoin(1, 1);
    LeadsOn(a, RxSteps(2), c, RxSteps(|p| + 1), d);
    StepsJoin(2, |p| + 1);
    LeadsOn(d, [RxStep], e, [RxStep], z);
    LeadsOn(a, RxSteps(|p| + 3), d, RxSteps(2), z);
    StepsJoin(|p| + 3, 2);
    LeadsOn(s, [Receive(p)], a, RxSteps(|p| + 5), z);
  }

  /** The handler reads on to the terminator. */
  lemma {:induction false} ReadFinishes(s: State, p: Payload, read: Payload) returns (z: State)
    requires Inv(s) && s.task == TaskHandling(read) && s.accepted != [] && p == s.accepted[|s.accepted| - 1]
    ensures |read| <= |Visible(p)|
    ensures Leads(s, TaskSteps(|Visible(p)| - |read| + 1), z) && Inv(z)
    ensures z == s.(task := TaskLocking, handled := s.handled + [Visible(p)])
    decreases |s.buf| - |read|
  {
    hide AllVisible, Visible;
    NextCharacter(s, read);
    Leads1(s, TaskStep);
    TaskKeepsInv(s);
    var y := Next(s, TaskStep);
    hide TaskAgrees, RxAgrees, Leads, LockAgrees;
    if s.buf[|read|] == '\0' {
      FinishedReading(s, read);
      z := y;
      StepsJoin(1, 0);
    } else {
      z := ReadFinishes(y, p, read + [s.buf[|read|]]);
      LeadsOn(s, [TaskStep], y, TaskSteps(|Visible(p)| - |read|), z);
      StepsJoin(1, |Visible(p)| - |read|);
    }
  }

  /** With a command parked and the lock free, the nff task alone handles it and frees the slot. */
  lemma ParkedIsHandled(s: State, p: Payload) returns (z: State)
    requires Inv(s) && s.pending && s.task == TaskIdle && s.lock == None && s.accepted != []
    requires p == s.accepted[|s.accepted| - 1]
    ensures Leads(s, TaskSteps(|Visible(p)| + 5), z) && Inv(z)
    ensures z == s.(pending := false, handled := s.handled + [Visible(p)])
  {
    hide AllVisible, Visible;
    var a := Next(s, TaskStep);
    Leads1(s, TaskStep);
    TaskKeepsInv(s);
    var b := ReadFinishes(a, p, []);
    var c := Next(b, TaskStep);
    Leads1(b, TaskStep);
    TaskKeepsInv(b);
    var d := Next(c, TaskStep);
    Leads1(c, TaskStep);
    TaskKeepsInv(c);
    z := Next(d, TaskStep);
    Leads1(d, TaskStep);
    TaskKeepsInv(d);
    hide Leads, Next, Inv;
    var n := |Visible(p)|;
    LeadsOn(s, [TaskStep], a, TaskSteps(n + 1), b);
    StepsJoin(1, n + 1);
    LeadsOn(b, [TaskStep], c, [TaskStep], d);
    StepsJoin(1, 1);
    LeadsOn(b, TaskSteps(2), d, [TaskStep], z);
    StepsJoin(2, 1);
    LeadsOn(s, TaskSteps(n + 2), b, TaskSteps(3), z);
    StepsJoin(n + 2, 3);
  }

  lemma FreeLock(s: State)
    requires LockAgrees(s) && s.rx == RxIdle && s.task == TaskIdle
    ensures s.lock == None
  {
    match s.lock
    case None =>
    case Some(Rx) =>
    case Some(Task) =>
  }

  /** An idle device takes any command that fits, and the nff task then reads it up to its first
      NUL and is idle again. */
  lemma IdleDelivers(s: State, p: Payload) returns (z: State)
    requires Inv(s) && Fits(s, p) && s.rx == RxIdle && s.task == TaskIdle && !s.pending && !s.active
    ensures Leads(s, [Receive(p)] + RxSteps(|p| + 5) + TaskSteps(|Visible(p)| + 5), z)
    ensures z == s.(buf := z.buf, accepted := s.accepted + [p], handled := s.handled + [Visible(p)])
  {
    hide AllVisible, Visible, Leads, RxAgrees, TaskAgrees;
    FreeLock(s);
    var y := IdleParks(s, p);
    z := ParkedIsHandled(y, p);
    LeadsOn(s, [Receive(p)] + RxSteps(|p| + 5), y, TaskSteps(|Visible(p)| + 5), z);
  }

  /** An update may become active or end at any moment, whatever the two tasks are doing. */
  lemma ActiveAnytime(s: State, on: bool)
    requires CopyInBounds(s)
    ensures Enabled(s, SetActive(on)) && Leads(s, [SetActive(on)], s.(active := on))
  {
    Leads1(s, SetActive(on));
  }

  /** While a command is parked or an update is active the callback refuses the next one and
      touches nothing. */
  lemma BusyRefuses(s: State, p: Payload)
    requires Inv(s) && Fits(s, p) && s.rx == RxIdle && s.lock == None && (s.pending || s.active)
    ensures Leads(s, [Receive(p)] + RxSteps(3), s)
  {
    hide AllVisible, Visible;
    var a := Next(s, Receive(p));
    var b := Next(a, RxStep);
    var c := Next(b, RxStep);
    Leads1(s, Receive(p));
    Leads1(a, RxStep);
    Leads1(b, RxStep);
    Leads1(c, RxStep);
    assert Next(c, RxStep) == s;
    hide Leads, Next, Inv;
    LeadsOn(a, [RxStep], b, [RxStep], c);
    StepsJoin(1, 1);
    LeadsOn(a, RxSteps(2), c, [RxStep], s);
    StepsJoin(2, 1);
    LeadsOn(s, [Receive(p)], a, RxSteps(3), s);
  }

  lemma {:induction false} AllVisibleOneByOne(ps: seq<Payload>, i: nat)
    requires i < |ps|
    ensures |AllVisible(ps)| == |ps| && AllVisible(ps)[i] == Visible(ps[i])
  {
    hide Visible;
    var n := |ps| - 1;
    if n > 0 {
      AllVisibleOneByOne(ps[..n], if i < n then i else 0);
    }
  }
}
