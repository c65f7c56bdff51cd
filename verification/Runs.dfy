// Whole runs: any number of process lives on one host, each serving any requests,
// each ending whenever the oracle says so.
module Runs {
  import opened Wrappers
  import opened Config
  import opened Json
  import opened Kernel
  import opened Transaction
  import opened Machine
  import opened Network
  import Egress
  import Installation

  datatype Request =
    | Apply(config: NetworkConfig, now: int)
    | Confirm(now: int)
    | Rollback
    | Tick(now: int)

  /** One process: whether network control is enabled, the clock at start-up, and what it is asked. */
  datatype Life = Life(enabled: bool, applied: int, confirmed: int, requests: seq<Request>)

  /** Write-ahead: a host that differs from how it was before is described by a journal from which
      the configuration parses back and every recorded value is the original one. */
  ghost predicate Recorded(s: Snapshot, b: Kernel) {
    Strip(s.kernel) != Strip(b) ==>
      && !Idle(s.journal) && Decode(s.journal.value.config).Some?
      && Describes(s.journal.value, Decode(s.journal.value.config).value, b)
      && Within(s.kernel, Decode(s.journal.value.config).value, b)
  }

  /** A journal that says "awaiting confirmation" or "confirmed" holds a sound plan, and that plan is in
      force: its addresses, routes, rule, settings and rules, and nothing else changed. */
  ghost predicate MeansInstalled(s: Snapshot, b: Kernel) {
    s.journal.Some? && (s.journal.value.status.AwaitingConfirmation? || s.journal.value.status.Confirmed?) ==>
      exists c :: s.journal.value.config == ConfigJson(c) && Installation.InForce(s.kernel, c, b)
  }

  lemma SettledIsInForce(s: Snapshot, b: Kernel)
    requires Durable(s, b)
    ensures MeansInstalled(s, b)
  {
    hide Within, Covered, Eligible, Installed, Installation.InForce, SoundPlan, Shaped, Drafted, PlanOf, Strip, Leaky;
    if s.journal.Some? && (s.journal.value.status.AwaitingConfirmation? || s.journal.value.status.Confirmed?) {
      var c := ConfigOf(s.journal.value.config).value;
      Installation.InstalledIsInForce(s.kernel, c, b);
    }
  }

  /** While a table is loaded, no packet leaves the outer link under another address, unless a guard
      swap has been refused and the complete rules are still there. */
  ghost predicate KeepsAddresses(s: Snapshot) {
    !Idle(s.journal) && s.kernel.inet.Some? && !s.swapRefused ==>
      && Decode(s.journal.value.config).Some?
      && Egress.Translated(s.kernel, Decode(s.journal.value.config).value)
  }

  /** While a table is loaded, what enters by the outer link is forwarded to the device or not at all,
      refused swap or not. */
  ghost predicate AdmitsDeviceOnly(s: Snapshot) {
    !Idle(s.journal) && s.kernel.inet.Some? ==>
      && Decode(s.journal.value.config).Some?
      && Egress.InboundToDevice(s.kernel, Decode(s.journal.value.config).value)
  }

  /** Every durable state of every run, crashes and failing calls anywhere: write-ahead, guard
      coverage, the meaning of the status, and egress. A swap counts as refused only after a fault,
      and since a state in which a rollback under way had failed to replace the complete rules. */
  method Run(kernel: Kernel, oracle: nat -> Event, lives: seq<Life>) returns (host: Host)
    requires forall r | r in kernel.routes :: r.dev in kernel.links
    ensures host.Safe() && host.before == kernel && host.oracle == oracle
    ensures forall s | s in host.reached :: Recorded(s, kernel)
    ensures forall s | s in host.reached && s.kernel.inet.None? :: Quiet(s.kernel, kernel)
    ensures forall s | s in host.reached :: MeansInstalled(s, kernel)
    ensures forall s | s in host.reached :: KeepsAddresses(s) && AdmitsDeviceOnly(s)
    ensures (exists s :: s in host.reached && s.swapRefused) ==> host.faults > 0 && exists s :: s in host.reached && Refusal(s)
    ensures (forall i :: oracle(i).fault.Healthy?) ==> forall s | s in host.reached :: !s.swapRefused
  {
    host := RunSafely(kernel, oracle, lives);
    forall s | s in host.reached
      ensures Recorded(s, kernel) && MeansInstalled(s, kernel) && KeepsAddresses(s) && AdmitsDeviceOnly(s)
      ensures s.kernel.inet.None? ==> Quiet(s.kernel, kernel)
    {
      SaysSnapshot(s, kernel);
    }
  }

  method RunSafely(kernel: Kernel, oracle: nat -> Event, lives: seq<Life>) returns (host: Host)
    requires forall r | r in kernel.routes :: r.dev in kernel.links
    ensures host.Safe() && host.before == kernel && host.oracle == oracle
    ensures (forall i :: oracle(i).fault.Healthy?) ==> host.faults == 0
  {
    hide Durable, AllDurable, Witnessed;
    host := new Host(kernel, oracle);
    for i := 0 to |lives|
      invariant host.Safe() && host.before == kernel && host.oracle == oracle
      invariant (forall i :: oracle(i).fault.Healthy?) ==> host.faults == 0
      invariant fresh(host)
    {
      Live(host, lives[i]);
    }
  }

  /** One life of the process. A disabled controller leaves kernel and journal alone; an enabled one that
      ends in order, without a fault, does not leave an unconfirmed configuration behind. */
  method Live(host: Host, life: Life)
    requires host.Safe()
    modifies host
    ensures host.Safe() && host.Progress()
    ensures !life.enabled ==> host.kernel == old(host.kernel) && host.journal == old(host.journal)
    ensures life.enabled && host.faults == old(host.faults) ==>
      host.journal.None? || !host.journal.value.status.AwaitingConfirmation?
  {
    hide Durable, AllDurable, NetworkController.Engaged;
    hide Installation.InForce;
    var controller := new NetworkController(host, life.enabled);
    var o := controller.Recover(life.applied, life.confirmed);
    if !o.Done? { return; }   // start-up failed or the process died
    for i := 0 to |life.requests|
      invariant controller.Valid() && controller.host == host && controller.enabled == life.enabled
      invariant fresh(controller) && host.Progress() && controller.Current()
      invariant host.faults == old(host.faults) ==> !controller.unsaved
      invariant !life.enabled ==> host.kernel == old(host.kernel) && host.journal == old(host.journal)
    {
      o := Serve(controller, life.requests[i]);
      if o.Crashed? { return; }
    }
    if controller.state.status.AwaitingConfirmation? {
      o := controller.Rollback();
    }
  }

  method Serve(controller: NetworkController, request: Request) returns (o: Outcome)
    requires controller.Valid() && controller.Current()
    modifies controller, controller.host
    ensures controller.Valid() && controller.host.Progress() && (!o.Crashed? ==> controller.Current())
    ensures !controller.enabled ==> unchanged(controller.host)
    ensures controller.Excused() && (controller.host.faults == old(controller.host.faults) ==> !o.Crashed?)
    ensures request.Apply? && o.Done? ==> Installation.InForce(controller.host.kernel, request.config, controller.host.before)
    ensures request.Rollback? && o.Done? ==> controller.state.status.Inactive?
    ensures controller.state.status.AwaitingConfirmation? && !old(controller.state).status.AwaitingConfirmation? ==> request.Apply?
    ensures controller.state.status.Confirmed? && !old(controller.state).status.Confirmed? ==> request.Confirm?
    ensures request.Tick? && !(old(controller.state).status.AwaitingConfirmation? && request.now >= old(controller.deadline)) ==>
      o.Done? && controller.state == old(controller.state) && unchanged(controller.host)
  {
    hide NetworkController.Valid, NetworkController.Current, Installation.InForce;
    match request
    case Apply(c, now) => o := controller.Apply(c, now);
    case Confirm(now) => o := controller.Confirm(now);
    case Rollback => o := controller.Rollback();
    case Tick(now) => o := controller.Tick(now);
  }

  /** Without faults a confirmed configuration survives any number of restarts: the same kernel, and
      a journal that still says "confirmed" and records the same plan and the same original settings. */
  method Restarts(host: Host, clock: nat -> (int, int), n: nat)
    requires host.Safe() && host.Flawless()
    requires host.journal.Some? && host.journal.value.status.Confirmed?
    requires forall i :: clock(i).1 < clock(i).0 + CONFIRMATION_SECONDS   // confirmed in time
    modifies host
    ensures host.Safe() && host.Flawless() && host.journal.Some? && host.journal.value.status.Confirmed?
    ensures SameTransaction(host.journal.value, old(host.journal).value)
    ensures Strip(host.kernel) == Strip(old(host.kernel))
  {
    hide Durable, AllDurable, Witnessed, NetworkController.Engaged;
    ghost var r, k := host.journal.value, host.kernel;
    for i := 0 to n
      invariant host.Safe() && host.journal.Some? && SameTransaction(host.journal.value, r)
      invariant Strip(host.kernel) == Strip(k) && host.at >= old(host.at) && host.journal.value.status.Confirmed?
    {
      var controller := new NetworkController(host, true);
      var o := controller.Recover(clock(i).0, clock(i).1);
      assert o.Done?;
    }
  }

  /** After any number of them a final rollback restores the host from before the first `apply`. */
  method ConfirmedRestarts(host: Host, clock: nat -> (int, int), n: nat)
    requires host.Safe() && host.Flawless()
    requires host.journal.Some? && host.journal.value.status.Confirmed?
    requires forall i :: clock(i).1 < clock(i).0 + CONFIRMATION_SECONDS
    modifies host
    ensures host.Safe() && host.kernel == Strip(host.before) && Installation.AsBefore(host.kernel, host.before)
    ensures host.journal.Some? && host.journal.value.status.Inactive?
  {
    hide Installation.AsBefore;
    hide Durable, AllDurable, Witnessed, NetworkController.Engaged;
    Restarts(host, clock, n);
    var last := new NetworkController(host, true);
    var o := last.Recover(clock(n).0, clock(n).1);
    o := last.Rollback();
    assert o.Done?;
    BackToBefore(host.kernel, host.before);
  }

  lemma BackToBefore(k: Kernel, b: Kernel)
    ensures Strip(k) == Strip(b) ==> Installation.AsBefore(k, b)
    ensures k == Strip(b) ==> Installation.AsBefore(k, b) && forall i | i in k.connections :: k.connections[i] != 0x4d425800
  {
    hide Installation.AsBefore;
    StripTwice(b);
    if Strip(k) == Strip(b) { Installation.StripKeeps(k, b); }
  }

  /** Recovery converges: from every state a run can reach, one start-up and rollback without
      faults bring the host back to exactly what it was before the first transaction, with no
      marked connection left and nothing else touched. A start-up too slow to confirm a confirmed
      configuration again has rolled it back already. */
  method RecoveryConverges(host: Host, applied: int, confirmed: int)
    requires host.Safe() && host.Flawless()
    modifies host
    ensures host.Safe() && Idle(host.journal) && Strip(host.kernel) == Strip(host.before)
    ensures !old(Idle(host.journal)) ==> host.kernel == Strip(host.before)
    ensures Installation.AsBefore(host.kernel, host.before)
    ensures !old(Idle(host.journal)) ==> forall i | i in host.kernel.connections :: host.kernel.connections[i] != 0x4d425800
  {
    hide Installation.AsBefore;
    RecoverAndRollBack(host, applied, confirmed);
    BackToBefore(host.kernel, host.before);
  }

  method RecoverAndRollBack(host: Host, applied: int, confirmed: int)
    requires host.Safe() && host.Flawless()
    modifies host
    ensures host.Safe() && Idle(host.journal) && Strip(host.kernel) == Strip(host.before)
    ensures !old(Idle(host.journal)) ==> host.kernel == Strip(host.before)
  {
    hide Durable, AllDurable, Witnessed, NetworkController.Engaged;
    var controller := new NetworkController(host, true);
    var o := controller.Recover(applied, confirmed);
    if !o.Done? { return; }
    o := controller.Rollback();
    assert o.Done?;
  }

  /** Memory can run ahead of the journal: a confirmation whose write is rejected is confirmed in the
      one and still awaited in the other. `NetworkController.Current` says that nothing but a lost write does this. */
  method UnwrittenConfirmation(controller: NetworkController, now: int) returns (o: Outcome)
    requires controller.Valid() && controller.enabled && controller.Agrees()
    requires controller.state.status.AwaitingConfirmation? && now < controller.deadline
    requires controller.host.oracle(controller.host.at).fault.Rejected?
    modifies controller, controller.host
    ensures controller.Valid() && o.Threw? && controller.state.status.Confirmed?
    ensures controller.host.journal.Some? && controller.host.journal.value.status.AwaitingConfirmation?
  {
    hide NetworkController.Valid;
    o := controller.Confirm(now);
  }

  // ---- What safety of a durable state says ----

  lemma SaysSnapshot(s: Snapshot, b: Kernel)
    requires Durable(s, b)
    ensures Recorded(s, b) && MeansInstalled(s, b) && KeepsAddresses(s) && AdmitsDeviceOnly(s)
    ensures s.kernel.inet.None? ==> Quiet(s.kernel, b)
  {
    SettledIsInForce(s, b);
    hide Decode, Within, Eligible, Installed, Egress.Translated, Egress.InboundToDevice, MeansInstalled;
    if s.kernel.inet.None? { GuardCoverage(s, b); }
    if !Idle(s.journal) && s.kernel.inet.Some? { Egress.ReachableEgress(s, b); }
  }

  /** Guard coverage: an appliance address, route or rule, or a changed forwarding setting, never
      exists without the `inet` table. */
  lemma GuardCoverage(s: Snapshot, b: Kernel)
    requires Durable(s, b) && s.kernel.inet.None?
    ensures Quiet(s.kernel, b)
  {
    if Idle(s.journal) {
      assert Strip(s.kernel) == Strip(b);
      assert s.kernel == Strip(b).(connections := s.kernel.connections);
    }
  }
}
