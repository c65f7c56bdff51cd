// The host a controller runs on: the kernel, the durable journal, and an oracle
// deciding, call by call, what succeeds, what only seems to fail, and when the
// process dies. A crash may follow or precede the effect of any call, so a
// property of every state in which a call can end is a property of every state.
module Machine {
  import opened Wrappers
  import opened Address
  import opened Bits
  import opened Config
  import opened Json
  import opened Kernel
  import opened Transaction

  datatype Status = Inactive | Applying | AwaitingConfirmation | Confirmed | RollingBack | RollbackFailed

  /** The undo steps of a rollback, by which its error text names them. */
  datatype Undo =
    | SwapGuard | RemoveRule | RemoveGateway | RemoveSubnet | RemoveOuterAddress | RemoveInnerAddress
    | RemoveVlan | RemoveTranslation | RestoreForwarding | RestoreFilter | RestorePort(name: string) | RemoveGuard

  datatype PortInfo = PortInfo(name: string, up: bool, mac: seq<byte>, disableIpv6: string, rpFilter: string)

  /** The controller's state; a copy of it under the key "network" is the journal. */
  datatype Record = Record(
    status: Status, config: Json, baseline: seq<PortInfo>, ipForward: string, rpFilterAll: string, errors: seq<Undo>)

  datatype Fault =
    | Healthy
    | Rejected       // fails, no effect
    | Lost           // takes effect, but is reported as failed
    | CrashBefore
    | CrashAfter
  {
    /** Whether a call that meets this fault takes effect nevertheless. */
    predicate TakesEffect() { !Rejected? && !CrashBefore? }

    function Ends(): Outcome {
      if CrashBefore? || CrashAfter? then Crashed else if Healthy? then Done else Threw
    }
  }

  datatype Event = Event(arrivals: set<nat>, fault: Fault)

  /** How a call or a controller method ends. */
  datatype Outcome = Done | Threw | Crashed {
    predicate IsFailure() { !Done? }
    function PropagateFailure(): Outcome
      requires IsFailure()
    { this }
  }

  // ---- Plans in records ----

  function PlanOf(c: NetworkConfig): Plan
    requires WellFormed(c)
  {
    Plan(c.outerInterface, c.innerInterface, c.vlanId, ParseMac(c.outerMac), Device(c),
         Assigned(InnerGateway(c), c.innerPrefix), Assigned(Outer(c), c.outerPrefix),
         And(Outer(c), Mask(c.outerPrefix)), OuterGateway(c))
  }

  /** The plan a journalled configuration parses back to. */
  ghost function Decode(v: Json): Option<Plan> {
    if ConfigOf(v).Some? then Some(PlanOf(ConfigOf(v).value)) else None
  }

  lemma DecodeEncoded(c: NetworkConfig)
    requires SoundPlan(c)
    ensures Decode(ConfigJson(c)) == Some(PlanOf(c))
    ensures Coherent(PlanOf(c))
  {
    PlanRoundTrip(c);
    InBlock(Outer(c), OuterGateway(c), c.outerPrefix);
  }

  function InfoOf(k: Kernel, n: string): PortInfo
    requires n in k.links
  {
    var l := k.links[n];
    PortInfo(n, l.up, l.mac, l.disableIpv6, l.rpFilter)
  }

  /** The record holds the plan and everything needed to put the host back as it was. */
  ghost predicate Describes(r: Record, p: Plan, b: Kernel) {
    && Decode(r.config) == Some(p) && r.config == ConfigJson(ConfigOf(r.config).value)
    && Eligible(b, p)
    && r.baseline == [InfoOf(b, p.outer), InfoOf(b, p.inner)]
    && r.ipForward == b.ipForward && r.rpFilterAll == b.rpFilterAll
  }

  predicate Idle(j: Option<Record>) {
    j.None? || j.value.status.Inactive?
  }

  predicate Settled(s: Status) {
    s.AwaitingConfirmation? || s.Confirmed?
  }

  /** Complete rules without their translation: what a failed guard swap can lead to. */
  ghost predicate Leaky(k: Kernel, p: Plan) {
    k.inet == Some(FullRules(p)) && k.translation.None?
  }

  /** One durable state of a run. */
  datatype Snapshot = Snapshot(kernel: Kernel, journal: Option<Record>, swapRefused: bool)

  /** Write-ahead safety, guard coverage and the meaning of the journal's status. */
  ghost predicate Durable(s: Snapshot, b: Kernel) {
    && (Idle(s.journal) ==> Strip(s.kernel) == Strip(b))
    && (!Idle(s.journal) ==> DurableTransaction(s, b))
  }

  ghost predicate DurableTransaction(s: Snapshot, b: Kernel)
    requires s.journal.Some?
  {
    var r := s.journal.value;
    Decode(r.config).Some? &&
    var p := Decode(r.config).value;
    && Describes(r, p, b)
    && Within(s.kernel, p, b) && Covered(s.kernel, b)
    && (Leaky(s.kernel, p) ==> s.swapRefused)
    && (Settled(r.status) ==> Installable(b, p) && Strip(s.kernel) == Strip(Installed(b, p)))
  }

  ghost predicate AllDurable(reached: set<Snapshot>, b: Kernel) {
    forall s | s in reached :: Durable(s, b)
  }

  lemma DurableDrifts(s: Snapshot, s': Snapshot, b: Kernel)
    requires Durable(s, b) && Strip(s'.kernel) == Strip(s.kernel) && s'.journal == s.journal
    requires s'.swapRefused == s.swapRefused
    ensures Durable(s', b)
  {
    if !Idle(s.journal) {
      DriftKeeps(s.kernel, s'.kernel, Decode(s.journal.value.config).value, b);
    }
  }

  /** A permitted call keeps an open transaction durable however it ends. */
  lemma CallKeepsDurable(s: Snapshot, call: Call, s': Snapshot, p: Plan, b: Kernel)
    requires Durable(s, b) && !Idle(s.journal) && !Settled(s.journal.value.status)
    requires Decode(s.journal.value.config) == Some(p)
    requires s'.journal == s.journal && s'.swapRefused == s.swapRefused
    requires Permitted(call, s.kernel, p, b)
    requires Effect(s.kernel, call).Some? ==> Leaky(Effect(s.kernel, call).value, p) ==> s.swapRefused
    requires Drifted(s.kernel, s'.kernel) || Did(s.kernel, call, s'.kernel)
    ensures Durable(s', b)
  {
    hide Decode, Within, Covered, Eligible, Permitted, Effect, Installed;
    if Drifted(s.kernel, s'.kernel) {
      DurableDrifts(s, s', b);
    } else {
      PermittedKeeps(s.kernel, call, p, b);
      DriftKeeps(Effect(s.kernel, call).value, s'.kernel, p, b);
    }
  }

  /** A rollback under way whose first step has failed and left the complete rules loaded. */
  ghost predicate Refusal(s: Snapshot) {
    && s.swapRefused && s.journal.Some? && s.journal.value.status.RollingBack?
    && Decode(s.journal.value.config).Some?
    && s.kernel.inet == Some(FullRules(Decode(s.journal.value.config).value))
  }

  /** A flagged state takes a fault and such a state before it. */
  ghost predicate Witnessed(reached: set<Snapshot>, faults: nat) {
    (forall s | s in reached :: !s.swapRefused) || (faults > 0 && exists s :: s in reached && Refusal(s))
  }

  /** One more state on record, flagged only if one before it was. */
  lemma ReachedExtends(reached: set<Snapshot>, faults: nat, was: Snapshot, s: Snapshot, faults': nat, b: Kernel)
    requires AllDurable(reached, b) && Witnessed(reached, faults) && was in reached
    requires Durable(s, b) && faults <= faults' && (s.swapRefused ==> was.swapRefused)
    ensures AllDurable(reached + {s}, b) && Witnessed(reached + {s}, faults')
  {
    hide Durable, Refusal;
  }

  lemma RefusalExtends(reached: set<Snapshot>, s: Snapshot, faults: nat, b: Kernel)
    requires AllDurable(reached, b) && Durable(s, b) && Refusal(s) && faults > 0
    ensures AllDurable(reached + {s}, b) && Witnessed(reached + {s}, faults)
  {
    hide Durable, Refusal;
  }

  class Host {
    var kernel: Kernel
    var journal: Option<Record>
    const oracle: nat -> Event
    var at: nat                        // calls made so far
    ghost var faults: nat              // calls that did not go through normally
    ghost var swapRefused: bool        // a rollback has failed to replace the complete rules, and none has since
    ghost const before: Kernel         // the host before the first transaction
    ghost var reached: set<Snapshot>   // every durable state so far

    /** A host that has never been configured by the appliance. */
    constructor (kernel: Kernel, oracle: nat -> Event)
      requires forall r | r in kernel.routes :: r.dev in kernel.links
      ensures this.kernel == kernel && before == kernel && journal.None? && !swapRefused && faults == 0
      ensures Safe() && reached == {Now()} && this.oracle == oracle
    {
      this.kernel := kernel;
      this.oracle := oracle;
      journal, at := None, 0;
      faults, swapRefused, before := 0, false, kernel;
      reached := {Snapshot(kernel, None, false)};
    }

    ghost function Now(): Snapshot
      reads this
    {
      Snapshot(kernel, journal, swapRefused)
    }

    ghost predicate Safe()
      reads this
    {
      && (forall r | r in before.routes :: r.dev in before.links)
      && Durable(Now(), before) && Now() in reached && AllDurable(reached, before)
      && Witnessed(reached, faults)
    }

    /** From now on every call goes through as it should. */
    ghost predicate Flawless()
      reads this`at
    {
      forall i: nat | i >= at :: oracle(i).fault.Healthy?
    }

    /** Nothing that has happened is forgotten, without a fault in the oracle none is counted, and
        without one no guard swap is refused. */
    twostate predicate Progress()
      reads this
    {
      old(at) <= at && old(faults) <= faults && old(reached) <= reached &&
      (swapRefused && !old(swapRefused) ==> faults > old(faults)) &&
      (old(Flawless()) ==> faults == old(faults))
    }

    /** A transaction for plan `p` is open: the journal names it and the kernel may change within it. */
    ghost predicate Open(p: Plan)
      reads this
    {
      && Safe()
      && journal.Some? && !journal.value.status.Inactive? && !Settled(journal.value.status)
      && Decode(journal.value.config) == Some(p)
    }

    /** One call into the kernel. */
    method Invoke(call: Call) returns (o: Outcome)
      modifies this`kernel, this`at, this`faults, this`reached
      ensures o.Done? ==> Did(old(kernel), call, kernel)
      ensures !o.Done? ==> Drifted(old(kernel), kernel) || Did(old(kernel), call, kernel)
      ensures !oracle(old(at)).fault.TakesEffect() ==> !o.Done? && Drifted(old(kernel), kernel)
      ensures var fault := oracle(old(at)).fault;
              && (fault.Healthy? && Effect(old(kernel), call).Some? ==> o == Done && Did(old(kernel), call, kernel))
              && (fault.Rejected? ==> o == Threw && Drifted(old(kernel), kernel))
              && (fault.Lost? && Effect(old(kernel), call).Some? ==> o == Threw && Did(old(kernel), call, kernel))
              && (fault.CrashBefore? ==> o == Crashed && Drifted(old(kernel), kernel))
              && (fault.CrashAfter? && Effect(old(kernel), call).Some? ==> o == Crashed && Did(old(kernel), call, kernel))
      ensures at == old(at) + 1 && (old(Flawless()) ==> faults == old(faults))
      ensures faults == old(faults) + if oracle(old(at)).fault.Healthy? then 0 else 1
      ensures faults == old(faults) && Effect(old(kernel), call).Some? ==> o.Done?
      ensures faults == old(faults) ==> !o.Crashed?
      ensures reached == old(reached) + {Now()}
    {
      var e := oracle(at);
      var k0 := kernel;
      TrafficDrifts(k0, e.arrivals);
      TrafficOnlyMarks(k0, e.arrivals);
      kernel := Traffic(kernel, e.arrivals);
      at := at + 1;
      EffectIgnoresConnections(k0, kernel, call);
      var result := Effect(kernel, call);
      if result.Some? && e.fault.TakesEffect() {
        EffectAfterTraffic(k0, e.arrivals, call);
        kernel := result.value;
      }
      o := if e.fault.Healthy? && result.None? then Threw else e.fault.Ends();
      faults := if e.fault.Healthy? then faults else faults + 1;
      reached := reached + {Now()};
    }

    /** One write of the journal row. */
    method Put(r: Record) returns (o: Outcome)
      modifies this`kernel, this`journal, this`at, this`faults, this`reached
      ensures Drifted(old(kernel), kernel)
      ensures journal == Some(r) || (!o.Done? && journal == old(journal))
      ensures faults == old(faults) + if oracle(old(at)).fault.Healthy? then 0 else 1
      ensures at == old(at) + 1 && (old(Flawless()) ==> faults == old(faults))
      ensures reached == old(reached) + {Now()}
      ensures journal == if oracle(old(at)).fault.TakesEffect() then Some(r) else old(journal)
      ensures o == oracle(old(at)).fault.Ends()
      ensures match oracle(old(at)).fault
              case Healthy => o == Done && journal == Some(r)
              case Rejected => o == Threw && journal == old(journal)
              case Lost => o == Threw && journal == Some(r)
              case CrashBefore => o == Crashed && journal == old(journal)
              case CrashAfter => o == Crashed && journal == Some(r)
    {
      var e := oracle(at);
      TrafficDrifts(kernel, e.arrivals);
      kernel := Traffic(kernel, e.arrivals);
      at := at + 1;
      if e.fault.TakesEffect() { journal := Some(r); }
      o := e.fault.Ends();
      faults := if e.fault.Healthy? then faults else faults + 1;
      reached := reached + {Now()};
    }
  }
}
