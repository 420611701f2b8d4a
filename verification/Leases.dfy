/** Worker leases of the trade service (table canary_worker_leases) and the fence that every
    leased mutation passes.

    A lease row is keyed by role and environment. Every function below is one SQLite
    transaction; `None` means the transaction is rejected and rolled back. Times are integers. */
module Leases {
  import opened Common

  datatype Role = Submission | Recovery

  type Time = nat

  // Environment and holder names; 0 is the empty string.
  type Name = nat

  const MAX_EPOCH: nat := 0x7FFF_FFFF_FFFF_FFFF

  datatype Key = Key(role: Role, environment: Name)

  datatype Lease = Lease(holder: Name, epoch: nat, expires: Time, updated: Time)

  datatype Fence = Fence(key: Key, holder: Name, epoch: nat, clock: Time)

  type Table = map<Key, Lease>

  predicate NamesRow(t: Table, f: Fence)
  {
    && f.key.environment != 0 && f.holder != 0 && f.epoch > 0
    && f.key in t
    && t[f.key].holder == f.holder
    && t[f.key].epoch == f.epoch
  }

  /** assertSubmissionLeaseTx / assertRecoveryLeaseTx: the row names exactly this holder and
      epoch, and the fence's own clock reads before the expiry. */
  predicate Holds(t: Table, f: Fence)
  {
    NamesRow(t, f) && f.clock < t[f.key].expires
  }

  /** assertManualSubmissionLeaseTx: as above, and the clock is not before the row's own stamp. */
  predicate HoldsManual(t: Table, f: Fence)
  {
    Holds(t, f) && t[f.key].updated <= f.clock
  }

  /** The submission fence writes updated_at to take SQLite's writer lock. */
  function Touch(t: Table, f: Fence): Table
    requires f.key in t
  {
    t[f.key := t[f.key].(updated := f.clock)]
  }

  function AcquireNext(t: Table, key: Key, holder: Name, ttl: int, now: Time): Option<(Table, nat)>
  {
    if key.environment == 0 || holder == 0 || ttl <= 0 then None
    else if key !in t then
      Some((t[key := Lease(holder, 1, now + ttl, now)], 1))
    else
      var prior := t[key];
      if now < prior.expires || prior.epoch >= MAX_EPOCH then None
      else Some((t[key := Lease(holder, prior.epoch + 1, now + ttl, now)], prior.epoch + 1))
  }

  /** AcquireCanaryWorkerLease: the caller names the epoch itself. */
  function AcquireNamed(t: Table, key: Key, holder: Name, epoch: nat, expires: Time, now: Time): Option<Table>
  {
    if key.environment == 0 || holder == 0 || epoch == 0 || expires <= now then None
    else if key in t && !(t[key].expires <= now && t[key].epoch < epoch) then None
    else Some(t[key := Lease(holder, epoch, expires, now)])
  }

  function Renew(t: Table, f: Fence, ttl: int): Option<Table>
  {
    if ttl <= 0 || !Holds(t, f) then None
    else Some(t[f.key := t[f.key].(expires := f.clock + ttl, updated := f.clock)])
  }

  // ---------------------------------------------------------------------------------------
  // Runs of the lease protocol. `log` is the history of committed fenced mutations.

  datatype State = State(table: Table, log: seq<Fence>)

  ghost predicate Init(s: State)
  {
    s.table == map[] && s.log == []
  }

  datatype Event =
    | AcquireNextEvent(key: Key, holder: Name, ttl: int, now: Time)
    | AcquireNamedEvent(key: Key, holder: Name, epoch: nat, expires: Time, now: Time)
    | RenewEvent(fence: Fence, ttl: int)
    | MutationEvent(fence: Fence, touch: bool)
    | IdleEvent

  ghost predicate Step(s: State, e: Event, s': State)
  {
    match e
    case AcquireNextEvent(k, h, ttl, now) =>
      s'.log == s.log && var r := AcquireNext(s.table, k, h, ttl, now); r.Some? && s'.table == r.value.0
    case AcquireNamedEvent(k, h, ep, ex, now) =>
      s'.log == s.log && var r := AcquireNamed(s.table, k, h, ep, ex, now); r.Some? && s'.table == r.value
    case RenewEvent(f, ttl) =>
      s'.log == s.log && var r := Renew(s.table, f, ttl); r.Some? && s'.table == r.value
    case MutationEvent(f, touch) =>
      && Holds(s.table, f)
      && s'.log == s.log + [f]
      && s'.table == if touch then Touch(s.table, f) else s.table
    case IdleEvent => s' == s
  }

  ghost predicate Next(s: State, s': State)
  {
    exists e :: Step(s, e, s')
  }

  ghost predicate StepAt(run: seq<State>, i: nat)
    requires 0 < i < |run|
  {
    Next(run[i - 1], run[i])
  }

  ghost predicate IsRun(run: seq<State>)
  {
    && |run| > 0
    && Init(run[0])
    && forall i {:trigger StepAt(run, i)} :: 0 < i < |run| ==> StepAt(run, i)
  }

  ghost predicate Ordered(log: seq<Fence>)
  {
    forall i, j :: 0 <= i <= j < |log| && log[i].key == log[j].key ==> log[i].epoch <= log[j].epoch
  }

  ghost predicate Inv(s: State)
  {
    && Ordered(s.log)
    && forall i :: 0 <= i < |s.log| ==>
        s.log[i].key in s.table && s.log[i].epoch <= s.table[s.log[i].key].epoch
  }

  /** Per role and environment the epoch never decreases; it changes only to a greater one, and
      the holder changes only together with it. */
  ghost predicate EpochsGrow(t: Table, t': Table)
  {
    forall k :: k in t ==>
      && k in t'
      && t[k].epoch <= t'[k].epoch
      && (t[k].holder != t'[k].holder ==> t[k].epoch < t'[k].epoch)
  }

  /** Every step grows epochs, and no acquisition displaces a holder whose lease is unexpired
      at the acquirer's clock. */
  lemma StepGrowsEpochs(s: State, e: Event, s': State)
    requires Step(s, e, s')
    ensures EpochsGrow(s.table, s'.table)
    ensures (e.AcquireNextEvent? || e.AcquireNamedEvent?) && e.key in s.table ==>
              s.table[e.key].expires <= e.now && s.table[e.key].epoch < s'.table[e.key].epoch
    ensures e.AcquireNextEvent? ==>
              && e.key in s'.table
              && s'.table[e.key] == Lease(e.holder, if e.key in s.table then s.table[e.key].epoch + 1 else 1,
                                          e.now + e.ttl, e.now)
    ensures forall k :: k in s.table && s.table[k].epoch != s'.table[k].epoch ==>
              (e.AcquireNextEvent? || e.AcquireNamedEvent?) && k == e.key
  {
  }

  /** A fenced mutation leaves holder, epoch and end of every tenure as they are. If it writes the row,
      it stamps it with its clock, and from then on no MANUAL mutation under an earlier clock passes. */
  lemma MutationStampsTheRow(s: State, f: Fence, touch: bool, s': State)
    requires Step(s, MutationEvent(f, touch), s')
    ensures s'.table.Keys == s.table.Keys
    ensures forall k :: k in s.table ==> s'.table[k] == s.table[k].(updated := s'.table[k].updated)
    ensures forall k :: k in s.table && k != f.key ==> s'.table[k] == s.table[k]
    ensures s'.table[f.key].updated == if touch then f.clock else s.table[f.key].updated
    ensures forall g: Fence :: touch && g.key == f.key && g.clock < f.clock ==> !HoldsManual(s'.table, g)
  {
  }

  /** The MANUAL fence passes exactly for the named holder and epoch between the row's stamp and the end
      of the tenure. */
  lemma ManualFenceIsAnInterval(t: Table, f: Fence)
    requires f.key in t && f.key.environment != 0 && f.holder != 0 && f.epoch != 0
    ensures HoldsManual(t, f) <==>
              t[f.key] == Lease(f.holder, f.epoch, t[f.key].expires, t[f.key].updated)
              && t[f.key].updated <= f.clock < t[f.key].expires
  {
  }

  /** A renewal succeeds exactly for the current, unexpired holder with a positive time to live. It moves
      the end of that tenure to the time to live after the holder's own clock, so that the holder
      passes the fence exactly before that instant, and leaves every other lease alone. */
  lemma RenewalLastsItsTime(t: Table, f: Fence, ttl: int)
    ensures Renew(t, f, ttl).Some? <==> ttl > 0 && Holds(t, f)
    ensures Renew(t, f, ttl).Some? ==>
              var t' := Renew(t, f, ttl).value;
              && t' - {f.key} == t - {f.key}
              && NamesRow(t', f) && t'[f.key].updated == f.clock
              && forall clock: Time :: Holds(t', f.(clock := clock)) <==> clock < f.clock + ttl
  {
  }

  /** An acquisition succeeds exactly where no lease is unexpired and an epoch is left. The acquirer then
      passes the fence, with the next epoch, exactly before the time to live has passed. */
  lemma AcquisitionLastsItsTime(t: Table, key: Key, holder: Name, ttl: int, now: Time)
    ensures AcquireNext(t, key, holder, ttl, now).Some? <==>
              && key.environment != 0 && holder != 0 && ttl > 0
              && (key in t ==> t[key].expires <= now && t[key].epoch < MAX_EPOCH)
    ensures AcquireNext(t, key, holder, ttl, now).Some? ==>
              var (t', epoch) := AcquireNext(t, key, holder, ttl, now).value;
              && t' - {key} == t - {key}
              && epoch == (if key in t then t[key].epoch + 1 else 1)
              && forall clock: Time :: Holds(t', Fence(key, holder, epoch, clock)) <==> clock < now + ttl
  {
  }

  lemma StepKeepsInv(s: State, e: Event, s': State)
    requires Inv(s) && Step(s, e, s')
    ensures Inv(s')
  {
    StepGrowsEpochs(s, e, s');
  }

  lemma {:induction false} RunKeepsInv(run: seq<State>, i: nat)
    requires IsRun(run) && i < |run|
    ensures Inv(run[i])
  {
    if i > 0 {
      RunKeepsInv(run, i - 1);
      assert StepAt(run, i);
      var e :| Step(run[i - 1], e, run[i]);
      StepKeepsInv(run[i - 1], e, run[i]);
    }
  }

  lemma {:induction false} RunGrowsEpochs(run: seq<State>, i: nat, j: nat)
    requires IsRun(run) && i <= j < |run|
    ensures EpochsGrow(run[i].table, run[j].table)
    decreases j - i
  {
    if i < j {
      RunGrowsEpochs(run, i, j - 1);
      assert StepAt(run, j);
      var e :| Step(run[j - 1], e, run[j]);
      StepGrowsEpochs(run[j - 1], e, run[j]);
    }
  }

  /** Over every run: a fenced mutation committed under epoch e comes before every fenced
      mutation of the same role and environment committed under a later epoch. */
  lemma FencedMutationsAreOrderedByEpoch(run: seq<State>, i: nat, m: nat, n: nat)
    requires IsRun(run) && i < |run|
    requires m < |run[i].log| && n < |run[i].log|
    requires run[i].log[m].key == run[i].log[n].key
    requires run[i].log[m].epoch < run[i].log[n].epoch
    ensures m < n
  {
    RunKeepsInv(run, i);
  }

  /** Once a later epoch is in the table, the earlier holder can never again pass the fence. */
  lemma DisplacedHolderIsFencedForever(run: seq<State>, i: nat, j: nat, f: Fence)
    requires IsRun(run) && i <= j < |run|
    requires f.key in run[i].table && f.epoch < run[i].table[f.key].epoch
    ensures !Holds(run[j].table, f)
  {
    RunGrowsEpochs(run, i, j);
  }
}
