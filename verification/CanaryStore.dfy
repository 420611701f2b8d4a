/** The canary store as it runs: totals are summed row by row, tables are updated in order. */
module CanaryStore {
  import opened Common
  import opened Totals
  import opened CanaryAdmission

  class Store {
    var policies: map<Version, Policy>
    var reservations: map<OpId, Reservation>
    var usage: map<Key, Usage>
    var decisions: map<RequestId, Decision>

    ghost function Tables(): Db
      reads this
    {
      Db(policies, reservations, usage, decisions)
    }

    ghost predicate Valid()
      reads this
    {
      Inv(Tables())
    }

    /** sumReservationAmounts over the rows a query selects; a negative amount is an error. */
    method SumAmounts(weight: Reservation -> int) returns (total: Option<int>)
      ensures total.Some? ==> total.value == Total(reservations, weight)
      ensures (forall o :: o in reservations ==> weight(reservations[o]) >= 0) ==> total.Some?
    {
      var sum := 0;
      var todo := reservations.Keys;
      while todo != {}
        invariant todo <= reservations.Keys
        invariant sum + Sum(todo, WeightOf(reservations, weight)) == Total(reservations, weight)
        decreases todo
      {
        var o :| o in todo;
        if weight(reservations[o]) < 0 {
          return None;
        }
        SumRemove(todo, o, WeightOf(reservations, weight));
        sum := sum + weight(reservations[o]);
        todo := todo - {o};
      }
      return Some(sum);
    }

    /** AdmitControlledCanary. `outer` is the verdict of the checks on tables this path only reads. */
    method AdmitRequest(request: RequestId, fingerprint: nat, s: Source, now: Time, outer: Option<Reason>)
      returns (answer: Answer)
      requires Valid() && outer != Some(Admitted)
      modifies this`reservations, this`usage, this`decisions
      ensures (Tables(), answer) == Admit(old(Tables()), request, fingerprint, s, now, outer)
      ensures Valid()
    {
      AdmitKeepsInv(Tables(), request, fingerprint, s, now, outer);
      if request in decisions {
        return Repeated(decisions[request], fingerprint, outer);
      }
      var reason := Gate(s, now, outer);
      if reason != Admitted {
        decisions := decisions[request := Decision(fingerprint, reason)];
        return Decided(reason);
      }
      AdmittedPassed(Tables(), s, now, outer);
      var k := Key(s.policy, s.wallet, s.token, Window(now, policies[s.policy].windowSeconds));
      var before := usage;
      usage := usage[k := Usage(UsageAt(usage, k).count + 1, UsageAt(usage, k).reserved + s.amount)];
      if s.op in reservations {
        usage := before;
        return StoreError;
      }
      reservations := reservations[s.op := Reservation(s.wallet, s.token, s.policy, s.amount, Reserved, now)];
      decisions := decisions[request := Decision(fingerprint, Admitted)];
      return Decided(Admitted);
    }

    /** canaryGateReason and canaryRiskReason, summing the tables where they are needed. */
    method Gate(s: Source, now: Time, outer: Option<Reason>) returns (reason: Reason)
      requires RowsOk(Tables())
      ensures reason == GateReason(Tables(), s, now, outer)
    {
      if outer.Some? {
        return outer.value;
      }
      if s.expiresAt <= now {
        return TtlExpired;
      }
      if s.policy !in policies {
        return PolicyInvalid;
      }
      var p := policies[s.policy];
      var active := SumAmounts(WalletWeight(s.wallet));
      if active.value >= p.maxUnresolved {
        return LaneBusy;
      }
      var input := InputReason(s, p);
      if input.Some? {
        return input.value;
      }
      var k := Key(s.policy, s.wallet, s.token, Window(now, p.windowSeconds));
      var tokenTotal := SumAmounts(TokenWeight(s.policy, s.token));
      var globalTotal := SumAmounts(PolicyWeight(s.policy));
      var exposure := ExposureReason(UsageAt(usage, k), tokenTotal.value, globalTotal.value, s, p);
      reason := if exposure.Some? then exposure.value else Admitted;
    }
  }
}
