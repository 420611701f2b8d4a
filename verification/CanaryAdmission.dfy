/** Canary admission: the risk gate, the window usage rows and the risk reservations.

    Amounts and limits are decimal strings in the source; here they are integers, and a string
    that is not a canonical positive number is a non-positive integer. */
module CanaryAdmission {
  import opened Common
  import opened Totals

  type OpId = nat
  type RequestId = nat
  type Wallet = nat
  type Token = nat
  type Version = nat
  type Time = nat

  datatype RiskState = Reserved | Committed | Frozen | Released

  datatype Reservation = Reservation(wallet: Wallet, token: Token, policy: Version, amount: int, state: RiskState,
                                     createdAt: Time)

  datatype Policy = Policy(maxOperation: int, maxWallet: int, maxToken: int, maxTotal: int, maxGas: int, maxFee: int,
                           maxTip: int, minBalance: int, maxSellBps: nat, maxSlippageBps: nat, maxOperations: nat,
                           windowSeconds: nat, maxUnresolved: nat)

  datatype Source = Source(op: OpId, wallet: Wallet, token: Token, policy: Version, buy: bool, amount: int,
                           gasLimit: int, feeCap: int, tipCap: int, balance: int, slippageBps: nat, sellBps: nat,
                           expiresAt: Time)

  datatype Key = Key(policy: Version, wallet: Wallet, token: Token, window: Time)

  datatype Usage = Usage(count: nat, reserved: int)

  datatype Decision = Decision(fingerprint: nat, reason: Reason)

  datatype Reason =
    | Admitted
    | ControlRejected | GateAttestationInvalid | SourceMismatch | TtlExpired | PolicyInvalid | NotAllowed | LaneBusy
    | RiskInputInvalid | OperationLimit | MinimumBalance | TradeLimit | RateLimit
    | WalletExposure | TokenExposure | GlobalExposure

  datatype Db = Db(
    policies: map<Version, Policy>,
    reservations: map<OpId, Reservation>,
    usage: map<Key, Usage>,
    decisions: map<RequestId, Decision>)

  /** exceeds: a limit that is not a canonical positive number is exceeded by everything. */
  predicate Exceeds(n: int, limit: int)
  {
    limit <= 0 || n > limit
  }

  predicate IsActive(r: Reservation)
  {
    r.state == Reserved || r.state == Frozen
  }

  /** Truncate to the window, counted from the clock's zero time; a zero duration leaves the time as it is. */
  function Window(now: Time, seconds: nat): Time
  {
    if seconds == 0 then now else now - now % seconds
  }

  function UsageAt(usage: map<Key, Usage>, k: Key): Usage
  {
    if k in usage then usage[k] else Usage(0, 0)
  }

  // Weights of the recounts

  function TokenWeight(policy: Version, token: Token): Reservation -> int
  {
    r => if IsActive(r) && r.policy == policy && r.token == token then r.amount else 0
  }

  function PolicyWeight(policy: Version): Reservation -> int
  {
    r => if IsActive(r) && r.policy == policy then r.amount else 0
  }

  function WalletWeight(wallet: Wallet): Reservation -> int
  {
    r => if IsActive(r) && r.wallet == wallet then 1 else 0
  }

  predicate InBucket(r: Reservation, k: Key, seconds: nat)
  {
    r.policy == k.policy && r.wallet == k.wallet && r.token == k.token && Window(r.createdAt, seconds) == k.window
  }

  function BucketCount(k: Key, seconds: nat): Reservation -> int
  {
    r => if InBucket(r, k, seconds) then 1 else 0
  }

  function BucketAmount(k: Key, seconds: nat): Reservation -> int
  {
    r => if InBucket(r, k, seconds) then r.amount else 0
  }

  // ---------------------------------------------------------------------------------------
  // The gate

  /** The checks of canaryRiskReason before it reads any table. */
  function InputReason(s: Source, p: Policy): Option<Reason>
  {
    if s.amount <= 0 || s.gasLimit <= 0 || s.feeCap <= 0 || s.tipCap <= 0 || s.balance <= 0 then Some(RiskInputInvalid)
    else if Exceeds(s.amount, p.maxOperation) || Exceeds(s.gasLimit, p.maxGas) || Exceeds(s.feeCap, p.maxFee)
            || Exceeds(s.tipCap, p.maxTip) then
      Some(OperationLimit)
    else if s.balance < s.gasLimit * s.feeCap + p.minBalance + (if s.buy then s.amount else 0) then Some(MinimumBalance)
    else if s.slippageBps > p.maxSlippageBps || (!s.buy && (s.sellBps == 0 || s.sellBps > p.maxSellBps)) then
      Some(TradeLimit)
    else None
  }

  /** canaryRiskReason; the totals are those of the active reservations of the policy. */
  function ExposureReason(u: Usage, tokenTotal: int, globalTotal: int, s: Source, p: Policy): Option<Reason>
  {
    if u.count >= p.maxOperations then Some(RateLimit)
    else if Exceeds(u.reserved + s.amount, p.maxWallet) then Some(WalletExposure)
    else if Exceeds(tokenTotal + s.amount, p.maxToken) then Some(TokenExposure)
    else if Exceeds(globalTotal + s.amount, p.maxTotal) then Some(GlobalExposure)
    else None
  }

  /** canaryGateReason after control, attestation, source and allowlist checks, which only read
      tables nothing here writes and arrive as `outer`. */
  ghost function GateReason(db: Db, s: Source, now: Time, outer: Option<Reason>): Reason
  {
    if outer.Some? then outer.value
    else if s.expiresAt <= now then TtlExpired
    else if s.policy !in db.policies then PolicyInvalid
    else
      var p := db.policies[s.policy];
      if Total(db.reservations, WalletWeight(s.wallet)) >= p.maxUnresolved then LaneBusy
      else if InputReason(s, p).Some? then InputReason(s, p).value
      else
        var k := Key(s.policy, s.wallet, s.token, Window(now, p.windowSeconds));
        var r := ExposureReason(UsageAt(db.usage, k), Total(db.reservations, TokenWeight(s.policy, s.token)),
                                Total(db.reservations, PolicyWeight(s.policy)), s, p);
        if r.Some? then r.value else Admitted
  }

  datatype Answer = Deduped | DuplicateRejected | Conflict | Decided(reason: Reason) | StoreError

  /** The answer to a request that was decided before; the control state keeps the last word. */
  function Repeated(d: Decision, fingerprint: nat, outer: Option<Reason>): Answer
  {
    if d.fingerprint != fingerprint then Conflict
    else if outer == Some(ControlRejected) then DuplicateRejected
    else Deduped
  }

  /** AdmitControlledCanary. A request seen before changes nothing, whatever it now says. */
  ghost function Admit(db: Db, request: RequestId, fingerprint: nat, s: Source, now: Time,
                       outer: Option<Reason>): (Db, Answer)
  {
    if request in db.decisions then
      (db, Repeated(db.decisions[request], fingerprint, outer))
    else
      var reason := GateReason(db, s, now, outer);
      var decided := db.(decisions := db.decisions[request := Decision(fingerprint, reason)]);
      if reason != Admitted || s.policy !in db.policies then (decided, Decided(reason))
      else if s.op in db.reservations then (db, StoreError)
      else
        var k := Key(s.policy, s.wallet, s.token, Window(now, db.policies[s.policy].windowSeconds));
        var u := UsageAt(db.usage, k);
        (decided.(usage := db.usage[k := Usage(u.count + 1, u.reserved + s.amount)],
                  reservations := db.reservations[s.op := Reservation(s.wallet, s.token, s.policy, s.amount,
                                                                      Reserved, now)]),
         Decided(Admitted))
  }

  /** Freeze, commit and release steps of the other components never make a row active again. */
  predicate MayBecome(from: RiskState, to: RiskState)
  {
    from == to || from == Reserved || (from == Frozen && to != Reserved)
  }

  // ---------------------------------------------------------------------------------------
  // Histories

  datatype Event =
    | AdmitEvent(request: RequestId, fingerprint: nat, source: Source, now: Time, outer: Option<Reason>)
    | SettleEvent(op: OpId, to: RiskState)
    | PolicyEvent(version: Version, policy: Policy)

  ghost predicate Step(db: Db, e: Event, db': Db)
  {
    match e
    case AdmitEvent(request, fingerprint, s, now, outer) =>
      outer != Some(Admitted) && db' == Admit(db, request, fingerprint, s, now, outer).0
    case SettleEvent(op, to) =>
      && op in db.reservations && MayBecome(db.reservations[op].state, to)
      && db' == db.(reservations := db.reservations[op := db.reservations[op].(state := to)])
    case PolicyEvent(version, p) =>
      version !in db.policies && db' == db.(policies := db.policies[version := p])
  }

  ghost predicate Next(db: Db, db': Db)
  {
    exists e :: Step(db, e, db')
  }

  ghost predicate StepAt(run: seq<Db>, i: nat)
    requires 0 < i < |run|
  {
    Next(run[i - 1], run[i])
  }

  ghost predicate IsRun(run: seq<Db>)
  {
    && |run| > 0 && run[0] == Db(map[], map[], map[], map[])
    && forall i {:trigger StepAt(run, i)} :: 0 < i < |run| ==> StepAt(run, i)
  }

  ghost predicate RowsOk(db: Db)
  {
    forall o :: o in db.reservations ==> db.reservations[o].amount > 0 && db.reservations[o].policy in db.policies
  }

  /** Active reservations of a policy stay within its total and token caps. */
  ghost predicate CapsOk(db: Db, v: Version)
    requires v in db.policies
  {
    && (Total(db.reservations, PolicyWeight(v)) == 0
        || Total(db.reservations, PolicyWeight(v)) <= db.policies[v].maxTotal)
    && forall t ::
        Total(db.reservations, TokenWeight(v, t)) == 0
        || Total(db.reservations, TokenWeight(v, t)) <= db.policies[v].maxToken
  }

  /** A usage row is an exact recount of every admission of its bucket, and within the caps. */
  ghost predicate BucketOk(db: Db, k: Key)
    requires k.policy in db.policies
  {
    var p := db.policies[k.policy];
    var u := UsageAt(db.usage, k);
    && u.count == Total(db.reservations, BucketCount(k, p.windowSeconds))
    && u.reserved == Total(db.reservations, BucketAmount(k, p.windowSeconds))
    && u.count <= p.maxOperations
    && (u.reserved == 0 || u.reserved <= p.maxWallet)
  }

  ghost predicate WalletOk(db: Db, w: Wallet, n: nat)
  {
    (forall v :: v in db.policies ==> db.policies[v].maxUnresolved <= n) ==>
      Total(db.reservations, WalletWeight(w)) <= n
  }

  ghost predicate Inv(db: Db)
  {
    && RowsOk(db)
    && (forall v {:trigger CapsOk(db, v)} :: v in db.policies ==> CapsOk(db, v))
    && (forall k: Key {:trigger BucketOk(db, k)} :: k.policy in db.policies ==> BucketOk(db, k))
    && (forall w, n {:trigger WalletOk(db, w, n)} :: WalletOk(db, w, n))
  }

  /** What an admission has established about the tables. */
  ghost predicate Passed(db: Db, s: Source, k: Key)
  {
    && s.policy in db.policies && s.amount > 0
    && k.policy == s.policy && k.wallet == s.wallet && k.token == s.token
    && var p := db.policies[s.policy];
      && Total(db.reservations, WalletWeight(s.wallet)) < p.maxUnresolved
      && UsageAt(db.usage, k).count < p.maxOperations
      && UsageAt(db.usage, k).reserved + s.amount <= p.maxWallet
      && Total(db.reservations, TokenWeight(s.policy, s.token)) + s.amount <= p.maxToken
      && Total(db.reservations, PolicyWeight(s.policy)) + s.amount <= p.maxTotal
  }

  lemma AdmittedPassed(db: Db, s: Source, now: Time, outer: Option<Reason>)
    requires GateReason(db, s, now, outer) == Admitted && outer != Some(Admitted)
    ensures s.policy in db.policies
    ensures Passed(db, s, Key(s.policy, s.wallet, s.token, Window(now, db.policies[s.policy].windowSeconds)))
  {
  }

  /** The per-operation limits in one conjunction. */
  predicate WithinOperationLimits(s: Source, p: Policy)
  {
    && 0 < s.amount <= p.maxOperation && 0 < s.gasLimit <= p.maxGas && 0 < s.feeCap <= p.maxFee
    && 0 < s.tipCap <= p.maxTip
    && s.balance > 0 && s.gasLimit * s.feeCap + p.minBalance + (if s.buy then s.amount else 0) <= s.balance
    && s.slippageBps <= p.maxSlippageBps && (s.buy || 0 < s.sellBps <= p.maxSellBps)
  }

  /** The gate admits exactly when the outer checks passed, the deadline lies ahead, the operation is
      within its limits, and one more operation stays within every cap. */
  lemma PassesExactlyWhen(db: Db, s: Source, now: Time, outer: Option<Reason>)
    requires outer != Some(Admitted)
    ensures GateReason(db, s, now, outer) == Admitted <==>
              && outer == None && now < s.expiresAt && s.policy in db.policies
              && WithinOperationLimits(s, db.policies[s.policy])
              && Passed(db, s, Key(s.policy, s.wallet, s.token, Window(now, db.policies[s.policy].windowSeconds)))
              && db.policies[s.policy].maxWallet > 0 && db.policies[s.policy].maxToken > 0
              && db.policies[s.policy].maxTotal > 0
  {
  }

  /** What a decision's reason claims, in terms of the operation and the totals the gate read. */
  ghost predicate Explains(db: Db, s: Source, now: Time, outer: Option<Reason>, reason: Reason)
  {
    && (reason == TtlExpired ==> s.expiresAt <= now)
    && (reason == PolicyInvalid ==> s.policy !in db.policies)
    && (s.policy in db.policies ==>
          var p := db.policies[s.policy];
          var u := UsageAt(db.usage, Key(s.policy, s.wallet, s.token, Window(now, p.windowSeconds)));
          && (reason == LaneBusy ==> Total(db.reservations, WalletWeight(s.wallet)) >= p.maxUnresolved)
          && (reason == RiskInputInvalid ==>
                s.amount <= 0 || s.gasLimit <= 0 || s.feeCap <= 0 || s.tipCap <= 0 || s.balance <= 0)
          && (reason == OperationLimit ==>
                0 < s.amount && 0 < s.gasLimit && 0 < s.feeCap && 0 < s.tipCap
                && (s.amount > p.maxOperation || s.gasLimit > p.maxGas || s.feeCap > p.maxFee || s.tipCap > p.maxTip))
          && (reason == MinimumBalance ==>
                s.balance < s.gasLimit * s.feeCap + p.minBalance + (if s.buy then s.amount else 0))
          && (reason == TradeLimit ==>
                s.slippageBps > p.maxSlippageBps || (!s.buy && !(0 < s.sellBps <= p.maxSellBps)))
          && (reason == RateLimit ==> u.count >= p.maxOperations)
          && (reason == WalletExposure ==> p.maxWallet <= 0 || u.reserved + s.amount > p.maxWallet)
          && (reason == TokenExposure ==>
                || p.maxToken <= 0
                || Total(db.reservations, TokenWeight(s.policy, s.token)) + s.amount > p.maxToken)
          && (reason == GlobalExposure ==>
                || p.maxTotal <= 0
                || Total(db.reservations, PolicyWeight(s.policy)) + s.amount > p.maxTotal))
  }

  /** A refusal names a check that fails, or repeats the outer verdict. */
  lemma ReasonExplains(db: Db, s: Source, now: Time, outer: Option<Reason>)
    ensures var reason := GateReason(db, s, now, outer);
            if outer.Some? then reason == outer.value else Explains(db, s, now, outer, reason)
  {
  }

  /** Each request is decided once, under the fingerprint and for the reason it first had; only an
      admitted operation that already has a reservation is left undecided, and then nothing changes. */
  lemma RequestIsDecidedOnce(db: Db, request: RequestId, fingerprint: nat, s: Source, now: Time, outer: Option<Reason>)
    ensures var r := Admit(db, request, fingerprint, s, now, outer);
            if request in db.decisions then r.0 == db && !r.1.Decided? && r.1 != StoreError
            else if r.1 == StoreError then r.0 == db && s.op in db.reservations
            else
              && r.1 == Decided(GateReason(db, s, now, outer))
              && r.0.decisions == db.decisions[request := Decision(fingerprint, GateReason(db, s, now, outer))]
              && (GateReason(db, s, now, outer) != Admitted ==> r.0 == db.(decisions := r.0.decisions))
  {
  }

  /** A request that was decided before is never decided again, and changes nothing: another fingerprint
      is a conflict, the same one a duplicate, which the control state may still refuse. */
  lemma RepeatedRequestChangesNothing(db: Db, request: RequestId, fingerprint: nat, s: Source, now: Time,
                                      outer: Option<Reason>, fingerprint': nat, s': Source, now': Time,
                                      outer': Option<Reason>)
    requires request !in db.decisions && Admit(db, request, fingerprint, s, now, outer).1 != StoreError
    ensures var db' := Admit(db, request, fingerprint, s, now, outer).0;
            Admit(db', request, fingerprint', s', now', outer') ==
              (db', if fingerprint' != fingerprint then Conflict
                    else if outer' == Some(ControlRejected) then DuplicateRejected else Deduped)
  {
    RequestIsDecidedOnce(db, request, fingerprint, s, now, outer);
  }

  /** The tables with one admitted row more. */
  ghost predicate Inserted(db: Db, s: Source, k: Key, row: Reservation, db': Db)
  {
    && s.op !in db.reservations && Passed(db, s, k)
    && row == Reservation(s.wallet, s.token, s.policy, s.amount, Reserved, row.createdAt)
    && Window(row.createdAt, db.policies[s.policy].windowSeconds) == k.window
    && db'.policies == db.policies
    && db'.reservations == db.reservations[s.op := row]
    && db'.usage == db.usage[k := Usage(UsageAt(db.usage, k).count + 1, UsageAt(db.usage, k).reserved + s.amount)]
  }

  lemma InsertKeepsCaps(db: Db, s: Source, k: Key, row: Reservation, db': Db, v: Version)
    requires v in db.policies && CapsOk(db, v) && Inserted(db, s, k, row, db')
    ensures CapsOk(db', v)
  {
    TotalInsert(db.reservations, s.op, row, PolicyWeight(v));
    forall t: Token
      ensures Total(db'.reservations, TokenWeight(v, t)) == 0
              || Total(db'.reservations, TokenWeight(v, t)) <= db.policies[v].maxToken
    {
      TotalInsert(db.reservations, s.op, row, TokenWeight(v, t));
    }
  }

  lemma InsertKeepsBucket(db: Db, s: Source, k: Key, row: Reservation, db': Db, k': Key)
    requires k'.policy in db.policies && BucketOk(db, k') && Inserted(db, s, k, row, db')
    ensures BucketOk(db', k')
  {
    var seconds := db.policies[k'.policy].windowSeconds;
    assert InBucket(row, k', seconds) <==> k' == k;
    TotalInsert(db.reservations, s.op, row, BucketCount(k', seconds));
    TotalInsert(db.reservations, s.op, row, BucketAmount(k', seconds));
  }

  lemma InsertKeepsWallet(db: Db, s: Source, k: Key, row: Reservation, db': Db, w: Wallet, n: nat)
    requires WalletOk(db, w, n) && Inserted(db, s, k, row, db')
    ensures WalletOk(db', w, n)
  {
    TotalInsert(db.reservations, s.op, row, WalletWeight(w));
  }

  lemma InsertKeepsInv(db: Db, s: Source, k: Key, row: Reservation, db': Db)
    requires Inv(db) && Inserted(db, s, k, row, db')
    ensures Inv(db')
  {
    forall v | v in db'.policies ensures CapsOk(db', v) {
      assert CapsOk(db, v);
      InsertKeepsCaps(db, s, k, row, db', v);
    }
    forall k': Key | k'.policy in db'.policies ensures BucketOk(db', k') {
      assert BucketOk(db, k');
      InsertKeepsBucket(db, s, k, row, db', k');
    }
    forall w: Wallet, n: nat ensures WalletOk(db', w, n) {
      assert WalletOk(db, w, n);
      InsertKeepsWallet(db, s, k, row, db', w, n);
    }
  }

  lemma AdmitKeepsInv(db: Db, request: RequestId, fingerprint: nat, s: Source, now: Time, outer: Option<Reason>)
    requires Inv(db) && outer != Some(Admitted)
    ensures Inv(Admit(db, request, fingerprint, s, now, outer).0)
  {
    var r := Admit(db, request, fingerprint, s, now, outer);
    if r.1 == Decided(Admitted) {
      AdmittedPassed(db, s, now, outer);
      var k := Key(s.policy, s.wallet, s.token, Window(now, db.policies[s.policy].windowSeconds));
      InsertKeepsInv(db, s, k, Reservation(s.wallet, s.token, s.policy, s.amount, Reserved, now), r.0);
    } else {
      DecisionsDoNotMatter(db, r.0);
    }
  }

  lemma DecisionsDoNotMatter(db: Db, db': Db)
    requires Inv(db) && db' == db.(decisions := db'.decisions)
    ensures Inv(db')
  {
    forall v | v in db'.policies ensures CapsOk(db', v) {
      assert CapsOk(db, v);
    }
    forall k: Key | k.policy in db'.policies ensures BucketOk(db', k) {
      assert BucketOk(db, k);
    }
    forall w: Wallet, n: nat ensures WalletOk(db', w, n) {
      assert WalletOk(db, w, n);
    }
  }

  lemma SettleKeepsCaps(db: Db, op: OpId, row: Reservation, db': Db, v: Version)
    requires RowsOk(db) && v in db.policies && CapsOk(db, v) && op in db.reservations
    requires row == db.reservations[op].(state := row.state) && MayBecome(db.reservations[op].state, row.state)
    requires db' == db.(reservations := db.reservations[op := row])
    ensures CapsOk(db', v)
  {
    ActiveTotalBelow(db, op, row, PolicyWeight(v));
    forall t: Token
      ensures Total(db'.reservations, TokenWeight(v, t)) == 0
              || Total(db'.reservations, TokenWeight(v, t)) <= db.policies[v].maxToken
    {
      ActiveTotalBelow(db, op, row, TokenWeight(v, t));
    }
  }

  lemma SettleKeepsBucket(db: Db, op: OpId, row: Reservation, db': Db, k: Key)
    requires k.policy in db.policies && BucketOk(db, k) && op in db.reservations
    requires row == db.reservations[op].(state := row.state) && db' == db.(reservations := db.reservations[op := row])
    ensures BucketOk(db', k)
  {
    var seconds := db.policies[k.policy].windowSeconds;
    TotalUpdate(db.reservations, op, row, BucketCount(k, seconds));
    TotalUpdate(db.reservations, op, row, BucketAmount(k, seconds));
  }

  lemma SettleKeepsWallet(db: Db, op: OpId, row: Reservation, db': Db, w: Wallet, n: nat)
    requires WalletOk(db, w, n) && op in db.reservations
    requires row == db.reservations[op].(state := row.state) && MayBecome(db.reservations[op].state, row.state)
    requires db' == db.(reservations := db.reservations[op := row])
    ensures WalletOk(db', w, n)
  {
    TotalUpdate(db.reservations, op, row, WalletWeight(w));
  }

  lemma SettleKeepsInv(db: Db, op: OpId, to: RiskState, db': Db)
    requires Inv(db) && op in db.reservations && MayBecome(db.reservations[op].state, to)
    requires db' == db.(reservations := db.reservations[op := db.reservations[op].(state := to)])
    ensures Inv(db')
  {
    var row := db.reservations[op].(state := to);
    forall v | v in db'.policies ensures CapsOk(db', v) {
      assert CapsOk(db, v);
      SettleKeepsCaps(db, op, row, db', v);
    }
    forall k: Key | k.policy in db'.policies ensures BucketOk(db', k) {
      assert BucketOk(db, k);
      SettleKeepsBucket(db, op, row, db', k);
    }
    forall w: Wallet, n: nat ensures WalletOk(db', w, n) {
      assert WalletOk(db, w, n);
      SettleKeepsWallet(db, op, row, db', w, n);
    }
  }

  /** A non-negative total that was 0 stays 0 when one row's weight does not grow. */
  lemma ActiveTotalBelow(db: Db, op: OpId, row: Reservation, weight: Reservation -> int)
    requires RowsOk(db) && op in db.reservations && weight(row) <= weight(db.reservations[op])
    requires forall o :: o in db.reservations ==> weight(db.reservations[o]) >= 0
    requires weight(row) >= 0
    ensures 0 <= Total(db.reservations[op := row], weight) <= Total(db.reservations, weight)
  {
    var rows' := db.reservations[op := row];
    TotalUpdate(db.reservations, op, row, weight);
    SumSubset({}, rows'.Keys, WeightOf(rows', weight));
  }

  lemma PolicyKeepsInv(db: Db, version: Version, p: Policy)
    requires Inv(db) && version !in db.policies
    requires forall k :: k in db.usage ==> k.policy in db.policies
    ensures Inv(db.(policies := db.policies[version := p]))
  {
    var db' := db.(policies := db.policies[version := p]);
    assert forall o :: o in db.reservations ==> db.reservations[o].policy != version;
    forall v | v in db'.policies ensures CapsOk(db', v) {
      if v == version {
        AllZero(db.reservations, PolicyWeight(v));
        forall t: Token ensures Total(db'.reservations, TokenWeight(v, t)) == 0 {
          AllZero(db.reservations, TokenWeight(v, t));
        }
      } else {
        assert CapsOk(db, v);
      }
    }
    forall k: Key | k.policy in db'.policies ensures BucketOk(db', k) {
      if k.policy == version {
        AllZero(db.reservations, BucketCount(k, p.windowSeconds));
        AllZero(db.reservations, BucketAmount(k, p.windowSeconds));
      } else {
        assert BucketOk(db, k);
      }
    }
    forall w: Wallet, n: nat ensures WalletOk(db', w, n) {
      assert WalletOk(db, w, n);
      assert forall v :: v in db.policies ==> v in db'.policies && db'.policies[v] == db.policies[v];
    }
  }

  lemma AllZero(rows: map<OpId, Reservation>, weight: Reservation -> int)
    requires forall o :: o in rows ==> weight(rows[o]) == 0
    ensures Total(rows, weight) == 0
  {
    SumFilter(rows.Keys, {}, WeightOf(rows, weight), WeightOf(rows, weight));
    assert rows.Keys * {} == {};
  }

  ghost predicate UsageOk(db: Db)
  {
    forall k :: k in db.usage ==> k.policy in db.policies
  }

  lemma {:induction false} RunKeepsInv(run: seq<Db>, i: nat)
    requires IsRun(run) && i < |run|
    ensures Inv(run[i]) && UsageOk(run[i])
  {
    if i == 0 {
      forall w: Wallet, n: nat ensures WalletOk(run[0], w, n) {
        TotalEmpty<OpId, Reservation>(WalletWeight(w));
      }
    } else {
      RunKeepsInv(run, i - 1);
      assert StepAt(run, i);
      var e :| Step(run[i - 1], e, run[i]);
      match e {
        case AdmitEvent(request, fingerprint, s, now, outer) =>
          AdmitKeepsInv(run[i - 1], request, fingerprint, s, now, outer);
        case SettleEvent(op, to) => SettleKeepsInv(run[i - 1], op, to, run[i]);
        case PolicyEvent(version, p) => PolicyKeepsInv(run[i - 1], version, p);
      }
    }
  }

  /** Each window bucket's usage row is exactly the number and sum of the admissions in it,
      released ones included, and respects the rate and wallet caps. */
  lemma BucketsAreRecountsWithinCaps(run: seq<Db>, i: nat, k: Key)
    requires IsRun(run) && i < |run| && k.policy in run[i].policies
    ensures BucketOk(run[i], k)
  {
    RunKeepsInv(run, i);
  }
}
