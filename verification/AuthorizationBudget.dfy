/** The lifetime budget of a runtime authorization: an incremental count and total beside one row
    per operation, which is never refunded. */
module AuthorizationBudget {
  import opened Common
  import opened Totals

  type AuthId = nat
  type OpId = nat
  type Time = nat

  const UINT64: nat := 0x1_0000_0000_0000_0000

  const MAX_INTEGER: nat := 0x7FFF_FFFF_FFFF_FFFF

  /** `maxTotal` is the canonical positive number of the stored text; 0 if it is none. */
  datatype Authorization = Authorization(armed: bool, expiresAt: Time, maxOperations: nat, maxTotal: nat)

  datatype Usage = Usage(count: nat, total: nat)

  datatype UseState = Reserved | Consumed | Frozen | Released

  datatype Key = Key(auth: AuthId, op: OpId)

  datatype Use = Use(auth: AuthId, amount: nat, state: UseState)

  datatype Db = Db(auths: map<AuthId, Authorization>, usage: map<AuthId, Usage>, uses: map<Key, Use>)

  datatype Answer = Reserved(duplicate: bool) | Rejected | IdempotencyConflict

  /** ReserveRuntimeAuthorizationBudget; the operation count is a 64-bit unsigned integer. */
  function Reserve(db: Db, a: AuthId, op: OpId, amount: int, now: Time): (Db, Answer)
  {
    if amount <= 0 || a !in db.auths || a !in db.usage || !db.auths[a].armed || db.auths[a].expiresAt <= now then
      (db, Rejected)
    else if Key(a, op) in db.uses then
      (db, if db.uses[Key(a, op)].amount == amount then Answer.Reserved(true) else IdempotencyConflict)
    else
      var u := db.usage[a];
      if db.auths[a].maxTotal == 0 || (u.count + 1) % UINT64 > db.auths[a].maxOperations
         || u.total + amount > db.auths[a].maxTotal then
        (db, Rejected)
      else
        (db.(usage := db.usage[a := Usage((u.count + 1) % UINT64, u.total + amount)],
             uses := db.uses[Key(a, op) := Use(a, amount, UseState.Reserved)]),
         Answer.Reserved(false))
  }

  function CountOf(a: AuthId): Use -> int
  {
    (u: Use) => if u.auth == a then 1 else 0
  }

  function AmountOf(a: AuthId): Use -> int
  {
    (u: Use) => if u.auth == a then u.amount else 0
  }

  datatype Event =
    | ReserveEvent(a: AuthId, op: OpId, amount: int, now: Time)
    | AuthorizeEvent(a: AuthId, auth: Authorization)
    | ArmEvent(a: AuthId, armed: bool, expiresAt: Time)
    | SettleEvent(k: Key, to: UseState)

  ghost predicate Step(db: Db, e: Event, db': Db)
  {
    match e
    case ReserveEvent(a, op, amount, now) => db' == Reserve(db, a, op, amount, now).0
    case AuthorizeEvent(a, auth) =>
      && a !in db.auths && auth.maxOperations <= MAX_INTEGER
      && db' == db.(auths := db.auths[a := auth], usage := db.usage[a := Usage(0, 0)])
    case ArmEvent(a, armed, expiresAt) =>
      a in db.auths && db' == db.(auths := db.auths[a := db.auths[a].(armed := armed, expiresAt := expiresAt)])
    case SettleEvent(k, to) => k in db.uses && db' == db.(uses := db.uses[k := db.uses[k].(state := to)])
  }

  ghost predicate Next(db: Db, db': Db)
  {
    exists e :: Step(db, e, db')
  }

  ghost predicate StepAt(run: seq<Db>, i: nat)
    requires 0 < i < |run|
  {
    Next(run[i - 1], run[i])
  }

  ghost predicate IsRun(run: seq<Db>)
  {
    && |run| > 0 && run[0] == Db(map[], map[], map[])
    && forall i {:trigger StepAt(run, i)} :: 0 < i < |run| ==> StepAt(run, i)
  }

  /** The incremental row is an exact recount, within the caps. */
  ghost predicate UsageOk(db: Db, a: AuthId)
    requires a in db.usage
  {
    && a in db.auths && db.auths[a].maxOperations <= MAX_INTEGER
    && db.usage[a].count == Total(db.uses, CountOf(a))
    && db.usage[a].total == Total(db.uses, AmountOf(a))
    && db.usage[a].count <= db.auths[a].maxOperations
    && db.usage[a].total <= db.auths[a].maxTotal
  }

  ghost predicate KeysOk(db: Db)
  {
    && (forall k :: k in db.uses ==> db.uses[k].auth == k.auth && k.auth in db.usage)
    && db.auths.Keys == db.usage.Keys
  }

  ghost predicate Inv(db: Db)
  {
    KeysOk(db) && forall a {:trigger UsageOk(db, a)} :: a in db.usage ==> UsageOk(db, a)
  }

  lemma NoUses(db: Db, a: AuthId)
    requires Inv(db) && a !in db.usage
    ensures Total(db.uses, CountOf(a)) == 0 && Total(db.uses, AmountOf(a)) == 0
  {
    SumFilter(db.uses.Keys, {}, WeightOf(db.uses, CountOf(a)), WeightOf(db.uses, CountOf(a)));
    SumFilter(db.uses.Keys, {}, WeightOf(db.uses, AmountOf(a)), WeightOf(db.uses, AmountOf(a)));
    assert db.uses.Keys * {} == {};
  }

  lemma ReserveKeepsUsage(db: Db, a: AuthId, op: OpId, amount: int, now: Time, b: AuthId)
    requires Inv(db) && b in db.usage
    ensures b in Reserve(db, a, op, amount, now).0.usage && UsageOk(Reserve(db, a, op, amount, now).0, b)
  {
    assert UsageOk(db, b);
    if Reserve(db, a, op, amount, now).1 == Answer.Reserved(false) {
      assert UsageOk(db, a);
      TotalInsert(db.uses, Key(a, op), Use(a, amount, UseState.Reserved), CountOf(b));
      TotalInsert(db.uses, Key(a, op), Use(a, amount, UseState.Reserved), AmountOf(b));
    }
  }

  lemma SettleKeepsUsage(db: Db, k: Key, to: UseState, db': Db, b: AuthId)
    requires b in db.usage && UsageOk(db, b) && k in db.uses
             && db' == db.(uses := db.uses[k := db.uses[k].(state := to)])
    ensures UsageOk(db', b)
  {
    TotalUpdate(db.uses, k, db.uses[k].(state := to), CountOf(b));
    TotalUpdate(db.uses, k, db.uses[k].(state := to), AmountOf(b));
  }

  lemma StepKeepsUsage(db: Db, e: Event, db': Db, b: AuthId)
    requires Inv(db) && Step(db, e, db') && b in db'.usage
    ensures UsageOk(db', b)
  {
    if b !in db.usage {
      NoUses(db, b);
    } else {
      assert UsageOk(db, b);
      match e {
        case ReserveEvent(a, op, amount, now) => ReserveKeepsUsage(db, a, op, amount, now, b);
        case SettleEvent(k, to) => SettleKeepsUsage(db, k, to, db', b);
        case _ =>
      }
    }
  }

  lemma StepKeepsInv(db: Db, e: Event, db': Db)
    requires Inv(db) && Step(db, e, db')
    ensures Inv(db')
  {
    forall b | b in db'.usage ensures UsageOk(db', b) {
      StepKeepsUsage(db, e, db', b);
    }
    StepKeepsKeys(db, e, db');
  }

  lemma StepKeepsKeys(db: Db, e: Event, db': Db)
    requires KeysOk(db) && Step(db, e, db')
    ensures KeysOk(db')
  {
  }

  lemma {:induction false} RunKeepsInv(run: seq<Db>, i: nat)
    requires IsRun(run) && i < |run|
    ensures Inv(run[i])
  {
    if i > 0 {
      RunKeepsInv(run, i - 1);
      assert StepAt(run, i);
      var e :| Step(run[i - 1], e, run[i]);
      StepKeepsInv(run[i - 1], e, run[i]);
    }
  }

  /** In every reachable state the incremental count and total equal a recount of the operation
      rows, whatever became of those operations, and are within the caps. */
  lemma BudgetIsARecountWithinCaps(run: seq<Db>, i: nat, a: AuthId)
    requires IsRun(run) && i < |run| && a in run[i].usage
    ensures a in run[i].auths
    ensures run[i].usage[a].count == Total(run[i].uses, CountOf(a)) <= run[i].auths[a].maxOperations
    ensures run[i].usage[a].total == Total(run[i].uses, AmountOf(a)) <= run[i].auths[a].maxTotal
  {
    RunKeepsInv(run, i);
    assert UsageOk(run[i], a);
  }

  /** The operations charged to an authorization, whatever became of them. */
  function ChargedTo(uses: map<Key, Use>, a: AuthId): set<Key>
  {
    set k | k in uses && k.auth == a
  }

  function ChargeIn(uses: map<Key, Use>): Key -> int
  {
    (k: Key) => if k in uses then uses[k].amount else 0
  }

  lemma UsageIsCharged(db: Db, a: AuthId)
    requires Inv(db) && a in db.usage
    ensures a in db.auths
    ensures db.usage[a].count == |ChargedTo(db.uses, a)|
    ensures db.usage[a].total == Sum(ChargedTo(db.uses, a), ChargeIn(db.uses))
  {
    assert UsageOk(db, a);
    var charged := ChargedTo(db.uses, a);
    TotalIsCount(db.uses, CountOf(a), charged);
    TotalIsSum(db.uses, AmountOf(a), charged, ChargeIn(db.uses));
  }

  /** In every reachable state an operation that was not charged before is reserved if and only if the
      authorization is armed and unexpired, the amount is positive, and count and sum of everything
      charged so far leave room for it under both caps. Nothing but that one row is then added. */
  lemma ReservedExactlyWhen(run: seq<Db>, i: nat, a: AuthId, op: OpId, amount: int, now: Time)
    requires IsRun(run) && i < |run| && Key(a, op) !in run[i].uses
    ensures var db, r := run[i], Reserve(run[i], a, op, amount, now);
            && (r.1 == Answer.Reserved(false) <==>
                  && a in db.auths && db.auths[a].armed && now < db.auths[a].expiresAt && amount > 0
                  && |ChargedTo(db.uses, a)| + 1 <= db.auths[a].maxOperations
                  && Sum(ChargedTo(db.uses, a), ChargeIn(db.uses)) + amount <= db.auths[a].maxTotal)
            && (r.1 == Answer.Reserved(false) ==>
                  r.0.uses == db.uses[Key(a, op) := Use(a, amount, UseState.Reserved)] && r.0.auths == db.auths)
            && (r.1 != Answer.Reserved(false) ==> r == (db, Rejected))
  {
    assert Inv(run[i]) by {
      RunKeepsInv(run, i);
    }
    if a in run[i].usage {
      UsageIsCharged(run[i], a);
      CountDoesNotWrap(run[i], a);
    } else {
      assert a !in run[i].auths;
    }
  }

  lemma CountDoesNotWrap(db: Db, a: AuthId)
    requires Inv(db) && a in db.usage
    ensures (db.usage[a].count + 1) % UINT64 == db.usage[a].count + 1
  {
    assert UsageOk(db, a);
  }

  /** Nothing is ever refunded: count and total only grow along a run. */
  lemma {:induction false} BudgetNeverShrinks(run: seq<Db>, i: nat, j: nat, a: AuthId)
    requires IsRun(run) && i <= j < |run| && a in run[i].usage
    ensures a in run[j].usage
    ensures run[i].usage[a].count <= run[j].usage[a].count && run[i].usage[a].total <= run[j].usage[a].total
    decreases j - i
  {
    if i < j {
      BudgetNeverShrinks(run, i, j - 1, a);
      RunKeepsInv(run, j - 1);
      assert UsageOk(run[j - 1], a);
      assert StepAt(run, j);
      var e :| Step(run[j - 1], e, run[j]);
      assert run[j - 1].auths.Keys == run[j - 1].usage.Keys;
    }
  }

  /** Reserving the same operation again changes nothing, with any amount; with the same amount it
      reports the duplicate as long as the authorization is still usable. */
  lemma RepeatedReserveChangesNothing(db: Db, a: AuthId, op: OpId, amount: int, now: Time, amount': int, now': Time)
    requires Reserve(db, a, op, amount, now).1.Reserved?
    ensures var db' := Reserve(db, a, op, amount, now).0;
            && Reserve(db', a, op, amount', now').0 == db'
            && (Reserve(db', a, op, amount', now').1 == Answer.Reserved(true)
                <==> amount' == amount && now' < db.auths[a].expiresAt)
            && (Reserve(db', a, op, amount', now').1 == IdempotencyConflict
                <==> amount' != amount && amount' > 0 && now' < db.auths[a].expiresAt)
  {
    var db' := Reserve(db, a, op, amount, now).0;
    assert Key(a, op) in db'.uses && db'.uses[Key(a, op)].amount == amount;
  }
}

/** The runtime store: leases and budgets updated in place. */
module RuntimeStore {
  import opened Common
  import opened Totals
  import L = Leases
  import B = AuthorizationBudget

  class Store {
    var leases: L.Table
    var auths: map<B.AuthId, B.Authorization>
    var usage: map<B.AuthId, B.Usage>
    var uses: map<B.Key, B.Use>

    ghost function Budget(): B.Db
      reads this
    {
      B.Db(auths, usage, uses)
    }

    /** AcquireNextCanaryWorkerLease: read the prior row, then write only over that exact row. */
    method AcquireNext(key: L.Key, holder: L.Name, ttl: int, now: L.Time) returns (epoch: Option<nat>)
      modifies this`leases
      ensures match L.AcquireNext(old(leases), key, holder, ttl, now)
              case Some(r) => epoch == Some(r.1) && leases == r.0
              case None => epoch == None && leases == old(leases)
    {
      if key.environment == 0 || holder == 0 || ttl <= 0 {
        return None;
      }
      var next := 1;
      if key in leases {
        if now < leases[key].expires || leases[key].epoch >= L.MAX_EPOCH {
          return None;
        }
        next := leases[key].epoch + 1;
      }
      leases := leases[key := L.Lease(holder, next, now + ttl, now)];
      return Some(next);
    }

    /** RenewCanaryWorkerLease. */
    method Renew(f: L.Fence, ttl: int) returns (ok: bool)
      modifies this`leases
      ensures match L.Renew(old(leases), f, ttl)
              case Some(t) => ok && leases == t
              case None => !ok && leases == old(leases)
    {
      ok := ttl > 0 && L.Holds(leases, f);
      if ok {
        leases := leases[f.key := leases[f.key].(expires := f.clock + ttl, updated := f.clock)];
      }
    }

    /** ReserveRuntimeAuthorizationBudget: the operation row first, then the incremental row. */
    method Reserve(a: B.AuthId, op: B.OpId, amount: int, now: B.Time) returns (answer: B.Answer)
      modifies this`usage, this`uses
      ensures (Budget(), answer) == B.Reserve(old(Budget()), a, op, amount, now)
    {
      if amount <= 0 || a !in auths || a !in usage || !auths[a].armed || auths[a].expiresAt <= now {
        return B.Rejected;
      }
      var k := B.Key(a, op);
      if k in uses {
        return if uses[k].amount == amount then B.Answer.Reserved(true) else B.IdempotencyConflict;
      }
      var count, total := (usage[a].count + 1) % B.UINT64, usage[a].total + amount;
      if auths[a].maxTotal == 0 || count > auths[a].maxOperations || total > auths[a].maxTotal {
        return B.Rejected;
      }
      uses := uses[k := B.Use(a, amount, B.UseState.Reserved)];
      usage := usage[a := B.Usage(count, total)];
      return B.Answer.Reserved(false);
    }

    /** The loop over the stored commands: every command must verify and match its row, and the sum
        must fit in 256 bits. */
    method SumCommands(a: B.AuthId, commands: map<B.OpId, Option<nat>>) returns (r: Option<nat>)
      ensures r.Some? <==>
                && (forall op :: op in commands ==> Matches(commands, a, uses, op))
                && Sum(KeysFor(a, commands.Keys), WeightOf(uses, B.AmountOf(a))) < UINT256
      ensures r.Some? ==> r.value == Sum(KeysFor(a, commands.Keys), WeightOf(uses, B.AmountOf(a)))
    {
      var sum: nat, todo := 0, commands.Keys;
      ghost var done: set<B.OpId> := {};
      while todo != {}
        invariant done == commands.Keys - todo && todo <= commands.Keys
        invariant forall op :: op in done ==> Matches(commands, a, uses, op)
        invariant sum == Sum(KeysFor(a, done), WeightOf(uses, B.AmountOf(a))) && sum < UINT256
        decreases todo
      {
        var op :| op in todo;
        if commands[op].None? || B.Key(a, op) !in uses || uses[B.Key(a, op)].auth != a
           || uses[B.Key(a, op)].amount != commands[op].value {
          assert !Matches(commands, a, uses, op);
          return None;
        }
        OneMoreKey(a, done, op, uses);
        sum, todo, done := sum + commands[op].value, todo - {op}, done + {op};
        if sum >= UINT256 {
          assert KeysFor(a, done) <= KeysFor(a, commands.Keys);
          SumSubset(KeysFor(a, done), KeysFor(a, commands.Keys), WeightOf(uses, B.AmountOf(a)));
          return None;
        }
      }
      assert done == commands.Keys;
      return Some(sum);
    }

    /** verifyManualAuthorizationUsage: recount the operation rows from the stored commands and compare.
        `commands` holds the input of each command of the authorization, None if the command does not
        verify. It accepts exactly when the commands are those of the rows, the incremental row is an
        exact recount of them, and the caps hold. */
    method VerifyUsage(a: B.AuthId, commands: map<B.OpId, Option<nat>>) returns (r: Option<B.Usage>)
      ensures r.Some? ==> a in usage && r.value == usage[a]
      ensures r.Some? <==>
                && a in usage && a in auths && CommandsMatch(commands, a, uses)
                && usage[a].count == Total(uses, B.CountOf(a)) <= auths[a].maxOperations
                && usage[a].total == Total(uses, B.AmountOf(a)) <= auths[a].maxTotal
                && 0 < auths[a].maxTotal < UINT256
    {
      var rows := |set k | k in uses && uses[k].auth == a|;
      assert rows == Total(uses, B.CountOf(a)) by {
        RowsAreCounted(uses, a);
        assert RowsOf(uses, a) == set k | k in uses && uses[k].auth == a;
      }
      KeysAreCounted(a, commands.Keys);
      if a !in usage || a !in auths || usage[a].count != rows || rows != |commands| {
        RowsAreCounted(uses, a);
        return None;
      }
      var sum := SumCommands(a, commands);
      CommandsCoverRows(a, commands, uses);
      if sum.None? || usage[a].total != sum.value || usage[a].count > auths[a].maxOperations || auths[a].maxTotal == 0
         || auths[a].maxTotal >= UINT256 || sum.value > auths[a].maxTotal {
        return None;
      }
      return Some(usage[a]);
    }
  }

  /** When every command has its row and there are as many of either, the commands are those of the
      rows, and their sum is that of the rows. */
  lemma CommandsCoverRows(a: B.AuthId, commands: map<B.OpId, Option<nat>>, uses: map<B.Key, B.Use>)
    requires |commands| == Total(uses, B.CountOf(a))
    ensures CommandsMatch(commands, a, uses) <==> forall op :: op in commands ==> Matches(commands, a, uses, op)
    ensures CommandsMatch(commands, a, uses) ==>
              Sum(KeysFor(a, commands.Keys), WeightOf(uses, B.AmountOf(a))) == Total(uses, B.AmountOf(a))
  {
    if forall op :: op in commands ==> Matches(commands, a, uses, op) {
      RowsAreCounted(uses, a);
      KeysAreRows(a, commands.Keys, commands, uses);
      KeysAreCounted(a, commands.Keys);
      assert |commands.Keys| == |commands|;
      SameSize(KeysFor(a, commands.Keys), RowsOf(uses, a));
      RowsAreSummed(uses, a, KeysFor(a, commands.Keys));
    }
  }

  ghost function RowsOf(uses: map<B.Key, B.Use>, a: B.AuthId): set<B.Key>
  {
    set k | k in uses && uses[k].auth == a
  }

  ghost function KeysFor(a: B.AuthId, ops: set<B.OpId>): set<B.Key>
  {
    set op | op in ops :: B.Key(a, op)
  }

  /** The command of this operation verifies and its input is what its row says. */
  ghost predicate Matches(commands: map<B.OpId, Option<nat>>, a: B.AuthId, uses: map<B.Key, B.Use>, op: B.OpId)
    requires op in commands
  {
    B.Key(a, op) in uses && uses[B.Key(a, op)].auth == a && commands[op] == Some(uses[B.Key(a, op)].amount)
  }

  /** The commands of an authorization are exactly those its rows were written for. */
  ghost predicate CommandsMatch(commands: map<B.OpId, Option<nat>>, a: B.AuthId, uses: map<B.Key, B.Use>)
  {
    (forall op :: op in commands ==> Matches(commands, a, uses, op)) && RowsOf(uses, a) == KeysFor(a, commands.Keys)
  }

  lemma RowsAreCounted(uses: map<B.Key, B.Use>, a: B.AuthId)
    ensures |RowsOf(uses, a)| == Total(uses, B.CountOf(a))
  {
    CountIsSum(uses.Keys, RowsOf(uses, a), WeightOf(uses, B.CountOf(a)));
    assert uses.Keys * RowsOf(uses, a) == RowsOf(uses, a);
  }

  lemma RowsAreSummed(uses: map<B.Key, B.Use>, a: B.AuthId, keys: set<B.Key>)
    requires keys <= RowsOf(uses, a)
    ensures Sum(keys, WeightOf(uses, B.AmountOf(a))) <= Total(uses, B.AmountOf(a))
    ensures keys == RowsOf(uses, a) ==> Sum(keys, WeightOf(uses, B.AmountOf(a))) == Total(uses, B.AmountOf(a))
  {
    var weight := WeightOf(uses, B.AmountOf(a));
    SumSubset(keys, uses.Keys, weight);
    SumFilter(uses.Keys, RowsOf(uses, a), weight, weight);
    assert uses.Keys * RowsOf(uses, a) == RowsOf(uses, a);
  }

  lemma {:induction false} KeysAreCounted(a: B.AuthId, ops: set<B.OpId>)
    ensures |KeysFor(a, ops)| == |ops|
    decreases ops
  {
    if ops == {} {
      assert KeysFor(a, ops) == {};
    } else {
      var op :| op in ops;
      KeysAreCounted(a, ops - {op});
      assert KeysFor(a, ops) == KeysFor(a, ops - {op}) + {B.Key(a, op)};
    }
  }

  lemma OneMoreKey(a: B.AuthId, done: set<B.OpId>, op: B.OpId, uses: map<B.Key, B.Use>)
    requires op !in done && B.Key(a, op) in uses && uses[B.Key(a, op)].auth == a
    ensures Sum(KeysFor(a, done + {op}), WeightOf(uses, B.AmountOf(a))) ==
              Sum(KeysFor(a, done), WeightOf(uses, B.AmountOf(a))) + uses[B.Key(a, op)].amount
  {
    assert KeysFor(a, done + {op}) == KeysFor(a, done) + {B.Key(a, op)};
    SumInsert(KeysFor(a, done), B.Key(a, op), WeightOf(uses, B.AmountOf(a)));
  }

  lemma KeysAreRows(a: B.AuthId, ops: set<B.OpId>, commands: map<B.OpId, Option<nat>>, uses: map<B.Key, B.Use>)
    requires ops <= commands.Keys && forall op :: op in ops ==> Matches(commands, a, uses, op)
    ensures KeysFor(a, ops) <= RowsOf(uses, a)
  {
  }

  lemma SameSize<T>(s: set<T>, t: set<T>)
    requires s <= t && |s| == |t|
    ensures s == t
  {
    assert t == s + (t - s);
    assert |t| == |s| + |t - s|;
  }
}
