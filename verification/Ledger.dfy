/** Receipt observations and position effects of the recovery worker.

    Every row of the two tables belongs to one attempt (observations are unique in attempt and
    block hash, effects in attempt), so an attempt's rows are grouped in one `Entry`. Each of
    Observe, Canonicalize and Orphan is one transaction; None is an error with rollback. */
module Ledger {
  import opened Common

  type Attempt = nat
  type Wallet = nat
  type Asset = nat
  type Hash = nat

  datatype CanonicalState = Observed | CanonicalSuccess | CanonicalRevert | Orphaned

  datatype Observation = Observation(number: nat, success: bool, state: CanonicalState, version: nat)

  datatype Effect = Effect(asset: Asset, delta: int)

  datatype EffectRow = EffectRow(receipt: Hash, effect: Effect, active: bool)

  datatype Entry = Entry(obs: map<Hash, Observation>, effect: Option<EffectRow>)

  const EMPTY: Entry := Entry(map[], None)

  predicate IsCanonical(o: Observation)
  {
    o.state == CanonicalSuccess || o.state == CanonicalRevert
  }

  /** ListCanonicalReceiptObservations, as a set of block hashes. */
  function Canonical(e: Entry): set<Hash>
  {
    set h | h in e.obs && IsCanonical(e.obs[h])
  }

  /** ObserveReceiptFenced: the first sight of a receipt is kept; a later one must agree with it. */
  function Observe(e: Entry, h: Hash, number: nat, success: bool): Option<Entry>
  {
    if h !in e.obs then Some(e.(obs := e.obs[h := Observation(number, success, Observed, 1)]))
    else if e.obs[h].number == number && e.obs[h].success == success then Some(e)
    else None
  }

  /** CanonicalizeFenced. An already canonical observation returns early, changing nothing. An effect
      row that exists keeps its asset and delta; a different effect is an error. */
  function Canonicalize(e: Entry, h: Hash, effect: Option<Effect>): Option<Entry>
  {
    if h !in e.obs || IsCanonical(e.obs[h]) then Some(e)
    else
      var o := e.obs[h];
      if !o.success then Some(e.(obs := e.obs[h := o.(state := CanonicalRevert, version := o.version + 1)]))
      else if effect.None? then None
      else if e.effect.Some? && e.effect.value.effect != effect.value then None
      else Some(Entry(e.obs[h := o.(state := CanonicalSuccess, version := o.version + 1)],
                      Some(if e.effect.Some? then e.effect.value.(receipt := h, active := true)
                           else EffectRow(h, effect.value, true))))
  }

  /** OrphanFenced: the rollback is by attempt, whichever receipt the effect was applied from. */
  function Orphan(e: Entry, h: Hash): Entry
  {
    Entry(if h in e.obs && e.obs[h].state != Orphaned
          then e.obs[h := e.obs[h].(state := Orphaned, version := e.obs[h].version + 1)] else e.obs,
          if e.effect.Some? then Some(e.effect.value.(active := false)) else None)
  }

  // ---------------------------------------------------------------------------------------
  // Chains

  /** Facts about blocks, fixed once and for all by their hashes: height, the receipt of an
      attempt's transaction if the block holds it (true: succeeded), and the position effect the
      resolver reads from it (None: the resolver fails). */
  datatype World = World(
    height: Hash -> nat,
    receipt: (Hash, Attempt) -> Option<bool>,
    effect: (Hash, Attempt) -> Option<Effect>)

  /** What the node answers throughout one round: a chain of block hashes by height. */
  datatype View = View(chain: seq<Hash>)

  ghost predicate Consistent(w: World, v: View)
  {
    && |v.chain| > 0
    && (forall i :: 0 <= i < |v.chain| ==> w.height(v.chain[i]) == i)
    && (forall a, i, j :: 0 <= i < |v.chain| && 0 <= j < |v.chain| ==>
          w.receipt(v.chain[i], a).Some? && w.receipt(v.chain[j], a).Some? ==> i == j)
  }

  predicate On(v: View, number: nat, h: Hash)
  {
    number < |v.chain| && v.chain[number] == h
  }

  /** The block of the view that holds the attempt's transaction. */
  ghost predicate Included(w: World, v: View, a: Attempt, h: Hash)
  {
    On(v, w.height(h), h) && w.receipt(h, a).Some?
  }

  /** CanonicalPolicy.Confirm. */
  predicate Confirm(confirmations: nat, latest: nat, block: nat, observed: Hash, canonical: Hash)
  {
    observed == canonical && latest >= block && latest - block >= confirmations
  }

  ghost predicate Succeeded(w: World, v: View, a: Attempt)
  {
    exists h :: Included(w, v, a, h) && w.receipt(h, a) == Some(true)
  }

  ghost predicate ConfirmedAt(w: World, v: View, confirmations: nat, a: Attempt, h: Hash)
  {
    Included(w, v, a, h) && w.receipt(h, a) == Some(true) && |v.chain| - 1 - w.height(h) >= confirmations
  }

  ghost predicate Confirmed(w: World, v: View, confirmations: nat, a: Attempt)
  {
    exists h :: ConfirmedAt(w, v, confirmations, a, h)
  }

  lemma IncludedOnce(w: World, v: View, a: Attempt, h: Hash, h': Hash)
    requires Consistent(w, v) && Included(w, v, a, h) && Included(w, v, a, h')
    ensures h == h'
  {
    assert w.receipt(v.chain[w.height(h)], a).Some? && w.receipt(v.chain[w.height(h')], a).Some?;
  }

  // ---------------------------------------------------------------------------------------
  // Invariant of one attempt's rows, at every commit point

  /** Observations record what the chain fixes for their block. */
  ghost predicate ObservationsOk(w: World, a: Attempt, e: Entry)
  {
    forall h :: h in e.obs ==>
      && w.receipt(h, a) == Some(e.obs[h].success) && e.obs[h].number == w.height(h)
      && (e.obs[h].state == CanonicalSuccess ==> e.obs[h].success)
      && (e.obs[h].state == CanonicalRevert ==> !e.obs[h].success)
  }

  ghost predicate AtMostOneCanonical(e: Entry)
  {
    forall h, h' :: h in Canonical(e) && h' in Canonical(e) ==> h == h'
  }

  ghost predicate IsActive(e: Entry)
  {
    e.effect.Some? && e.effect.value.active
  }

  ghost predicate HasSuccess(e: Entry)
  {
    exists h :: h in e.obs && e.obs[h].state == CanonicalSuccess
  }

  /** The effect is active exactly when an observation is canonical_success, and then it is the
      effect of that observation's block. */
  ghost predicate EffectInStep(w: World, a: Attempt, e: Entry)
  {
    && (IsActive(e) <==> HasSuccess(e))
    && (IsActive(e) ==>
          && e.effect.value.receipt in e.obs && e.obs[e.effect.value.receipt].state == CanonicalSuccess
          && w.effect(e.effect.value.receipt, a) == Some(e.effect.value.effect))
  }

  ghost predicate EntryOk(w: World, a: Attempt, e: Entry)
  {
    ObservationsOk(w, a, e) && AtMostOneCanonical(e) && EffectInStep(w, a, e)
  }

  /** What a completed round establishes for an attempt. */
  ghost predicate Agrees(w: World, v: View, confirmations: nat, a: Attempt, e: Entry)
  {
    && AtMostOneCanonical(e)
    && (forall h :: h in Canonical(e) ==> Included(w, v, a, h))
    && (IsActive(e) ==> Included(w, v, a, e.effect.value.receipt) && w.receipt(e.effect.value.receipt, a) == Some(true)
                        && w.effect(e.effect.value.receipt, a) == Some(e.effect.value.effect))
    && (Confirmed(w, v, confirmations, a) ==> IsActive(e))
  }

  // ---------------------------------------------------------------------------------------
  // The three transactions keep the invariant

  /** A receipt is recorded exactly when it does not contradict what is stored for its block, and never
      changes that. */
  lemma ObservesExactlyWhen(e: Entry, h: Hash, number: nat, success: bool)
    ensures Observe(e, h, number, success).Some? <==>
              (h in e.obs ==> (e.obs[h].number, e.obs[h].success) == (number, success))
    ensures Observe(e, h, number, success).Some? ==>
              var e' := Observe(e, h, number, success).value;
              && e'.effect == e.effect && e'.obs.Keys == e.obs.Keys + {h}
              && (forall k :: k in e.obs ==> e'.obs[k] == e.obs[k])
              && (e'.obs[h].number, e'.obs[h].success) == (number, success)
  {
  }

  lemma ObserveKeeps(w: World, a: Attempt, e: Entry, h: Hash)
    requires EntryOk(w, a, e) && w.receipt(h, a).Some?
    ensures var r := Observe(e, h, w.height(h), w.receipt(h, a).value);
            && r.Some? && EntryOk(w, a, r.value) && h in r.value.obs
            && Canonical(r.value) == Canonical(e) && r.value.effect == e.effect
  {
    var e' := Observe(e, h, w.height(h), w.receipt(h, a).value).value;
    assert forall k :: k in e.obs ==> k in e'.obs && e'.obs[k] == e.obs[k];
    assert Canonical(e') == Canonical(e);
    if HasSuccess(e) {
      var k :| k in e.obs && e.obs[k].state == CanonicalSuccess;
      assert k in e'.obs && e'.obs[k].state == CanonicalSuccess;
    }
  }

  lemma OrphanKeeps(w: World, a: Attempt, e: Entry, h: Hash)
    requires EntryOk(w, a, e) && h in Canonical(e)
    ensures EntryOk(w, a, Orphan(e, h))
    ensures Canonical(Orphan(e, h)) == Canonical(e) - {h}
    ensures forall k :: k in e.obs ==> k in Orphan(e, h).obs && Orphan(e, h).obs[k].number == e.obs[k].number
  {
    var e' := Orphan(e, h);
    assert Canonical(e') == Canonical(e) - {h};
    forall k | k in e'.obs ensures e'.obs[k].state != CanonicalSuccess {
      assert k != h ==> k !in Canonical(e);
    }
  }

  /** Confirming a block is safe when no other block of the attempt is canonical. */
  lemma CanonicalizeKeeps(w: World, a: Attempt, e: Entry, h: Hash)
    requires EntryOk(w, a, e) && h in e.obs && Canonical(e) <= {h}
    requires Canonicalize(e, h, w.effect(h, a)).Some?
    ensures var e' := Canonicalize(e, h, w.effect(h, a)).value;
            && EntryOk(w, a, e') && Canonical(e') == {h} && e'.obs.Keys == e.obs.Keys
            && (w.receipt(h, a) == Some(true) ==> IsActive(e'))
  {
    var e' := Canonicalize(e, h, w.effect(h, a)).value;
    assert forall k :: k in e.obs && k != h ==> k !in Canonical(e) && e'.obs[k] == e.obs[k];
    if w.receipt(h, a) == Some(true) {
      assert h in e'.obs && e'.obs[h].state == CanonicalSuccess;
    } else {
      assert forall k :: k in e'.obs ==> e'.obs[k].state != CanonicalSuccess;
      assert !HasSuccess(e);
    }
  }
}
