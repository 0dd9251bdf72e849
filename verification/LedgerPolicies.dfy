/** Account policies: what setting, activating and deactivating one changes, and what the ledger enforces. */
module LedgerPolicies {
  import opened Basics
  import opened Transactions
  import opened TxMessage
  import opened Ledger
  import opened LedgerInvariant

  // ----- one account -----

  ghost predicate OneRowEach(rows: seq<DeferredPolicy>) {
    forall i, j :: 0 <= i < j < |rows| ==> rows[i].policy != rows[j].policy
  }

  /** Each policy has one deferred row at most, and one that is still ahead is in neither set. */
  ghost predicate PoliciesOk(a: Account, height: u64) {
    && OneRowEach(a.deferred) && a.active !! a.dormant
    && forall i :: 0 <= i < |a.deferred| && a.deferred[i].activateAtHeight > height ==>
      a.deferred[i].policy !in a.active && a.deferred[i].policy !in a.dormant
  }

  lemma OneRowTail(rows: seq<DeferredPolicy>)
    requires OneRowEach(rows) && rows != []
    ensures OneRowEach(rows[1..]) && forall r :: r in rows[1..] ==> r.policy != rows[0].policy
  {
    assert forall i :: 0 <= i < |rows[1..]| ==> rows[1..][i] == rows[i + 1];
  }

  lemma {:induction false} NoneDeferred(rows: seq<DeferredPolicy>, p: PolicyKind)
    requires forall r :: r in rows ==> r.policy != p
    ensures DeferredHeight(rows, p) == None
  {
    if rows != [] {
      NoneDeferred(rows[1..], p);
    }
  }

  lemma {:induction false} WithoutRows(rows: seq<DeferredPolicy>, p: PolicyKind)
    ensures forall r :: r in Without(rows, p) <==> r in rows && r.policy != p
    ensures OneRowEach(rows) ==> OneRowEach(Without(rows, p))
  {
    if rows != [] {
      WithoutRows(rows[1..], p);
      if OneRowEach(rows) {
        OneRowTail(rows);
      }
    }
  }

  lemma MaturedHead(rows: seq<DeferredPolicy>, q: PolicyKind, height: u64)
    requires rows != []
    ensures Matured(rows, q, height)
      == ((rows[0].policy == q && height >= rows[0].activateAtHeight) || Matured(rows[1..], q, height))
  {
    if i :| 0 <= i < |rows| && rows[i].policy == q && height >= rows[i].activateAtHeight {
      if i > 0 {
        assert rows[1..][i - 1] == rows[i];
      }
    }
    if Matured(rows[1..], q, height) {
      var i :| 0 <= i < |rows[1..]| && rows[1..][i].policy == q && height >= rows[1..][i].activateAtHeight;
      assert rows[i + 1] == rows[1..][i];
    }
  }

  lemma {:induction false} MaturedWithout(rows: seq<DeferredPolicy>, p: PolicyKind, q: PolicyKind, height: u64)
    ensures Matured(Without(rows, p), q, height) == (q != p && Matured(rows, q, height))
  {
    if rows != [] {
      MaturedWithout(rows[1..], p, q, height);
      MaturedHead(rows, q, height);
      if rows[0].policy != p {
        MaturedHead(Without(rows, p), q, height);
      }
    }
  }

  lemma MaturedAppend(rows: seq<DeferredPolicy>, r: DeferredPolicy, q: PolicyKind, height: u64)
    ensures Matured(rows + [r], q, height)
      == (Matured(rows, q, height) || (r.policy == q && height >= r.activateAtHeight))
  {
    assert (rows + [r])[|rows|] == r;
    if i :| 0 <= i < |rows| && rows[i].policy == q && height >= rows[i].activateAtHeight {
      assert (rows + [r])[i] == rows[i];
    }
  }

  /** With one row for each policy, maturity is a question of that row's height. */
  lemma {:induction false} MaturedOne(rows: seq<DeferredPolicy>, p: PolicyKind, height: u64)
    requires OneRowEach(rows)
    ensures Matured(rows, p, height) == match DeferredHeight(rows, p) case Some(at) => height >= at case None => false
  {
    if rows != [] {
      OneRowTail(rows);
      MaturedHead(rows, p, height);
      MaturedOne(rows[1..], p, height);
      if rows[0].policy == p {
        NoneDeferred(rows[1..], p);
      }
    }
  }

  /** Setting a policy decides, from this height on, when it is active, and leaves every other policy alone. */
  lemma SetModeEffect(a: Account, p: PolicyKind, activation: ActivationMode, height: u64, q: PolicyKind, later: u64)
    requires height <= later
    ensures var b := SetMode(a, p, activation, height);
      PolicyActive(b, q, later) == if q != p then PolicyActive(a, q, later)
        else match activation
          case Dormant => false
          case Immediately => true
          case Deferred(at) => later >= at
  {
    MaturedWithout(a.deferred, p, q, later);
    if activation.Deferred? {
      MaturedAppend(Without(a.deferred, p), DeferredPolicy(p, activation.activateAtHeight), q, later);
    }
  }

  /** The mode that the last entry for `q` sets. */
  function LastMode(entries: seq<InitPolicyEntry>, q: PolicyKind): Option<ActivationMode> {
    if entries == [] then None
    else match LastMode(entries[1..], q)
      case Some(m) => Some(m)
      case None => if entries[0].policy == q then Some(entries[0].activation) else None
  }

  /** Setting policies one after the other: the last entry for each decides, and a policy without an entry is
      left alone. */
  lemma {:induction false} SetModesEffect(a: Account, entries: seq<InitPolicyEntry>, height: u64, q: PolicyKind,
                                          later: u64)
    requires height <= later
    ensures var b := SetModes(a, entries, height);
      match LastMode(entries, q)
      case None => PolicyActive(b, q, later) == PolicyActive(a, q, later) && (q in b.dormant <==> q in a.dormant)
      case Some(m) =>
        && (q in b.dormant <==> m.Dormant?)
        && PolicyActive(b, q, later) == (m.Immediately? || (m.Deferred? && later >= m.activateAtHeight))
    decreases |entries|
  {
    if entries != [] {
      var (p, m) := (entries[0].policy, entries[0].activation);
      SetModeEffect(a, p, m, height, q, later);
      SetModesEffect(SetMode(a, p, m, height), entries[1..], height, q, later);
    }
  }

  lemma SetModeKeepsOk(a: Account, p: PolicyKind, activation: ActivationMode, height: u64)
    requires PoliciesOk(a, height)
    ensures PoliciesOk(SetMode(a, p, activation, height), height)
  {
    var b := SetMode(a, p, activation, height);
    var rest := Without(a.deferred, p);
    WithoutRows(a.deferred, p);
    forall i, j | 0 <= i < j < |b.deferred|
      ensures b.deferred[i].policy != b.deferred[j].policy
    {
      assert rest[i] in rest;
      if j < |rest| {
        assert b.deferred[i] == rest[i] && b.deferred[j] == rest[j];
      }
    }
    forall i | 0 <= i < |b.deferred| && b.deferred[i].activateAtHeight > height
      ensures b.deferred[i].policy !in b.active && b.deferred[i].policy !in b.dormant
    {
      if i < |rest| {
        assert b.deferred[i] == rest[i] && rest[i] in a.deferred;
      }
    }
  }

  lemma {:induction false} DeferredHeightRow(rows: seq<DeferredPolicy>, p: PolicyKind)
    requires OneRowEach(rows)
    ensures match DeferredHeight(rows, p)
      case Some(at) => forall r :: r in rows && r.policy == p <==> r == DeferredPolicy(p, at)
      case None => forall r :: r in rows ==> r.policy != p
  {
    if rows != [] {
      OneRowTail(rows);
      DeferredHeightRow(rows[1..], p);
    }
  }

  /** With one row for each policy, cancelling takes out the row ahead and keeps the others in order. */
  lemma {:induction false} CancelledRows(rows: seq<DeferredPolicy>, p: PolicyKind, height: u64)
    requires OneRowEach(rows)
    ensures Cancelled(rows, p, height)
      == match DeferredHeight(rows, p)
         case Some(at) => if height < at then Some(Without(rows, p)) else None
         case None => None
  {
    if rows != [] {
      OneRowTail(rows);
      CancelledRows(rows[1..], p, height);
      if rows[0].policy == p {
        NoneDeferred(rows[1..], p);
        NothingWithout(rows[1..], p);
      }
    }
  }

  lemma {:induction false} NothingWithout(rows: seq<DeferredPolicy>, p: PolicyKind)
    requires forall r :: r in rows ==> r.policy != p
    ensures Without(rows, p) == rows
  {
    if rows != [] {
      NothingWithout(rows[1..], p);
    }
  }

  /** An activation puts the policy in force at every height, and changes no other. */
  lemma ActivateEffect(a: Account, p: PolicyKind, height: u64, q: PolicyKind, later: u64)
    requires PoliciesOk(a, height) && Activate(a, p, height).Ok?
    ensures var b := Activate(a, p, height).value;
      && PoliciesOk(b, height)
      && PolicyActive(b, q, later) == (q == p || PolicyActive(a, q, later))
      && (b.finalized <==> a.finalized || (p.RoutingEmergencyRedirect? && p !in a.active))
  {
    var b := Activate(a, p, height).value;
    DeferredHeightRow(a.deferred, p);
    forall i | 0 <= i < |b.deferred| && b.deferred[i].activateAtHeight > height
      ensures b.deferred[i].policy !in b.active && b.deferred[i].policy !in b.dormant
    {
      assert a.deferred[i] in a.deferred;
    }
  }

  /** A deactivation is possible exactly for a reversible policy that is still ahead or was put in force by
      its bit; and it takes the policy out of force exactly when no deferred row for it has matured. */
  lemma DeactivateEffect(a: Account, p: PolicyKind, height: u64)
    requires PoliciesOk(a, height)
    ensures var ahead := match DeferredHeight(a.deferred, p) case Some(at) => height < at case None => false;
      && (Deactivate(a, p, height).Ok? <==> !p.RoutingEmergencyRedirect? && (ahead || p in a.active))
      && (Deactivate(a, p, height).Ok? ==>
           var b := Deactivate(a, p, height).value;
           PoliciesOk(b, height)
           && (PolicyActive(b, p, height) <==> DeferredHeight(a.deferred, p).Some? && !ahead))
  {
    CancelledRows(a.deferred, p, height);
    DeferredHeightRow(a.deferred, p);
    MaturedOne(a.deferred, p, height);
    MaturedWithout(a.deferred, p, p, height);
    if Deactivate(a, p, height).Ok? {
      DeactivateKeepsOk(a, p, height);
    }
  }

  lemma DeactivateKeepsOk(a: Account, p: PolicyKind, height: u64)
    requires PoliciesOk(a, height) && Deactivate(a, p, height).Ok?
    ensures PoliciesOk(Deactivate(a, p, height).value, height)
    ensures p in a.active ==> match DeferredHeight(a.deferred, p) case Some(at) => height >= at case None => true
  {
    var b := Deactivate(a, p, height).value;
    CancelledRows(a.deferred, p, height);
    WithoutRows(a.deferred, p);
    DeferredHeightRow(a.deferred, p);
    if DeferredHeight(a.deferred, p).Some? {
      assert DeferredPolicy(p, DeferredHeight(a.deferred, p).value) in a.deferred;
    }
    forall i | 0 <= i < |b.deferred| && b.deferred[i].activateAtHeight > height
      ensures b.deferred[i].policy !in b.active && b.deferred[i].policy !in b.dormant
    {
      assert b.deferred[i] in a.deferred;
    }
  }

  /** A concrete account on which deactivating succeeds and the policy stays in force. */
  lemma DeactivationWithoutEffect(pk: Bytes32) returns (a: Account)
    ensures PoliciesOk(a, 7) && Deactivate(a, SenderFilter, 7).Ok?
    ensures PolicyActive(Deactivate(a, SenderFilter, 7).value, SenderFilter, 7)
  {
    var blank := BlankAccount(pk, 0);
    a := SetMode(blank, SenderFilter, Deferred(5), 7);
    SetModeKeepsOk(blank, SenderFilter, Deferred(5), 7);
    assert a.deferred == [DeferredPolicy(SenderFilter, 5)];
    DeactivateEffect(a, SenderFilter, 7);
  }

  /** And one on which the policy is in force and deactivating it is refused. */
  lemma DeactivationRefused(pk: Bytes32) returns (a: Account)
    ensures PoliciesOk(a, 7) && PolicyActive(a, SenderFilter, 7)
    ensures Deactivate(a, SenderFilter, 7) == Err(PolicyNotActive)
  {
    var blank := BlankAccount(pk, 0);
    a := SetMode(blank, SenderFilter, Deferred(5), 3);
    SetModeKeepsOk(blank, SenderFilter, Deferred(5), 3);
    assert a.deferred == [DeferredPolicy(SenderFilter, 5)];
    StillOk(a, 3, 7);
    DeactivateEffect(a, SenderFilter, 7);
    SetModeEffect(blank, SenderFilter, Deferred(5), 3, SenderFilter, 7);
  }

  // ----- from one height to a later one -----

  lemma StillOk(a: Account, height: u64, later: u64)
    requires PoliciesOk(a, height) && height <= later
    ensures PoliciesOk(a, later)
  {
  }

  lemma StillActive(a: Account, p: PolicyKind, height: u64, later: u64)
    requires PolicyActive(a, p, height) && height <= later
    ensures PolicyActive(a, p, later)
  {
  }

  lemma {:induction false} SetModesKeepOk(a: Account, entries: seq<InitPolicyEntry>, height: u64)
    requires PoliciesOk(a, height)
    ensures PoliciesOk(SetModes(a, entries, height), height)
    decreases |entries|
  {
    if entries != [] {
      SetModeKeepsOk(a, entries[0].policy, entries[0].activation, height);
      SetModesKeepOk(SetMode(a, entries[0].policy, entries[0].activation, height), entries[1..], height);
    }
  }

  lemma ActionKeepsOk(a: Account, action: PolicyAction, height: u64)
    requires PoliciesOk(a, height) && ApplyPolicyAction(a, action, height).Ok?
    ensures PoliciesOk(ApplyPolicyAction(a, action, height).value, height)
  {
    match action
    case SetPolicy(p, activation) => SetModeKeepsOk(a, p, activation, height);
    case ActivatePolicy(id, _) => ActivateEffect(a, PolicyFromId(id).value, height, CosignRequired, height);
    case DeactivatePolicy(id) => DeactivateEffect(a, PolicyFromId(id).value, height);
  }

  lemma {:induction false} CancelledKeeps(rows: seq<DeferredPolicy>, p: PolicyKind, height: u64, q: PolicyKind,
                                          later: u64)
    requires Cancelled(rows, p, height).Some? && q != p
    ensures Matured(Cancelled(rows, p, height).value, q, later) == Matured(rows, q, later)
  {
    MaturedHead(rows, q, later);
    if !(rows[0].policy == p && height < rows[0].activateAtHeight) {
      CancelledKeeps(rows[1..], p, height, q, later);
      MaturedHead(Cancelled(rows, p, height).value, q, later);
    }
  }

  /** No action but one that weakens it takes the cosigning demand out of force. */
  lemma ActionKeepsDemand(a: Account, action: PolicyAction, height: u64)
    requires PolicyActive(a, CosignRequired, height) && ApplyPolicyAction(a, action, height).Ok?
    requires !WeakensCosign(action)
    ensures PolicyActive(ApplyPolicyAction(a, action, height).value, CosignRequired, height)
  {
    match action
    case SetPolicy(p, activation) => SetModeEffect(a, p, activation, height, CosignRequired, height);
    case ActivatePolicy(_, _) =>
    case DeactivatePolicy(id) =>
      var p := PolicyFromId(id).value;
      if Cancelled(a.deferred, p, height).Some? {
        CancelledKeeps(a.deferred, p, height, CosignRequired, height);
      }
  }
}
