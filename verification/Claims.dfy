/** Who owns a claimed row: exactly one claim, the one that took it, until it is withdrawn. */
module Claims {
  import opened Common
  import opened Protocol
  import opened Invariant
  import K = Kds

  /** A claim that has not been undone. */
  predicate Active(c: Claim) { c.phase != Withdrawn }

  /** An active claim's row still carries the claim's worker and time, claimed or already completed. */
  ghost predicate Holds(rows: seq<K.Row>, c: Claim) {
    Active(c) ==>
      && c.row < |rows| && rows[c.row].status in {K.Claimed, K.Completed}
      && rows[c.row].claimedBy == Some(c.worker) && rows[c.row].claimedAt == Some(c.at)
  }

  predicate Owns(claims: seq<Claim>, i: nat, k: KdsId) {
    i < |claims| && Active(claims[i]) && claims[i].row == k
  }

  ghost predicate ClaimsOk(rows: seq<K.Row>, claims: seq<Claim>) {
    && (forall i | 0 <= i < |claims| :: Holds(rows, claims[i]))
    && (forall i, j, k | Owns(claims, i, k) && Owns(claims, j, k) :: i == j)
    && (forall k: nat | k < |rows| && rows[k].status == K.Claimed :: exists i :: Owns(claims, i, k))
  }

  lemma DeliveredKeepsClaims(rows: seq<K.Row>, claims: seq<Claim>, station: StationId, req: K.Delivery)
    requires ClaimsOk(rows, claims)
    ensures ClaimsOk(rows + [K.NewRow(station, req)], claims)
  {
  }

  lemma PhaseKeepsClaims(rows: seq<K.Row>, claims: seq<Claim>, c: nat, phase: ClaimPhase)
    requires ClaimsOk(rows, claims) && c < |claims| && Active(claims[c])
    requires phase == Withdrawn ==> rows[claims[c].row].status == K.Completed
    ensures ClaimsOk(rows, claims[c := claims[c].(phase := phase)])
  {
    var claims' := claims[c := claims[c].(phase := phase)];
    forall i: nat, k: nat | Owns(claims', i, k) ensures Owns(claims, i, k) {}
    forall k: nat | k < |rows| && rows[k].status == K.Claimed ensures exists i :: Owns(claims', i, k) {
      var i :| Owns(claims, i, k);
      assert Owns(claims', i, k);
    }
  }

  lemma ClaimedKeepsClaims(rows: seq<K.Row>, claims: seq<Claim>, c: Claim)
    requires ClaimsOk(rows, claims) && c.row < |rows| && rows[c.row].status == K.Displayed && Active(c)
    ensures ClaimsOk(
              rows[c.row := rows[c.row].(status := K.Claimed, claimedBy := Some(c.worker), claimedAt := Some(c.at))],
                     claims + [c])
  {
    var rows' := rows[c.row := rows[c.row].(status := K.Claimed, claimedBy := Some(c.worker), claimedAt := Some(c.at))];
    var claims' := claims + [c];
    forall i: nat, k: nat | Owns(claims', i, k)
      ensures if i == |claims| then k == c.row else Owns(claims, i, k) && k != c.row {
      if i < |claims| { assert Holds(rows, claims[i]); }
    }
    forall i | 0 <= i < |claims'| ensures Holds(rows', claims'[i]) {
      if i < |claims| { assert Holds(rows, claims[i]); }
    }
    forall k: nat | k < |rows'| && rows'[k].status == K.Claimed ensures exists i :: Owns(claims', i, k) {
      if k == c.row {
        assert Owns(claims', |claims|, k);
      } else {
        var i :| Owns(claims, i, k);
        assert Owns(claims', i, k);
      }
    }
  }

  lemma ReleasedKeepsClaims(rows: seq<K.Row>, claims: seq<Claim>, c: nat)
    requires ClaimsOk(rows, claims) && c < |claims| && Active(claims[c])
    ensures var k := claims[c].row;
            && k < |rows|
            && ClaimsOk(rows[k := rows[k].(status := K.Displayed, claimedBy := None, claimedAt := None)],
                        claims[c := claims[c].(phase := Withdrawn)])
  {
    var k := claims[c].row;
    assert Holds(rows, claims[c]);
    var rows' := rows[k := rows[k].(status := K.Displayed, claimedBy := None, claimedAt := None)];
    var claims' := claims[c := claims[c].(phase := Withdrawn)];
    assert Owns(claims, c, k);
    forall i: nat, x: nat | Owns(claims', i, x) ensures Owns(claims, i, x) && x != k {
      assert i != c && Owns(claims, i, x);
    }
    forall i | 0 <= i < |claims'| ensures Holds(rows', claims'[i]) {
      assert Holds(rows, claims[i]);
      if Active(claims'[i]) { assert Owns(claims', i, claims'[i].row); }
    }
    forall x: nat | x < |rows'| && rows'[x].status == K.Claimed ensures exists i :: Owns(claims', i, x) {
      var i :| Owns(claims, i, x);
      assert Owns(claims', i, x);
    }
  }

  lemma CompletedKeepsClaims(rows: seq<K.Row>, claims: seq<Claim>, k: KdsId, at: Time)
    requires ClaimsOk(rows, claims) && k < |rows| && rows[k].status == K.Claimed
    ensures ClaimsOk(rows[k := rows[k].(status := K.Completed, completedAt := Some(at))], claims)
  {
  }

  /** Undoing a claim releases the row that very claim took, or finds it completed: it never
      touches the claim of anyone else, not even a later claim by the same worker. */
  lemma CompensationReleasesItsOwn(s: Sys, c: nat)
    requires K.RowShape(s.k) && ClaimsOk(s.k.rows, s.claims)
    requires c < |s.claims| && Active(s.claims[c]) && ClaimOk(s, s.claims[c])
    ensures var h := s.claims[c];
            var after := K.CompensateClaim(s.k, h.task, h.worker);
            if s.k.rows[h.row].status == K.Claimed
            then after.rows ==
                 s.k.rows[h.row := s.k.rows[h.row].(status := K.Displayed, claimedBy := None, claimedAt := None)]
            else s.k.rows[h.row].status == K.Completed && after == s.k
  {
  }

  /** Every step of the kitchen service keeps one owner per claimed row. */
  lemma KitchenKeepsClaims(s: Sys, ev: Event)
    requires K.RowShape(s.k) && ClaimsOk(s.k.rows, s.claims)
    requires forall i | 0 <= i < |s.claims| :: ClaimOk(s, s.claims[i])
    ensures var s' := KitchenStep(s, ev); ClaimsOk(s'.k.rows, s'.claims)
  {
    hide ClaimsOk, K.RowShape, K.DeliveryRefusal;
    var s' := KitchenStep(s, ev);
    match ev
    case InsertDelivery(r) => if s'.k != s.k { DeliveredKeepsClaims(s.k.rows, s.claims, r.station, r.delivery); }
    case ClaimTask(_, _, _, _) => if s' != s { ClaimedKeepsClaims(s.k.rows, s.claims, s'.claims[|s.claims|]); }
    case ReceiveStart(c, ok) => if s' != s { PhaseKeepsClaims(s.k.rows, s.claims, c, s'.claims[c].phase); }
    case LoseStart(c) => if s' != s { PhaseKeepsClaims(s.k.rows, s.claims, c, s'.claims[c].phase); }
    case Compensate(c) =>
      if s' != s {
        CompensationReleasesItsOwn(s, c);
        if s.k.rows[s.claims[c].row].status == K.Claimed {
          ReleasedKeepsClaims(s.k.rows, s.claims, c);
        } else {
          PhaseKeepsClaims(s.k.rows, s.claims, c, Withdrawn);
        }
      }
    case FinishCompletion(d) =>
      if s'.k != s.k {
        var h := s.completions[d];
        CompletedKeepsClaims(s.k.rows, s.claims, K.FindTask(s.k.rows, h.task).value, h.at);
      }
    case _ =>
  }
}
