/** The outbox table as the dispatcher updates it. */
module OutboxStore {
  import opened Wrappers
  import opened OutboxModel

  class Store {
    var rows: map<RowId, Row>

    constructor ()
      ensures rows == map[]
    {
      rows := map[];
    }

    /** The claim query's order: created_at, then outbox_id. */
    static predicate Before(a: Row, aId: RowId, b: Row, bId: RowId) {
      a.createdAt < b.createdAt || (a.createdAt == b.createdAt && aId < bId)
    }

    /** Reserve the first available row under a fresh token. */
    method ClaimOne(lease: nat, now: Time, newToken: Token) returns (claim: Option<ClaimedEvent>)
      modifies this
      ensures claim.None? ==> rows == old(rows) && forall id :: id in rows ==> !Available(rows[id], now)
      ensures claim.Some? ==>
                var id := claim.value.id;
                && id in old(rows) && Available(old(rows)[id], now)
                && (forall x :: x in old(rows) && x != id && Available(old(rows)[x], now) ==>
                                  || old(rows)[id].createdAt < old(rows)[x].createdAt
                                  || (old(rows)[id].createdAt == old(rows)[x].createdAt && id < x))
                && claim.value == ClaimedEvent(id, newToken, old(rows)[id].payload, old(rows)[id].attempts)
                && rows == old(rows)[id := Claimed(old(rows)[id], newToken, now, lease)]
    {
      var todo, first: Option<RowId> := rows.Keys, None;
      while todo != {}
        invariant todo <= rows.Keys
        invariant first.None? ==> forall id :: id in rows && id !in todo ==> !Available(rows[id], now)
        invariant first.Some? ==> first.value in rows && first.value !in todo && Available(rows[first.value], now)
        invariant first.Some? ==> forall x :: x in rows && x !in todo && x != first.value && Available(rows[x], now) ==>
                                                Before(rows[first.value], first.value, rows[x], x)
        decreases todo
      {
        var id :| id in todo;
        todo := todo - {id};
        if Available(rows[id], now) && (first.None? || Before(rows[id], id, rows[first.value], first.value)) {
          first := Some(id);
        }
      }
      if first.None? {
        return None;
      }
      var row := rows[first.value];
      rows := rows[first.value := row.(token := Some(newToken), claimExpiresAt := Some(now + lease as real))];
      claim := Some(ClaimedEvent(first.value, newToken, row.payload, row.attempts));
    }

    method MarkPublished(claim: ClaimedEvent, now: Time) returns (updated: bool)
      modifies this
      ensures updated <==> claim.id in old(rows) && Owns(old(rows)[claim.id], claim.token)
      ensures rows == if updated then old(rows)[claim.id := Published(old(rows)[claim.id], claim.token, now)]
                      else old(rows)
    {
      if claim.id !in rows {
        return false;
      }
      var row := rows[claim.id];
      updated := row.publishedAt.None? && row.token == Some(claim.token);
      if updated {
        rows := rows[claim.id := row.(publishedAt := Some(now), attempts := row.attempts + 1, token := None,
                                      claimExpiresAt := None, nextAttemptAt := None)];
      }
    }

    method RecordFailure(claim: ClaimedEvent, now: Time, retrySeconds: nat) returns (updated: bool)
      modifies this
      ensures updated <==> claim.id in old(rows) && Owns(old(rows)[claim.id], claim.token)
      ensures rows == if updated then old(rows)[claim.id := Failed(old(rows)[claim.id], claim.token, now, retrySeconds)]
                      else old(rows)
    {
      if claim.id !in rows {
        return false;
      }
      var row := rows[claim.id];
      updated := row.publishedAt.None? && row.token == Some(claim.token);
      if updated {
        rows := rows[claim.id := row.(attempts := row.attempts + 1, token := None, claimExpiresAt := None,
                                      nextAttemptAt := Some(now + retrySeconds as real))];
      }
    }

    /** dispatch_one: claim, broadcast, record.  The broadcast is a parameter: None when it returned.
        Undisturbed, it records exactly one outcome and releases the claim. */
    method DispatchOne(lease: nat, claimedAt: Time, newToken: Token, broadcast: Option<DeliveryError>, endedAt: Time)
      returns (claim: Option<ClaimedEvent>)
      modifies this
      ensures claim.None? ==> rows == old(rows)
      ensures claim.Some? ==> claim.value.id in old(rows)
      ensures claim.Some? ==>
                var before := old(rows)[claim.value.id];
                var delay := if broadcast.None? then 0 else FailureDelay(broadcast.value, before.attempts);
                && Available(before, claimedAt)
                && rows == old(rows)[claim.value.id :=
                  before.(attempts := before.attempts + 1, token := None, claimExpiresAt := None,
                  publishedAt := if broadcast.None? then Some(endedAt) else None,
                  nextAttemptAt := if broadcast.None? then None else Some(endedAt + delay as real))]
    {
      claim := ClaimOne(lease, claimedAt, newToken);
      if claim.Some? {
        if broadcast.None? {
          var _ := MarkPublished(claim.value, endedAt);
        } else {
          var _ := RecordFailure(claim.value, endedAt, FailureDelay(broadcast.value, claim.value.prior));
        }
      }
    }
  }
}
