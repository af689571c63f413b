/** The transactional outbox: rows are claimed with a token and an expiry, then published or failed
    through updates guarded by that token.

    Each row's history of claims and recorded outcomes determines the row, and obeys a grammar that
    states the fencing, the back-off and the finality of publication at once. */
module OutboxModel {
  import opened Wrappers

  type RowId = nat
  type Token = nat
  type DispatcherId = nat
  type Payload = nat
  type Time = real

  const MAX_RETRY_SECONDS := 30

  datatype Row = Row(
    payload: Payload,
    createdAt: Time,
    publishedAt: Option<Time>,
    attempts: nat,
    token: Option<Token>,
    claimExpiresAt: Option<Time>,
    nextAttemptAt: Option<Time>)

  function NewRow(payload: Payload, createdAt: Time): Row {
    Row(payload, createdAt, None, 0, None, None, None)
  }

  datatype ClaimedEvent = ClaimedEvent(id: RowId, token: Token, payload: Payload, prior: nat)

  /** How a delivery ended: cancelled by shutdown, or failed by a timeout or a send error. */
  datatype DeliveryError = Cancelled | DeliveryFailed

  predicate Available(row: Row, now: Time) {
    && row.publishedAt.None?
    && (row.nextAttemptAt.None? || row.nextAttemptAt.value <= now)
    && (row.token.None? || row.claimExpiresAt.None? || row.claimExpiresAt.value <= now)
  }

  function Claimed(row: Row, token: Token, now: Time, lease: nat): Row {
    row.(token := Some(token), claimExpiresAt := Some(now + lease as real))
  }

  /** The guard of both outcome updates. */
  predicate Owns(row: Row, token: Token) {
    row.publishedAt.None? && row.token == Some(token)
  }

  function Published(row: Row, token: Token, now: Time): Row {
    if Owns(row, token) then
      row.(publishedAt := Some(now), attempts := row.attempts + 1, token := None, claimExpiresAt := None,
           nextAttemptAt := None)
    else row
  }

  function Failed(row: Row, token: Token, now: Time, delay: nat): Row {
    if Owns(row, token) then
      row.(attempts := row.attempts + 1, token := None, claimExpiresAt := None,
           nextAttemptAt := Some(now + delay as real))
    else row
  }

  function Pow2(n: nat): nat {
    if n == 0 then 1 else 2 * Pow2(n - 1)
  }

  function Min(a: nat, b: nat): nat {
    if a < b then a else b
  }

  function RetryDelay(prior: nat): nat {
    Min(MAX_RETRY_SECONDS, Pow2(Min(prior, 10)))
  }

  lemma {:induction false} Pow2Grows(m: nat, n: nat)
    requires m <= n
    ensures Pow2(m) <= Pow2(n)
  {
    if m < n {
      Pow2Grows(m, n - 1);
    }
  }

  /** The delay doubles from one second and stays at thirty: the cap of the exponent never shows. */
  function DoublingDelay(prior: nat): nat {
    if prior < 5 then [1, 2, 4, 8, 16][prior] else 30
  }

  lemma RetryDelayIsCappedDoubling(prior: nat)
    ensures RetryDelay(prior) == DoublingDelay(prior)
  {
    assert Pow2(2) == 4 && Pow2(5) == 32;
    if prior >= 5 {
      Pow2Grows(5, 10);
      Pow2Grows(5, Min(prior, 10));
    }
  }

  function FailureDelay(error: DeliveryError, prior: nat): nat {
    if error.Cancelled? then 0 else RetryDelay(prior)
  }

  // ---------------------------------------------------------------- a row's history

  datatype Entry =
    | Claim(id: RowId, token: Token, at: Time, expires: Time)
    | Publish(id: RowId, token: Token, at: Time)
    | Failure(id: RowId, token: Token, at: Time, error: DeliveryError, next: Time)

  function RowLog(log: seq<Entry>, id: RowId): (h: seq<Entry>)
    ensures forall i :: 0 <= i < |h| ==> h[i].id == id
  {
    if log == [] then []
    else
      var n := |log| - 1;
      RowLog(log[..n], id) + (if log[n].id == id then [log[n]] else [])
  }

  /** Outcomes that were recorded, of either kind. */
  function Outcomes(h: seq<Entry>): nat {
    if h == [] then 0
    else Outcomes(h[..|h| - 1]) + (if h[|h| - 1].Claim? then 0 else 1)
  }

  /** The earliest time at which the history allows another claim because of back-off. */
  function NextAllowed(h: seq<Entry>): Option<Time> {
    if h == [] then None
    else
      match h[|h| - 1]
      case Claim(_, _, _, _) => NextAllowed(h[..|h| - 1])
      case Publish(_, _, _) => None
      case Failure(_, _, _, _, next) => Some(next)
  }

  /** The grammar, for the entry at index i > 0 given the one before it. */
  ghost predicate Follows(h: seq<Entry>, i: nat)
    requires 0 < i < |h|
  {
    var before, e := h[i - 1], h[i];
    && before.at <= e.at
    && !before.Publish?
    && (e.Claim? && before.Claim? ==> before.expires <= e.at)
    && (e.Claim? && before.Failure? ==> before.next <= e.at)
    && (!e.Claim? ==> before.Claim? && before.token == e.token)
    && (e.Failure? ==> e.next == e.at + FailureDelay(e.error, Outcomes(h[..i])) as real)
  }

  /** Every history starts with a claim; an outcome directly follows the claim with its own token;
      a claim waits for the expiry of the last one, or for the back-off of the last failure; nothing
      follows a publication. */
  ghost predicate Fenced(h: seq<Entry>) {
    && (h != [] ==> h[0].Claim?)
    && (forall i :: 0 < i < |h| ==> Follows(h, i))
  }

  /** The row that its history implies. */
  ghost predicate RebuiltFrom(row: Row, h: seq<Entry>) {
    && row.attempts == Outcomes(h)
    && row.nextAttemptAt == NextAllowed(h)
    && (if h == [] then row.token.None? && row.claimExpiresAt.None? && row.publishedAt.None?
        else
          match h[|h| - 1]
          case Claim(_, token, _, expires) =>
            row.token == Some(token) && row.claimExpiresAt == Some(expires) && row.publishedAt.None?
          case Publish(_, _, at) =>
            row.token.None? && row.claimExpiresAt.None? && row.publishedAt == Some(at)
          case Failure(_, _, _, _, _) =>
            row.token.None? && row.claimExpiresAt.None? && row.publishedAt.None?)
  }

  lemma RowLogSnoc(log: seq<Entry>, e: Entry, id: RowId)
    ensures RowLog(log + [e], id) == RowLog(log, id) + (if e.id == id then [e] else [])
  {
    assert (log + [e])[..|log|] == log;
  }

  lemma FollowsInLonger(h: seq<Entry>, e: Entry, i: nat)
    requires 0 < i < |h| && Follows(h, i)
    ensures Follows(h + [e], i)
  {
    assert (h + [e])[..i] == h[..i];
  }

  lemma FencedSnoc(h: seq<Entry>, e: Entry)
    requires Fenced(h)
    requires h == [] ==> e.Claim?
    requires h != [] ==> Follows(h + [e], |h|)
    ensures Fenced(h + [e])
  {
    forall i | 0 < i < |h + [e]|
      ensures Follows(h + [e], i)
    {
      if i < |h| {
        FollowsInLonger(h, e, i);
      }
    }
  }

  lemma ReadSnoc(h: seq<Entry>, e: Entry)
    ensures Outcomes(h + [e]) == Outcomes(h) + (if e.Claim? then 0 else 1)
    ensures NextAllowed(h + [e]) ==
            match e
            case Claim(_, _, _, _) => NextAllowed(h)
            case Publish(_, _, _) => None
            case Failure(_, _, _, _, next) => Some(next)
  {
    assert (h + [e])[..|h|] == h;
  }

  // ---------------------------------------------------------------- one row, one more entry

  ghost predicate RowMatches(row: Row, h: seq<Entry>, now: Time) {
    Fenced(h) && RebuiltFrom(row, h) && (h != [] ==> h[|h| - 1].at <= now)
  }

  lemma ClaimExtends(row: Row, h: seq<Entry>, id: RowId, token: Token, now: Time, lease: nat)
    requires RowMatches(row, h, now) && Available(row, now)
    ensures RowMatches(Claimed(row, token, now, lease), h + [Claim(id, token, now, now + lease as real)], now)
  {
    var e := Claim(id, token, now, now + lease as real);
    ReadSnoc(h, e);
    FencedSnoc(h, e);
  }

  lemma PublishExtends(row: Row, h: seq<Entry>, id: RowId, token: Token, now: Time)
    requires RowMatches(row, h, now) && Owns(row, token)
    ensures RowMatches(Published(row, token, now), h + [Publish(id, token, now)], now)
  {
    var e := Publish(id, token, now);
    ReadSnoc(h, e);
    FencedSnoc(h, e);
  }

  lemma FailureExtends(row: Row, h: seq<Entry>, id: RowId, token: Token, now: Time, error: DeliveryError)
    requires RowMatches(row, h, now) && Owns(row, token)
    ensures var delay := FailureDelay(error, row.attempts);
            RowMatches(Failed(row, token, now, delay), h + [Failure(id, token, now, error, now + delay as real)], now)
  {
    var e := Failure(id, token, now, error, now + FailureDelay(error, row.attempts) as real);
    ReadSnoc(h, e);
    assert (h + [e])[..|h|] == h;
    FencedSnoc(h, e);
  }

  // ---------------------------------------------------------------- what the grammar implies

  /** Along a history, time does not go back. */
  lemma {:induction false} TimesAscend(h: seq<Entry>, i: nat, j: nat)
    requires Fenced(h) && i <= j < |h|
    ensures h[i].at <= h[j].at
  {
    if i < j {
      TimesAscend(h, i, j - 1);
      assert Follows(h, j);
    }
  }

  /** The claim at index i has recorded no outcome and has not expired. */
  ghost predicate LiveClaim(h: seq<Entry>, i: nat, now: Time) {
    && i < |h|
    && h[i].Claim?
    && now < h[i].expires
    && (i + 1 < |h| ==> h[i + 1].Claim?)
  }

  /** A live claim is the last entry. */
  lemma LiveClaimIsLast(h: seq<Entry>, i: nat, now: Time)
    requires Fenced(h) && LiveClaim(h, i, now) && h[|h| - 1].at <= now
    ensures i == |h| - 1
  {
    if i + 1 < |h| {
      assert Follows(h, i + 1);
      TimesAscend(h, i + 1, |h| - 1);
    }
  }

  /** So is an unexpired claim whose token no outcome carries. */
  lemma OpenClaimIsLast(h: seq<Entry>, i: nat, now: Time)
    requires Fenced(h) && i < |h| && h[i].Claim? && now < h[i].expires && h[|h| - 1].at <= now
    requires forall k :: 0 <= k < |h| && h[k].token == h[i].token ==> h[k].Claim?
    ensures i == |h| - 1
  {
    if i + 1 < |h| {
      assert Follows(h, i + 1);
      TimesAscend(h, i + 1, |h| - 1);
    }
  }

  lemma BackoffBeforeClaim(h: seq<Entry>, i: nat, j: nat)
    requires Fenced(h) && i < j < |h| && h[i].Failure? && h[j].Claim?
    ensures h[i].next <= h[j].at
  {
    assert Follows(h, i + 1);
    TimesAscend(h, i + 1, j);
  }
}
