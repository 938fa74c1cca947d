/** The journal and lease tables of one proof, and what one write transaction does to them.

    Every table is keyed by proof, so a store is one ledger per proof. Rows a transaction visits
    in an order SQL leaves open are listed by an explicit sequence. */
module Ledger {
  import opened Vocabulary
  import opened Ops
  import opened GraphState
  import opened Ids

  type LeaseId = string
  type Move = string
  type Digest = string

  const GENESIS: Digest := "sha256:0000000000000000000000000000000000000000000000000000000000000000"

  datatype Row = Row(revision: int, eventHash: Digest, prevHash: Digest, payload: Proposal)

  datatype LeaseStatus = Active | Expired | Released | Superseded

  datatype Lease = Lease(
    workerClass: string,
    move: Option<Move>,
    token: nat,
    baseRevision: int,
    ttl: real,
    issuedAt: real,
    expiresAt: Option<real>,
    status: LeaseStatus)

  datatype LeaseEvent =
    | Issued(leaseId: LeaseId, token: nat, workerClass: Option<string>, move: Option<Move>)
    | Ended(leaseId: LeaseId, status: LeaseStatus)

  datatype Ledger = Ledger(
    journal: seq<Row>,
    leases: map<LeaseId, Lease>,
    events: seq<LeaseEvent>,
    serial: nat)

  const EMPTY_LEDGER := Ledger([], map[], [], 0)

  /** `LeaseRow.is_live`. */
  predicate IsLive(lease: Lease, now: real) {
    lease.status == Active && (lease.expiresAt.None? || now < lease.expiresAt.value)
  }

  predicate IsDue(lease: Lease, now: real) {
    lease.status == Active && lease.expiresAt.Some? && lease.expiresAt.value <= now
  }

  function HeadRevision(l: Ledger): int {
    if l.journal == [] then 0 else l.journal[|l.journal| - 1].revision
  }

  function HeadHash(l: Ledger): Digest {
    if l.journal == [] then GENESIS else l.journal[|l.journal| - 1].eventHash
  }

  /** `order` lists exactly these leases, each once. */
  ghost predicate Enumerates(order: seq<LeaseId>, ids: set<LeaseId>) {
    NoDuplicates(order) && forall id :: id in order <==> id in ids
  }

  function EndAll(order: seq<LeaseId>, status: LeaseStatus): (events: seq<LeaseEvent>)
    ensures |events| == |order| && forall k :: 0 <= k < |events| ==> events[k] == Ended(order[k], status)
  {
    seq(|order|, k requires 0 <= k < |order| => Ended(order[k], status))
  }

  /** Give these rows a new status, and log the change of the listed ones. */
  function End(l: Ledger, ids: set<LeaseId>, status: LeaseStatus, logged: seq<LeaseId>): Ledger {
    l.(leases := map id | id in l.leases ::
                   if id in ids then l.leases[id].(status := status) else l.leases[id],
       events := l.events + EndAll(logged, status))
  }

  function DueLeases(l: Ledger, now: real): set<LeaseId> {
    set id | id in l.leases && IsDue(l.leases[id], now)
  }

  /** `_expire_due_leases`. */
  ghost predicate Lapses(l: Ledger, now: real, after: Ledger) {
    exists due :: Enumerates(due, DueLeases(l, now)) && after == End(l, DueLeases(l, now), Expired, due)
  }

  /** Insert or overwrite one lease row as active, and log it as issued. */
  function Grant(l: Ledger, id: LeaseId, lease: Lease, workerClass: Option<string>): Ledger {
    l.(leases := l.leases[id := lease],
       events := l.events + [Issued(id, lease.token, workerClass, lease.move)])
  }

  /** `_next_token`: one past the largest token on record. */
  ghost predicate IsNextToken(leases: map<LeaseId, Lease>, token: nat) {
    && token > 0
    && (forall id :: id in leases ==> leases[id].token < token)
    && (token > 1 ==> exists id :: id in leases && leases[id].token == token - 1)
  }

  /** `_next_lease_id`. */
  function MintedId(proofId: string, serial: nat): LeaseId {
    proofId + "/ls-" + Decimal(serial)
  }

  // ---- the write transactions ----

  /** Supersede some active rows; `logged` also names rows superseded long ago. */
  function Supersede(l: Ledger, victims: set<LeaseId>, logged: seq<LeaseId>): Ledger {
    End(l, victims, LeaseStatus.Superseded, logged)
  }

  /** The rows with this status, other than `id`; for a move, only the rows dispatched on it. */
  function Others(l: Ledger, id: LeaseId, status: LeaseStatus): set<LeaseId> {
    set other | other in l.leases && l.leases[other].status == status && other != id
  }

  function Rivals(l: Ledger, id: LeaseId, move: Option<Move>, status: LeaseStatus): set<LeaseId> {
    if move.None? then {} else set other | other in Others(l, id, status) && l.leases[other].move == move
  }

  function AllSuperseded(l: Ledger): set<LeaseId> {
    set id | id in l.leases && l.leases[id].status == LeaseStatus.Superseded
  }

  /** The row `acquire_lease` writes. */
  function WriteLock(token: nat, base: int, ttl: real, now: real): Lease {
    Lease("", None, token, base, ttl, now, if ttl > 0.0 then Some(now + ttl) else None, Active)
  }

  /** The row `issue_lease` and `dispatch_lease` write. */
  function DispatchRow(workerClass: string, move: Option<Move>, token: nat, base: int, ttl: real,
                       now: real): Lease
  {
    Lease(workerClass, move, token, base, ttl, now, Some(now + ttl), Active)
  }

  /** `acquire_lease`, once due leases have lapsed. */
  ghost predicate AcquiresFrom(lapsed: Ledger, id: LeaseId, ttl: real, now: real, logged: seq<LeaseId>,
                               after: Ledger, token: nat)
  {
    && Enumerates(logged, AllSuperseded(lapsed) + Others(lapsed, id, Active))
    && IsNextToken(lapsed.leases, token)
    && after == Grant(Supersede(lapsed, Others(lapsed, id, Active), logged), id,
                      WriteLock(token, HeadRevision(lapsed), ttl, now), None)
  }

  ghost predicate Acquires(l: Ledger, id: LeaseId, ttl: real, lapseAt: real, now: real, after: Ledger,
                           token: nat)
  {
    exists lapsed, logged ::
      Lapses(l, lapseAt, lapsed) && AcquiresFrom(lapsed, id, ttl, now, logged, after, token)
  }

  /** `issue_lease`, once due leases have lapsed and a missing lease id has been minted. */
  ghost predicate IssuesFrom(lapsed: Ledger, id: LeaseId, workerClass: string, move: Option<Move>,
                             base: Option<int>, ttl: real, now: real, logged: seq<LeaseId>,
                             after: Ledger, token: nat)
  {
    && Enumerates(logged, Rivals(lapsed, id, move, LeaseStatus.Superseded) +
                          Rivals(lapsed, id, move, Active))
    && IsNextToken(lapsed.leases, token)
    && after == Grant(Supersede(lapsed, Rivals(lapsed, id, move, Active), logged), id,
                      DispatchRow(workerClass, move, token,
                                  if base.Some? then base.value else HeadRevision(lapsed), ttl, now),
                      Some(workerClass))
  }

  /** Take the next serial and the lease id made from it. */
  function Mint(l: Ledger): Ledger {
    l.(serial := l.serial + 1)
  }

  /** The serial moves on only when the lease id is minted here. */
  function MintUnless(l: Ledger, given: Option<LeaseId>): Ledger {
    if given.Some? then l else Mint(l)
  }

  ghost predicate Issues(l: Ledger, proofId: string, given: Option<LeaseId>, workerClass: string,
                         move: Option<Move>, base: Option<int>, ttl: real, lapseAt: real, now: real,
                         after: Ledger, id: LeaseId, token: nat)
  {
    && id == (if given.Some? then given.value else MintedId(proofId, l.serial + 1))
    && exists lapsed, logged ::
         Lapses(l, lapseAt, lapsed) &&
         IssuesFrom(MintUnless(lapsed, given), id, workerClass, move, base, ttl, now, logged, after,
                    token)
  }

  predicate IsTaken(l: Ledger, move: Move) {
    exists id :: id in l.leases && l.leases[id].status == Active && l.leases[id].move == Some(move)
  }

  /** The first ranked move no active lease covers, or the number of moves. */
  function FirstFree(l: Ledger, ranked: seq<Move>): (k: nat)
    ensures k <= |ranked|
    ensures forall j :: 0 <= j < k ==> IsTaken(l, ranked[j])
    ensures k < |ranked| ==> !IsTaken(l, ranked[k])
  {
    if ranked == [] || !IsTaken(l, ranked[0]) then 0 else 1 + FirstFree(l, ranked[1..])
  }

  /** `dispatch_lease`, once due leases have lapsed, granting the first free move under a freshly
      minted id; a plain INSERT, so the id must be new. */
  ghost predicate DispatchesFrom(lapsed: Ledger, proofId: string, ranked: seq<Move>,
                                 workerClass: string, ttl: real, now: real, after: Ledger, move: Move,
                                 token: nat)
  {
    && FirstFree(lapsed, ranked) < |ranked| && move == ranked[FirstFree(lapsed, ranked)]
    && IsNextToken(lapsed.leases, token)
    && MintedId(proofId, lapsed.serial + 1) !in lapsed.leases
    && after == Grant(Mint(lapsed), MintedId(proofId, lapsed.serial + 1),
                      DispatchRow(workerClass, Some(move), token, HeadRevision(lapsed), ttl, now),
                      Some(workerClass))
  }

  ghost predicate Dispatches(l: Ledger, proofId: string, ranked: seq<Move>, workerClass: string,
                             ttl: real, lapseAt: real, now: real, after: Ledger, move: Move, token: nat)
  {
    exists lapsed :: Lapses(l, lapseAt, lapsed) &&
      DispatchesFrom(lapsed, proofId, ranked, workerClass, ttl, now, after, move, token)
  }

  /** `release_lease`: only an active lease is released. */
  function Release(l: Ledger, id: LeaseId): Ledger {
    if id in l.leases && l.leases[id].status == Active then End(l, {id}, Released, [id]) else l
  }

  /** `_check_lease` on a lapsed ledger. */
  predicate HoldsLease(l: Ledger, id: Option<LeaseId>, token: Option<int>) {
    && id.Some? && id.value in l.leases
    && l.leases[id.value].status == Active
    && token == Some(l.leases[id.value].token)
  }

  predicate NamesLease(p: Proposal) {
    p.leaseId.Some? || p.fencingToken.Some?
  }

  function AppendRow(l: Ledger, row: Row): Ledger {
    l.(journal := l.journal + [row])
  }

  /** `append` on the ledger it checked: the base matches and one row is chained on. */
  ghost predicate AppendsFrom(hash: (Digest, Proposal) -> Digest, checked: Ledger, p: Proposal,
                              after: Ledger)
  {
    && (p.baseRevision.Some? ==> p.baseRevision.value == HeadRevision(checked))
    && after == AppendRow(checked, Row(HeadRevision(checked) + 1, hash(HeadHash(checked), p),
                                       HeadHash(checked), p))
  }

  /** The ledger `append` writes to: due leases lapse only when a lease has to be checked. */
  ghost predicate ChecksLease(l: Ledger, p: Proposal, lapseAt: real, checked: Ledger) {
    if NamesLease(p) then Lapses(l, lapseAt, checked) && HoldsLease(checked, p.leaseId, p.fencingToken)
    else checked == l
  }

  ghost predicate Appends(hash: (Digest, Proposal) -> Digest, l: Ledger, p: Proposal, lapseAt: real,
                          after: Ledger)
  {
    exists checked :: ChecksLease(l, p, lapseAt, checked) && AppendsFrom(hash, checked, p, after)
  }
}
