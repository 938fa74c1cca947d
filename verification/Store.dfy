/** The journal store: each method is one `BEGIN IMMEDIATE` transaction over the tables.

    A method works on a copy of one proof's ledger and writes it back at the end, so a rollback is
    simply not writing back. `if *` is the lock timing out or the commit failing. Clock readings are
    parameters. */
module Store {
  import opened Vocabulary
  import opened Ops
  import opened Rules
  import opened Ledger
  import opened Chain
  import opened JournalRuns

  datatype LeaseResult =
    | Granted(id: LeaseId, token: nat, move: Option<Move>)
    | NothingFree
    | Busy
    | BadTtl
    | InsertConflict

  datatype AppendResult =
    | Committed(revision: int, eventHash: Digest)
    | Refused(reason: Reason)
    | HeadCorrupt
    | UniqueViolation

  /** What an append answers that neither finds the journal busy nor a row broken, said of the rows it
      found: a stale base first, then a lease that is not live, then a token that is not its own. */
  ghost predicate AppendAnswers(l: Ledger, p: Proposal, t: real, r: AppendResult) {
    if p.baseRevision.Some? && p.baseRevision.value != HeadRevision(l) then r == Refused(StaleBaseRevision)
    else if p.leaseId == None && p.fencingToken == None then r.Committed?
    else if p.leaseId == None || p.leaseId.value !in l.leases || !IsLive(l.leases[p.leaseId.value], t) then
      r == Refused(LeaseNotHeld)
    else if p.fencingToken == None || p.fencingToken.value != l.leases[p.leaseId.value].token then
      r == Refused(FencingTokenSuperseded)
    else r.Committed?
  }

  function LedgerAt(ledgers: map<string, Ledger>, proofId: string): Ledger {
    if proofId in ledgers then ledgers[proofId] else EMPTY_LEDGER
  }

  ghost predicate AllSound(hash: ChainHash, ledgers: map<string, Ledger>) {
    forall proofId :: JournalSound(hash, proofId, LedgerAt(ledgers, proofId).journal)
  }

  // ---- pieces of a transaction ----

  /** `_expire_due_leases`. */
  method LapseDue(l: Ledger, now: real) returns (after: Ledger)
    ensures Lapses(l, now, after)
  {
    after := l;
    var pending := DueLeases(l, now);
    ghost var order: seq<LeaseId> := [];
    while pending != {}
      invariant pending <= DueLeases(l, now)
      invariant Enumerates(order, DueLeases(l, now) - pending)
      invariant after == End(l, DueLeases(l, now) - pending, Expired, order)
    {
      var id :| id in pending;
      after := after.(leases := after.leases[id := after.leases[id].(status := Expired)],
                      events := after.events + [Ended(id, Expired)]);
      order := order + [id];
      pending := pending - {id};
      EndOneMore(l, DueLeases(l, now) - pending - {id}, Expired, order[..|order| - 1], id);
      assert DueLeases(l, now) - pending == DueLeases(l, now) - pending - {id} + {id};
    }
    assert DueLeases(l, now) - {} == DueLeases(l, now);
  }

  lemma {:induction false} EndOneMore(l: Ledger, ids: set<LeaseId>, status: LeaseStatus,
                                      order: seq<LeaseId>, id: LeaseId)
    requires id in l.leases
    ensures var before := End(l, ids, status, order);
            End(l, ids + {id}, status, order + [id]) ==
            before.(leases := before.leases[id := before.leases[id].(status := status)],
                    events := before.events + [Ended(id, status)])
  {
    assert EndAll(order + [id], status) == EndAll(order, status) + [Ended(id, status)];
    assert l.events + EndAll(order + [id], status) == l.events + EndAll(order, status) + [Ended(id, status)];
  }

  /** Supersede the victims in one UPDATE, then log each row of the SELECT in turn. */
  method SupersedeAndLog(l: Ledger, victims: set<LeaseId>, rows: set<LeaseId>)
    returns (after: Ledger, ghost order: seq<LeaseId>)
    ensures Enumerates(order, rows) && after == Supersede(l, victims, order)
  {
    after := Supersede(l, victims, []);
    order := [];
    var pending := rows;
    while pending != {}
      invariant pending <= rows
      invariant Enumerates(order, rows - pending)
      invariant after == Supersede(l, victims, order)
    {
      var id :| id in pending;
      assert EndAll(order + [id], LeaseStatus.Superseded) ==
             EndAll(order, LeaseStatus.Superseded) + [Ended(id, LeaseStatus.Superseded)];
      after := after.(events := after.events + [Ended(id, LeaseStatus.Superseded)]);
      order := order + [id];
      pending := pending - {id};
    }
  }

  /** `SELECT MAX(fencing_token)`, plus one. */
  method NextToken(leases: map<LeaseId, Lease>) returns (token: nat)
    ensures IsNextToken(leases, token)
  {
    var top := 0;
    var pending := leases.Keys;
    while pending != {}
      invariant pending <= leases.Keys
      invariant forall id :: id in leases && id !in pending ==> leases[id].token <= top
      invariant top > 0 ==> exists id :: id in leases && leases[id].token == top
    {
      var id :| id in pending;
      if leases[id].token > top {
        top := leases[id].token;
      }
      pending := pending - {id};
    }
    token := top + 1;
  }

  class JournalStore {
    const hash: ChainHash
    var ledgers: map<string, Ledger>
    var rejections: seq<(string, Reason)>

    constructor (hash: ChainHash)
      ensures this.hash == hash && ledgers == map[] && rejections == []
    {
      this.hash := hash;
      ledgers, rejections := map[], [];
    }

    function At(proofId: string): Ledger
      reads this
    {
      LedgerAt(ledgers, proofId)
    }

    /** The hash is ideal, and every proof's journal verifies and holds only its own events. */
    ghost predicate Sound()
      reads this
    {
      CollisionFree(hash) && AllSound(hash, ledgers)
    }

    method AcquireLease(proofId: string, id: LeaseId, ttl: real, lapseAt: real, now: real)
      returns (r: LeaseResult)
      modifies this`ledgers
      ensures r == Busy || (r.Granted? && r.id == id && r.move.None?)
      ensures r == Busy ==> ledgers == old(ledgers)
      ensures r.Granted? ==>
                ledgers == old(ledgers)[proofId := At(proofId)] &&
                Acquires(old(At(proofId)), id, ttl, lapseAt, now, At(proofId), r.token)
    {
      if * {
        return Busy;
      }
      var lapsed := LapseDue(At(proofId), lapseAt);
      var victims := Others(lapsed, id, Active);
      var ended, order := SupersedeAndLog(lapsed, victims, AllSuperseded(lapsed) + victims);
      var token := NextToken(lapsed.leases);
      var after := Grant(ended, id, WriteLock(token, HeadRevision(lapsed), ttl, now), None);
      if * {
        return Busy;
      }
      assert AcquiresFrom(lapsed, id, ttl, now, order, after, token);
      ledgers := ledgers[proofId := after];
      return Granted(id, token, None);
    }

    method IssueLease(proofId: string, given: Option<LeaseId>, workerClass: string, move: Option<Move>,
                      base: Option<int>, ttl: real, lapseAt: real, now: real)
      returns (r: LeaseResult)
      modifies this`ledgers
      ensures r == Busy || r == BadTtl || (r.Granted? && r.move == move)
      ensures r == BadTtl <==> ttl <= 0.0
      ensures !r.Granted? ==> ledgers == old(ledgers)
      ensures r.Granted? ==>
                ledgers == old(ledgers)[proofId := At(proofId)] &&
                Issues(old(At(proofId)), proofId, given, workerClass, move, base, ttl, lapseAt, now,
                       At(proofId), r.id, r.token)
    {
      if ttl <= 0.0 {
        return BadTtl;
      }
      if * {
        return Busy;
      }
      var lapsed := LapseDue(At(proofId), lapseAt);
      var id := if given.Some? then given.value else MintedId(proofId, lapsed.serial + 1);
      var minted := MintUnless(lapsed, given);
      var victims := Rivals(minted, id, move, Active);
      var ended, order :=
        SupersedeAndLog(minted, victims, Rivals(minted, id, move, LeaseStatus.Superseded) + victims);
      var token := NextToken(minted.leases);
      var revision := if base.Some? then base.value else HeadRevision(minted);
      var after :=
        Grant(ended, id, DispatchRow(workerClass, move, token, revision, ttl, now), Some(workerClass));
      if * {
        return Busy;
      }
      assert IssuesFrom(minted, id, workerClass, move, base, ttl, now, order, after, token);
      ledgers := ledgers[proofId := after];
      return Granted(id, token, move);
    }

    /** Lease the first offered move without an active lease. The plain INSERT fails when someone has
        acquired a lease under the very id minted next; the transaction then rolls back. */
    method DispatchLease(proofId: string, ranked: seq<Move>, workerClass: string, ttl: real,
                         lapseAt: real, now: real)
      returns (r: LeaseResult)
      modifies this`ledgers
      ensures r == BadTtl <==> ttl <= 0.0
      ensures r == Busy || r == BadTtl || r == InsertConflict ==> ledgers == old(ledgers)
      ensures r == InsertConflict ==>
                MintedId(proofId, old(At(proofId)).serial + 1) in old(At(proofId)).leases
      ensures r == NothingFree ==>
                ledgers == old(ledgers)[proofId := At(proofId)] &&
                Lapses(old(At(proofId)), lapseAt, At(proofId)) &&
                forall k :: 0 <= k < |ranked| ==> IsTaken(At(proofId), ranked[k])
      ensures r.Granted? ==>
                r.move.Some? && ledgers == old(ledgers)[proofId := At(proofId)] &&
                r.id == MintedId(proofId, old(At(proofId)).serial + 1) &&
                Dispatches(old(At(proofId)), proofId, ranked, workerClass, ttl, lapseAt, now,
                           At(proofId), r.move.value, r.token)
    {
      if ttl <= 0.0 {
        return BadTtl;
      }
      if * {
        return Busy;
      }
      var lapsed := LapseDue(At(proofId), lapseAt);
      var taken := set id | id in lapsed.leases && lapsed.leases[id].status == Active &&
                            lapsed.leases[id].move.Some? :: lapsed.leases[id].move.value;
      for k := 0 to |ranked|
        invariant forall j :: 0 <= j < k ==> IsTaken(lapsed, ranked[j])
        invariant ledgers == old(ledgers)
      {
        if ranked[k] !in taken {
          var token := NextToken(lapsed.leases);
          var id := MintedId(proofId, lapsed.serial + 1);
          if id in lapsed.leases {
            return InsertConflict;
          }
          if * {
            return Busy;
          }
          FirstFreeIs(lapsed, ranked, k);
          var after := Grant(Mint(lapsed), id,
                             DispatchRow(workerClass, Some(ranked[k]), token, HeadRevision(lapsed), ttl, now),
                             Some(workerClass));
          assert DispatchesFrom(lapsed, proofId, ranked, workerClass, ttl, now, after, ranked[k], token);
          ledgers := ledgers[proofId := after];
          return Granted(id, token, Some(ranked[k]));
        }
      }
      if * {
        return Busy;
      }
      ledgers := ledgers[proofId := lapsed];
      return NothingFree;
    }

    method ReleaseLease(proofId: string, id: LeaseId) returns (released: bool, busy: bool)
      modifies this`ledgers
      ensures busy ==> !released && ledgers == old(ledgers)
      ensures !busy ==>
                ledgers == old(ledgers)[proofId := Release(old(At(proofId)), id)] &&
                (released <==> id in old(At(proofId)).leases &&
                               old(At(proofId)).leases[id].status == Active)
    {
      if * {
        return false, true;
      }
      var l := At(proofId);
      released := id in l.leases && l.leases[id].status == Active;
      ledgers := ledgers[proofId := Release(l, id)];
      busy := false;
    }

    /** The rows still live once all that are due have expired. */
    method ActiveLeases(proofId: string, now: real) returns (rows: map<LeaseId, Lease>, busy: bool)
      modifies this`ledgers
      ensures busy ==> ledgers == old(ledgers)
      ensures !busy ==>
                ledgers == old(ledgers)[proofId := At(proofId)] &&
                Lapses(old(At(proofId)), now, At(proofId)) &&
                rows == map id | id in old(At(proofId)).leases &&
                                 IsLive(old(At(proofId)).leases[id], now) :: old(At(proofId)).leases[id]
    {
      if * {
        return map[], true;
      }
      var lapsed := LapseDue(At(proofId), now);
      rows := map id | id in lapsed.leases && lapsed.leases[id].status == Active :: lapsed.leases[id];
      ledgers := ledgers[proofId := lapsed];
      busy := false;
    }

    /** Append one already-validated proposal. A lease that is not held rolls the append back and
        lapses due leases again in a transaction of its own. */
    method Append(p: Proposal, lapseAt: real, relapseAt: real) returns (r: AppendResult)
      modifies this`ledgers
      ensures r.Committed? ==>
                ledgers == old(ledgers)[p.proofId := At(p.proofId)] &&
                Appends(hash, old(At(p.proofId)), p, lapseAt, At(p.proofId)) &&
                r.revision == HeadRevision(At(p.proofId)) && r.eventHash == HeadHash(At(p.proofId)) &&
                (p.baseRevision.Some? ==> r.revision == p.baseRevision.value + 1)
      ensures !r.Committed? ==> forall q :: At(q).journal == old(At(q)).journal
      ensures r == Refused(LeaseNotHeld) ==>
                ledgers == old(ledgers)[p.proofId := At(p.proofId)] &&
                Lapses(old(At(p.proofId)), relapseAt, At(p.proofId))
      ensures !r.Committed? && r != Refused(LeaseNotHeld) ==> ledgers == old(ledgers)
      ensures r.Refused? ==> r.reason in {JournalBusy, StaleBaseRevision, LeaseNotHeld, FencingTokenSuperseded}
      ensures r == Refused(StaleBaseRevision) ==>
                p.baseRevision.Some? && p.baseRevision.value != HeadRevision(old(At(p.proofId)))
      ensures r == Refused(LeaseNotHeld) || r == Refused(FencingTokenSuperseded) ==>
                NamesLease(p) && forall lapsed :: Lapses(old(At(p.proofId)), lapseAt, lapsed) ==>
                  !HoldsLease(lapsed, p.leaseId, p.fencingToken)
      ensures r == Refused(JournalBusy) || r.HeadCorrupt? || r.UniqueViolation? ||
              AppendAnswers(old(At(p.proofId)), p, lapseAt, r)
      ensures old(Sound()) ==> !r.HeadCorrupt? && !r.UniqueViolation? && Sound()
    {
      ghost var before := ledgers;
      if * {
        return Refused(JournalBusy);
      }
      var l := At(p.proofId);
      if l.journal != [] {
        var row := l.journal[|l.journal| - 1];
        if hash(row.prevHash, row.payload) != row.eventHash {
          SoundHead(hash, ledgers, p.proofId);
          return HeadCorrupt;
        }
      }
      if p.baseRevision.Some? && p.baseRevision.value != HeadRevision(l) {
        return Refused(StaleBaseRevision);
      }
      var checked := l;
      if NamesLease(p) {
        checked := LapseDue(l, lapseAt);
        var refusal := LeaseRefusal(checked, p);
        if refusal.Some? {
          LapseLeasesAgree(l, lapseAt, checked);
          RefusalAnswers(l, p, lapseAt, checked);
          if refusal == Some(LeaseNotHeld) {
            if * {
              return Refused(JournalBusy);
            }
            var lapsed := LapseDue(l, relapseAt);
            ledgers := ledgers[p.proofId := lapsed];
            LapseKeepsSound(hash, before, p.proofId, relapseAt, lapsed);
          }
          return Refused(refusal.value);
        }
      }
      CommitAnswers(l, p, lapseAt, checked);
      r := InsertRow(p, lapseAt, checked);
    }

    /** Chain one row onto the checked ledger, unless its hash is already on record. */
    method InsertRow(p: Proposal, lapseAt: real, checked: Ledger) returns (r: AppendResult)
      requires ChecksLease(At(p.proofId), p, lapseAt, checked)
      requires p.baseRevision.Some? ==> p.baseRevision.value == HeadRevision(checked)
      modifies this`ledgers
      ensures r.Committed? || r == UniqueViolation || r == Refused(JournalBusy)
      ensures r.Committed? ==>
                ledgers == old(ledgers)[p.proofId := At(p.proofId)] &&
                Appends(hash, old(At(p.proofId)), p, lapseAt, At(p.proofId)) &&
                r.revision == HeadRevision(At(p.proofId)) && r.eventHash == HeadHash(At(p.proofId)) &&
                (p.baseRevision.Some? ==> r.revision == p.baseRevision.value + 1)
      ensures !r.Committed? ==> ledgers == old(ledgers)
      ensures old(Sound()) ==> !r.UniqueViolation? && Sound()
    {
      var eventHash := hash(HeadHash(checked), p);
      assert HeadHash(checked) == HeadHash(At(p.proofId));
      if exists q :: q in ledgers && HashOnRecord(ledgers[q].journal, eventHash) {
        NoHashOnRecord(hash, ledgers, p);
        return UniqueViolation;
      }
      if * {
        return Refused(JournalBusy);
      }
      ghost var before := ledgers;
      var row := Row(HeadRevision(checked) + 1, eventHash, HeadHash(checked), p);
      ledgers := ledgers[p.proofId := AppendRow(checked, row)];
      assert AppendsFrom(hash, checked, p, At(p.proofId));
      AppendKeepsSound(hash, before, p, lapseAt, At(p.proofId));
      return Committed(row.revision, eventHash);
    }

    /** Copy a refusal into the audit log; best-effort. */
    method RecordRejection(proofId: string, reason: Reason) returns (busy: bool)
      modifies this`rejections
      ensures rejections == if busy then old(rejections) else old(rejections) + [(proofId, reason)]
    {
      if * {
        return true;
      }
      rejections := rejections + [(proofId, reason)];
      busy := false;
    }
  }

  lemma {:induction false} SoundHead(hash: ChainHash, ledgers: map<string, Ledger>, proofId: string)
    requires LedgerAt(ledgers, proofId).journal != []
    ensures AllSound(hash, ledgers) ==>
              LinkHolds(hash, LedgerAt(ledgers, proofId).journal,
                        |LedgerAt(ledgers, proofId).journal| - 1)
  {
    if AllSound(hash, ledgers) {
      assert JournalSound(hash, proofId, LedgerAt(ledgers, proofId).journal);
    }
  }

  lemma {:induction false} NoHashOnRecord(hash: ChainHash, ledgers: map<string, Ledger>, p: Proposal)
    ensures AllSound(hash, ledgers) && CollisionFree(hash) ==>
              forall q :: q in ledgers ==>
                !HashOnRecord(ledgers[q].journal, hash(HeadHash(LedgerAt(ledgers, p.proofId)), p))
  {
    if AllSound(hash, ledgers) && CollisionFree(hash) {
      var l := LedgerAt(ledgers, p.proofId);
      assert JournalSound(hash, p.proofId, l.journal);
      forall q | q in ledgers
        ensures !HashOnRecord(ledgers[q].journal, hash(HeadHash(l), p))
      {
        assert JournalSound(hash, q, LedgerAt(ledgers, q).journal);
        NextHashIsNew(hash, p.proofId, l, p, q, ledgers[q].journal);
      }
    }
  }

  lemma {:induction false} UpdateKeepsSound(hash: ChainHash, ledgers: map<string, Ledger>,
                                            proofId: string, after: Ledger)
    requires AllSound(hash, ledgers) && JournalSound(hash, proofId, after.journal)
    ensures AllSound(hash, ledgers[proofId := after])
  {
    var updated := ledgers[proofId := after];
    forall q
      ensures JournalSound(hash, q, LedgerAt(updated, q).journal)
    {
      assert JournalSound(hash, q, LedgerAt(ledgers, q).journal);
    }
  }

  lemma {:induction false} LapseKeepsSound(hash: ChainHash, ledgers: map<string, Ledger>,
                                           proofId: string, now: real, after: Ledger)
    requires Lapses(LedgerAt(ledgers, proofId), now, after)
    ensures AllSound(hash, ledgers) ==> AllSound(hash, ledgers[proofId := after])
  {
    if AllSound(hash, ledgers) {
      assert JournalSound(hash, proofId, LedgerAt(ledgers, proofId).journal);
      UpdateKeepsSound(hash, ledgers, proofId, after);
    }
  }

  lemma {:induction false} AppendKeepsSound(hash: ChainHash, ledgers: map<string, Ledger>, p: Proposal,
                                            lapseAt: real, after: Ledger)
    requires Appends(hash, LedgerAt(ledgers, p.proofId), p, lapseAt, after)
    ensures AllSound(hash, ledgers) ==> AllSound(hash, ledgers[p.proofId := after])
  {
    if AllSound(hash, ledgers) {
      var l := LedgerAt(ledgers, p.proofId);
      assert JournalSound(hash, p.proofId, l.journal);
      StepGrowsJournal(hash, p.proofId, l, LeaseRuns.Append(p, lapseAt), after);
      UpdateKeepsSound(hash, ledgers, p.proofId, after);
    }
  }

  predicate HashOnRecord(rows: seq<Row>, eventHash: Digest) {
    exists k :: 0 <= k < |rows| && rows[k].eventHash == eventHash
  }

  /** `_check_lease` on a lapsed ledger: which of its two refusals applies, if any. */
  function LeaseRefusal(l: Ledger, p: Proposal): (r: Option<Reason>)
    ensures r.None? <==> HoldsLease(l, p.leaseId, p.fencingToken)
    ensures r.Some? ==> r.value == LeaseNotHeld || r.value == FencingTokenSuperseded
  {
    if p.leaseId.None? || p.leaseId.value !in l.leases then Some(LeaseNotHeld)
    else if l.leases[p.leaseId.value].status != Active then Some(LeaseNotHeld)
    else if p.fencingToken != Some(l.leases[p.leaseId.value].token) then Some(FencingTokenSuperseded)
    else None
  }

  lemma {:induction false} RefusalAnswers(l: Ledger, p: Proposal, t: real, checked: Ledger)
    requires p.baseRevision.Some? ==> p.baseRevision.value == HeadRevision(l)
    requires NamesLease(p) && Lapses(l, t, checked) && LeaseRefusal(checked, p).Some?
    ensures AppendAnswers(l, p, t, Refused(LeaseRefusal(checked, p).value))
  {
  }

  lemma {:induction false} CommitAnswers(l: Ledger, p: Proposal, t: real, checked: Ledger)
    requires p.baseRevision.Some? ==> p.baseRevision.value == HeadRevision(l)
    requires ChecksLease(l, p, t, checked)
    ensures forall r: AppendResult :: r.Committed? ==> AppendAnswers(l, p, t, r)
  {
  }

  lemma {:induction false} FirstFreeIs(l: Ledger, ranked: seq<Move>, k: nat)
    requires k < |ranked| && !IsTaken(l, ranked[k])
    requires forall j :: 0 <= j < k ==> IsTaken(l, ranked[j])
    ensures FirstFree(l, ranked) == k
  {
  }

  /** The order in which leases lapse does not show in the lease rows. */
  lemma {:induction false} LapseLeasesAgree(l: Ledger, now: real, after: Ledger)
    requires Lapses(l, now, after)
    ensures forall other :: Lapses(l, now, other) ==> other.leases == after.leases
  {
  }
}
