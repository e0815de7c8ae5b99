/** Reopening refuted obligations whose certificate is no longer current. */
module Obligations {
  import opened Ordering
  import opened ProofTables
  import opened Closure
  import opened Invalidation

  /** Some evidence artifact of the obligation still has a current binding for it. */
  predicate StillEvidenced(h: Hasher, db: Db, o: string)
    requires o in db.obligations
  {
    exists a :: a in db.obligations[o].resolution.evidence && a != ""
                && HasCurrentBinding(h, db, a, Entity(ObligationKind, o))
  }

  predicate IsStale(h: Hasher, db: Db, o: string) {
    o in db.obligations && db.obligations[o].status == Refuted && !StillEvidenced(h, db, o)
  }

  function Reopen(db: Db, o: string): Db
    requires o in db.obligations
  {
    db.(obligations := db.obligations[o := db.obligations[o].(status := Active)])
  }

  /** The pass as the code runs it: each obligation is judged in the state its predecessors left. */
  function ReopenInTurn(h: Hasher, db: Db, ids: seq<string>): Db {
    if ids == [] then db
    else
      var before := ReopenInTurn(h, db, ids[..|ids| - 1]);
      var o := ids[|ids| - 1];
      if IsStale(h, before, o) then Reopen(before, o) else before
  }

  function RefutedObligations(db: Db): set<string> {
    set o | o in db.obligations && db.obligations[o].status == Refuted
  }

  /** Each reopened obligation is reported once, as active, and nothing else is. */
  ghost predicate ReportsReopened(d0: Db, d1: Db, changes: seq<Change>) {
    && NoDuplicates(changes)
    && d1.obligations.Keys == d0.obligations.Keys
    && forall ch :: ch in changes <==>
         && ch.entity.kind == ObligationKind && ch.newStatus == Active
         && ch.entity.id in d0.obligations && d1.obligations[ch.entity.id] != d0.obligations[ch.entity.id]
  }

  lemma ReopenedReport(d0: Db, d: Db, changes: seq<Change>, o: string)
    requires ReportsReopened(d0, d, changes)
    requires o in d.obligations && d.obligations[o] == d0.obligations[o] && d.obligations[o].status == Refuted
    ensures ReportsReopened(d0, Reopen(d, o), changes + [Change(Entity(ObligationKind, o), Active)])
  {
    var line := Change(Entity(ObligationKind, o), Active);
    assert line !in changes;
    forall ch ensures ch in changes + [line] <==>
      && ch.entity.kind == ObligationKind && ch.newStatus == Active
      && ch.entity.id in d0.obligations && Reopen(d, o).obligations[ch.entity.id] != d0.obligations[ch.entity.id]
    {
      assert ch in changes + [line] <==> ch in changes || ch == line;
    }
  }

  /** invalidate_stale_refuted_obligations. */
  method InvalidateStaleRefuted(conn: ProofStore) returns (changes: seq<Change>)
    modifies conn`obligations
    ensures conn.Snapshot()
         == ReopenInTurn(conn.digest, old(conn.Snapshot()), SortedIds(RefutedObligations(old(conn.Snapshot()))))
    ensures ReportsReopened(old(conn.Snapshot()), conn.Snapshot(), changes)
  {
    hide ReportsReopened, StillEvidenced, SortedIds;
    ghost var d0 := conn.Snapshot();
    changes := [];
    NothingReopened(d0);
    var rows := SortedIds(RefutedObligations(conn.Snapshot()));
    for k := 0 to |rows|
      invariant conn.Snapshot() == ReopenInTurn(conn.digest, d0, rows[..k])
      invariant conn.obligations.Keys == d0.obligations.Keys
      invariant forall o | o in d0.obligations && o !in rows[..k] :: conn.obligations[o] == d0.obligations[o]
      invariant ReportsReopened(d0, conn.Snapshot(), changes)
    {
      var o := rows[k];
      assert o in Elements(rows);
      assert rows[..k + 1][..k] == rows[..k];
      assert o !in rows[..k];
      if !StillEvidenced(conn.digest, conn.Snapshot(), o) {
        ReopenedReport(d0, conn.Snapshot(), changes, o);
        conn.obligations := conn.obligations[o := conn.obligations[o].(status := Active)];
        changes := changes + [Change(Entity(ObligationKind, o), Active)];
      }
    }
    assert rows[..|rows|] == rows;
  }

  lemma NothingReopened(db: Db)
    ensures ReportsReopened(db, db, [])
  {
  }

  /** No binding lists an obligation: closures hold claims, inferences and routes only. */
  ghost predicate NoObligationListed(db: Db) {
    forall a, e, d | a in db.artifacts && e in db.artifacts[a].bindings
        && d in db.artifacts[a].bindings[e].dependencies ::
      d.kind != ObligationKind
  }

  /** Reopening one obligation leaves the currency of every other entity's bindings as it was. */
  lemma ReopenAffectsOnlyItself(h: Hasher, db: Db, o: string, a: string, e: Entity)
    requires NoObligationListed(db)
    requires o in db.obligations && e != Entity(ObligationKind, o)
    ensures HasCurrentBinding(h, Reopen(db, o), a, e) <==> HasCurrentBinding(h, db, a, e)
  {
    var after := Reopen(db, o);
    if a in db.artifacts && e in db.artifacts[a].bindings {
      var b := db.artifacts[a].bindings[e];
      assert SubjectDigest(h, after, e) == SubjectDigest(h, db, e);
      forall d | d in b.dependencies
        ensures SubjectDigest(h, after, d) == SubjectDigest(h, db, d) && EntityStatus(after, d) == EntityStatus(db, d)
      {
      }
      assert DependencyEntries(h, after, map[], b.dependencies) == DependencyEntries(h, db, map[], b.dependencies);
    }
  }

  lemma ReopenKeepsEvidence(h: Hasher, db: Db, o: string, p: string)
    requires NoObligationListed(db) && o in db.obligations && p in db.obligations && o != p
    ensures StillEvidenced(h, Reopen(db, o), p) <==> StillEvidenced(h, db, p)
  {
    forall a ensures HasCurrentBinding(h, Reopen(db, o), a, Entity(ObligationKind, p))
                <==> HasCurrentBinding(h, db, a, Entity(ObligationKind, p))
    {
      ReopenAffectsOnlyItself(h, db, o, a, Entity(ObligationKind, p));
    }
  }

  /** Of the listed obligations exactly those stale in `db` are reopened in `after`, nothing else
      changes, and those listed and left refuted still have current evidence. */
  ghost predicate ReopenedAtOnce(h: Hasher, db: Db, ids: seq<string>, after: Db) {
    && after == db.(obligations := after.obligations) && after.obligations.Keys == db.obligations.Keys
    && (forall o | o in db.obligations :: after.obligations[o] ==
          if o in ids && IsStale(h, db, o) then db.obligations[o].(status := Active) else db.obligations[o])
    && (forall o | o in db.obligations && o !in ids :: StillEvidenced(h, after, o) <==> StillEvidenced(h, db, o))
    && (forall o | o in db.obligations && o in ids && after.obligations[o].status == Refuted ::
          StillEvidenced(h, after, o))
  }

  /** The last obligation is judged as it would have been at the start. */
  lemma SameVerdict(h: Hasher, db: Db, init: seq<string>, last: string, before: Db)
    requires ReopenedAtOnce(h, db, init, before) && last !in init
    ensures IsStale(h, before, last) <==> IsStale(h, db, last)
    ensures last in db.obligations ==> before.obligations[last] == db.obligations[last]
  {
    hide StillEvidenced;
  }

  lemma ReopenedOneMore(h: Hasher, db: Db, init: seq<string>, last: string, before: Db)
    requires NoObligationListed(db) && ReopenedAtOnce(h, db, init, before) && last !in init
    ensures ReopenedAtOnce(h, db, init + [last], if IsStale(h, before, last) then Reopen(before, last) else before)
  {
    SameVerdict(h, db, init, last, before);
    assert forall o :: o in init + [last] <==> o in init || o == last;
    if IsStale(h, before, last) {
      EvidenceOfOthers(h, db, before, last);
      hide StillEvidenced, NoObligationListed;
    } else {
      hide StillEvidenced, NoObligationListed;
    }
  }

  lemma EvidenceOfOthers(h: Hasher, db: Db, before: Db, last: string)
    requires NoObligationListed(db) && before == db.(obligations := before.obligations) && last in before.obligations
    ensures forall o | o in before.obligations && o != last ::
      StillEvidenced(h, Reopen(before, last), o) <==> StillEvidenced(h, before, o)
  {
    assert NoObligationListed(before);
    hide StillEvidenced, NoObligationListed;
    forall o | o in before.obligations && o != last
      ensures StillEvidenced(h, Reopen(before, last), o) <==> StillEvidenced(h, before, o)
    {
      ReopenKeepsEvidence(h, before, last, o);
    }
  }

  /** The pass in turn is the pass at once: an obligation is reopened exactly when it was stale
      in the state the pass began with. */
  lemma {:induction false} InTurnIsAtOnce(h: Hasher, db: Db, ids: seq<string>)
    requires NoObligationListed(db) && NoDuplicates(ids)
    ensures ReopenedAtOnce(h, db, ids, ReopenInTurn(h, db, ids))
  {
    if ids != [] {
      var init, last := ids[..|ids| - 1], ids[|ids| - 1];
      assert ids == init + [last];
      InTurnIsAtOnce(h, db, init);
      assert last !in init;
      hide ReopenedAtOnce, NoObligationListed, IsStale, Reopen;
      ReopenedOneMore(h, db, init, last, ReopenInTurn(h, db, init));
    }
  }

  /** One pass reaches a fixpoint: every obligation still refuted has current evidence, and a
      second pass changes nothing. */
  lemma OnePassSuffices(h: Hasher, db: Db)
    requires NoObligationListed(db)
    ensures var after := ReopenInTurn(h, db, SortedIds(RefutedObligations(db)));
      && (forall o | o in RefutedObligations(after) :: StillEvidenced(h, after, o))
      && ReopenInTurn(h, after, SortedIds(RefutedObligations(after))) == after
  {
    hide StillEvidenced, ReopenInTurn, NoDuplicates;
    var ids := SortedIds(RefutedObligations(db));
    var after := ReopenInTurn(h, db, ids);
    InTurnIsAtOnce(h, db, ids);
    forall o | o in RefutedObligations(after) ensures StillEvidenced(h, after, o) {
      assert o in RefutedObligations(db) && o in Elements(ids);
    }
    var again := SortedIds(RefutedObligations(after));
    assert NoObligationListed(after);
    InTurnIsAtOnce(h, after, again);
    forall o | o in again ensures !IsStale(h, after, o) { assert o in Elements(again); }
    assert ReopenInTurn(h, after, again).obligations == after.obligations;
  }
}
