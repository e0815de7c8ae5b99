/** Hash-chained journals: each entry's hash covers its content and its predecessor's hash. */
module AuditChain {
  import opened Ordering

  const EIGHT_ZEROS: string := "00000000"

  /** Sixty-four zeros. */
  const GENESIS_HASH: string :=
    EIGHT_ZEROS + EIGHT_ZEROS + EIGHT_ZEROS + EIGHT_ZEROS + EIGHT_ZEROS + EIGHT_ZEROS + EIGHT_ZEROS + EIGHT_ZEROS

  datatype Row<C> = Row(content: C, previous: string, hash: string)

  /** What a patch entry's hash covers besides its predecessor. Decoded JSON fields are kept in
      canonical text. */
  datatype PatchContent = PatchContent(
    patchId: string,
    schemaVersion: int,
    problemId: string,
    baseRevision: int,
    actorRole: string,
    targetId: string,
    operations: string,
    evidenceArtifactIds: string,
    rationale: string,
    status: string,
    rejectionReason: string,
    createdAt: string,
    appliedRevision: int,
    authoritySource: string,
    authority: string,
    stateDelta: string,
    stateHashBefore: string,
    stateHashAfter: string)

  datatype EventContent = EventContent(
    eventId: int,
    revision: int,
    eventType: string,
    payload: string,
    createdAt: string)

  /** The entry hash as a function of content and predecessor. */
  type EntryHash<!C> = (C, string) -> string

  /** Two entries with different inputs and the same hash. */
  ghost predicate Collide<C>(h: EntryHash<C>, r: Row<C>, q: Row<C>) {
    && h(r.content, r.previous) == h(q.content, q.previous)
    && (r.content != q.content || r.previous != q.previous)
  }

  /** The entries of two journals do not collide. Nothing is asked of the hash elsewhere. */
  ghost predicate NoCollision<C>(h: EntryHash<C>, a: seq<Row<C>>, b: seq<Row<C>>) {
    forall r, q | r in a && q in b :: !Collide(h, r, q)
  }

  /** The hash the next entry must name as its predecessor. */
  function Head<C>(start: string, rows: seq<Row<C>>): string {
    if rows == [] then start else rows[|rows| - 1].hash
  }

  /** Every recorded predecessor and hash is the recomputed one. */
  ghost predicate Linked<C>(h: EntryHash<C>, start: string, rows: seq<Row<C>>) {
    forall i | 0 <= i < |rows| ::
      rows[i].previous == Head(start, rows[..i]) && rows[i].hash == h(rows[i].content, rows[i].previous)
  }

  lemma LinkedPrefix<C>(h: EntryHash<C>, start: string, rows: seq<Row<C>>, n: nat)
    requires Linked(h, start, rows) && n <= |rows|
    ensures Linked(h, start, rows[..n])
  {
    forall i | 0 <= i < n ensures rows[..n][..i] == rows[..i] {}
  }

  lemma LinkedAppend<C>(h: EntryHash<C>, start: string, rows: seq<Row<C>>, c: C)
    requires Linked(h, start, rows)
    ensures Linked(h, start, rows + [Row(c, Head(start, rows), h(c, Head(start, rows)))])
  {
    var longer := rows + [Row(c, Head(start, rows), h(c, Head(start, rows)))];
    forall i | 0 <= i < |longer|
      ensures longer[i].previous == Head(start, longer[..i])
      ensures longer[i].hash == h(longer[i].content, longer[i].previous)
    {
      assert longer[..i] == rows[..i];
      if i == |rows| {
        assert rows[..i] == rows;
      }
    }
  }

  /** Equal heads without a collision at the last position: equal last entries, and equal heads
      before them. */
  lemma LastAgree<C>(h: EntryHash<C>, start: string, a: seq<Row<C>>, b: seq<Row<C>>)
    requires Linked(h, start, a) && Linked(h, start, b)
    requires 0 < |a| == |b| && Head(start, a) == Head(start, b)
    requires !Collide(h, a[|a| - 1], b[|b| - 1])
    ensures var n := |a| - 1;
            a[n] == b[n] && Head(start, a[..n]) == Head(start, b[..n])
            && Linked(h, start, a[..n]) && Linked(h, start, b[..n])
  {
    LinkedPrefix(h, start, a, |a| - 1);
    LinkedPrefix(h, start, b, |b| - 1);
  }

  lemma EqualByParts<T>(a: seq<T>, b: seq<T>)
    requires 0 < |a| == |b|
    ensures a == b <==> a[..|a| - 1] == b[..|b| - 1] && a[|a| - 1] == b[|b| - 1]
  {
    assert a == a[..|a| - 1] + [a[|a| - 1]] && b == b[..|b| - 1] + [b[|b| - 1]];
  }

  /** Tamper evidence: two linked journals of the same length and the same head differ only if the
      hash collides at some position of theirs. */
  lemma {:induction false} TamperingCollides<C>(h: EntryHash<C>, start: string, a: seq<Row<C>>, b: seq<Row<C>>)
    returns (i: nat)
    requires Linked(h, start, a) && Linked(h, start, b)
    requires |a| == |b| && Head(start, a) == Head(start, b) && a != b
    ensures i < |a| && Collide(h, a[i], b[i])
  {
    hide *;
    i := |a| - 1;
    if !Collide(h, a[i], b[i]) {
      LastAgree(h, start, a, b);
      EqualByParts(a, b);
      i := TamperingCollides(h, start, a[..i], b[..i]);
    }
  }

  lemma CollisionAt<C>(h: EntryHash<C>, a: seq<Row<C>>, b: seq<Row<C>>, i: nat)
    requires i < |a| && i < |b| && Collide(h, a[i], b[i])
    ensures !NoCollision(h, a, b)
  {
  }

  /** Without a collision among their entries such journals are the same, entry by entry. */
  lemma SameHeadSameJournal<C>(h: EntryHash<C>, start: string, a: seq<Row<C>>, b: seq<Row<C>>)
    requires NoCollision(h, a, b)
    requires Linked(h, start, a) && Linked(h, start, b)
    requires |a| == |b| && Head(start, a) == Head(start, b)
    ensures a == b
  {
    if a != b {
      var i := TamperingCollides(h, start, a, b);
      CollisionAt(h, a, b, i);
    }
  }

  /** The recomputed chain over given contents. */
  function Relink<C>(h: EntryHash<C>, start: string, contents: seq<C>): (rows: seq<Row<C>>)
    ensures |rows| == |contents|
  {
    if contents == [] then [] else
      var n := |contents| - 1;
      var before := Relink(h, start, contents[..n]);
      var previous := Head(start, before);
      before + [Row(contents[n], previous, h(contents[n], previous))]
  }

  function Contents<C>(rows: seq<Row<C>>): seq<C> {
    seq(|rows|, i requires 0 <= i < |rows| => rows[i].content)
  }

  lemma RelinkLast<C>(h: EntryHash<C>, start: string, rows: seq<Row<C>>)
    requires rows != []
    ensures var n := |rows| - 1;
            var before := Relink(h, start, Contents(rows[..n]));
            var previous := Head(start, before);
            rows == Relink(h, start, Contents(rows))
            <==> rows[..n] == before && rows[n] == Row(rows[n].content, previous, h(rows[n].content, previous))
  {
    var n := |rows| - 1;
    var before := Relink(h, start, Contents(rows[..n]));
    assert Contents(rows)[..n] == Contents(rows[..n]) && Contents(rows)[n] == rows[n].content;
    var last := Row(rows[n].content, Head(start, before), h(rows[n].content, Head(start, before)));
    assert Relink(h, start, Contents(rows)) == before + [last];
    hide Relink, Contents, Head;
    assert rows == rows[..n] + [rows[n]];
    if rows == before + [last] {
      assert rows[..n] == before && rows[n] == last;
    }
  }

  /** The chain over given contents exists and is unique. */
  lemma {:induction false} LinkedIffRelinked<C>(h: EntryHash<C>, start: string, rows: seq<Row<C>>)
    ensures Linked(h, start, rows) <==> rows == Relink(h, start, Contents(rows))
  {
    if rows != [] {
      LinkedIffRelinked(h, start, rows[..|rows| - 1]);
      RelinkLast(h, start, rows);
      LinkedLast(h, start, rows);
      hide Linked, Head, Contents, Relink;
    }
  }

  lemma LinkedLast<C>(h: EntryHash<C>, start: string, rows: seq<Row<C>>)
    requires rows != []
    ensures var n := |rows| - 1; var previous := Head(start, rows[..n]);
            Linked(h, start, rows)
            <==> Linked(h, start, rows[..n]) && rows[n] == Row(rows[n].content, previous, h(rows[n].content, previous))
  {
    var n := |rows| - 1;
    if Linked(h, start, rows) {
      LinkedPrefix(h, start, rows, n);
    }
    if Linked(h, start, rows[..n]) && rows[n].previous == Head(start, rows[..n])
       && rows[n].hash == h(rows[n].content, rows[n].previous) {
      LinkedAppend(h, start, rows[..n], rows[n].content);
      assert rows == rows[..n] + [rows[n]];
    }
  }

  // ----- Policy events -----

  const POLICY_EVENT_TYPES: set<string> :=
    {"completion_policy", "parallel_branch_mode", "root_intent_resolution", "operator_steering", "run_control_policy"}

  predicate IsPolicy(e: Row<EventContent>) {
    e.content.eventType in POLICY_EVENT_TYPES
  }

  /** The hash of the last policy event, or the genesis hash. */
  function PolicyHead(events: seq<Row<EventContent>>): string {
    if events == [] then GENESIS_HASH
    else if IsPolicy(events[|events| - 1]) then events[|events| - 1].hash
    else PolicyHead(events[..|events| - 1])
  }

  lemma {:induction false} PolicyHeadIsLast(events: seq<Row<EventContent>>)
    ensures (forall i | 0 <= i < |events| :: !IsPolicy(events[i])) ==> PolicyHead(events) == GENESIS_HASH
    ensures forall i ::
      0 <= i < |events| && IsPolicy(events[i]) && (forall j | i < j < |events| :: !IsPolicy(events[j])) ==>
      PolicyHead(events) == events[i].hash
  {
    if events != [] && !IsPolicy(events[|events| - 1]) {
      var init := events[..|events| - 1];
      PolicyHeadIsLast(init);
      forall i | 0 <= i < |events| && IsPolicy(events[i]) && (forall j | i < j < |events| :: !IsPolicy(events[j]))
        ensures PolicyHead(events) == events[i].hash
      {
        assert i < |init| && init[i] == events[i];
        forall j | i < j < |init| ensures !IsPolicy(init[j]) { assert init[j] == events[j]; }
      }
    }
  }

  // ----- The journal tables and their migration -----

  class AuditTables {
    const patchHash: EntryHash<PatchContent>
    const eventHash: EntryHash<EventContent>
    var patches: map<string, Row<PatchContent>>
    var events: map<int, Row<EventContent>>
    var eventCount: int
    var eventHead: string
    var policyHead: string

    constructor (patchHash: EntryHash<PatchContent>, eventHash: EntryHash<EventContent>,
                 patches: map<string, Row<PatchContent>>, events: map<int, Row<EventContent>>)
      ensures this.patchHash == patchHash && this.eventHash == eventHash
      ensures this.patches == patches && this.events == events
    {
      this.patchHash := patchHash;
      this.eventHash := eventHash;
      this.patches := patches;
      this.events := events;
      eventCount, eventHead, policyHead := 0, GENESIS_HASH, GENESIS_HASH;
    }
  }

  function Revision(patches: map<string, Row<PatchContent>>, id: string): int {
    if id in patches then patches[id].content.appliedRevision else 0
  }

  /** ORDER BY applied_revision, patch_id. */
  function PatchLeq(patches: map<string, Row<PatchContent>>): (string, string) -> bool {
    (a: string, b: string) =>
      Revision(patches, a) < Revision(patches, b) || (Revision(patches, a) == Revision(patches, b) && IdLeq(a, b))
  }

  lemma PatchTotalOrder(patches: map<string, Row<PatchContent>>)
    ensures TotalOrder(PatchLeq(patches))
  {
    IdTotalOrder();
  }

  function AppliedIds(patches: map<string, Row<PatchContent>>): set<string> {
    set id | id in patches && patches[id].content.status == "applied"
  }

  function AppliedOrder(patches: map<string, Row<PatchContent>>): (ids: seq<string>)
    ensures Elements(ids) == AppliedIds(patches) && NoDuplicates(ids)
    ensures Ascending(PatchLeq(patches), ids)
    ensures forall id | id in ids :: id in patches
  {
    PatchTotalOrder(patches);
    var ids := SortedBy(PatchLeq(patches), AppliedIds(patches));
    assert forall id | id in ids :: id in Elements(ids);
    ids
  }

  lemma IntTotalOrder()
    ensures TotalOrder((a: int, b: int) => a <= b)
  {
  }

  function EventOrder(events: map<int, Row<EventContent>>): (ids: seq<int>)
    ensures Elements(ids) == events.Keys && NoDuplicates(ids)
    ensures forall i, j | 0 <= i < j < |ids| :: ids[i] < ids[j]
    ensures forall id | id in ids :: id in events
  {
    IntTotalOrder();
    var ids := SortedBy((a: int, b: int) => a <= b, events.Keys);
    assert forall id | id in ids :: id in Elements(ids);
    ids
  }

  function RowsAt<K, C>(table: map<K, Row<C>>, ids: seq<K>): (rows: seq<Row<C>>)
    requires forall id | id in ids :: id in table
    ensures |rows| == |ids|
  {
    seq(|ids|, i requires 0 <= i < |ids| => table[ids[i]])
  }

  /** Hashes may differ between the two tables; contents may not. */
  ghost predicate SameContents<K, C>(before: map<K, Row<C>>, after: map<K, Row<C>>) {
    && after.Keys == before.Keys
    && forall id | id in before :: after[id].content == before[id].content
  }

  /** The chain over the ordered rows, all other rows untouched. */
  ghost predicate Chained<K, C>(h: EntryHash<C>, before: map<K, Row<C>>, after: map<K, Row<C>>, order: seq<K>)
    requires forall id | id in order :: id in before
  {
    && SameContents(before, after)
    && (forall id | id in before && id !in order :: after[id] == before[id])
    && Linked(h, GENESIS_HASH, RowsAt(after, order))
  }

  lemma SameRows<K, C>(h: EntryHash<C>, before: map<K, Row<C>>, a: map<K, Row<C>>, b: map<K, Row<C>>, order: seq<K>)
    requires forall id | id in order :: id in before
    requires Chained(h, before, a, order) && Chained(h, before, b, order)
    ensures RowsAt(a, order) == RowsAt(b, order)
  {
    var ra, rb := RowsAt(a, order), RowsAt(b, order);
    LinkedIffRelinked(h, GENESIS_HASH, ra);
    LinkedIffRelinked(h, GENESIS_HASH, rb);
    hide Linked, Relink;
    assert Contents(ra) == Contents(rb);
  }

  /** There is one way to chain a table. */
  lemma ChainedUnique<K, C>(h: EntryHash<C>, before: map<K, Row<C>>, a: map<K, Row<C>>, b: map<K, Row<C>>,
                            order: seq<K>)
    requires forall id | id in order :: id in before
    requires Chained(h, before, a, order) && Chained(h, before, b, order)
    ensures a == b
  {
    SameRows(h, before, a, b, order);
    hide Linked;
    forall id | id in before ensures a[id] == b[id] {
      if id in order {
        var i :| 0 <= i < |order| && order[i] == id;
        assert RowsAt(a, order)[i] == RowsAt(b, order)[i];
      }
    }
  }

  lemma RowsAtStep<K, C>(table: map<K, Row<C>>, order: seq<K>, k: nat, row: Row<C>)
    requires k < |order| && NoDuplicates(order) && forall id | id in order :: id in table
    ensures RowsAt(table[order[k] := row], order[..k + 1]) == RowsAt(table, order[..k]) + [row]
  {
    var after := table[order[k] := row];
    assert order[..k + 1] == order[..k] + [order[k]];
    forall i | 0 <= i < k ensures after[order[i]] == table[order[i]] {}
  }

  /** One more row of the chain. */
  lemma ChainStep<K, C>(h: EntryHash<C>, before: map<K, Row<C>>, table: map<K, Row<C>>, order: seq<K>, k: nat,
                        digest: string)
    requires forall id | id in order :: id in before
    requires k < |order| && NoDuplicates(order)
    requires Chained(h, before, table, order[..k])
    requires digest == h(before[order[k]].content, Head(GENESIS_HASH, RowsAt(table, order[..k])))
    ensures var row := Row(before[order[k]].content, Head(GENESIS_HASH, RowsAt(table, order[..k])), digest);
      && Chained(h, before, table[order[k] := row], order[..k + 1])
      && RowsAt(table[order[k] := row], order[..k + 1]) == RowsAt(table, order[..k]) + [row]
  {
    var rows := RowsAt(table, order[..k]);
    var row := Row(before[order[k]].content, Head(GENESIS_HASH, rows), digest);
    RowsAtStep(table, order, k, row);
    LinkedAppend(h, GENESIS_HASH, rows, row.content);
    hide Linked, Head, NoDuplicates, RowsAt;
    assert order[..k + 1] == order[..k] + [order[k]];
  }

  /** The loops' knowledge: the first `k` rows are chained, and `previous` is their head. */
  ghost predicate Progress<K, C>(h: EntryHash<C>, before: map<K, Row<C>>, table: map<K, Row<C>>, order: seq<K>, k: nat,
                                 previous: string)
    requires forall id | id in order :: id in before
  {
    k <= |order| && Chained(h, before, table, order[..k]) && previous == Head(GENESIS_HASH, RowsAt(table, order[..k]))
  }

  lemma ProgressStart<K, C>(h: EntryHash<C>, before: map<K, Row<C>>, order: seq<K>)
    requires forall id | id in order :: id in before
    ensures Progress(h, before, before, order, 0, GENESIS_HASH)
  {
  }

  lemma ProgressHas<K, C>(h: EntryHash<C>, before: map<K, Row<C>>, table: map<K, Row<C>>, order: seq<K>, k: nat,
                          previous: string)
    requires forall id | id in order :: id in before
    requires Progress(h, before, table, order, k, previous)
    ensures table.Keys == before.Keys
    ensures forall id | id in before :: table[id].content == before[id].content
    ensures k == |order| ==> Chained(h, before, table, order) && previous == Head(GENESIS_HASH, RowsAt(table, order))
  {
    assert order[..|order|] == order;
  }

  lemma ProgressStep<K, C>(h: EntryHash<C>, before: map<K, Row<C>>, table: map<K, Row<C>>, order: seq<K>, k: nat,
                           previous: string, row: Row<C>)
    requires forall id | id in order :: id in before
    requires k < |order| && NoDuplicates(order) && Progress(h, before, table, order, k, previous)
    requires row.content == before[order[k]].content && row.previous == previous && row.hash == h(row.content, previous)
    ensures Progress(h, before, table[order[k] := row], order, k + 1, row.hash)
    ensures order[k] in table && table.Keys == before.Keys
    ensures RowsAt(table[order[k] := row], order[..k + 1]) == RowsAt(table, order[..k]) + [row]
  {
    ChainStep(h, before, table, order, k, row.hash);
  }

  lemma PolicyStart()
    ensures PolicyHead([]) == GENESIS_HASH
  {
  }

  lemma PolicyAppend(rows: seq<Row<EventContent>>, row: Row<EventContent>, was: Row<EventContent>)
    requires row.content == was.content
    ensures PolicyHead(rows + [row]) == if IsPolicy(was) then row.hash else PolicyHead(rows)
  {
    assert (rows + [row])[..|rows|] == rows;
  }

  /** backfill_patch_entry_chain. */
  method BackfillPatchEntryChain(conn: AuditTables) returns (count: int, head: string)
    modifies conn`patches
    ensures Chained(conn.patchHash, old(conn.patches), conn.patches, AppliedOrder(old(conn.patches)))
    ensures count == |AppliedOrder(old(conn.patches))|
    ensures head == Head(GENESIS_HASH, RowsAt(conn.patches, AppliedOrder(old(conn.patches))))
  {
    hide *;
    ghost var before := conn.patches;
    var previous := GENESIS_HASH;
    count := 0;
    var rows := AppliedOrder(conn.patches);
    ProgressStart(conn.patchHash, before, rows);
    for k := 0 to |rows|
      invariant count == k && Progress(conn.patchHash, before, conn.patches, rows, k, previous)
    {
      ProgressHas(conn.patchHash, before, conn.patches, rows, k, previous);
      var row := conn.patches[rows[k]];
      var digest := conn.patchHash(row.content, previous);
      row := row.(previous := previous, hash := digest);
      ProgressStep(conn.patchHash, before, conn.patches, rows, k, previous, row);
      conn.patches := conn.patches[rows[k] := row];
      previous := digest;
      count := count + 1;
    }
    ProgressHas(conn.patchHash, before, conn.patches, rows, |rows|, previous);
    head := previous;
  }

  /** backfill_event_chain. */
  method BackfillEventChain(conn: AuditTables) returns (count: int, head: string, policyHead: string)
    modifies conn`events, conn`eventCount, conn`eventHead, conn`policyHead
    ensures Chained(conn.eventHash, old(conn.events), conn.events, EventOrder(old(conn.events)))
    ensures var chain := RowsAt(conn.events, EventOrder(old(conn.events)));
      count == |chain| && head == Head(GENESIS_HASH, chain) && policyHead == PolicyHead(chain)
    ensures conn.eventCount == count && conn.eventHead == head && conn.policyHead == policyHead
  {
    hide *;
    ghost var before := conn.events;
    var previous := GENESIS_HASH;
    policyHead := GENESIS_HASH;
    count := 0;
    var rows := EventOrder(conn.events);
    ghost var chain: seq<Row<EventContent>> := [];
    ProgressStart(conn.eventHash, before, rows);
    PolicyStart();
    assert RowsAt(conn.events, rows[..0]) == [];
    for k := 0 to |rows|
      invariant count == k && Progress(conn.eventHash, before, conn.events, rows, k, previous)
      invariant conn.events.Keys == before.Keys
      invariant chain == RowsAt(conn.events, rows[..k]) && policyHead == PolicyHead(chain)
    {
      ProgressHas(conn.eventHash, before, conn.events, rows, k, previous);
      var row := conn.events[rows[k]];
      var digest := conn.eventHash(row.content, previous);
      var linked := row.(previous := previous, hash := digest);
      ProgressStep(conn.eventHash, before, conn.events, rows, k, previous, linked);
      PolicyAppend(chain, linked, row);
      conn.events := conn.events[rows[k] := linked];
      chain := chain + [linked];
      if IsPolicy(row) {
        policyHead := digest;
      }
      previous := digest;
      count := count + 1;
    }
    ProgressHas(conn.eventHash, before, conn.events, rows, |rows|, previous);
    assert rows[..|rows|] == rows;
    conn.eventCount, conn.eventHead, conn.policyHead := count, previous, policyHead;
    head := previous;
  }

  /** Contents fix the order, so a second migration finds the chain it would write. */
  lemma BackfillTwice(h: EntryHash<PatchContent>, p0: map<string, Row<PatchContent>>,
                      p1: map<string, Row<PatchContent>>,
                      p2: map<string, Row<PatchContent>>)
    requires Chained(h, p0, p1, AppliedOrder(p0))
    requires Chained(h, p1, p2, AppliedOrder(p1))
    ensures AppliedOrder(p1) == AppliedOrder(p0) && p2 == p1
  {
    assert AppliedIds(p1) == AppliedIds(p0);
    assert forall id :: Revision(p1, id) == Revision(p0, id);
    PatchTotalOrder(p0);
    assert Ascending(PatchLeq(p0), AppliedOrder(p1)) by {
      assert forall a, b :: PatchLeq(p0)(a, b) <==> PatchLeq(p1)(a, b);
    }
    AscendingUnique(PatchLeq(p0), AppliedOrder(p1), AppliedOrder(p0));
    assert Chained(h, p1, p1, AppliedOrder(p0));
    ChainedUnique(h, p1, p1, p2, AppliedOrder(p0));
  }

  lemma BackfillEventsTwice(h: EntryHash<EventContent>, e0: map<int, Row<EventContent>>,
                            e1: map<int, Row<EventContent>>,
                            e2: map<int, Row<EventContent>>)
    requires Chained(h, e0, e1, EventOrder(e0))
    requires Chained(h, e1, e2, EventOrder(e1))
    ensures EventOrder(e1) == EventOrder(e0) && e2 == e1
  {
    assert e1.Keys == e0.Keys;
    assert Chained(h, e1, e1, EventOrder(e0));
    ChainedUnique(h, e1, e1, e2, EventOrder(e0));
  }
}
