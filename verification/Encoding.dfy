/** The hash hypothesis can be met: a canonical text of what is digested, in which sorted lists are
    written out and every part ends where it says it does, has no collisions. */
module Encoding {
  import opened Ordering
  import opened ProofTables

  /** A string, then `rest`: each character is announced, and so is the end. */
  function PutString(s: string, rest: string): string {
    if s == "" then "." + rest else ['x', s[0]] + PutString(s[1..], rest)
  }

  lemma {:induction false} StringsDiffer(a: string, s: string, b: string, t: string)
    requires PutString(a, s) == PutString(b, t)
    ensures a == b && s == t
  {
    var u, v := PutString(a, s), PutString(b, t);
    if a == "" || b == "" {
      assert u[0] == v[0];
      assert u[1..] == s && v[1..] == t;
    } else {
      assert u[1] == a[0] && v[1] == b[0];
      assert u[2..] == PutString(a[1..], s) && v[2..] == PutString(b[1..], t);
      StringsDiffer(a[1..], s, b[1..], t);
      assert a == [a[0]] + a[1..] && b == [b[0]] + b[1..];
    }
  }

  function PutStrings(ss: seq<string>, rest: string): string {
    if ss == [] then "." + rest else "x" + PutString(ss[0], PutStrings(ss[1..], rest))
  }

  lemma {:induction false} StringListsDiffer(a: seq<string>, s: string, b: seq<string>, t: string)
    requires PutStrings(a, s) == PutStrings(b, t)
    ensures a == b && s == t
  {
    var u, v := PutStrings(a, s), PutStrings(b, t);
    if a == [] || b == [] {
      assert u[0] == v[0];
      assert u[1..] == s && v[1..] == t;
    } else {
      assert u[1..] == PutString(a[0], PutStrings(a[1..], s)) && v[1..] == PutString(b[0], PutStrings(b[1..], t));
      StringsDiffer(a[0], PutStrings(a[1..], s), b[0], PutStrings(b[1..], t));
      StringListsDiffer(a[1..], s, b[1..], t);
      assert a == [a[0]] + a[1..] && b == [b[0]] + b[1..];
    }
  }

  function StatusText(s: Status): string {
    match s
    case InformallyVerified => "1"
    case FormallyVerified => "2"
    case Refuted => "3"
    case Integrated => "4"
    case Challenged => "5"
    case Active => "6"
    case Missing => "7"
    case Other(name) => "8" + name
  }

  lemma StatusTextsDiffer(a: Status, b: Status)
    requires StatusText(a) == StatusText(b)
    ensures a == b
  {
    var u, v := StatusText(a), StatusText(b);
    assert u[0] == v[0] && u[1..] == v[1..];
  }

  function EntityText(e: Entity): string {
    match e.kind
    case ClaimKind => "1" + e.id
    case InferenceKind => "2" + e.id
    case ObligationKind => "3" + e.id
    case RouteKind => "4" + e.id
  }

  lemma EntityTextsDiffer(a: Entity, b: Entity)
    requires EntityText(a) == EntityText(b)
    ensures a == b
  {
    var u, v := EntityText(a), EntityText(b);
    assert u[0] == v[0] && u[1..] == v[1..];
  }

  /** The records of a dependency table in key order. */
  function Lines(entries: map<Entity, DependencyRecord>, keys: seq<Entity>): seq<string>
    requires forall e | e in keys :: e in entries
    decreases |keys|
  {
    if keys == [] then [] else
      var r := entries[keys[0]];
      [EntityText(keys[0]), r.subjectDigest, StatusText(r.status)] + Lines(entries, keys[1..])
  }

  function TableLines(entries: map<Entity, DependencyRecord>): seq<string> {
    var keys := SortedEntities(entries.Keys);
    assert forall e | e in keys :: e in Elements(keys);
    Lines(entries, keys)
  }

  lemma {:induction false} LinesDiffer(m: map<Entity, DependencyRecord>, a: seq<Entity>,
                                       n: map<Entity, DependencyRecord>, b: seq<Entity>)
    requires (forall e | e in a :: e in m) && (forall e | e in b :: e in n)
    requires Lines(m, a) == Lines(n, b)
    ensures a == b && forall e | e in a :: m[e] == n[e]
    decreases |a|
  {
    var u, v := Lines(m, a), Lines(n, b);
    if a != [] && b != [] {
      assert u[0] == v[0] && u[1] == v[1] && u[2] == v[2];
      EntityTextsDiffer(a[0], b[0]);
      StatusTextsDiffer(m[a[0]].status, n[b[0]].status);
      assert u[3..] == Lines(m, a[1..]) && v[3..] == Lines(n, b[1..]);
      LinesDiffer(m, a[1..], n, b[1..]);
      assert a == [a[0]] + a[1..] && b == [b[0]] + b[1..];
    }
  }

  lemma SortedKeys(m: map<Entity, DependencyRecord>)
    ensures forall e :: e in SortedEntities(m.Keys) <==> e in m
    ensures TableLines(m) == Lines(m, SortedEntities(m.Keys))
  {
    hide Lines;
    assert forall e :: e in SortedEntities(m.Keys) <==> e in Elements(SortedEntities(m.Keys));
  }

  lemma TablesDiffer(m: map<Entity, DependencyRecord>, n: map<Entity, DependencyRecord>)
    requires TableLines(m) == TableLines(n)
    ensures m == n
  {
    hide *;
    SortedKeys(m);
    SortedKeys(n);
    LinesDiffer(m, SortedEntities(m.Keys), n, SortedEntities(n.Keys));
    forall e ensures e in m <==> e in n {
      assert e in SortedEntities(m.Keys) <==> e in m;
    }
  }

  /** The scalar fields and the list fields of what is digested, in order. */
  function Fields(d: DigestInput): (string, seq<seq<string>>) {
    match d
    case ClaimContent(id, kind, statement, hypotheses, conditions, parentIds) =>
      ("1", [[id, kind, statement, hypotheses], conditions, parentIds])
    case InferenceContent(id, routeId, conclusion, premises, explanation, conditions, conditionClaims) =>
      ("2", [[id, routeId, conclusion, explanation], premises, conditions, conditionClaims])
    case RouteContent(id, conclusion, strategy, relation, assumptions, conditions) =>
      ("3", [[id, conclusion, strategy, relation], assumptions, conditions])
    case ObligationContent(id, ownerType, ownerId, obligation, obligationType) =>
      ("4", [[id, ownerType, ownerId, obligation, obligationType]])
    case DependencyTable(entries) => ("5", [TableLines(entries)])
  }

  lemma FieldsDiffer(a: DigestInput, b: DigestInput)
    requires Fields(a) == Fields(b)
    ensures a == b
  {
    var u, v := Fields(a).1, Fields(b).1;
    assert Fields(a).0[0] == Fields(b).0[0] && |u| == |v| && u[0] == v[0];
    hide TableLines;
    if a.DependencyTable? {
      TablesDiffer(a.entries, b.entries);
    } else {
      assert u[0][0] == v[0][0] && u[0][1] == v[0][1] && u[0][2] == v[0][2] && u[0][3] == v[0][3];
      if a.ObligationContent? {
        assert u[0][4] == v[0][4];
      } else {
        assert u[1] == v[1] && u[2] == v[2];
        assert a.InferenceContent? ==> u[3] == v[3];
      }
    }
  }

  function PutLists(lists: seq<seq<string>>): string {
    if lists == [] then "." else "x" + PutStrings(lists[0], PutLists(lists[1..]))
  }

  lemma {:induction false} ListsDiffer(a: seq<seq<string>>, b: seq<seq<string>>)
    requires PutLists(a) == PutLists(b)
    ensures a == b
  {
    var u, v := PutLists(a), PutLists(b);
    assert u[0] == v[0];
    if a != [] && b != [] {
      assert u[1..] == PutStrings(a[0], PutLists(a[1..])) && v[1..] == PutStrings(b[0], PutLists(b[1..]));
      StringListsDiffer(a[0], PutLists(a[1..]), b[0], PutLists(b[1..]));
      ListsDiffer(a[1..], b[1..]);
      assert a == [a[0]] + a[1..] && b == [b[0]] + b[1..];
    }
  }

  /** The canonical text of what is digested. */
  function Canonical(d: DigestInput): string {
    Fields(d).0 + PutLists(Fields(d).1)
  }

  lemma CanonicalTextsDiffer(a: DigestInput, b: DigestInput)
    requires Canonical(a) == Canonical(b)
    ensures a == b
  {
    var u, v := Canonical(a), Canonical(b);
    hide PutLists;
    assert |Fields(a).0| == 1 && |Fields(b).0| == 1;
    assert u[..1] == Fields(a).0 && v[..1] == Fields(b).0;
    assert u[1..] == PutLists(Fields(a).1) && v[1..] == PutLists(Fields(b).1);
    hide Fields;
    ListsDiffer(Fields(a).1, Fields(b).1);
    FieldsDiffer(a, b);
  }

  /** A digest function that meets the hypothesis of every theorem about certificates. */
  lemma CollisionFreeExists() returns (h: Hasher)
    ensures CollisionFree(h)
  {
    h := Canonical;
    forall a, b | Canonical(a) == Canonical(b) ensures a == b {
      CanonicalTextsDiffer(a, b);
    }
    forall a ensures Canonical(a) != "" {
      assert |Fields(a).0| == 1;
    }
  }
}
