/** The scope check and the disclosure restated on the fields of the patch themselves. */
module ScopeLaws {
  import opened Wrappers
  import opened ScopeCheck

  /** The entry a lookup of the key finds. */
  predicate Holds(fields: seq<Field>, key: string, i: int) {
    0 <= i < |fields| && fields[i].key == key && forall j | 0 <= j < i :: fields[j].key != key
  }

  lemma {:induction false} GetOnFields(fields: seq<Field>, key: string)
    ensures forall i | Holds(fields, key, i) :: Get(fields, key) == fields[i].value
    ensures (exists i :: Holds(fields, key, i)) <==> exists i :: 0 <= i < |fields| && fields[i].key == key
    ensures (forall i | 0 <= i < |fields| :: fields[i].key != key) ==> Get(fields, key) == Null
  {
    if fields != [] {
      GetOnFields(fields[1..], key);
      if fields[0].key == key {
        assert Holds(fields, key, 0);
      } else {
        forall i ensures Holds(fields, key, i) <==> Holds(fields[1..], key, i - 1) {
          if Holds(fields, key, i) {
            assert forall j | 0 <= j < i - 1 :: fields[1..][j] == fields[j + 1];
          }
        }
        if i :| 0 <= i < |fields| && fields[i].key == key {
          assert fields[1..][i - 1] == fields[i];
          var k :| Holds(fields[1..], key, k);
          assert Holds(fields, key, k + 1);
        }
      }
    }
  }

  /** The text a value is read as: nothing for an empty, zero, false or null one. */
  predicate ReadsAs(print_: Printer, v: Json, r: string) {
    match v
    case Null => r == ""
    case Bool(b) => r == if b then "True" else ""
    case Number(text, isZero) => r == if isZero then "" else text
    case Str(s) => r == s
    case List(items) => r == if items == [] then "" else print_(v)
    case Obj(fields) => r == if fields == [] then "" else print_(v)
  }

  lemma TextOnValue(print_: Printer, v: Json, r: string)
    ensures r == TextOf(print_, v) <==> ReadsAs(print_, v, r)
  {
  }

  /** A mapping refers by one of its own fields: by the text of a reference field other than that of the
      record it creates, or by the text of an item of a reference list. */
  ghost predicate OwnReference(print_: Printer, c: Contract, fields: seq<Field>, created: Option<string>, f: string,
                               r: string)
  {
    && r != ""
    && exists i :: Holds(fields, f, i)
         && (|| (f in c.references && created != Some(f) && ReadsAs(print_, fields[i].value, r))
             || (f in c.referenceLists && fields[i].value.List?
                 && exists item :: item in fields[i].value.items && ReadsAs(print_, item, r)))
  }

  lemma OwnOnFields(print_: Printer, c: Contract, fields: seq<Field>, created: Option<string>, f: string, r: string)
    ensures RefersBy(print_, c, fields, created, f, r) <==> OwnReference(print_, c, fields, created, f, r)
  {
    GetOnFields(fields, f);
    TextOnValue(print_, Get(fields, f), r);
    if Get(fields, f).List? {
      var items := Get(fields, f).items;
      forall item | item in items ensures r == TextOf(print_, item) <==> ReadsAs(print_, item, r) {
        TextOnValue(print_, item, r);
      }
      assert RefersInList(print_, items, r) <==> exists item :: item in items && ReadsAs(print_, item, r) by {
        if item :| item in items && ReadsAs(print_, item, r) {
          var i :| 0 <= i < |items| && items[i] == item;
          assert r == TextOf(print_, items[i]);
        }
        hide TextOf, ReadsAs;
      }
    }
    hide TextOf, ReadsAs, Get, RefersInList;
  }

  /** References at every depth, by the mapping's own fields, through a field that holds a mapping, and
      through the items of one that holds a list; below the top the created field is no exception. */
  lemma NestedReference(print_: Printer, c: Contract, fields: seq<Field>, created: Option<string>, f: string, r: string)
    ensures RefersAnywhere(print_, c, fields, created, f, r) <==>
      || OwnReference(print_, c, fields, created, f, r)
      || (exists i :: 0 <= i < |fields| && fields[i].value.Obj?
            && RefersAnywhere(print_, c, fields[i].value.fields, None, f, r))
      || (exists i, j :: 0 <= i < |fields| && fields[i].value.List? && 0 <= j < |fields[i].value.items|
            && fields[i].value.items[j].Obj?
            && RefersAnywhere(print_, c, fields[i].value.items[j].fields, None, f, r))
  {
    RefersByChildren(print_, c, fields, created, f, r);
    OwnOnFields(print_, c, fields, created, f, r);
    hide RefersAnywhere, RefersBy, OwnReference;
    if i, j :| 0 <= i < |fields| && fields[i].value.List? && 0 <= j < |fields[i].value.items|
               && fields[i].value.items[j].Obj?
               && RefersAnywhere(print_, c, fields[i].value.items[j].fields, None, f, r) {
      assert ItemRefers(print_, c, fields[i].value.items[j], f, r);
      assert ChildRefers(print_, c, fields[i].value, f, r);
    }
    if i :| 0 <= i < |fields| && fields[i].value.Obj?
            && RefersAnywhere(print_, c, fields[i].value.fields, None, f, r) {
      assert ChildRefers(print_, c, fields[i].value, f, r);
    }
  }

  /** The operation's name. */
  ghost predicate NamedAs(print_: Printer, fields: seq<Field>, name: string) {
    || (exists i :: Holds(fields, "op", i) && ReadsAs(print_, fields[i].value, name))
    || (name == "" && forall i | 0 <= i < |fields| :: fields[i].key != "op")
  }

  /** The field naming the record that the operation creates. */
  ghost predicate CreatesBy(print_: Printer, c: Contract, fields: seq<Field>, f: string) {
    exists name :: NamedAs(print_, fields, name) && name in c.createdField && f == c.createdField[name]
  }

  lemma CreatedOnFields(print_: Printer, c: Contract, fields: seq<Field>, f: string)
    ensures CreatedFieldOf(print_, c, fields) == Some(f) <==> CreatesBy(print_, c, fields, f)
  {
    GetOnFields(fields, "op");
    var name := TextOf(print_, Get(fields, "op"));
    forall n ensures NamedAs(print_, fields, n) <==> n == name {
      TextOnValue(print_, Get(fields, "op"), n);
      hide TextOf, Get;
    }
    hide TextOf, Get, NamedAs;
  }

  /** What a session may refer to: what it was authorized to, its target and route when named, and the
      nonempty identifier under the created field of any operation of the patch. */
  ghost predicate MayName(print_: Printer, c: Contract, a: Authority, ops: seq<Json>, r: string) {
    || r in a.authorized
    || (r != "" && (r == a.target || r == a.route))
    || exists k, f, i :: 0 <= k < |ops| && ops[k].Obj? && CreatesBy(print_, c, ops[k].fields, f)
                         && Holds(ops[k].fields, f, i) && CreatedAs(print_, ops[k].fields[i].value, r)
  }

  /** A value that is not empty, zero, false or null, printed. */
  predicate CreatedAs(print_: Printer, v: Json, r: string) {
    && v != Null && v != Bool(false) && v != Str("") && v != List([]) && v != Obj([]) && !(v.Number? && v.isZero)
    && ReadsAs(print_, v, r)
  }

  lemma CreatesOnFields(print_: Printer, c: Contract, op: Json, r: string)
    ensures Creates(print_, c, op, r) <==>
      op.Obj? && exists f, i :: CreatesBy(print_, c, op.fields, f) && Holds(op.fields, f, i)
                                && CreatedAs(print_, op.fields[i].value, r)
  {
    if op.Obj? {
      forall f ensures CreatedFieldOf(print_, c, op.fields) == Some(f) <==> CreatesBy(print_, c, op.fields, f) {
        CreatedOnFields(print_, c, op.fields, f);
      }
      hide CreatedFieldOf, CreatesBy;
      forall f ensures (Truthy(Get(op.fields, f)) && r == StrOf(print_, Get(op.fields, f)))
                  <==> exists i :: Holds(op.fields, f, i) && CreatedAs(print_, op.fields[i].value, r)
      {
        GetOnFields(op.fields, f);
        TextOnValue(print_, Get(op.fields, f), r);
        assert Truthy(Get(op.fields, f)) && r == StrOf(print_, Get(op.fields, f))
          <==> CreatedAs(print_, Get(op.fields, f), r);
        hide Get, CreatedAs, Truthy, StrOf, TextOf, ReadsAs;
      }
      hide Get, CreatedAs, Truthy, StrOf, Holds;
    }
  }

  lemma ScopeOnFields(print_: Printer, c: Contract, a: Authority, ops: seq<Json>, r: string)
    ensures r in Scope(print_, c, a, ops) <==> MayName(print_, c, a, ops, r)
  {
    forall k | 0 <= k < |ops|
      ensures Creates(print_, c, ops[k], r) <==>
        ops[k].Obj? && exists f, i :: CreatesBy(print_, c, ops[k].fields, f) && Holds(ops[k].fields, f, i)
                                      && CreatedAs(print_, ops[k].fields[i].value, r)
    {
      CreatesOnFields(print_, c, ops[k], r);
    }
    assert r in CreatedBy(print_, c, ops) <==> exists k :: 0 <= k < |ops| && Creates(print_, c, ops[k], r);
    hide Creates, CreatesBy, Holds, CreatedAs, CreatedBy;
  }

  /** The field ends in "_id" or "_ids", is in none of the three registers and does not name the record that the
      operation creates. */
  ghost predicate Unregistered(print_: Printer, c: Contract, fields: seq<Field>, f: string) {
    && (exists i :: 0 <= i < |fields| && fields[i].key == f)
    && ((|f| >= 3 && f[|f| - 3..] == "_id") || (|f| >= 4 && f[|f| - 4..] == "_ids"))
    && f !in c.references && f !in c.referenceLists && f !in c.opaqueIds && !CreatesBy(print_, c, fields, f)
  }

  /** What is wrong with a patch, on its fields: nothing unless it is a session's with a list of operations;
      otherwise an unregistered identifier field of an operation, or a reference at some depth that the
      session may not name. */
  lemma WrongOnFields(print_: Printer, c: Contract, a: Authority, p: Patch, e: Error)
    ensures WrongInPatch(print_, c, a, p, e) <==>
      && a.session && p.operations.Some? && e.index < |p.operations.value| && p.operations.value[e.index].Obj?
      && var fields := p.operations.value[e.index].fields;
         match e
         case Unclassified(_, f) => Unregistered(print_, c, fields, f)
         case OutOfScope(_, f, r) =>
           && !MayName(print_, c, a, p.operations.value, r)
           && RefersAnywhere(print_, c, fields, CreatedFieldOf(print_, c, fields), f, r)
  {
    hide RefersAnywhere, CreatedFieldOf, MayName, Scope, WrongInPatch, Unregistered, UnclassifiedField, CreatesBy, Get,
         TextOf;
    WrongAtIndex(print_, c, a, p, e);
    if a.session && p.operations.Some? && e.index < |p.operations.value| && p.operations.value[e.index].Obj? {
      match e
      case Unclassified(_, f) => UnclassifiedOnFields(print_, c, p.operations.value[e.index].fields, f);
      case OutOfScope(_, f, r) => ScopeOnFields(print_, c, a, p.operations.value, r);
    }
  }

  lemma WrongAtIndex(print_: Printer, c: Contract, a: Authority, p: Patch, e: Error)
    ensures WrongInPatch(print_, c, a, p, e) <==>
      && a.session && p.operations.Some? && e.index < |p.operations.value|
      && WrongIn(print_, c, Scope(print_, c, a, p.operations.value), e.index, p.operations.value[e.index], e)
  {
    forall scope, k: nat, op | WrongIn(print_, c, scope, k, op, e) ensures e.index == k {}
    hide WrongIn, Scope;
  }

  lemma UnclassifiedOnFields(print_: Printer, c: Contract, fields: seq<Field>, f: string)
    ensures UnclassifiedField(c, CreatedFieldOf(print_, c, fields), fields, f) <==> Unregistered(print_, c, fields, f)
  {
    hide CreatedFieldOf, CreatesBy;
    CreatedOnFields(print_, c, fields, f);
  }

  /** What a value discloses at a key: a mapping what its entries do at their own keys; a list its printed
      items under a key ending in "_ids" and otherwise what its items disclose at the same key; and
      any other value but null itself, printed, under a key ending in "_id". */
  lemma DisclosedOnFields(print_: Printer, v: Json, key: string, id: string)
    ensures Discloses(print_, v, key, id) <==>
      && id != ""
      && match v
         case Null => false
         case Obj(fields) => exists i :: 0 <= i < |fields| && Discloses(print_, fields[i].value, fields[i].key, id)
         case List(items) =>
           if |key| >= 4 && key[|key| - 4..] == "_ids" then PrintedItem(print_, items, id)
           else exists j :: 0 <= j < |items| && Discloses(print_, items[j], key, id)
         case _ => |key| >= 3 && key[|key| - 3..] == "_id" && PrintsAs(print_, v, id)
  {
    DisclosesByChildren(print_, v, key, id);
    assert Discloses(print_, v, key, id) ==> id != "";
    GivesOnValue(print_, v, key, id);
    match v
    case Obj(fields) =>
      forall i | 0 <= i < |fields| && Discloses(print_, fields[i].value, fields[i].key, id) ensures id != "" {
        DisclosedNonblank(print_, fields[i].value, fields[i].key, id);
      }
      hide Discloses, Gives;
    case List(items) =>
      forall j | 0 <= j < |items| && Discloses(print_, items[j], key, id) ensures id != "" {
        DisclosedNonblank(print_, items[j], key, id);
      }
      assert EndsWith(key, "_ids") <==> |key| >= 4 && key[|key| - 4..] == "_ids";
      hide Discloses, Gives, EndsWith, PrintsAs;
    case _ =>
      hide Discloses, Gives;
  }

  lemma DisclosedNonblank(print_: Printer, v: Json, key: string, id: string)
    requires Discloses(print_, v, key, id)
    ensures id != ""
  {
  }

  lemma GivesOnValue(print_: Printer, v: Json, key: string, id: string)
    ensures Gives(print_, v, key, id) <==>
      && id != "" && !v.Obj? && v != Null
      && if v.List? then |key| >= 4 && key[|key| - 4..] == "_ids" && PrintedItem(print_, v.items, id)
         else |key| >= 3 && key[|key| - 3..] == "_id" && PrintsAs(print_, v, id)
  {
    forall w: Json ensures id == StrOf(print_, w) <==> PrintsAs(print_, w, id) {}
    hide StrOf, PrintsAs;
  }

  predicate PrintedItem(print_: Printer, items: seq<Json>, id: string) {
    exists j :: 0 <= j < |items| && PrintsAs(print_, items[j], id)
  }

  predicate PrintsAs(print_: Printer, v: Json, r: string) {
    match v
    case Null => r == "None"
    case Bool(b) => r == if b then "True" else "False"
    case Number(text, _) => r == text
    case Str(s) => r == s
    case List(_) => r == print_(v)
    case Obj(_) => r == print_(v)
  }

  /** What the host discloses: the prior identifiers, what the manifest and the action disclose at the empty
      key, and the action's own target and route, none of them empty. */
  lemma DisclosedToOnFields(print_: Printer, manifest: Json, action: Json, prior: set<string>, id: string)
    ensures DisclosedTo(print_, manifest, action, prior, id) <==>
      && id != ""
      && (|| id in prior || Discloses(print_, manifest, "", id) || Discloses(print_, action, "", id)
          || (action.Obj?
              && exists i :: (Holds(action.fields, "target_id", i) || Holds(action.fields, "route_id", i))
                             && ReadsAs(print_, action.fields[i].value, id)))
  {
    if action.Obj? {
      GetOnFields(action.fields, "target_id");
      GetOnFields(action.fields, "route_id");
      TextOnValue(print_, Get(action.fields, "target_id"), id);
      TextOnValue(print_, Get(action.fields, "route_id"), id);
    }
    hide Discloses, TextOf, Get;
  }
}
