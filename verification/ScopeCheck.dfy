/** Which existing records a session's patch may refer to. */
module ScopeCheck {
  import opened Wrappers

  /** A decoded JSON value. Numbers keep their text; object keys are unique. */
  datatype Json =
    | Null
    | Bool(b: bool)
    | Number(text: string, isZero: bool)
    | Str(s: string)
    | List(items: seq<Json>)
    | Obj(fields: seq<Field>)

  datatype Field = Field(key: string, value: Json)

  /** How Python prints a list or a dictionary. */
  type Printer = Json -> string

  /** str(value). */
  function StrOf(print_: Printer, v: Json): string {
    match v
    case Null => "None"
    case Bool(b) => if b then "True" else "False"
    case Number(text, _) => text
    case Str(s) => s
    case List(_) => print_(v)
    case Obj(_) => print_(v)
  }

  predicate Truthy(v: Json) {
    match v
    case Null => false
    case Bool(b) => b
    case Number(_, isZero) => !isZero
    case Str(s) => s != ""
    case List(items) => items != []
    case Obj(fields) => fields != []
  }

  /** str(value or ""). */
  function TextOf(print_: Printer, v: Json): string {
    if Truthy(v) then StrOf(print_, v) else ""
  }

  /** mapping.get(key). */
  function Get(fields: seq<Field>, key: string): Json {
    if fields == [] then Null
    else if fields[0].key == key then fields[0].value
    else Get(fields[1..], key)
  }

  predicate EndsWith(s: string, suffix: string) {
    |suffix| <= |s| && s[|s| - |suffix|..] == suffix
  }

  /** The identifier-scope registry loaded from the patch schema. */
  datatype Contract = Contract(
    createdField: map<string, string>,
    references: set<string>,
    referenceLists: set<string>,
    opaqueIds: set<string>)

  datatype Authority = Authority(session: bool, authorized: set<string>, target: string, route: string)

  datatype Error =
    | OutOfScope(index: nat, field: string, reference: string)
    | Unclassified(index: nat, field: string)

  // ----- What a reference is, and where one is looked for -----

  /** The references one mapping makes by a field: the scalar reference fields, except the one that
      names the record being created, and the members of the list reference fields. */
  predicate RefersBy(print_: Printer, c: Contract, fields: seq<Field>, created: Option<string>, f: string, r: string) {
    && r != ""
    && ((f in c.references && RefersByField(print_, fields, created, f, r))
        || (f in c.referenceLists && RefersByList(print_, fields, f, r)))
  }

  predicate RefersByField(print_: Printer, fields: seq<Field>, created: Option<string>, f: string, r: string) {
    Some(f) != created && r == TextOf(print_, Get(fields, f))
  }

  predicate RefersByList(print_: Printer, fields: seq<Field>, f: string, r: string) {
    Get(fields, f).List? && RefersInList(print_, Get(fields, f).items, r)
  }

  predicate RefersInList(print_: Printer, items: seq<Json>, r: string) {
    exists i :: 0 <= i < |items| && r == TextOf(print_, items[i])
  }

  /** A step into a nested mapping: a field holding one, or an item of a field holding a list. */
  datatype Step = IntoField(i: nat) | IntoItem(i: nat, j: nat)

  /** The mapping at the end of a path, if the path visits one. */
  function Visit(fields: seq<Field>, path: seq<Step>): Option<seq<Field>>
    decreases |path|
  {
    if path == [] then Some(fields) else
      match path[0]
      case IntoField(i) =>
        if i < |fields| && fields[i].value.Obj? then Visit(fields[i].value.fields, path[1..]) else None
      case IntoItem(i, j) =>
        if i < |fields| && fields[i].value.List? && j < |fields[i].value.items| && fields[i].value.items[j].Obj?
        then Visit(fields[i].value.items[j].fields, path[1..]) else None
  }

  /** The references at the end of a path; only at the top does the created field not count. */
  ghost predicate RefersAt(print_: Printer, c: Contract, fields: seq<Field>, created: Option<string>, path: seq<Step>,
                           f: string, r: string)
  {
    && Visit(fields, path).Some?
    && RefersBy(print_, c, Visit(fields, path).value, if path == [] then created else None, f, r)
  }

  /** The references at every visited depth. */
  ghost predicate RefersAnywhere(print_: Printer, c: Contract, fields: seq<Field>, created: Option<string>, f: string,
                                 r: string)
  {
    exists path :: RefersAt(print_, c, fields, created, path, f, r)
  }

  /** Every reference at every visited depth is in scope. */
  ghost predicate InScope(print_: Printer, c: Contract, scope: set<string>, fields: seq<Field>,
                          created: Option<string>)
  {
    forall f, r :: RefersAnywhere(print_, c, fields, created, f, r) ==> r in scope
  }

  ghost predicate ChildRefers(print_: Printer, c: Contract, v: Json, f: string, r: string) {
    match v
    case Obj(fields) => RefersAnywhere(print_, c, fields, None, f, r)
    case List(items) => exists j :: 0 <= j < |items| && ItemRefers(print_, c, items[j], f, r)
    case _ => false
  }

  ghost predicate ItemRefers(print_: Printer, c: Contract, v: Json, f: string, r: string) {
    v.Obj? && RefersAnywhere(print_, c, v.fields, None, f, r)
  }

  /** A mapping refers to what its own fields refer to, and to what its children do. */
  lemma RefersByChildren(print_: Printer, c: Contract, fields: seq<Field>, created: Option<string>, f: string,
                         r: string)
    ensures RefersAnywhere(print_, c, fields, created, f, r)
       <==> RefersBy(print_, c, fields, created, f, r)
            || exists i :: 0 <= i < |fields| && ChildRefers(print_, c, fields[i].value, f, r)
  {
    hide RefersBy;
    if RefersBy(print_, c, fields, created, f, r) {
      assert RefersAt(print_, c, fields, created, [], f, r);
    }
    if i :| 0 <= i < |fields| && ChildRefers(print_, c, fields[i].value, f, r) {
      ChildIsDeeper(print_, c, fields, created, i, f, r);
    }
    if RefersAnywhere(print_, c, fields, created, f, r) {
      var path :| RefersAt(print_, c, fields, created, path, f, r);
      if path != [] {
        StepIntoChild(print_, c, fields, created, path, f, r);
      }
    }
  }

  lemma ChildIsDeeper(print_: Printer, c: Contract, fields: seq<Field>, created: Option<string>, i: nat, f: string,
                      r: string)
    requires i < |fields| && ChildRefers(print_, c, fields[i].value, f, r)
    ensures RefersAnywhere(print_, c, fields, created, f, r)
  {
    hide RefersBy;
    match fields[i].value
    case Obj(inner) =>
      var path :| RefersAt(print_, c, inner, None, path, f, r);
      assert ([IntoField(i)] + path)[1..] == path;
      assert RefersAt(print_, c, fields, created, [IntoField(i)] + path, f, r);
    case List(items) =>
      var j :| 0 <= j < |items| && ItemRefers(print_, c, items[j], f, r);
      var path :| RefersAt(print_, c, items[j].fields, None, path, f, r);
      assert ([IntoItem(i, j)] + path)[1..] == path;
      assert RefersAt(print_, c, fields, created, [IntoItem(i, j)] + path, f, r);
  }

  lemma StepIntoChild(print_: Printer, c: Contract, fields: seq<Field>, created: Option<string>, path: seq<Step>,
                      f: string, r: string)
    requires path != [] && RefersAt(print_, c, fields, created, path, f, r)
    ensures exists i :: 0 <= i < |fields| && ChildRefers(print_, c, fields[i].value, f, r)
  {
    hide RefersBy;
    match path[0]
    case IntoField(i) =>
      assert RefersAt(print_, c, fields[i].value.fields, None, path[1..], f, r);
      assert ChildRefers(print_, c, fields[i].value, f, r);
    case IntoItem(i, j) =>
      assert RefersAt(print_, c, fields[i].value.items[j].fields, None, path[1..], f, r);
      assert ItemRefers(print_, c, fields[i].value.items[j], f, r);
      assert ChildRefers(print_, c, fields[i].value, f, r);
  }

  // ----- The check -----

  /** One mapping's own references: each one out of scope is an error, and nothing else is. */
  method CheckReferences(print_: Printer, c: Contract, scope: set<string>, index: nat, fields: seq<Field>,
                         created: Option<string>)
    returns (errors: seq<Error>)
    ensures forall e :: e in errors <==>
      e.OutOfScope? && e.index == index && e.reference !in scope
      && RefersBy(print_, c, fields, created, e.field, e.reference)
  {
    errors := [];
    var todo := c.references;
    while todo != {}
      invariant todo <= c.references
      invariant forall e :: e in errors <==>
        && e.OutOfScope? && e.index == index && e.field in c.references - todo && e.reference != ""
        && e.reference !in scope && RefersByField(print_, fields, created, e.field, e.reference)
      decreases |todo|
    {
      var f :| f in todo;
      todo := todo - {f};
      if Some(f) != created {
        var reference := TextOf(print_, Get(fields, f));
        if reference != "" && reference !in scope {
          errors := errors + [OutOfScope(index, f, reference)];
        }
      }
    }
    var fromLists := CheckReferenceLists(print_, c, scope, index, fields);
    errors := errors + fromLists;
    hide RefersByField, RefersByList;
  }

  method CheckReferenceLists(print_: Printer, c: Contract, scope: set<string>, index: nat, fields: seq<Field>)
    returns (errors: seq<Error>)
    ensures forall e :: e in errors <==>
      && e.OutOfScope? && e.index == index && e.field in c.referenceLists && e.reference != ""
      && e.reference !in scope && RefersByList(print_, fields, e.field, e.reference)
  {
    hide RefersInList;
    errors := [];
    var todo := c.referenceLists;
    while todo != {}
      invariant todo <= c.referenceLists
      invariant forall e :: e in errors <==>
        && e.OutOfScope? && e.index == index && e.field in c.referenceLists - todo && e.reference != ""
        && e.reference !in scope && RefersByList(print_, fields, e.field, e.reference)
      decreases |todo|
    {
      var f :| f in todo;
      todo := todo - {f};
      if Get(fields, f).List? {
        var more := CheckItems(print_, scope, index, f, Get(fields, f).items);
        errors := errors + more;
      }
    }
  }

  method CheckItems(print_: Printer, scope: set<string>, index: nat, field: string, items: seq<Json>)
    returns (errors: seq<Error>)
    ensures forall e :: e in errors <==>
      && e.OutOfScope? && e.index == index && e.field == field && e.reference != ""
      && e.reference !in scope && RefersInList(print_, items, e.reference)
  {
    errors := [];
    for k := 0 to |items|
      invariant forall e :: e in errors <==>
        && e.OutOfScope? && e.index == index && e.field == field && e.reference != ""
        && e.reference !in scope && exists i :: 0 <= i < k && e.reference == TextOf(print_, items[i])
    {
      var reference := TextOf(print_, items[k]);
      if reference != "" && reference !in scope {
        errors := errors + [OutOfScope(index, field, reference)];
      }
    }
  }

  /** check_mapping: the mapping's references, then every nested mapping. The errors are exactly the
      references out of scope, at whatever depth. */
  method CheckMapping(print_: Printer, c: Contract, scope: set<string>, index: nat, fields: seq<Field>,
                      created: Option<string>)
    returns (errors: seq<Error>)
    ensures forall e :: e in errors <==>
      e.OutOfScope? && e.index == index && e.reference !in scope
      && RefersAnywhere(print_, c, fields, created, e.field, e.reference)
    decreases fields
  {
    hide RefersBy, RefersAnywhere;
    errors := CheckReferences(print_, c, scope, index, fields, created);
    for k := 0 to |fields|
      invariant forall e :: e in errors <==>
        && e.OutOfScope? && e.index == index && e.reference !in scope
        && (RefersBy(print_, c, fields, created, e.field, e.reference)
            || exists i :: 0 <= i < k && ChildRefers(print_, c, fields[i].value, e.field, e.reference))
    {
      var child := fields[k].value;
      var more: seq<Error> := [];
      if child.Obj? {
        more := CheckMapping(print_, c, scope, index, child.fields, None);
      } else if child.List? {
        for j := 0 to |child.items|
          invariant forall e :: e in more <==>
            && e.OutOfScope? && e.index == index && e.reference !in scope
            && exists i :: 0 <= i < j && ItemRefers(print_, c, child.items[i], e.field, e.reference)
        {
          if child.items[j].Obj? {
            var deeper := CheckMapping(print_, c, scope, index, child.items[j].fields, None);
            more := more + deeper;
          }
        }
      }
      errors := errors + more;
    }
    forall f, r ensures RefersAnywhere(print_, c, fields, created, f, r)
                   <==> RefersBy(print_, c, fields, created, f, r)
                        || exists i :: 0 <= i < |fields| && ChildRefers(print_, c, fields[i].value, f, r)
    {
      RefersByChildren(print_, c, fields, created, f, r);
    }
  }

  // ----- The whole patch -----

  datatype Patch = Patch(operations: Option<seq<Json>>)

  function CreatedFieldOf(print_: Printer, c: Contract, op: seq<Field>): Option<string> {
    var name := TextOf(print_, Get(op, "op"));
    if name in c.createdField then Some(c.createdField[name]) else None
  }

  /** The identifiers the patch itself creates. */
  predicate Creates(print_: Printer, c: Contract, op: Json, id: string) {
    && op.Obj? && CreatedFieldOf(print_, c, op.fields).Some?
    && var v := Get(op.fields, CreatedFieldOf(print_, c, op.fields).value);
       Truthy(v) && id == StrOf(print_, v)
  }

  function CreatedBy(print_: Printer, c: Contract, ops: seq<Json>): (r: set<string>)
    ensures forall id :: id in r <==> exists k :: 0 <= k < |ops| && Creates(print_, c, ops[k], id)
  {
    set k | 0 <= k < |ops| && ops[k].Obj? && CreatedFieldOf(print_, c, ops[k].fields).Some?
            && Truthy(Get(ops[k].fields, CreatedFieldOf(print_, c, ops[k].fields).value))
      :: StrOf(print_, Get(ops[k].fields, CreatedFieldOf(print_, c, ops[k].fields).value))
  }

  /** What a session may refer to: disclosed records, its target and route, its own creations. */
  function Scope(print_: Printer, c: Contract, a: Authority, ops: seq<Json>): set<string> {
    a.authorized + ({a.target, a.route} - {""}) + CreatedBy(print_, c, ops)
  }

  predicate IsIdentifierField(f: string) {
    EndsWith(f, "_id") || EndsWith(f, "_ids")
  }

  predicate Classified(c: Contract, created: Option<string>, f: string) {
    f in c.references || f in c.referenceLists || f in c.opaqueIds || Some(f) == created
  }

  predicate AllClassified(c: Contract, created: Option<string>, fields: seq<Field>) {
    forall i | 0 <= i < |fields| && IsIdentifierField(fields[i].key) :: Classified(c, created, fields[i].key)
  }

  ghost predicate OperationOk(print_: Printer, c: Contract, scope: set<string>, op: Json) {
    op.Obj? ==>
      && AllClassified(c, CreatedFieldOf(print_, c, op.fields), op.fields)
      && InScope(print_, c, scope, op.fields, CreatedFieldOf(print_, c, op.fields))
  }

  /** What is wrong with one operation: an identifier field nobody classified, or a reference at
      some depth that is out of scope. */
  ghost predicate WrongIn(print_: Printer, c: Contract, scope: set<string>, index: nat, op: Json, e: Error) {
    && op.Obj? && e.index == index
    && var created := CreatedFieldOf(print_, c, op.fields);
       match e
       case Unclassified(_, field) => UnclassifiedField(c, created, op.fields, field)
       case OutOfScope(_, field, r) => r !in scope && RefersAnywhere(print_, c, op.fields, created, field, r)
  }

  predicate UnclassifiedField(c: Contract, created: Option<string>, fields: seq<Field>, field: string) {
    && IsIdentifierField(field) && !Classified(c, created, field)
    && exists i :: 0 <= i < |fields| && fields[i].key == field
  }

  lemma OperationOkIff(print_: Printer, c: Contract, scope: set<string>, index: nat, op: Json)
    ensures OperationOk(print_, c, scope, op) <==> forall e :: !WrongIn(print_, c, scope, index, op, e)
  {
    hide RefersAnywhere, IsIdentifierField, Classified;
    if op.Obj? && !OperationOk(print_, c, scope, op) {
      var created := CreatedFieldOf(print_, c, op.fields);
      if !AllClassified(c, created, op.fields) {
        var i :| 0 <= i < |op.fields| && IsIdentifierField(op.fields[i].key)
                 && !Classified(c, created, op.fields[i].key);
        assert WrongIn(print_, c, scope, index, op, Unclassified(index, op.fields[i].key));
      } else {
        var f, r :| RefersAnywhere(print_, c, op.fields, created, f, r) && r !in scope;
        assert WrongIn(print_, c, scope, index, op, OutOfScope(index, f, r));
      }
    }
  }

  method CheckOperation(print_: Printer, c: Contract, scope: set<string>, index: nat, op: Json)
    returns (errors: seq<Error>)
    ensures forall e :: e in errors <==> WrongIn(print_, c, scope, index, op, e)
  {
    errors := [];
    if !op.Obj? {
      return;
    }
    hide RefersAnywhere, IsIdentifierField, Classified;
    var created := CreatedFieldOf(print_, c, op.fields);
    for k := 0 to |op.fields|
      invariant forall e :: e in errors <==>
        && e.Unclassified? && e.index == index && IsIdentifierField(e.field) && !Classified(c, created, e.field)
        && exists i :: 0 <= i < k && op.fields[i].key == e.field
    {
      if IsIdentifierField(op.fields[k].key) && !Classified(c, created, op.fields[k].key) {
        errors := errors + [Unclassified(index, op.fields[k].key)];
      }
    }
    var nested := CheckMapping(print_, c, scope, index, op.fields, created);
    errors := errors + nested;
  }

  /** The patch is in order: every identifier field of every operation is classified, and every
      reference at every visited depth is in scope. */
  ghost predicate PatchOk(print_: Printer, c: Contract, a: Authority, p: Patch) {
    a.session && p.operations.Some? ==>
      forall k | 0 <= k < |p.operations.value| ::
        OperationOk(print_, c, Scope(print_, c, a, p.operations.value), p.operations.value[k])
  }

  /** The first loop: the identifiers the patch creates. */
  method CreatedIds(print_: Printer, c: Contract, ops: seq<Json>) returns (created: set<string>)
    ensures created == CreatedBy(print_, c, ops)
  {
    created := {};
    for k := 0 to |ops|
      invariant created == CreatedBy(print_, c, ops[..k])
    {
      if ops[k].Obj? {
        var field := CreatedFieldOf(print_, c, ops[k].fields);
        if field.Some? && Truthy(Get(ops[k].fields, field.value)) {
          created := created + {StrOf(print_, Get(ops[k].fields, field.value))};
        }
      }
      CreatedByStep(print_, c, ops, k);
    }
    assert ops[..|ops|] == ops;
  }

  /** Whether `e` is something wrong with the patch. */
  ghost predicate WrongInPatch(print_: Printer, c: Contract, a: Authority, p: Patch, e: Error) {
    && a.session && p.operations.Some?
    && var ops := p.operations.value;
       exists k :: 0 <= k < |ops| && WrongIn(print_, c, Scope(print_, c, a, ops), k, ops[k], e)
  }

  /** _operation_scope_errors: the errors are exactly what is wrong. */
  method OperationScopeErrors(print_: Printer, c: Contract, a: Authority, p: Patch) returns (errors: seq<Error>)
    ensures errors == [] <==> PatchOk(print_, c, a, p)
    ensures forall e :: e in errors <==> WrongInPatch(print_, c, a, p, e)
  {
    hide OperationOk, WrongIn, CreatedBy, PatchOk;
    errors := [];
    if a.session && p.operations.Some? {
      var ops := p.operations.value;
      var created := CreatedIds(print_, c, ops);
      var scope := a.authorized + ({a.target, a.route} - {""}) + created;
      for k := 0 to |ops|
        invariant forall e :: e in errors <==> exists i :: 0 <= i < k && WrongIn(print_, c, scope, i, ops[i], e)
      {
        var more := CheckOperation(print_, c, scope, k, ops[k]);
        errors := errors + more;
      }
    }
    assert forall e :: e in errors <==> WrongInPatch(print_, c, a, p, e);
    PatchOkIff(print_, c, a, p);
    hide WrongInPatch;
    if errors != [] {
      assert WrongInPatch(print_, c, a, p, errors[0]);
    }
  }

  lemma PatchOkIff(print_: Printer, c: Contract, a: Authority, p: Patch)
    ensures PatchOk(print_, c, a, p) <==> forall e :: !WrongInPatch(print_, c, a, p, e)
  {
    hide OperationOk, WrongIn, Scope;
    if a.session && p.operations.Some? {
      var ops := p.operations.value;
      var scope := Scope(print_, c, a, ops);
      forall k | 0 <= k < |ops| ensures OperationOk(print_, c, scope, ops[k])
                                   <==> forall e :: !WrongIn(print_, c, scope, k, ops[k], e)
      {
        OperationOkIff(print_, c, scope, k, ops[k]);
      }
      if !PatchOk(print_, c, a, p) {
        var k :| 0 <= k < |ops| && !OperationOk(print_, c, scope, ops[k]);
        var e :| WrongIn(print_, c, scope, k, ops[k], e);
        assert WrongInPatch(print_, c, a, p, e);
      }
    }
  }

  lemma CreatedByStep(print_: Printer, c: Contract, ops: seq<Json>, k: nat)
    requires k < |ops|
    ensures CreatedBy(print_, c, ops[..k + 1])
         == CreatedBy(print_, c, ops[..k]) + set id | id in CreatedBy(print_, c, [ops[k]])
  {
    var longer, shorter, last := ops[..k + 1], ops[..k], [ops[k]];
    forall id ensures id in CreatedBy(print_, c, longer)
                 <==> id in CreatedBy(print_, c, shorter) || id in CreatedBy(print_, c, last)
    {
      if j :| 0 <= j < |shorter| && Creates(print_, c, shorter[j], id) {
        assert longer[j] == shorter[j];
      }
      if j :| 0 <= j < |longer| && Creates(print_, c, longer[j], id) {
        if j < k { assert shorter[j] == longer[j]; } else { assert last[0] == longer[j]; }
      }
      if j :| 0 <= j < |last| && Creates(print_, c, last[j], id) {
        assert longer[k] == last[j];
      }
    }
  }

  /** Authorizing more never adds an error. */
  lemma MoreAuthorityNeverHurts(print_: Printer, c: Contract, a: Authority, more: set<string>, p: Patch, e: Error)
    requires WrongInPatch(print_, c, a.(authorized := a.authorized + more), p, e)
    ensures WrongInPatch(print_, c, a, p, e)
  {
    var b, ops := a.(authorized := a.authorized + more), p.operations.value;
    var k :| 0 <= k < |ops| && WrongIn(print_, c, Scope(print_, c, b, ops), k, ops[k], e);
    hide RefersAnywhere, CreatedBy;
    assert WrongIn(print_, c, Scope(print_, c, a, ops), k, ops[k], e);
  }

  // ----- The identifiers the host discloses -----

  /** Where the collector looks: fields of mappings, and items of lists whose key does not end
      in "_ids". The key of the nearest field travels along. */
  datatype Hop = Key(i: nat) | Item(j: nat)

  function Follow(v: Json, key: string, path: seq<Hop>): Option<(Json, string)>
    decreases |path|
  {
    if path == [] then Some((v, key)) else
      match path[0]
      case Key(i) =>
        if v.Obj? && i < |v.fields| then Follow(v.fields[i].value, v.fields[i].key, path[1..]) else None
      case Item(j) =>
        if v.List? && !EndsWith(key, "_ids") && j < |v.items| then Follow(v.items[j], key, path[1..]) else None
  }

  /** The identifiers a value gives at its key: a scalar under a key ending in "_id", or the items
      of a list under a key ending in "_ids". */
  predicate Gives(print_: Printer, v: Json, key: string, id: string) {
    && id != ""
    && (if v.List? then EndsWith(key, "_ids") && exists j :: 0 <= j < |v.items| && id == StrOf(print_, v.items[j])
        else !v.Obj? && v != Null && EndsWith(key, "_id") && id == StrOf(print_, v))
  }

  ghost predicate Discloses(print_: Printer, v: Json, key: string, id: string) {
    exists path :: Follow(v, key, path).Some?
                   && Gives(print_, Follow(v, key, path).value.0, Follow(v, key, path).value.1, id)
  }

  lemma FollowedGives(print_: Printer, v: Json, key: string, id: string, path: seq<Hop>)
    requires Follow(v, key, path).Some?
    requires Gives(print_, Follow(v, key, path).value.0, Follow(v, key, path).value.1, id)
    ensures Discloses(print_, v, key, id)
  {
    hide Gives;
  }

  lemma DisclosesByChildren(print_: Printer, v: Json, key: string, id: string)
    ensures Discloses(print_, v, key, id) <==>
      || Gives(print_, v, key, id)
      || (v.Obj? && exists i :: 0 <= i < |v.fields| && Discloses(print_, v.fields[i].value, v.fields[i].key, id))
      || (v.List? && !EndsWith(key, "_ids") && exists j :: 0 <= j < |v.items| && Discloses(print_, v.items[j], key, id))
  {
    hide Gives, EndsWith;
    if Gives(print_, v, key, id) {
      assert Follow(v, key, []) == Some((v, key));
    }
    if v.Obj? {
      if i :| 0 <= i < |v.fields| && Discloses(print_, v.fields[i].value, v.fields[i].key, id) {
        var path :| Follow(v.fields[i].value, v.fields[i].key, path).Some?
          && Gives(print_, Follow(v.fields[i].value, v.fields[i].key, path).value.0,
                   Follow(v.fields[i].value, v.fields[i].key, path).value.1, id);
        assert ([Key(i)] + path)[1..] == path;
        assert Follow(v, key, [Key(i)] + path) == Follow(v.fields[i].value, v.fields[i].key, path);
      }
    }
    if v.List? && !EndsWith(key, "_ids") {
      if j :| 0 <= j < |v.items| && Discloses(print_, v.items[j], key, id) {
        var path :| Follow(v.items[j], key, path).Some?
          && Gives(print_, Follow(v.items[j], key, path).value.0, Follow(v.items[j], key, path).value.1, id);
        assert ([Item(j)] + path)[1..] == path;
        assert Follow(v, key, [Item(j)] + path) == Follow(v.items[j], key, path);
      }
    }
    if Discloses(print_, v, key, id) {
      var path :| Follow(v, key, path).Some?
        && Gives(print_, Follow(v, key, path).value.0, Follow(v, key, path).value.1, id);
      if path != [] {
        match path[0]
        case Key(i) =>
          assert Follow(v, key, path) == Follow(v.fields[i].value, v.fields[i].key, path[1..]);
          FollowedGives(print_, v.fields[i].value, v.fields[i].key, id, path[1..]);
        case Item(j) =>
          assert Follow(v, key, path) == Follow(v.items[j], key, path[1..]);
          FollowedGives(print_, v.items[j], key, id, path[1..]);
      }
    }
  }

  /** visit: collects everything the value discloses. */
  method Collect(print_: Printer, v: Json, key: string) returns (result: set<string>)
    ensures forall id :: id in result <==> Discloses(print_, v, key, id)
    decreases v
  {
    hide Discloses, EndsWith;
    forall id ensures Discloses(print_, v, key, id) <==>
      || Gives(print_, v, key, id)
      || (v.Obj? && exists i :: 0 <= i < |v.fields| && Discloses(print_, v.fields[i].value, v.fields[i].key, id))
      || (v.List? && !EndsWith(key, "_ids") && exists j :: 0 <= j < |v.items| && Discloses(print_, v.items[j], key, id))
    {
      DisclosesByChildren(print_, v, key, id);
    }
    result := {};
    match v {
      case Obj(fields) =>
        for k := 0 to |fields|
          invariant forall id :: id in result <==>
            exists i :: 0 <= i < k && Discloses(print_, fields[i].value, fields[i].key, id)
        {
          var more := Collect(print_, fields[k].value, fields[k].key);
          result := result + more;
        }
      case List(items) =>
        if EndsWith(key, "_ids") {
          result := set j | 0 <= j < |items| && StrOf(print_, items[j]) != "" :: StrOf(print_, items[j]);
        } else {
          for k := 0 to |items|
            invariant forall id :: id in result <==> exists j :: 0 <= j < k && Discloses(print_, items[j], key, id)
          {
            var more := Collect(print_, items[k], key);
            result := result + more;
          }
        }
      case _ =>
        if EndsWith(key, "_id") && v != Null && StrOf(print_, v) != "" {
          result := {StrOf(print_, v)};
        }
    }
  }

  /** The identifiers the host discloses to a session: the prior ones, those found in the manifest
      and in the action, and the action's target and route. */
  ghost predicate DisclosedTo(print_: Printer, manifest: Json, action: Json, prior: set<string>, id: string) {
    && id != ""
    && (|| id in prior
        || Discloses(print_, manifest, "", id) || Discloses(print_, action, "", id)
        || (action.Obj? && id in {TextOf(print_, Get(action.fields, "target_id")),
                                  TextOf(print_, Get(action.fields, "route_id"))}))
  }

  /** _disclosed_entity_ids, as a set. */
  method DisclosedEntityIds(print_: Printer, manifest: Json, action: Json, prior: set<string>)
    returns (result: set<string>)
    ensures forall id :: id in result <==> DisclosedTo(print_, manifest, action, prior, id)
  {
    var fromManifest := Collect(print_, manifest, "");
    var fromAction := Collect(print_, action, "");
    result := prior + fromManifest + fromAction;
    if action.Obj? {
      result := result
        + {TextOf(print_, Get(action.fields, "target_id")), TextOf(print_, Get(action.fields, "route_id"))};
    }
    result := result - {""};
    forall id | Discloses(print_, manifest, "", id) || Discloses(print_, action, "", id) ensures id != "" {}
  }

  /** A session authorized with exactly the identifiers disclosed to it: its patch is in order iff
      every identifier field is classified and every reference, at every depth of every operation,
      is disclosed, names the scheduled target or route, or names a record the patch creates. */
  lemma DisclosedReferencesPass(print_: Printer, c: Contract, a: Authority, p: Patch, manifest: Json, action: Json,
                                prior: set<string>)
    requires a.session && p.operations.Some?
    requires forall id :: id in a.authorized <==> DisclosedTo(print_, manifest, action, prior, id)
    ensures PatchOk(print_, c, a, p) <==>
      forall k | 0 <= k < |p.operations.value| && p.operations.value[k].Obj? ::
        var fields := p.operations.value[k].fields;
        var created := CreatedFieldOf(print_, c, fields);
        && AllClassified(c, created, fields)
        && forall f, r :: RefersAnywhere(print_, c, fields, created, f, r) ==>
             || DisclosedTo(print_, manifest, action, prior, r) || r in {a.target, a.route}
             || r in CreatedBy(print_, c, p.operations.value)
  {
    var ops := p.operations.value;
    var scope := Scope(print_, c, a, ops);
    forall r | r != ""
      ensures r in scope <==> DisclosedTo(print_, manifest, action, prior, r) || r in {a.target, a.route}
                              || r in CreatedBy(print_, c, ops)
    {
    }
    forall fields, created, f, r | RefersAnywhere(print_, c, fields, created, f, r) ensures r != "" {
      ReferenceNonblank(print_, c, fields, created, f, r);
    }
    hide RefersAnywhere, DisclosedTo, CreatedBy, AllClassified, Scope;
  }

  lemma ReferenceNonblank(print_: Printer, c: Contract, fields: seq<Field>, created: Option<string>, f: string,
                          r: string)
    requires RefersAnywhere(print_, c, fields, created, f, r)
    ensures r != ""
  {
  }
}
