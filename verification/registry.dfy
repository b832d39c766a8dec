/** The request and subscription registries: parallel dictionaries that must behave as one table with
    a name index. A table searched by name refines a two-way index; the classes refine the table. */
module Registry {
  import opened Prelude

  /** A registration name is a string or a tuple; Python treats the empty ones as false. */
  datatype Name = Text(text: string) | Parts(parts: seq<string>)

  predicate Truthy(name: Name) {
    match name case Text(s) => s != [] case Parts(p) => p != []
  }

  /** Callbacks are opaque: only their identity matters here. */
  type Callback = int

  datatype Row<X> = Row(name: Name, handle: Callback, cancel: Callback, payload: X)

  type Table<X> = map<int, Row<X>>

  datatype AddResult<X> = Added(table: Table<X>) | DuplicateId | DuplicateName

  // ---------- the table ----------

  ghost predicate Injective<X>(t: Table<X>) {
    forall a, b | a in t && b in t && t[a].name == t[b].name :: a == b
  }

  /** The search by name, through the ids. */
  ghost function IdOf<X>(t: Table<X>, name: Name): Option<int> {
    if id :| id in t && t[id].name == name then Some(id) else None
  }

  /** Which id a call with an optional id and an optional name means. An id of zero counts as none. */
  ghost function Resolve<X>(t: Table<X>, reqId: Option<int>, name: Option<Name>): Option<int> {
    if reqId.Some? && reqId.value != 0 then reqId
    else if name == None || IdOf(t, name.value) == Some(0) then None
    else IdOf(t, name.value)
  }

  ghost function Lookup<X>(t: Table<X>, reqId: Option<int>, name: Option<Name>): Option<(int, Row<X>)> {
    match Resolve(t, reqId, name)
    case None => None
    case Some(id) => if id in t && Truthy(t[id].name) then Some((id, t[id])) else None
  }

  ghost function Insert<X>(t: Table<X>, id: int, row: Row<X>): AddResult<X> {
    if id in t then DuplicateId
    else if IdOf(t, row.name).Some? then DuplicateName
    else Added(t[id := row])
  }

  ghost function Delete<X>(t: Table<X>, reqId: Option<int>, name: Option<Name>): Table<X> {
    match Resolve(t, reqId, name)
    case None => t
    case Some(id) => t - {id}
  }

  /** One more value for the request found under an id. */
  ghost function Appended<V>(t: Table<seq<V>>, id: int, value: V): Table<seq<V>> {
    match Lookup(t, Some(id), None)
    case None => t
    case Some((_, row)) => t[id := row.(payload := row.payload + [value])]
  }

  lemma IdOfUnique<X>(t: Table<X>, id: int)
    requires Injective(t) && id in t
    ensures IdOf(t, t[id].name) == Some(id)
  {
  }

  // ---------- the two-way index ----------

  /** The reference: rows by id and ids by name, with no search. */
  datatype Index<X> = Index(rows: map<int, Row<X>>, ids: map<Name, int>)

  ghost predicate Inverse<X>(ix: Index<X>) {
    && (forall id | id in ix.rows :: ix.rows[id].name in ix.ids && ix.ids[ix.rows[id].name] == id)
    && (forall name | name in ix.ids :: ix.ids[name] in ix.rows && ix.rows[ix.ids[name]].name == name)
  }

  function ResolveIn<X>(ix: Index<X>, reqId: Option<int>, name: Option<Name>): Option<int> {
    if reqId.Some? && reqId.value != 0 then reqId
    else if name.Some? && name.value in ix.ids && ix.ids[name.value] != 0 then Some(ix.ids[name.value])
    else None
  }

  datatype Op<X> =
    | AddOp(id: int, row: Row<X>)
    | RemoveOp(reqId: Option<int>, byName: Option<Name>)
    | GetOp(reqId: Option<int>, byName: Option<Name>)

  datatype Answer<X> = Done | Rejected | Found(entry: Option<(int, Row<X>)>)

  function StepIndex<X>(ix: Index<X>, op: Op<X>): (Index<X>, Answer<X>) {
    match op
    case AddOp(id, row) =>
      if id in ix.rows || row.name in ix.ids then (ix, Rejected)
      else
        (Index(ix.rows[id := row], ix.ids[row.name := id]),
         Found(if id != 0 && Truthy(row.name) then Some((id, row)) else None))
    case RemoveOp(reqId, name) =>
      var id := ResolveIn(ix, reqId, name);
      (if id.Some? && id.value in ix.rows
       then Index(ix.rows - {id.value}, ix.ids - {ix.rows[id.value].name}) else ix, Done)
    case GetOp(reqId, name) =>
      var id := ResolveIn(ix, reqId, name);
      (ix, Found(if id.Some? && id.value in ix.rows && Truthy(ix.rows[id.value].name)
                 then Some((id.value, ix.rows[id.value])) else None))
  }

  ghost function StepTable<X>(t: Table<X>, op: Op<X>): (Table<X>, Answer<X>) {
    match op
    case AddOp(id, row) =>
      var r := Insert(t, id, row);
      if r.Added? then (r.table, Found(Lookup(r.table, Some(id), None))) else (t, Rejected)
    case RemoveOp(reqId, name) => (Delete(t, reqId, name), Done)
    case GetOp(reqId, name) => (t, Found(Lookup(t, reqId, name)))
  }

  function RunIndex<X>(ops: seq<Op<X>>): (Index<X>, seq<Answer<X>>) {
    if ops == [] then (Index(map[], map[]), [])
    else
      var n := |ops| - 1;
      var (ix, answers) := RunIndex(ops[..n]);
      var (ix', a) := StepIndex(ix, ops[n]);
      (ix', answers + [a])
  }

  ghost function RunTable<X>(ops: seq<Op<X>>): (Table<X>, seq<Answer<X>>) {
    if ops == [] then (map[], [])
    else
      var n := |ops| - 1;
      var (t, answers) := RunTable(ops[..n]);
      var (t', a) := StepTable(t, ops[n]);
      (t', answers + [a])
  }

  lemma InverseIsInjective<X>(ix: Index<X>)
    requires Inverse(ix)
    ensures Injective(ix.rows)
    ensures forall name :: IdOf(ix.rows, name) == if name in ix.ids then Some(ix.ids[name]) else None
  {
    forall a, b | a in ix.rows && b in ix.rows && ix.rows[a].name == ix.rows[b].name ensures a == b {
    }
  }

  lemma InsertRefines<X>(ix: Index<X>, id: int, row: Row<X>)
    requires Inverse(ix)
    ensures Inverse(StepIndex(ix, AddOp(id, row)).0)
    ensures var (next, answer) := StepIndex(ix, AddOp(id, row));
            StepTable(ix.rows, AddOp(id, row)) == (next.rows, answer)
  {
    InverseIsInjective(ix);
  }

  lemma DeleteRefines<X>(ix: Index<X>, reqId: Option<int>, name: Option<Name>)
    requires Inverse(ix)
    ensures Inverse(StepIndex(ix, RemoveOp(reqId, name)).0)
    ensures Delete(ix.rows, reqId, name) == StepIndex(ix, RemoveOp(reqId, name)).0.rows
  {
    InverseIsInjective(ix);
    assert Delete(ix.rows, reqId, name) == StepIndex(ix, RemoveOp(reqId, name)).0.rows;
  }

  lemma StepRefines<X>(ix: Index<X>, op: Op<X>)
    requires Inverse(ix)
    ensures var (next, answer) := StepIndex(ix, op);
            Inverse(next) && StepTable(ix.rows, op) == (next.rows, answer)
  {
    match op
    case AddOp(id, row) => InsertRefines(ix, id, row);
    case RemoveOp(reqId, name) => DeleteRefines(ix, reqId, name);
    case GetOp(reqId, name) => InverseIsInjective(ix);
  }

  /** Over every sequence of adds, removes and gets, by id or by name, the searched table answers exactly
      as the two-way index does and holds the same rows; names stay injective. */
  lemma {:induction false} TableRefinesIndex<X>(ops: seq<Op<X>>)
    ensures RunTable(ops) == (RunIndex(ops).0.rows, RunIndex(ops).1)
    ensures Inverse(RunIndex(ops).0) && Injective(RunTable(ops).0)
  {
    if ops != [] {
      var n := |ops| - 1;
      TableRefinesIndex(ops[..n]);
      StepRefines(RunIndex(ops[..n]).0, ops[n]);
    }
    InverseIsInjective(RunIndex(ops).0);
  }

  // ---------- consequences ----------

  /** What can be seen: an entry is found, by id and by its name alike, exactly when its id is not zero
      and its name is not empty. */
  lemma FoundExactly<X>(t: Table<X>, id: int)
    requires Injective(t) && id in t
    ensures Lookup(t, None, Some(t[id].name)) == Lookup(t, Some(id), None)
    ensures Lookup(t, Some(id), None) ==
            if id != 0 && t[id].name != Text("") && t[id].name != Parts([]) then Some((id, t[id])) else None
    ensures Delete(t, None, Some(t[id].name)) == Delete(t, Some(id), None)
    ensures id !in Delete(t, Some(id), None) <==> id != 0
  {
    IdOfUnique(t, id);
  }

  /** An add followed by a remove of the same id, or of the same name, restores the table exactly when
      the id is not zero. */
  lemma AddRemoveRestores<X>(t: Table<X>, id: int, row: Row<X>)
    requires Injective(t) && Insert(t, id, row).Added?
    ensures Injective(Insert(t, id, row).table)
    ensures Delete(Insert(t, id, row).table, Some(id), None) == t <==> id != 0
    ensures Delete(Insert(t, id, row).table, None, Some(row.name)) == t <==> id != 0
  {
    var u := Insert(t, id, row).table;
    forall a, b | a in u && b in u && u[a].name == u[b].name ensures a == b {
      assert IdOf(t, row.name) == None;
    }
    IdOfUnique(u, id);
    if id != 0 {
      assert u - {id} == t;
    } else {
      assert id in u && id !in t;
    }
  }

  /** The name is one of the values of the dictionary. */
  predicate Taken(names: map<int, Name>, name: Name) {
    exists id | id in names :: names[id] == name
  }

  // ---------- parallel dictionaries as one table ----------

  function Zip<X>(names: map<int, Name>, handles: map<int, Callback>, cancels: map<int, Callback>, payload: map<int, X>)
    : Table<X>
    requires handles.Keys == names.Keys && cancels.Keys == names.Keys && names.Keys <= payload.Keys
  {
    map id | id in names :: Row(names[id], handles[id], cancels[id], payload[id])
  }

  /** Updating every dictionary at one id updates the table at that id. */
  lemma ZipUpdate<X>(names: map<int, Name>, handles: map<int, Callback>, cancels: map<int, Callback>,
                     payload: map<int, X>, id: int, row: Row<X>)
    requires handles.Keys == names.Keys && cancels.Keys == names.Keys && names.Keys <= payload.Keys
    ensures Zip(names[id := row.name], handles[id := row.handle], cancels[id := row.cancel], payload[id := row.payload])
            == Zip(names, handles, cancels, payload)[id := row]
  {
  }

  lemma ZipDelete<X>(names: map<int, Name>, handles: map<int, Callback>, cancels: map<int, Callback>,
                     payload: map<int, X>, id: int)
    requires handles.Keys == names.Keys && cancels.Keys == names.Keys && names.Keys <= payload.Keys
    ensures Zip(names - {id}, handles - {id}, cancels - {id}, payload - {id})
            == Zip(names, handles, cancels, payload) - {id}
  {
  }

  lemma ZipNames<X>(names: map<int, Name>, handles: map<int, Callback>, cancels: map<int, Callback>,
                    payload: map<int, X>, name: Name)
    requires handles.Keys == names.Keys && cancels.Keys == names.Keys && names.Keys <= payload.Keys
    requires forall a, b | a in names && b in names && names[a] == names[b] :: a == b
    ensures var t := Zip(names, handles, cancels, payload);
            && (IdOf(t, name).Some? <==> Taken(names, name))
            && forall id | id in names && names[id] == name :: IdOf(t, name) == Some(id)
  {
    var t := Zip(names, handles, cancels, payload);
    if Taken(names, name) {
      var id :| id in names && names[id] == name;
      assert t[id].name == name;
      IdOfUnique(t, id);
    }
  }

  // ---------- the classes ----------

  class Base {
    var nameOf: map<int, Name>
    var handleOf: map<int, Callback>
    var cancelOf: map<int, Callback>

    /** The three dictionaries have the same keys, and no name is used twice. */
    ghost predicate Valid()
      reads this
    {
      && handleOf.Keys == nameOf.Keys && cancelOf.Keys == nameOf.Keys
      && forall a, b | a in nameOf && b in nameOf && nameOf[a] == nameOf[b] :: a == b
    }

    ghost function Rows<X>(payload: map<int, X>): Table<X>
      requires Valid() && nameOf.Keys <= payload.Keys
      reads this
    {
      Zip(nameOf, handleOf, cancelOf, payload)
    }

    constructor ()
      ensures Valid() && nameOf == map[]
    {
      nameOf, handleOf, cancelOf := map[], map[], map[];
    }

    method NameToReqId(name: Name) returns (id: Option<int>)
      requires Valid()
      ensures id.Some? ==> id.value in nameOf && nameOf[id.value] == name
      ensures id == None ==> !Taken(nameOf, name)
    {
      var ids := Listed(nameOf.Keys);
      for i := 0 to |ids|
        invariant forall j | 0 <= j < i :: nameOf[ids[j]] != name
      {
        if nameOf[ids[i]] == name {
          return Some(ids[i]);
        }
      }
      forall id | id in nameOf ensures nameOf[id] != name {
        assert id in Elements(ids);
      }
      return None;
    }

    /** True when the id or the name is taken; the id is looked at first. */
    method ValidationCheck(id: int, name: Name) returns (taken: bool)
      requires Valid()
      ensures taken <==> id in nameOf || Taken(nameOf, name)
    {
      if id in nameOf {
        return true;
      }
      taken := Taken(nameOf, name);
    }

    method AddReqId(id: int, name: Name, handle: Callback, cancel: Callback) returns (ok: bool)
      requires Valid()
      modifies this
      ensures Valid()
      ensures ok <==> old(id !in nameOf && !Taken(nameOf, name))
      ensures ok ==> nameOf == old(nameOf)[id := name]
      ensures ok ==> handleOf == old(handleOf)[id := handle] && cancelOf == old(cancelOf)[id := cancel]
      ensures !ok ==> unchanged(this)
    {
      var taken := ValidationCheck(id, name);
      if taken {
        return false;
      }
      nameOf := nameOf[id := name];
      handleOf := handleOf[id := handle];
      cancelOf := cancelOf[id := cancel];
      return true;
    }

    method RemoveReqId(id: int)
      requires Valid()
      modifies this
      ensures Valid()
      ensures nameOf == old(nameOf) - {id} && handleOf == old(handleOf) - {id} && cancelOf == old(cancelOf) - {id}
    {
      nameOf := nameOf - {id};
      handleOf := handleOf - {id};
      cancelOf := cancelOf - {id};
    }

    /** The id a call means, as both registries compute it. */
    method ResolveReqId<X>(reqId: Option<int>, name: Option<Name>, ghost payload: map<int, X>)
      returns (id: Option<int>)
      requires Valid() && nameOf.Keys <= payload.Keys
      ensures id == Resolve(Rows(payload), reqId, name)
    {
      if reqId.Some? && reqId.value != 0 {
        return reqId;
      }
      if name == None {
        return None;
      }
      id := NameToReqId(name.value);
      ZipNames(nameOf, handleOf, cancelOf, payload, name.value);
      if id == Some(0) {
        id := None;
      }
    }
  }

  /** Subscriptions keep the last value received. */
  class Subscriptions<V> {
    const base: Base
    var last: map<int, Option<V>>
    /** The dictionaries as one table. */
    ghost var rows: Table<Option<V>>

    ghost predicate Valid()
      reads this, base
    {
      base.Valid() && base.nameOf.Keys <= last.Keys && rows == base.Rows(last)
    }

    /** Every dictionary has the same keys. */
    ghost predicate Aligned()
      reads this, base
    {
      last.Keys == base.nameOf.Keys
    }

    constructor ()
      ensures Valid() && Aligned() && rows == map[] && fresh(base)
    {
      base := new Base();
      last, rows := map[], map[];
    }

    method Add(id: int, name: Name, handle: Callback, cancel: Callback)
      returns (ok: bool, entry: Option<(int, Row<Option<V>>)>)
      requires Valid()
      modifies this, base
      ensures Valid() && (old(Aligned()) ==> Aligned())
      ensures var r := Insert(old(rows), id, Row(name, handle, cancel, None));
              && ok == r.Added? && rows == (if ok then r.table else old(rows))
              && entry == if ok then Lookup(rows, Some(id), None) else None
    {
      ZipNames(base.nameOf, base.handleOf, base.cancelOf, last, name);
      ZipUpdate(base.nameOf, base.handleOf, base.cancelOf, last, id, Row(name, handle, cancel, None));
      ok := base.AddReqId(id, name, handle, cancel);
      if !ok {
        return false, None;
      }
      last := last[id := None];
      rows := base.Rows(last);
      entry := Get(Some(id), None);
    }

    method Remove(reqId: Option<int>, name: Option<Name>)
      requires Valid()
      modifies this, base
      ensures Valid() && (old(Aligned()) ==> Aligned())
      ensures rows == Delete(old(rows), reqId, name)
    {
      var id := base.ResolveReqId(reqId, name, last);
      if id.Some? {
        ZipDelete(base.nameOf, base.handleOf, base.cancelOf, last, id.value);
        base.RemoveReqId(id.value);
        last := last - {id.value};
        rows := base.Rows(last);
      }
    }

    method Get(reqId: Option<int>, name: Option<Name>) returns (entry: Option<(int, Row<Option<V>>)>)
      requires Valid()
      ensures entry == Lookup(rows, reqId, name)
    {
      var id := base.ResolveReqId(reqId, name, last);
      if id == None || id.value !in base.nameOf || !Truthy(base.nameOf[id.value]) {
        return None;
      }
      var k := id.value;
      return Some((k, Row(base.nameOf[k], base.handleOf[k], base.cancelOf[k], last[k])));
    }

    /** An update for an id that is not registered leaves a stray value behind, and only then. */
    method UpdateLast(id: int, value: V)
      requires Valid()
      modifies `last, `rows
      ensures Valid()
      ensures Aligned() <==> old(Aligned()) && id in base.nameOf
      ensures rows == if id in base.nameOf then old(rows)[id := old(rows)[id].(payload := Some(value))] else old(rows)
    {
      last := last[id := Some(value)];
      rows := base.Rows(last);
      assert last.Keys == old(last).Keys + {id};
    }
  }

  datatype Outcome<V> = Pending | Result(values: seq<V>) | Failed | Cancelled

  class Future<V> {
    /** The request it was made for. */
    ghost const request: int
    var outcome: Outcome<V>

    constructor (ghost id: int)
      ensures request == id && outcome == Pending
    {
      request := id;
      outcome := Pending;
    }
  }

  /** Requests keep a future and the results so far. */
  class Requests<V> {
    const base: Base
    var future: map<int, Future<V>>
    var result: map<int, seq<V>>
    /** The dictionaries as one table. */
    ghost var rows: Table<seq<V>>

    ghost predicate Valid()
      reads this, base
    {
      base.Valid() && base.nameOf.Keys == future.Keys && base.nameOf.Keys == result.Keys && rows == base.Rows(result)
    }

    constructor ()
      ensures Valid() && rows == map[] && fresh(base)
    {
      base := new Base();
      future, result, rows := map[], map[], map[];
    }

    method Add(id: int, name: Name, handle: Callback, cancel: Callback)
      returns (ok: bool, entry: Option<(int, Row<seq<V>>)>)
      requires Valid()
      modifies this, base
      ensures Valid()
      ensures var r := Insert(old(rows), id, Row(name, handle, cancel, []));
              && ok == r.Added? && rows == (if ok then r.table else old(rows))
              && entry == if ok then Lookup(rows, Some(id), None) else None
      ensures !ok ==> future == old(future)
      ensures ok ==> id in future && fresh(future[id]) && future[id].request == id && future[id].outcome == Pending
                     && future == old(future)[id := future[id]]
    {
      ZipNames(base.nameOf, base.handleOf, base.cancelOf, result, name);
      ZipUpdate(base.nameOf, base.handleOf, base.cancelOf, result, id, Row(name, handle, cancel, []));
      ok := base.AddReqId(id, name, handle, cancel);
      if !ok {
        return false, None;
      }
      var f := new Future<V>(id);
      future := future[id := f];
      result := result[id := []];
      rows := base.Rows(result);
      entry := Get(Some(id), None);
    }

    method Remove(reqId: Option<int>, name: Option<Name>)
      requires Valid()
      modifies this, base
      ensures Valid() && rows == Delete(old(rows), reqId, name)
      ensures forall id | id in future :: id in old(future) && future[id] == old(future)[id]
    {
      var id := base.ResolveReqId(reqId, name, result);
      if id.Some? {
        Drop(id.value);
      }
    }

    method Drop(id: int)
      requires Valid()
      modifies this, base
      ensures Valid() && rows == old(rows) - {id} && future == old(future) - {id}
    {
      ZipDelete(base.nameOf, base.handleOf, base.cancelOf, result, id);
      base.RemoveReqId(id);
      future := future - {id};
      result := result - {id};
      rows := base.Rows(result);
    }

    method Get(reqId: Option<int>, name: Option<Name>) returns (entry: Option<(int, Row<seq<V>>)>)
      requires Valid()
      ensures entry == Lookup(rows, reqId, name)
    {
      var id := base.ResolveReqId(reqId, name, result);
      if id == None || id.value !in base.nameOf || !Truthy(base.nameOf[id.value]) {
        return None;
      }
      var k := id.value;
      return Some((k, Row(base.nameOf[k], base.handleOf[k], base.cancelOf[k], result[k])));
    }

    /** Appending to the result list of a request, if it is found. */
    method Append(id: int, value: V) returns (found: bool)
      requires Valid()
      modifies `result, `rows
      ensures Valid() && rows == Appended(old(rows), id, value)
      ensures found <==> Lookup(old(rows), Some(id), None).Some?
    {
      var entry := Get(Some(id), None);
      found := entry.Some?;
      if found {
        result := result[id := result[id] + [value]];
        rows := base.Rows(result);
      }
    }
  }
}
