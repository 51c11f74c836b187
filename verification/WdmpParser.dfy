/** `wdmp_parse_generic_request` and the `parse_*_request` family. */
module WdmpParser {
  import opened WdmpHeap
  import opened WdmpRequests
  import opened WdmpCodec

  method BuildGet(heap: Heap, names: seq<string>) returns (b: Body)
    requires heap.Valid() && |names| <= MAX_GET_NAMES
    modifies heap
    ensures heap.Valid() && b.GetBody? && HoldsNames(heap.blocks, b.names, names)
    ensures Built(BodyAlloc(b), old(heap.next), heap.next, old(heap.blocks), heap.blocks)
  {
    var block := CopyMaybe(heap, Some(""));
    ghost var n, m := heap.next, heap.blocks;
    var ptrs := CopyNames(heap, names);
    BuiltThen(One(block), NamesOrder(ptrs), old(heap.next), n, heap.next, old(heap.blocks), m, heap.blocks);
    b := GetBody(block, ptrs);
  }

  method BuildSet(heap: Heap, fields: seq<Field>) returns (b: Body)
    requires heap.Valid()
    modifies heap
    ensures heap.Valid() && b.SetBody? && b.params != 0 && HoldsFields(heap.blocks, b.items, fields)
    ensures Built(BodyAlloc(b), old(heap.next), heap.next, old(heap.blocks), heap.blocks)
  {
    hide Built;
    var block := CopyMaybe(heap, Some(""));
    ghost var n1, m1 := heap.next, heap.blocks;
    var params := CopyMaybe(heap, Some(""));
    ghost var n2, m2 := heap.next, heap.blocks;
    BuiltThen(One(block), One(params), old(heap.next), n1, n2, old(heap.blocks), m1, m2);
    var items := CopyFields(heap, fields);
    BuiltThen(One(block) + One(params), ItemsOrder(items),
              old(heap.next), n2, heap.next, old(heap.blocks), m2, heap.blocks);
    b := SetBody(block, params, items);
  }

  lemma {:induction false} CopyKept(before: Blocks, after: Blocks, p: Ptr, text: Maybe<string>)
    requires CopiesMaybe(before, p, text) && Extends(before, after)
    ensures CopiesMaybe(after, p, text)
  {
  }

  /** The three identifiers of TEST_AND_SET, in the order they are looked up. */
  method BuildCids(heap: Heap, oldCid: Maybe<string>, newCid: Maybe<string>, syncCmc: Maybe<string>)
    returns (o: Ptr, n: Ptr, c: Ptr)
    requires heap.Valid()
    modifies heap
    ensures heap.Valid()
    ensures CopiesMaybe(heap.blocks, o, oldCid) && CopiesMaybe(heap.blocks, n, newCid)
    ensures CopiesMaybe(heap.blocks, c, syncCmc)
    ensures Built(One(o) + One(n) + One(c), old(heap.next), heap.next, old(heap.blocks), heap.blocks)
  {
    hide Built;
    hide CopiesMaybe;
    o := CopyMaybe(heap, oldCid);
    ghost var n1, m1 := heap.next, heap.blocks;
    n := CopyMaybe(heap, newCid);
    ghost var n2, m2 := heap.next, heap.blocks;
    BuiltExtends(One(n), n1, n2, m1, m2);
    CopyKept(m1, m2, o, oldCid);
    BuiltThen(One(o), One(n), old(heap.next), n1, n2, old(heap.blocks), m1, m2);
    c := CopyMaybe(heap, syncCmc);
    BuiltExtends(One(c), n2, heap.next, m2, heap.blocks);
    CopyKept(m2, heap.blocks, o, oldCid);
    CopyKept(m2, heap.blocks, n, newCid);
    BuiltThen(One(o) + One(n), One(c), old(heap.next), n2, heap.next, old(heap.blocks), m2, heap.blocks);
  }

  method BuildTest(heap: Heap, oldCid: Maybe<string>, newCid: Maybe<string>, syncCmc: Maybe<string>,
                   fields: Maybe<seq<Field>>)
    returns (b: Body)
    requires heap.Valid()
    modifies heap
    ensures heap.Valid() && b.TestBody?
    ensures CopiesMaybe(heap.blocks, b.oldCid, oldCid) && CopiesMaybe(heap.blocks, b.newCid, newCid)
    ensures CopiesMaybe(heap.blocks, b.syncCmc, syncCmc)
    ensures if fields.None? then b.params == 0 && b.items == []
            else b.params != 0 && HoldsFields(heap.blocks, b.items, fields.value)
    ensures Built(BodyAlloc(b), old(heap.next), heap.next, old(heap.blocks), heap.blocks)
  {
    hide Built;
    hide CopiesMaybe;
    hide ItemsOrder;
    var block := CopyMaybe(heap, Some(""));
    ghost var n1, m1 := heap.next, heap.blocks;
    var o, n, c := BuildCids(heap, oldCid, newCid, syncCmc);
    ghost var n2, m2 := heap.next, heap.blocks;
    ghost var head := One(block) + (One(o) + One(n) + One(c));
    BuiltThen(One(block), One(o) + One(n) + One(c), old(heap.next), n1, n2, old(heap.blocks), m1, m2);
    var params: Ptr, items := 0, [];
    if fields.Some? {
      params, items := BuildParams(heap, fields.value);
    } else {
      BuiltNone(heap.next, heap.blocks);
      NoItems();
    }
    ghost var tail := One(params) + ItemsOrder(items);
    assert fields.None? ==> tail == [];
    BuiltExtends(tail, n2, heap.next, m2, heap.blocks);
    CopyKept(m2, heap.blocks, o, oldCid);
    CopyKept(m2, heap.blocks, n, newCid);
    CopyKept(m2, heap.blocks, c, syncCmc);
    BuiltThen(head, tail, old(heap.next), n2, heap.next, old(heap.blocks), m2, heap.blocks);
    b := TestBody(block, n, o, c, params, items);
    TestOrder(One(block), One(o), One(n), One(c), One(params), ItemsOrder(items));
  }

  lemma NoItems()
    ensures ItemsOrder([]) == []
  {
  }

  lemma {:induction false} TestOrder(a: seq<Ptr>, b: seq<Ptr>, c: seq<Ptr>, d: seq<Ptr>, e: seq<Ptr>, f: seq<Ptr>)
    ensures a + (b + c + d) + (e + f) == a + b + c + d + e + f
  {
  }

  /** The array of parameters and its contents. */
  method BuildParams(heap: Heap, fields: seq<Field>) returns (params: Ptr, items: seq<Item>)
    requires heap.Valid()
    modifies heap
    ensures heap.Valid() && params != 0 && HoldsFields(heap.blocks, items, fields)
    ensures Built(One(params) + ItemsOrder(items), old(heap.next), heap.next, old(heap.blocks), heap.blocks)
  {
    hide Built;
    params := CopyMaybe(heap, Some(""));
    ghost var n, m := heap.next, heap.blocks;
    items := CopyFields(heap, fields);
    BuiltThen(One(params), ItemsOrder(items), old(heap.next), n, heap.next, old(heap.blocks), m, heap.blocks);
  }

  method BuildTable(heap: Heap, name: string, rows: Maybe<seq<seq<Cell>>>) returns (b: Body)
    requires heap.Valid()
    modifies heap
    ensures heap.Valid() && b.TableBody? && Copies(heap.blocks, b.objectName, name)
    ensures if rows.None? then b.rows == 0 && b.table == []
            else b.rows != 0 && HoldsRows(heap.blocks, b.table, rows.value)
    ensures Built(BodyAlloc(b), old(heap.next), heap.next, old(heap.blocks), heap.blocks)
  {
    hide Built;
    hide HoldsRows;
    hide RowsAlloc;
    var block := CopyMaybe(heap, Some(""));
    ghost var n1, m1 := heap.next, heap.blocks;
    var objectName := CopyMaybe(heap, Some(name));
    ghost var n2, m2 := heap.next, heap.blocks;
    BuiltThen(One(block), One(objectName), old(heap.next), n1, n2, old(heap.blocks), m1, m2);
    var rowArray: Ptr, table := 0, [];
    if rows.Some? {
      rowArray := CopyMaybe(heap, Some(""));
      ghost var n3, m3 := heap.next, heap.blocks;
      table := CopyRows(heap, rows.value);
      BuiltThen(One(rowArray), RowsAlloc(table), n2, n3, heap.next, m2, m3, heap.blocks);
    } else {
      BuiltNone(heap.next, heap.blocks);
      NoRowsOrder();
    }
    ghost var tail := One(rowArray) + RowsAlloc(table);
    assert rows.None? ==> tail == [];
    BuiltExtends(tail, n2, heap.next, m2, heap.blocks);
    CopyKept(m2, heap.blocks, objectName, Some(name));
    BuiltThen(One(block) + One(objectName), tail, old(heap.next), n2, heap.next, old(heap.blocks), m2, heap.blocks);
    b := TableBody(block, objectName, rowArray, table);
    assert One(block) + One(objectName) + tail == One(block) + One(objectName) + One(rowArray) + RowsAlloc(table);
  }

  lemma NoRowsOrder()
    ensures RowsAlloc([]) == []
  {
  }

  /** A GET whose `attributes` is an empty string is built and then given up. */
  predicate EmptyNotify(p: Payload) { p.Get? && p.attributes == Some("") }

  /** The body and kind of each command. */
  method BuildBody(heap: Heap, p: Payload) returns (kind: Kind, b: Body)
    requires heap.Valid() && WellTyped(p) && !p.NoCommand? && !p.Unknown?
    modifies heap
    ensures heap.Valid() && Fits(kind, b)
    ensures !EmptyNotify(p) ==> forall block :: Holds(heap.blocks, Request(block, kind, b), p)
    ensures Built(BodyAlloc(b), old(heap.next), heap.next, old(heap.blocks), heap.blocks)
  {
    hide Built;
    hide HoldsFields;
    hide HoldsRows;
    hide HoldsNames;
    hide CopiesMaybe;
    match p
    case Get(names, attributes) =>
      b := BuildGet(heap, names);
      kind := if attributes.Some? && StartsWith(attributes.value, "notify") then KGetAttributes else KGet;
    case Set(params) =>
      b := BuildSet(heap, Map(SetField, params));
      kind := KSet;
    case SetAttributes(attrs) =>
      b := BuildSet(heap, Map(AttrField, attrs));
      kind := KSetAttributes;
    case TestAndSet(oldCid, newCid, syncCmc, tests) =>
      b := BuildTest(heap, CidText(oldCid, "-error-old-cid-"), CidText(newCid, "-error-new-cid-"),
                     CidText(syncCmc, "0"),
                     if tests.Some? then Some(Map(TestField, tests.value)) else None);
      kind := KTestAndSet;
    case ReplaceRows(table, rows) =>
      b := BuildTable(heap, table, Some(rows));
      kind := KReplaceRows;
    case AddRow(table, row) =>
      b := BuildTable(heap, table, Some([row]));
      kind := KAddRows;
    case DeleteRow(name) =>
      b := BuildTable(heap, name, None);
      kind := KDeleteRow;
  }

  /** A structure just built, and nothing else in the heap touched, can be released. */
  lemma {:induction false} BuiltIsOwned(r: Request, from: nat, to: nat, before: Blocks, after: Blocks)
    requires Built(AllocOrder(r), from, to, before, after) && forall p :: p in before ==> p < from
    ensures Owned(after, FreeOrder(r)) && Without(after, FreeOrder(r)) == before
  {
    hide AllocOrder;
    hide FreeOrder;
    hide Owned;
    AllocatedIsOwned(r, from, to, after);
    assert Without(after, FreeOrder(r)) == before;
  }

  /**
  Any well-typed payload: either a structure that holds all of it, in blocks all newly
  allocated and under the request type that fits it, or NULL with nothing left allocated.
  */
  method ParseRequest(heap: Heap, p: Payload) returns (r: Request)
    requires heap.Valid() && WellTyped(p)
    modifies heap
    ensures heap.Valid() && Holds(heap.blocks, r, p) && Stored(heap.blocks, r, p)
    ensures r.Null? ==> heap.blocks == old(heap.blocks)
    ensures r.Request? ==> Fits(r.kind, r.body)
    ensures r.Request? ==> Built(AllocOrder(r), old(heap.next), heap.next, old(heap.blocks), heap.blocks)
  {
    hide HoldsFields;
    hide HoldsRows;
    hide HoldsNames;
    hide CopiesMaybe;
    hide BodyAlloc;
    hide FreeOrder;
    hide Built;
    hide Stored;
    if p.NoCommand? {
      HeldIsStored(heap.blocks, Null, p);
      return Null;
    }
    var block := CopyMaybe(heap, Some(""));
    ghost var n, m := heap.next, heap.blocks;
    if p.Unknown? {
      r := Request(block, KGet, NoBody);
      NoBodyOrder(block);
    } else {
      var kind, b := BuildBody(heap, p);
      BuiltThen(One(block), BodyAlloc(b), old(heap.next), n, heap.next, old(heap.blocks), m, heap.blocks);
      r := Request(block, kind, b);
    }
    if p.Unknown? || EmptyNotify(p) {
      BuiltIsOwned(r, old(heap.next), heap.next, old(heap.blocks), heap.blocks);
      FreeRequest(heap, r);
      r := Null;
    }
    HeldIsStored(heap.blocks, r, p);
  }

  lemma NoBodyOrder(block: Ptr)
    ensures AllocOrder(Request(block, KGet, NoBody)) == One(block)
  {
    assert One(block) + [] == One(block);
  }

  /** Parsing and then releasing leaves the heap exactly as it was. */
  method ParseThenFree(heap: Heap, p: Payload)
    requires heap.Valid() && WellTyped(p)
    modifies heap
    ensures heap.Valid() && heap.blocks == old(heap.blocks)
  {
    hide FreeOrder;
    hide AllocOrder;
    hide Holds;
    var r := ParseRequest(heap, p);
    if r.Request? {
      BuiltIsOwned(r, old(heap.next), heap.next, old(heap.blocks), heap.blocks);
      FreeRequest(heap, r);
    }
  }
}
