/** Parsing of WDMP requests into heap structures, and their release. */
module WdmpCodec {
  import opened WdmpHeap
  import opened WdmpRequests

  /** What a builder did: got exactly the blocks `order`, one after another, and left the rest of the heap alone. */
  ghost predicate Built(order: seq<Ptr>, from: nat, to: nat, before: Blocks, after: Blocks)
  {
    && from <= to && order == Range(from, to) && Extends(before, after)
    && forall p :: p in after <==> p in before || from <= p < to
  }

  lemma {:induction false} BuiltThen(a: seq<Ptr>, b: seq<Ptr>, from: nat, mid: nat, to: nat, x: Blocks, y: Blocks,
                                     z: Blocks)
    requires Built(a, from, mid, x, y) && Built(b, mid, to, y, z)
    ensures Built(a + b, from, to, x, z)
  {
    RangeSplit(from, mid, to);
  }

  lemma {:induction false} BuiltOne(p: Ptr, text: string, before: Blocks)
    requires p > 0 && p !in before
    ensures Built(One(p), p, p + 1, before, before[p := text])
  {
  }

  lemma {:induction false} BuiltNone(from: nat, before: Blocks)
    ensures Built([], from, from, before, before)
  {
  }

  lemma {:induction false} FieldsKept(before: Blocks, after: Blocks, items: seq<Item>, fields: seq<Field>)
    requires HoldsFields(before, items, fields) && Extends(before, after)
    ensures HoldsFields(after, items, fields)
  {
    forall i | 0 <= i < |items|
      ensures HoldsField(after, items[i], fields[i])
    {
      assert HoldsField(before, items[i], fields[i]);
    }
  }

  lemma {:induction false} ItemsLast(items: seq<Item>, x: Item)
    ensures ItemsOrder(items + [x]) == ItemsOrder(items) + (One(x.name) + One(x.value))
    decreases |items|
  {
    if items == [] {
      assert items + [x] == [x] && [x][1..] == [];
    } else {
      assert (items + [x])[0] == items[0] && (items + [x])[1..] == items[1..] + [x];
      ItemsLast(items[1..], x);
    }
  }

  lemma {:induction false} NamesLast(names: seq<Ptr>, p: Ptr)
    ensures NamesOrder(names + [p]) == NamesOrder(names) + One(p)
    decreases |names|
  {
    if names == [] {
      assert names + [p] == [p] && [p][1..] == [];
    } else {
      assert (names + [p])[0] == names[0] && (names + [p])[1..] == names[1..] + [p];
      NamesLast(names[1..], p);
    }
  }

  // ----- building -----

  method CopyNames(heap: Heap, names: seq<string>) returns (ptrs: seq<Ptr>)
    requires heap.Valid()
    modifies heap
    ensures heap.Valid() && HoldsNames(heap.blocks, ptrs, names)
    ensures Built(NamesOrder(ptrs), old(heap.next), heap.next, old(heap.blocks), heap.blocks)
  {
    ptrs := [];
    BuiltNone(heap.next, heap.blocks);
    var i := 0;
    while i < |names|
      invariant heap.Valid() && 0 <= i <= |names| && HoldsNames(heap.blocks, ptrs, names[..i])
      invariant Built(NamesOrder(ptrs), old(heap.next), heap.next, old(heap.blocks), heap.blocks)
    {
      ghost var from, before := heap.next, heap.blocks;
      var p := heap.Alloc(names[i]);
      BuiltOne(p, names[i], before);
      BuiltThen(NamesOrder(ptrs), One(p), old(heap.next), from, heap.next, old(heap.blocks), before, heap.blocks);
      NamesLast(ptrs, p);
      assert HoldsNames(heap.blocks, ptrs, names[..i]);
      ptrs := ptrs + [p];
      i := i + 1;
    }
    assert names[..i] == names;
  }

  method CopyMaybe(heap: Heap, text: Maybe<string>) returns (p: Ptr)
    requires heap.Valid()
    modifies heap
    ensures heap.Valid() && CopiesMaybe(heap.blocks, p, text)
    ensures Built(One(p), old(heap.next), heap.next, old(heap.blocks), heap.blocks)
  {
    if text.Some? {
      p := heap.Alloc(text.value);
      BuiltOne(p, text.value, old(heap.blocks));
    } else {
      p := 0;
      BuiltNone(heap.next, heap.blocks);
    }
  }

  method CopyField(heap: Heap, f: Field) returns (item: Item)
    requires heap.Valid()
    modifies heap
    ensures heap.Valid() && HoldsField(heap.blocks, item, f)
    ensures Built(One(item.name) + One(item.value), old(heap.next), heap.next, old(heap.blocks), heap.blocks)
  {
    var name := CopyMaybe(heap, Some(f.name));
    ghost var mid, between := heap.next, heap.blocks;
    var value := CopyMaybe(heap, f.value);
    BuiltThen(One(name), One(value), old(heap.next), mid, heap.next, old(heap.blocks), between, heap.blocks);
    item := Item(name, value, f.dataType);
  }

  /** The loop over parameters, or over the cells of a row. */
  method CopyFields(heap: Heap, fields: seq<Field>) returns (items: seq<Item>)
    requires heap.Valid()
    modifies heap
    ensures heap.Valid() && HoldsFields(heap.blocks, items, fields)
    ensures Built(ItemsOrder(items), old(heap.next), heap.next, old(heap.blocks), heap.blocks)
  {
    hide Built;
    items := [];
    BuiltNone(heap.next, heap.blocks);
    var i := 0;
    while i < |fields|
      invariant heap.Valid() && 0 <= i <= |fields| && HoldsFields(heap.blocks, items, fields[..i])
      invariant Built(ItemsOrder(items), old(heap.next), heap.next, old(heap.blocks), heap.blocks)
    {
      ghost var from, before := heap.next, heap.blocks;
      var item := CopyField(heap, fields[i]);
      BuiltExtends(One(item.name) + One(item.value), from, heap.next, before, heap.blocks);
      FieldsKept(before, heap.blocks, items, fields[..i]);
      BuiltThen(ItemsOrder(items), One(item.name) + One(item.value), old(heap.next), from, heap.next,
                old(heap.blocks), before, heap.blocks);
      ItemsLast(items, item);
      items := items + [item];
      i := i + 1;
    }
    assert fields[..i] == fields;
  }

  lemma {:induction false} BuiltExtends(order: seq<Ptr>, from: nat, to: nat, before: Blocks, after: Blocks)
    requires Built(order, from, to, before, after)
    ensures Extends(before, after)
  {
  }

  method CopyRow(heap: Heap, cells: seq<Cell>) returns (row: Row)
    requires heap.Valid()
    modifies heap
    ensures heap.Valid() && HoldsFields(heap.blocks, row.cells, Map(CellField, cells))
    ensures Built(One(row.names) + One(row.values) + ItemsOrder(row.cells),
                  old(heap.next), heap.next, old(heap.blocks), heap.blocks)
  {
    hide Built;
    var names := CopyMaybe(heap, Some(""));
    ghost var n1, b1 := heap.next, heap.blocks;
    var values := CopyMaybe(heap, Some(""));
    ghost var n2, b2 := heap.next, heap.blocks;
    BuiltThen(One(names), One(values), old(heap.next), n1, n2, old(heap.blocks), b1, b2);
    var items := CopyFields(heap, Map(CellField, cells));
    BuiltThen(One(names) + One(values), ItemsOrder(items),
              old(heap.next), n2, heap.next, old(heap.blocks), b2, heap.blocks);
    row := Row(names, values, items);
  }

  function RowOrder(row: Row): seq<Ptr> { One(row.names) + One(row.values) + ItemsOrder(row.cells) }

  lemma {:induction false} RowsLast(rows: seq<Row>, x: Row)
    ensures RowsAlloc(rows + [x]) == RowsAlloc(rows) + RowOrder(x)
    decreases |rows|
  {
    hide ItemsOrder;
    if rows == [] {
      assert rows + [x] == [x] && [x][1..] == [];
    } else {
      assert (rows + [x])[0] == rows[0] && (rows + [x])[1..] == rows[1..] + [x];
      RowsLast(rows[1..], x);
      assert RowOrder(rows[0]) + (RowsAlloc(rows[1..]) + RowOrder(x)) ==
        RowOrder(rows[0]) + RowsAlloc(rows[1..]) + RowOrder(x);
    }
  }

  lemma {:induction false} RowsKept(before: Blocks, after: Blocks, table: seq<Row>, rows: seq<seq<Cell>>)
    requires HoldsRows(before, table, rows) && Extends(before, after)
    ensures HoldsRows(after, table, rows)
  {
    forall i | 0 <= i < |table|
      ensures HoldsFields(after, table[i].cells, Map(CellField, rows[i]))
    {
      FieldsKept(before, after, table[i].cells, Map(CellField, rows[i]));
    }
  }

  lemma {:induction false} NoRows(blocks: Blocks)
    ensures HoldsRows(blocks, [], [])
  {
  }

  lemma {:induction false} RowsHeldLast(blocks: Blocks, table: seq<Row>, row: Row, rows: seq<seq<Cell>>, i: nat)
    requires i < |rows| && HoldsRows(blocks, table, rows[..i])
    requires HoldsFields(blocks, row.cells, Map(CellField, rows[i]))
    ensures HoldsRows(blocks, table + [row], rows[..i + 1])
  {
    hide HoldsFields;
    hide Map;
  }

  method CopyRows(heap: Heap, rows: seq<seq<Cell>>) returns (table: seq<Row>)
    requires heap.Valid()
    modifies heap
    ensures heap.Valid() && HoldsRows(heap.blocks, table, rows)
    ensures Built(RowsAlloc(table), old(heap.next), heap.next, old(heap.blocks), heap.blocks)
  {
    hide Built;
    hide HoldsRows;
    hide HoldsFields;
    NoRows(heap.blocks);
    table := [];
    BuiltNone(heap.next, heap.blocks);
    var i := 0;
    assert rows[..0] == [];
    while i < |rows|
      invariant heap.Valid() && 0 <= i <= |rows| && HoldsRows(heap.blocks, table, rows[..i])
      invariant Built(RowsAlloc(table), old(heap.next), heap.next, old(heap.blocks), heap.blocks)
    {
      ghost var from, before := heap.next, heap.blocks;
      var row := CopyRow(heap, rows[i]);
      BuiltExtends(RowOrder(row), from, heap.next, before, heap.blocks);
      RowsKept(before, heap.blocks, table, rows[..i]);
      BuiltThen(RowsAlloc(table), RowOrder(row), old(heap.next), from, heap.next, old(heap.blocks), before,
                heap.blocks);
      RowsLast(table, row);
      RowsHeldLast(heap.blocks, table, row, rows, i);
      table := table + [row];
      i := i + 1;
    }
    assert rows[..i] == rows;
  }

  // ----- releasing -----

  /** Releases one block of a sequence still to be released. */
  method Release(heap: Heap, p: Ptr, ghost rest: seq<Ptr>)
    requires heap.Valid() && Owned(heap.blocks, One(p) + rest)
    modifies heap
    ensures heap.Valid() && Owned(heap.blocks, rest)
    ensures Without(heap.blocks, rest) == Without(old(heap.blocks), One(p) + rest)
  {
    if p == 0 {
      assert One(p) + rest == rest;
    } else {
      ReleaseFirst(heap.blocks, p, rest);
    }
    heap.Free(p);
    assert p == 0 ==> heap.blocks == old(heap.blocks);
  }

  method ReleaseItems(heap: Heap, items: seq<Item>, ghost rest: seq<Ptr>)
    requires heap.Valid() && Owned(heap.blocks, ItemsOrder(items) + rest)
    modifies heap
    ensures heap.Valid() && Owned(heap.blocks, rest)
    ensures Without(heap.blocks, rest) == Without(old(heap.blocks), ItemsOrder(items) + rest)
  {
    hide Owned;
    hide Without;
    hide One;
    var i := 0;
    assert items[0..] == items;
    while i < |items|
      invariant heap.Valid() && 0 <= i <= |items| && Owned(heap.blocks, ItemsOrder(items[i..]) + rest)
      invariant Without(heap.blocks, ItemsOrder(items[i..]) + rest) ==
                Without(old(heap.blocks), ItemsOrder(items) + rest)
    {
      ghost var tail := ItemsOrder(items[i + 1..]) + rest;
      ItemsFirst(items[i..], rest);
      assert items[i..][1..] == items[i + 1..];
      Release(heap, items[i].name, One(items[i].value) + tail);
      Release(heap, items[i].value, tail);
      i := i + 1;
    }
    assert items[i..] == [] && ItemsOrder([]) + rest == rest;
  }

  lemma {:induction false} ItemsFirst(items: seq<Item>, rest: seq<Ptr>)
    requires items != []
    ensures ItemsOrder(items) + rest == One(items[0].name) + (One(items[0].value) + (ItemsOrder(items[1..]) + rest))
  {
  }

  method ReleaseNames(heap: Heap, names: seq<Ptr>, ghost rest: seq<Ptr>)
    requires heap.Valid() && Owned(heap.blocks, NamesOrder(names) + rest)
    modifies heap
    ensures heap.Valid() && Owned(heap.blocks, rest)
    ensures Without(heap.blocks, rest) == Without(old(heap.blocks), NamesOrder(names) + rest)
  {
    hide Owned;
    hide Without;
    hide One;
    var i := 0;
    assert names[0..] == names;
    while i < |names|
      invariant heap.Valid() && 0 <= i <= |names| && Owned(heap.blocks, NamesOrder(names[i..]) + rest)
      invariant Without(heap.blocks, NamesOrder(names[i..]) + rest) ==
                Without(old(heap.blocks), NamesOrder(names) + rest)
    {
      ghost var tail := NamesOrder(names[i + 1..]) + rest;
      assert names[i..][1..] == names[i + 1..];
      assert NamesOrder(names[i..]) + rest == One(names[i]) + tail;
      Release(heap, names[i], tail);
      i := i + 1;
    }
    assert names[i..] == [] && NamesOrder([]) + rest == rest;
  }

  lemma {:induction false} RowsFirst(rows: seq<Row>, rest: seq<Ptr>)
    requires rows != []
    ensures RowsFree(rows) + rest ==
            ItemsOrder(rows[0].cells) + (One(rows[0].names) + (One(rows[0].values) + (RowsFree(rows[1..]) + rest)))
  {
    hide ItemsOrder;
    hide One;
  }

  method ReleaseRows(heap: Heap, rows: seq<Row>, ghost rest: seq<Ptr>)
    requires heap.Valid() && Owned(heap.blocks, RowsFree(rows) + rest)
    modifies heap
    ensures heap.Valid() && Owned(heap.blocks, rest)
    ensures Without(heap.blocks, rest) == Without(old(heap.blocks), RowsFree(rows) + rest)
  {
    hide Owned;
    hide Without;
    hide One;
    var i := 0;
    assert rows[0..] == rows;
    while i < |rows|
      invariant heap.Valid() && 0 <= i <= |rows| && Owned(heap.blocks, RowsFree(rows[i..]) + rest)
      invariant Without(heap.blocks, RowsFree(rows[i..]) + rest) == Without(old(heap.blocks), RowsFree(rows) + rest)
    {
      var row := rows[i];
      ghost var tail := RowsFree(rows[i + 1..]) + rest;
      RowsFirst(rows[i..], rest);
      assert rows[i..][0] == row && rows[i..][1..] == rows[i + 1..];
      ReleaseItems(heap, row.cells, One(row.names) + (One(row.values) + tail));
      Release(heap, row.names, One(row.values) + tail);
      Release(heap, row.values, tail);
      i := i + 1;
    }
    assert rows[i..] == [] && RowsFree([]) + rest == rest;
  }

  /** The array of parameters, if there is one, and its contents. */
  method ReleaseParams(heap: Heap, params: Ptr, items: seq<Item>, ghost rest: seq<Ptr>)
    requires heap.Valid() && Owned(heap.blocks, ItemsOrder(items) + (One(params) + rest))
    requires params == 0 ==> items == []
    modifies heap
    ensures heap.Valid() && Owned(heap.blocks, rest)
    ensures Without(heap.blocks, rest) == Without(old(heap.blocks), ItemsOrder(items) + (One(params) + rest))
  {
    hide Owned;
    hide Without;
    if params != 0 {
      ReleaseItems(heap, items, One(params) + rest);
      Release(heap, params, rest);
    } else {
      assert ItemsOrder(items) + (One(params) + rest) == rest;
    }
  }

  method ReleaseSet(heap: Heap, b: Body, ghost rest: seq<Ptr>)
    requires b.SetBody? && (b.params == 0 ==> b.items == [])
    requires heap.Valid() && Owned(heap.blocks, BodyFree(b) + rest)
    modifies heap
    ensures heap.Valid() && Owned(heap.blocks, rest)
    ensures Without(heap.blocks, rest) == Without(old(heap.blocks), BodyFree(b) + rest)
  {
    hide Owned;
    hide Without;
    hide One;
    hide ItemsOrder;
    assert BodyFree(b) + rest == ItemsOrder(b.items) + (One(b.params) + (One(b.block) + rest));
    ReleaseParams(heap, b.params, b.items, One(b.block) + rest);
    Release(heap, b.block, rest);
  }

  method ReleaseTest(heap: Heap, b: Body, ghost rest: seq<Ptr>)
    requires b.TestBody? && (b.params == 0 ==> b.items == [])
    requires heap.Valid() && Owned(heap.blocks, BodyFree(b) + rest)
    modifies heap
    ensures heap.Valid() && Owned(heap.blocks, rest)
    ensures Without(heap.blocks, rest) == Without(old(heap.blocks), BodyFree(b) + rest)
  {
    hide Owned;
    hide Without;
    hide One;
    hide ItemsOrder;
    ghost var tail := ItemsOrder(b.items) + (One(b.params) + (One(b.block) + rest));
    assert BodyFree(b) + rest == One(b.newCid) + (One(b.oldCid) + (One(b.syncCmc) + tail));
    Release(heap, b.newCid, One(b.oldCid) + (One(b.syncCmc) + tail));
    Release(heap, b.oldCid, One(b.syncCmc) + tail);
    Release(heap, b.syncCmc, tail);
    ReleaseParams(heap, b.params, b.items, One(b.block) + rest);
    Release(heap, b.block, rest);
  }

  method ReleaseTable(heap: Heap, b: Body, ghost rest: seq<Ptr>)
    requires b.TableBody? && (b.rows == 0 ==> b.table == [])
    requires heap.Valid() && Owned(heap.blocks, BodyFree(b) + rest)
    modifies heap
    ensures heap.Valid() && Owned(heap.blocks, rest)
    ensures Without(heap.blocks, rest) == Without(old(heap.blocks), BodyFree(b) + rest)
  {
    hide Owned;
    hide Without;
    ghost var tail := One(b.block) + rest;
    assert BodyFree(b) + rest == One(b.objectName) + (RowsFree(b.table) + (One(b.rows) + tail));
    Release(heap, b.objectName, RowsFree(b.table) + (One(b.rows) + tail));
    if b.rows != 0 {
      ReleaseRows(heap, b.table, One(b.rows) + tail);
      Release(heap, b.rows, tail);
    } else {
      assert RowsFree(b.table) + (One(b.rows) + tail) == tail;
    }
    Release(heap, b.block, rest);
  }

  method ReleaseGet(heap: Heap, b: Body, ghost rest: seq<Ptr>)
    requires b.GetBody? && heap.Valid() && Owned(heap.blocks, BodyFree(b) + rest)
    modifies heap
    ensures heap.Valid() && Owned(heap.blocks, rest)
    ensures Without(heap.blocks, rest) == Without(old(heap.blocks), BodyFree(b) + rest)
  {
    hide Owned;
    hide Without;
    hide One;
    hide NamesOrder;
    assert BodyFree(b) + rest == NamesOrder(b.names) + (One(b.block) + rest);
    ReleaseNames(heap, b.names, One(b.block) + rest);
    Release(heap, b.block, rest);
  }

  /**
  `wdmp_free_req_struct`: the request type decides what the union is read as. No block is
  released twice or without being allocated, and none is forgotten.
  */
  method FreeRequest(heap: Heap, r: Request)
    requires r.Request? && Fits(r.kind, r.body) && heap.Valid() && Owned(heap.blocks, FreeOrder(r))
    modifies heap
    ensures heap.Valid() && heap.blocks == Without(old(heap.blocks), FreeOrder(r))
  {
    hide Owned;
    hide BodyFree;
    ghost var rest := One(r.block);
    assert rest + [] == rest;
    if r.body.NoBody? {
      NoBodyFree(rest);
    } else {
      match r.kind
      case KGet | KGetAttributes =>
        ReleaseGet(heap, r.body, rest);
      case KSet | KSetAttributes =>
        ReleaseSet(heap, r.body, rest);
      case KTestAndSet =>
        ReleaseTest(heap, r.body, rest);
      case KReplaceRows | KAddRows | KDeleteRow =>
        ReleaseTable(heap, r.body, rest);
    }
    Release(heap, r.block, []);
    assert heap.blocks == Without(heap.blocks, []);
  }

  lemma NoBodyFree(rest: seq<Ptr>)
    ensures BodyFree(NoBody) + rest == rest
  {
  }
}
