/**
WDMP requests: what a payload says, the structure built for it, and the order in which its blocks
are allocated and released.
*/
module WdmpRequests {
  import opened WdmpHeap
  import opened Decimal

  const MAX_GET_NAMES: nat := 512

  // ----- payloads, already parsed from JSON -----

  datatype Json = Missing | NotString | Text(s: string)
  datatype Maybe<T> = None | Some(value: T)

  datatype SetParam = SetParam(name: string, value: Json, dataType: Maybe<int>)
  datatype AttrParam = AttrParam(name: string, notify: Maybe<int>)
  datatype TestParam = TestParam(name: string, value: Maybe<string>, dataType: Maybe<int>)
  datatype Cell = Cell(name: string, value: string)

  datatype Payload =
    | NoCommand
    | Unknown
    | Get(names: seq<string>, attributes: Maybe<string>)
    | Set(params: seq<SetParam>)
    | SetAttributes(attrs: seq<AttrParam>)
    | TestAndSet(oldCid: Json, newCid: Json, syncCmc: Json, tests: Maybe<seq<TestParam>>)
    | ReplaceRows(table: string, rows: seq<seq<Cell>>)
    | AddRow(table: string, row: seq<Cell>)
    | DeleteRow(name: string)

  // ----- structures -----

  datatype Kind = KGet | KGetAttributes | KSet | KSetAttributes | KTestAndSet | KReplaceRows | KAddRows | KDeleteRow

  datatype Item = Item(name: Ptr, value: Ptr, dataType: int)
  datatype Row = Row(names: Ptr, values: Ptr, cells: seq<Item>)

  datatype Body =
    | NoBody
    | GetBody(block: Ptr, names: seq<Ptr>)
    | SetBody(block: Ptr, params: Ptr, items: seq<Item>)
    | TestBody(block: Ptr, newCid: Ptr, oldCid: Ptr, syncCmc: Ptr, params: Ptr, items: seq<Item>)
    | TableBody(block: Ptr, objectName: Ptr, rows: Ptr, table: seq<Row>)

  datatype Request = Null | Request(block: Ptr, kind: Kind, body: Body)

  /**
  The union holds the member that the request type selects, or NULL, and a missing array has
  no elements. `wdmp_free_req_struct` relies on this when it reads the union.
  */
  predicate Fits(kind: Kind, b: Body)
  {
    match b
    case NoBody => true
    case GetBody(_, _) => kind == KGet || kind == KGetAttributes
    case SetBody(_, params, items) => (kind == KSet || kind == KSetAttributes) && (params == 0 ==> items == [])
    case TestBody(_, _, _, _, params, items) => kind == KTestAndSet && (params == 0 ==> items == [])
    case TableBody(_, _, rows, table) =>
      (kind == KReplaceRows || kind == KAddRows || kind == KDeleteRow) && (rows == 0 ==> table == [])
  }

  // ----- the strings of a parameter -----

  /** A parameter as stored: a NULL value where the payload has none to copy. */
  datatype Field = Field(name: string, value: Maybe<string>, dataType: int)

  const WDMP_STRING := 0
  const WDMP_INT := 1

  function TypeOf(t: Maybe<int>): int { if t.Some? then t.value else WDMP_STRING }

  /** Only a non-empty string value is copied for SET. */
  function SetField(p: SetParam): Field
  {
    Field(p.name, if p.value.Text? && p.value.s != "" then Some(p.value.s) else None, TypeOf(p.dataType))
  }

  function AttrField(p: AttrParam): Field
  {
    Field(p.name, if p.notify.Some? then Some(ShowInt(p.notify.value)) else None, WDMP_INT)
  }

  function TestField(p: TestParam): Field { Field(p.name, p.value, TypeOf(p.dataType)) }

  function CellField(c: Cell): Field { Field(c.name, Some(c.value), WDMP_STRING) }

  function Map<A, B>(f: A -> B, s: seq<A>): (r: seq<B>)
    ensures |r| == |s| && forall i :: 0 <= i < |s| ==> r[i] == f(s[i])
  {
    seq(|s|, i requires 0 <= i < |s| => f(s[i]))
  }

  // ----- order of allocation and of release -----

  function One(p: Ptr): seq<Ptr> { if p == 0 then [] else [p] }

  function ItemsOrder(items: seq<Item>): seq<Ptr>
  {
    if items == [] then [] else One(items[0].name) + One(items[0].value) + ItemsOrder(items[1..])
  }

  function NamesOrder(names: seq<Ptr>): seq<Ptr>
  {
    if names == [] then [] else One(names[0]) + NamesOrder(names[1..])
  }

  function RowsAlloc(rows: seq<Row>): seq<Ptr>
  {
    if rows == [] then []
    else One(rows[0].names) + One(rows[0].values) + ItemsOrder(rows[0].cells) + RowsAlloc(rows[1..])
  }

  function RowsFree(rows: seq<Row>): seq<Ptr>
  {
    if rows == [] then []
    else ItemsOrder(rows[0].cells) + One(rows[0].names) + One(rows[0].values) + RowsFree(rows[1..])
  }

  function BodyAlloc(b: Body): seq<Ptr>
  {
    match b
    case NoBody => []
    case GetBody(block, names) => One(block) + NamesOrder(names)
    case SetBody(block, params, items) => One(block) + One(params) + ItemsOrder(items)
    case TestBody(block, n, o, c, params, items) =>
      One(block) + One(o) + One(n) + One(c) + One(params) + ItemsOrder(items)
    case TableBody(block, name, rows, table) => One(block) + One(name) + One(rows) + RowsAlloc(table)
  }

  function BodyFree(b: Body): seq<Ptr>
  {
    match b
    case NoBody => []
    case GetBody(block, names) => NamesOrder(names) + One(block)
    case SetBody(block, params, items) => ItemsOrder(items) + One(params) + One(block)
    case TestBody(block, n, o, c, params, items) =>
      One(n) + One(o) + One(c) + ItemsOrder(items) + One(params) + One(block)
    case TableBody(block, name, rows, table) => One(name) + RowsFree(table) + One(rows) + One(block)
  }

  /** Blocks in the order the parser allocates them. */
  function AllocOrder(r: Request): seq<Ptr>
  {
    match r case Null => [] case Request(block, _, body) => One(block) + BodyAlloc(body)
  }

  /** Blocks in the order `wdmp_free_req_struct` releases them. */
  function FreeOrder(r: Request): seq<Ptr>
  {
    match r case Null => [] case Request(block, _, body) => BodyFree(body) + One(block)
  }

  lemma {:induction false} RowsPermuted(rows: seq<Row>)
    ensures multiset(RowsFree(rows)) == multiset(RowsAlloc(rows))
    decreases |rows|
  {
    if rows != [] {
      RowsPermuted(rows[1..]);
    }
  }

  /** Whatever the structure, the blocks released are the blocks allocated, each as often. */
  lemma {:induction false} FreePermutesAlloc(r: Request)
    ensures multiset(FreeOrder(r)) == multiset(AllocOrder(r))
  {
    if r.Request? && r.body.TableBody? {
      RowsPermuted(r.body.table);
    }
  }

  lemma {:induction false} PermutedNoRepeats(a: seq<Ptr>, b: seq<Ptr>)
    requires NoRepeats(a) && multiset(a) == multiset(b)
    ensures NoRepeats(b)
  {
    forall i, j | 0 <= i < j < |b|
      ensures b[i] != b[j]
    {
      if b[i] == b[j] {
        assert b == b[..i] + [b[i]] + b[i + 1..j] + [b[j]] + b[j + 1..];
        assert multiset(b)[b[i]] >= 2;
        CountOfDistinct(a, b[i]);
      }
    }
  }

  lemma {:induction false} CountOfDistinct(a: seq<Ptr>, p: Ptr)
    requires NoRepeats(a)
    ensures multiset(a)[p] <= 1
    decreases |a|
  {
    if a != [] {
      var n := |a| - 1;
      CountOfDistinct(a[..n], p);
      assert a == a[..n] + [a[n]];
      if a[n] == p {
        assert p !in a[..n];
      }
    }
  }

  /** Blocks got one after another can be released in the other order. */
  lemma {:induction false} AllocatedIsOwned(r: Request, from: nat, to: nat, blocks: Blocks)
    requires from <= to && AllocOrder(r) == Range(from, to) && forall p: nat :: from <= p < to ==> p in blocks
    ensures Owned(blocks, FreeOrder(r))
    ensures Without(blocks, FreeOrder(r)) == map p | p in blocks && !(from <= p < to) :: blocks[p]
  {
    hide AllocOrder;
    hide FreeOrder;
    var a, f := AllocOrder(r), FreeOrder(r);
    FreePermutesAlloc(r);
    PermutedNoRepeats(a, f);
    forall p: nat
      ensures p in f <==> from <= p < to
    {
      assert p in f <==> p in multiset(f);
      assert p in a <==> p in multiset(a);
      if from <= p < to {
        assert a[p - from] == p;
      }
    }
    assert forall i :: 0 <= i < |f| ==> f[i] in f;
  }

  // ----- the structure holds the payload -----

  ghost predicate Copies(blocks: Blocks, p: Ptr, text: string) { p != 0 && p in blocks && blocks[p] == text }

  ghost predicate CopiesMaybe(blocks: Blocks, p: Ptr, text: Maybe<string>)
  {
    match text case None => p == 0 case Some(t) => Copies(blocks, p, t)
  }

  ghost predicate HoldsField(blocks: Blocks, item: Item, f: Field)
  {
    Copies(blocks, item.name, f.name) && CopiesMaybe(blocks, item.value, f.value) && item.dataType == f.dataType
  }

  ghost predicate HoldsFields(blocks: Blocks, items: seq<Item>, fields: seq<Field>)
  {
    |items| == |fields| && forall i :: 0 <= i < |items| ==> HoldsField(blocks, items[i], fields[i])
  }

  ghost predicate HoldsNames(blocks: Blocks, ptrs: seq<Ptr>, names: seq<string>)
  {
    |ptrs| == |names| && forall i :: 0 <= i < |ptrs| ==> Copies(blocks, ptrs[i], names[i])
  }

  ghost predicate HoldsRows(blocks: Blocks, table: seq<Row>, rows: seq<seq<Cell>>)
  {
    |table| == |rows| && forall i :: 0 <= i < |table| ==> HoldsFields(blocks, table[i].cells, Map(CellField, rows[i]))
  }

  function CidText(c: Json, otherwise: string): Maybe<string>
  {
    match c case Missing => None case NotString => Some(otherwise) case Text(s) => Some(s)
  }

  predicate StartsWith(s: string, p: string) { |p| <= |s| && s[..|p|] == p }

  /** The kind of the request, and every string copied to its place. */
  ghost predicate Holds(blocks: Blocks, r: Request, p: Payload)
  {
    match p
    case NoCommand => r == Null
    case Unknown => r == Null
    case Get(names, attributes) =>
      if attributes == Some("") then r == Null
      else
        && r.Request? && r.body.GetBody? && HoldsNames(blocks, r.body.names, names)
        && r.kind == if attributes.Some? && StartsWith(attributes.value, "notify") then KGetAttributes else KGet
    case Set(params) =>
      r.Request? && r.kind == KSet && r.body.SetBody? && HoldsFields(blocks, r.body.items, Map(SetField, params))
    case SetAttributes(attrs) =>
      && r.Request? && r.kind == KSetAttributes && r.body.SetBody?
      && HoldsFields(blocks, r.body.items, Map(AttrField, attrs))
    case TestAndSet(oldCid, newCid, syncCmc, tests) =>
      && r.Request? && r.kind == KTestAndSet && r.body.TestBody?
      && CopiesMaybe(blocks, r.body.oldCid, CidText(oldCid, "-error-old-cid-"))
      && CopiesMaybe(blocks, r.body.newCid, CidText(newCid, "-error-new-cid-"))
      && CopiesMaybe(blocks, r.body.syncCmc, CidText(syncCmc, "0"))
      && (tests.None? ==> r.body.params == 0 && r.body.items == [])
      && (tests.Some? ==> HoldsFields(blocks, r.body.items, Map(TestField, tests.value)))
    case ReplaceRows(table, rows) =>
      && r.Request? && r.kind == KReplaceRows && r.body.TableBody?
      && Copies(blocks, r.body.objectName, table) && HoldsRows(blocks, r.body.table, rows)
    case AddRow(table, row) =>
      && r.Request? && r.kind == KAddRows && r.body.TableBody?
      && Copies(blocks, r.body.objectName, table) && HoldsRows(blocks, r.body.table, [row])
    case DeleteRow(name) =>
      && r.Request? && r.kind == KDeleteRow && r.body.TableBody?
      && Copies(blocks, r.body.objectName, name) && r.body.rows == 0 && r.body.table == []
  }

  /** The fixed array of a GET request holds at most 512 names. */
  predicate WellTyped(p: Payload) { p.Get? ==> |p.names| <= MAX_GET_NAMES }

  // ----- the same, in terms of the payload alone -----

  /** A SET parameter: a NULL value unless the payload has a string that is not empty, and type 0 without one. */
  ghost predicate SetStored(blocks: Blocks, item: Item, p: SetParam)
  {
    && Copies(blocks, item.name, p.name)
    && (match p.value
        case Text(s) => if s == "" then item.value == 0 else Copies(blocks, item.value, s)
        case NotString => item.value == 0
        case Missing => item.value == 0)
    && (match p.dataType case Some(t) => item.dataType == t case None => item.dataType == 0)
  }

  /** A SET_ATTRIBUTES parameter: the decimal text of `notify`, or NULL, and always type 1. */
  ghost predicate AttrStored(blocks: Blocks, item: Item, p: AttrParam)
  {
    && Copies(blocks, item.name, p.name) && item.dataType == 1
    && (match p.notify
        case Some(n) => item.value in blocks && item.value != 0 && IsDecimal(blocks[item.value], n)
        case None => item.value == 0)
  }

  /** Digits without leading zeros, after a minus sign for a negative number. */
  ghost predicate IsDecimal(s: string, n: int)
  {
    if n < 0 then s != "" && s[0] == '-' && IsDigits(s[1..], -n) else IsDigits(s, n)
  }

  ghost predicate IsDigits(s: string, n: nat)
  {
    s != "" && (forall i :: 0 <= i < |s| ==> IsDigit(s[i])) && Value(s) == n && (|s| > 1 ==> s[0] != '0')
  }

  /** A TEST_AND_SET parameter: any value given, an empty one too, or NULL. */
  ghost predicate TestStored(blocks: Blocks, item: Item, p: TestParam)
  {
    && Copies(blocks, item.name, p.name)
    && (match p.value case Some(s) => Copies(blocks, item.value, s) case None => item.value == 0)
    && (match p.dataType case Some(t) => item.dataType == t case None => item.dataType == 0)
  }

  ghost predicate CellStored(blocks: Blocks, item: Item, c: Cell)
  {
    Copies(blocks, item.name, c.name) && Copies(blocks, item.value, c.value) && item.dataType == 0
  }

  /** An identifier: its text, a stand-in for what is no string, NULL if it is missing. */
  ghost predicate CidStored(blocks: Blocks, p: Ptr, c: Json, otherwise: string)
  {
    match c case Missing => p == 0 case NotString => Copies(blocks, p, otherwise) case Text(s) => Copies(blocks, p, s)
  }

  ghost predicate RowStored(blocks: Blocks, row: Row, cells: seq<Cell>)
  {
    |row.cells| == |cells| && forall i :: 0 <= i < |cells| ==> CellStored(blocks, row.cells[i], cells[i])
  }

  /** What the structure of a payload holds, and its request type. */
  ghost predicate Stored(blocks: Blocks, r: Request, p: Payload)
  {
    match p
    case NoCommand => r == Null
    case Unknown => r == Null
    case Get(names, attributes) =>
      if attributes == Some("") then r == Null
      else
        && r.Request? && r.body.GetBody? && |r.body.names| == |names|
        && (forall i :: 0 <= i < |names| ==> Copies(blocks, r.body.names[i], names[i]))
        && (r.kind == KGetAttributes <==> attributes.Some? && "notify" <= attributes.value)
        && (r.kind == KGetAttributes || r.kind == KGet)
    case Set(params) =>
      && r.Request? && r.kind == KSet && r.body.SetBody? && |r.body.items| == |params|
      && forall i :: 0 <= i < |params| ==> SetStored(blocks, r.body.items[i], params[i])
    case SetAttributes(attrs) =>
      && r.Request? && r.kind == KSetAttributes && r.body.SetBody? && |r.body.items| == |attrs|
      && forall i :: 0 <= i < |attrs| ==> AttrStored(blocks, r.body.items[i], attrs[i])
    case TestAndSet(oldCid, newCid, syncCmc, tests) =>
      && r.Request? && r.kind == KTestAndSet && r.body.TestBody?
      && CidStored(blocks, r.body.oldCid, oldCid, "-error-old-cid-")
      && CidStored(blocks, r.body.newCid, newCid, "-error-new-cid-")
      && CidStored(blocks, r.body.syncCmc, syncCmc, "0")
      && (tests.None? ==> r.body.params == 0 && r.body.items == [])
      && (tests.Some? ==>
            && |r.body.items| == |tests.value|
            && forall i :: 0 <= i < |tests.value| ==> TestStored(blocks, r.body.items[i], tests.value[i]))
    case ReplaceRows(table, rows) =>
      && r.Request? && r.kind == KReplaceRows && r.body.TableBody? && Copies(blocks, r.body.objectName, table)
      && |r.body.table| == |rows| && forall i :: 0 <= i < |rows| ==> RowStored(blocks, r.body.table[i], rows[i])
    case AddRow(table, row) =>
      && r.Request? && r.kind == KAddRows && r.body.TableBody? && Copies(blocks, r.body.objectName, table)
      && |r.body.table| == 1 && RowStored(blocks, r.body.table[0], row)
    case DeleteRow(name) =>
      && r.Request? && r.kind == KDeleteRow && r.body.TableBody? && Copies(blocks, r.body.objectName, name)
      && r.body.rows == 0 && r.body.table == []
  }

  lemma {:induction false} ShowIsDigits(n: nat)
    ensures IsDigits(Show(n), n)
    decreases n
  {
    if n >= 10 {
      ShowIsDigits(n / 10);
      assert Show(n)[0] == Show(n / 10)[0];
      if |Show(n / 10)| == 1 {
        assert Show(n / 10)[..0] == "" && Value(Show(n / 10)) == DigitValue(Show(n / 10)[0]);
      }
    }
  }

  lemma {:induction false} ShowIntIsDecimal(n: int)
    ensures IsDecimal(ShowInt(n), n)
  {
    if n < 0 {
      ShowIsDigits(-n);
      assert ("-" + Show(-n))[1..] == Show(-n);
    } else {
      ShowIsDigits(n);
    }
  }

  lemma {:induction false} RowHeld(blocks: Blocks, row: Row, cells: seq<Cell>)
    requires HoldsFields(blocks, row.cells, Map(CellField, cells))
    ensures RowStored(blocks, row, cells)
  {
    forall i | 0 <= i < |cells|
      ensures CellStored(blocks, row.cells[i], cells[i])
    {
      assert HoldsField(blocks, row.cells[i], Map(CellField, cells)[i]);
    }
  }

  lemma {:induction false} SetHeld(blocks: Blocks, items: seq<Item>, params: seq<SetParam>)
    requires HoldsFields(blocks, items, Map(SetField, params))
    ensures |items| == |params| && forall i :: 0 <= i < |params| ==> SetStored(blocks, items[i], params[i])
  {
    forall i | 0 <= i < |params|
      ensures SetStored(blocks, items[i], params[i])
    {
      assert HoldsField(blocks, items[i], Map(SetField, params)[i]);
    }
  }

  lemma {:induction false} AttrHeld(blocks: Blocks, items: seq<Item>, attrs: seq<AttrParam>)
    requires HoldsFields(blocks, items, Map(AttrField, attrs))
    ensures |items| == |attrs| && forall i :: 0 <= i < |attrs| ==> AttrStored(blocks, items[i], attrs[i])
  {
    hide ShowInt;
    hide IsDecimal;
    forall i | 0 <= i < |attrs|
      ensures AttrStored(blocks, items[i], attrs[i])
    {
      assert HoldsField(blocks, items[i], Map(AttrField, attrs)[i]);
      if attrs[i].notify.Some? {
        ShowIntIsDecimal(attrs[i].notify.value);
      }
    }
  }

  lemma {:induction false} TestHeld(blocks: Blocks, items: seq<Item>, tests: seq<TestParam>)
    requires HoldsFields(blocks, items, Map(TestField, tests))
    ensures |items| == |tests| && forall i :: 0 <= i < |tests| ==> TestStored(blocks, items[i], tests[i])
  {
    forall i | 0 <= i < |tests|
      ensures TestStored(blocks, items[i], tests[i])
    {
      assert HoldsField(blocks, items[i], Map(TestField, tests)[i]);
    }
  }

  /** A structure that holds its payload has every text of it in its place. */
  lemma {:induction false} HeldIsStored(blocks: Blocks, r: Request, p: Payload)
    requires Holds(blocks, r, p)
    ensures Stored(blocks, r, p)
  {
    hide HoldsFields;
    hide SetStored;
    hide AttrStored;
    hide TestStored;
    hide RowStored;
    match p
    case NoCommand =>
    case Unknown =>
    case DeleteRow(_) =>
    case Get(names, attributes) =>
      assert attributes.Some? ==> (StartsWith(attributes.value, "notify") <==> "notify" <= attributes.value);
    case Set(params) => SetHeld(blocks, r.body.items, params);
    case SetAttributes(attrs) => AttrHeld(blocks, r.body.items, attrs);
    case TestAndSet(_, _, _, tests) =>
      if tests.Some? {
        TestHeld(blocks, r.body.items, tests.value);
      }
    case ReplaceRows(_, rows) =>
      forall i | 0 <= i < |rows|
        ensures RowStored(blocks, r.body.table[i], rows[i])
      {
        RowHeld(blocks, r.body.table[i], rows[i]);
      }
    case AddRow(_, row) =>
      assert [row][0] == row;
      RowHeld(blocks, r.body.table[0], row);
  }
}
