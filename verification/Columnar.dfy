/** Turning rows of wire values into columns: the flattening builders (`BuildArray`, `BuildList`,
    `BuildStruct`, `BuildBatch`) against decoding each value on its own. */
module Columnar {
  import opened Wrappers

  /** A wire value; `Keyed` stands for the map encoding, which no column type accepts. */
  datatype Value = Null | Bool(b: bool) | Number(x: real) | Text(s: string) | Items(items: seq<Value>) | Keyed

  datatype ScalarKind = Boolean | Int64 | Float64 | Float32 | Date | TimestampNanos | TimestampMicros | Numeric | Bytes | Utf8

  datatype ColumnType = Scalar(kind: ScalarKind) | List(element: ColumnType) | Struct(fields: seq<ColumnType>)

  /** How one present scalar decodes; `None` is a decode error. */
  type Decoder<!L> = (ScalarKind, Value) -> Option<L>

  /** `present`: neither absent nor SQL NULL. */
  predicate Present(v: Option<Value>) {
    v.Some? && v.value != Null
  }

  function Get(items: seq<Value>, k: nat): Option<Value> {
    if k < |items| then Some(items[k]) else None
  }

  // ---- Decoding one value ------------------------------------------------------------------------------

  datatype Cell<L> = NullCell | Leaf(value: L) | Elements(cells: seq<Cell<L>>) | Fields(cells: seq<Cell<L>>)

  /** A value decodes: it is null, or it and everything present inside it has its type's encoding. A
      struct is positional; missing trailing fields are null and surplus ones are ignored. */
  predicate Decodes<L>(f: Decoder<L>, ty: ColumnType, v: Option<Value>) {
    Present(v) ==>
      match ty
      case Scalar(kind) => f(kind, v.value).Some?
      case List(element) =>
        v.value.Items? && forall i :: 0 <= i < |v.value.items| ==> Decodes(f, element, Some(v.value.items[i]))
      case Struct(fields) =>
        v.value.Items? && forall k :: 0 <= k < |fields| ==> Decodes(f, fields[k], Get(v.value.items, k))
  }

  function Decoded<L>(f: Decoder<L>, ty: ColumnType, v: Option<Value>): Cell<L>
    requires Decodes(f, ty, v)
  {
    if !Present(v) then NullCell
    else match ty
      case Scalar(kind) => Leaf(f(kind, v.value).value)
      case List(element) =>
        Elements(seq(|v.value.items|, i requires 0 <= i < |v.value.items| => Decoded(f, element, Some(v.value.items[i]))))
      case Struct(fields) =>
        Fields(seq(|fields|, k requires 0 <= k < |fields| => Decoded(f, fields[k], Get(v.value.items, k))))
  }

  // ---- What decoding means -----------------------------------------------------------------------------

  /** SQL NULL and an absent value decode to null at every type; nothing else does. */
  lemma {:induction false} NullCells<L>(f: Decoder<L>, ty: ColumnType, v: Value)
    ensures Decodes(f, ty, None) && Decoded(f, ty, None) == NullCell
    ensures Decodes(f, ty, Some(Null)) && Decoded(f, ty, Some(Null)) == NullCell
    ensures v != Null && Decodes(f, ty, Some(v)) ==> Decoded(f, ty, Some(v)) != NullCell
  {
  }

  /** A present scalar is what the decoder makes of it, or an error. */
  lemma {:induction false} ScalarCell<L>(f: Decoder<L>, kind: ScalarKind, v: Value)
    requires v != Null
    ensures Decodes(f, Scalar(kind), Some(v)) <==> f(kind, v).Some?
    ensures f(kind, v).Some? ==> Decoded(f, Scalar(kind), Some(v)) == Leaf(f(kind, v).value)
  {
  }

  /** A list decodes element by element, in order; a present value that is no list is an error. */
  lemma {:induction false} ListCells<L>(f: Decoder<L>, element: ColumnType, items: seq<Value>, other: Value)
    ensures Decodes(f, List(element), Some(Items(items))) <==> forall i :: 0 <= i < |items| ==> Decodes(f, element, Some(items[i]))
    ensures Decodes(f, List(element), Some(Items(items))) ==>
              var cell := Decoded(f, List(element), Some(Items(items)));
              cell.Elements? && |cell.cells| == |items| && forall i :: 0 <= i < |items| ==> cell.cells[i] == Decoded(f, element, Some(items[i]))
    ensures other != Null && !other.Items? ==> !Decodes(f, List(element), Some(other))
  {
  }

  /** A struct decodes by position: field `k` from element `k`, null where there are too few elements, surplus ones
      ignored. A present value that is no list is an error. */
  lemma {:induction false} StructCells<L>(f: Decoder<L>, fields: seq<ColumnType>, items: seq<Value>, other: Value)
    ensures Decodes(f, Struct(fields), Some(Items(items))) <==>
            forall k :: 0 <= k < |fields| && k < |items| ==> Decodes(f, fields[k], Some(items[k]))
    ensures Decodes(f, Struct(fields), Some(Items(items))) ==>
              var cell := Decoded(f, Struct(fields), Some(Items(items)));
              && cell.Fields? && |cell.cells| == |fields|
              && forall k :: 0 <= k < |fields| ==>
                   if k < |items| then cell.cells[k] == Decoded(f, fields[k], Some(items[k])) else cell.cells[k] == NullCell
    ensures other != Null && !other.Items? ==> !Decodes(f, Struct(fields), Some(other))
  {
    forall k | 0 <= k < |fields| ensures k >= |items| ==> Decodes(f, fields[k], Get(items, k)) {
      NullCells(f, fields[k], Null);
    }
  }

  // ---- Columns -----------------------------------------------------------------------------------------

  const I32_MAX: int := 0x7FFF_FFFF

  /** An Arrow array: slots, or offsets into a child with a validity mask, or one child per field. */
  datatype Array<L> =
    | Flat(slots: seq<Option<L>>)
    | Lists(offsets: seq<nat>, child: Array<L>, validity: seq<bool>)
    | Structs(children: seq<Array<L>>, validity: seq<bool>)
  {
    function Length(): nat {
      if Flat? then |slots| else |validity|
    }

    /** What Arrow checks of its parts: offsets start at 0, never fall, and end at the child's length;
        children of a struct are as long as the struct. */
    predicate Valid() {
      match this
      case Flat(_) => true
      case Lists(offsets, child, validity) =>
        && child.Valid() && |offsets| == |validity| + 1 && offsets[0] == 0
        && offsets[|validity|] == child.Length() <= I32_MAX
        && (forall i, j :: 0 <= i <= j <= |validity| ==> offsets[i] <= offsets[j])
      case Structs(children, validity) =>
        children != [] && forall k :: 0 <= k < |children| ==> children[k].Valid() && children[k].Length() == |validity|
    }

    /** The value in slot `i`. */
    function Slot(i: nat): Cell<L>
      requires Valid() && i < Length()
    {
      match this
      case Flat(slots) => if slots[i].Some? then Leaf(slots[i].value) else NullCell
      case Lists(offsets, child, validity) =>
        if !validity[i] then NullCell
        else
          Elements(seq(offsets[i + 1] - offsets[i], j requires 0 <= j < offsets[i + 1] - offsets[i] =>
                       assert offsets[i + 1] <= offsets[|validity|]; child.Slot(offsets[i] + j)))
      case Structs(children, validity) =>
        if !validity[i] then NullCell
        else Fields(seq(|children|, k requires 0 <= k < |children| => children[k].Slot(i)))
    }
  }

  /** The elements of all lists among `values`, one after the other. */
  function Children(values: seq<Option<Value>>): seq<Option<Value>> {
    if values == [] then []
    else Children(values[..|values| - 1]) + ElementsOf(values[|values| - 1])
  }

  function ElementsOf(v: Option<Value>): seq<Option<Value>> {
    if Present(v) && v.value.Items?
    then seq(|v.value.items|, i requires 0 <= i < |v.value.items| => Some(v.value.items[i])) else []
  }

  /** Field `k` of every value. */
  function Column(values: seq<Option<Value>>, k: nat): seq<Option<Value>> {
    seq(|values|, i requires 0 <= i < |values| => FieldOf(values[i], k))
  }

  function FieldOf(v: Option<Value>, k: nat): Option<Value> {
    if Present(v) && v.value.Items? then Get(v.value.items, k) else None
  }

  /** Every struct in the type has a field. Arrow refuses to assemble one without. */
  predicate HasFields(ty: ColumnType) {
    match ty
    case Scalar(_) => true
    case List(element) => HasFields(element)
    case Struct(fields) => fields != [] && forall k :: 0 <= k < |fields| ==> HasFields(fields[k])
  }

  /** At every depth the element total fits `i32`. */
  predicate OffsetsFit(ty: ColumnType, values: seq<Option<Value>>) {
    match ty
    case Scalar(_) => true
    case List(element) => |Children(values)| <= I32_MAX && OffsetsFit(element, Children(values))
    case Struct(fields) => forall k :: 0 <= k < |fields| ==> OffsetsFit(fields[k], Column(values, k))
  }

  predicate AllDecode<L>(f: Decoder<L>, ty: ColumnType, values: seq<Option<Value>>) {
    forall i :: 0 <= i < |values| ==> Decodes(f, ty, values[i])
  }

  /** A column can be built. */
  predicate Buildable<L>(f: Decoder<L>, ty: ColumnType, values: seq<Option<Value>>) {
    HasFields(ty) && AllDecode(f, ty, values) && OffsetsFit(ty, values)
  }

  /** The array holds, slot by slot, what the values decode to. */
  ghost predicate Holds<L>(f: Decoder<L>, ty: ColumnType, values: seq<Option<Value>>, a: Array<L>)
    requires AllDecode(f, ty, values)
  {
    && a.Valid() && a.Length() == |values|
    && forall i :: 0 <= i < |values| ==> a.Slot(i) == Decoded(f, ty, values[i])
  }

  // ---- Where the elements of a list end up ---------------------------------------------------------------

  lemma {:induction false} ChildrenStep(values: seq<Option<Value>>, i: nat)
    requires i < |values|
    ensures Children(values[..i + 1]) == Children(values[..i]) + ElementsOf(values[i])
  {
    var upto := values[..i + 1];
    assert upto[..|upto| - 1] == values[..i] && upto[|upto| - 1] == values[i];
  }

  lemma {:induction false} ChildrenPrefix(values: seq<Option<Value>>, i: nat, j: nat)
    requires i <= j <= |values|
    ensures Children(values[..i]) <= Children(values[..j])
  {
    hide Children, ElementsOf;
    if i < j {
      ChildrenPrefix(values, i, j - 1);
      ChildrenStep(values, j - 1);
    }
  }

  /** Between their offsets lie exactly the elements of value `i`. */
  lemma {:induction false} ElementsAt(values: seq<Option<Value>>, i: nat)
    requires i < |values|
    ensures var lo, hi := |Children(values[..i])|, |Children(values[..i + 1])|;
            lo <= hi <= |Children(values)| && Children(values)[lo..hi] == ElementsOf(values[i])
  {
    ChildrenStep(values, i);
    ChildrenPrefix(values, i + 1, |values|);
    assert values[..|values|] == values;
  }

  /** Every child is an element of some value. */
  lemma {:induction false} ChildFrom(values: seq<Option<Value>>, c: nat) returns (i: nat, j: nat)
    requires c < |Children(values)|
    ensures i < |values| && j < |ElementsOf(values[i])| && Children(values)[c] == ElementsOf(values[i])[j]
  {
    hide ElementsOf;
    var k := |values| - 1;
    if c < |Children(values[..k])| {
      i, j := ChildFrom(values[..k], c);
    } else {
      i, j := k, c - |Children(values[..k])|;
    }
  }

  predicate ListsOnly(values: seq<Option<Value>>) {
    forall i :: 0 <= i < |values| && Present(values[i]) ==> values[i].value.Items?
  }

  /** Lists decode exactly when they are lists and all elements decode. */
  lemma {:induction false} ListsDecode<L>(f: Decoder<L>, element: ColumnType, values: seq<Option<Value>>)
    ensures AllDecode(f, List(element), values) <==> ListsOnly(values) && AllDecode(f, element, Children(values))
  {
    var children := Children(values);
    if AllDecode(f, List(element), values) {
      forall c | 0 <= c < |children| ensures Decodes(f, element, children[c]) {
        var i, j := ChildFrom(values, c);
        assert Decodes(f, List(element), values[i]);
      }
    }
    if ListsOnly(values) && AllDecode(f, element, children) {
      forall i | 0 <= i < |values| ensures Decodes(f, List(element), values[i]) {
        ElementsAt(values, i);
        if Present(values[i]) {
          ListDecodes(f, element, values, i);
        }
      }
    }
  }

  lemma {:induction false} ListDecodes<L>(f: Decoder<L>, element: ColumnType, values: seq<Option<Value>>, i: nat)
    requires i < |values| && Present(values[i]) && values[i].value.Items?
    requires AllDecode(f, element, Children(values))
    ensures Decodes(f, List(element), values[i])
  {
    hide Children;
    ElementsAt(values, i);
    var lo, items := |Children(values[..i])|, values[i].value.items;
    forall j | 0 <= j < |items| ensures Decodes(f, element, Some(items[j])) {
      assert Children(values)[lo + j] == ElementsOf(values[i])[j];
    }
  }

  /** Structs decode exactly when they are lists and every field column decodes. */
  lemma {:induction false} StructsDecode<L>(f: Decoder<L>, fields: seq<ColumnType>, values: seq<Option<Value>>)
    ensures AllDecode(f, Struct(fields), values) <==>
            ListsOnly(values) && forall k :: 0 <= k < |fields| ==> AllDecode(f, fields[k], Column(values, k))
  {
    if AllDecode(f, Struct(fields), values) {
      forall k | 0 <= k < |fields| ensures AllDecode(f, fields[k], Column(values, k)) {
        forall i | 0 <= i < |values| ensures Decodes(f, fields[k], Column(values, k)[i]) {
          assert Decodes(f, Struct(fields), values[i]);
        }
      }
    }
    if ListsOnly(values) && forall k :: 0 <= k < |fields| ==> AllDecode(f, fields[k], Column(values, k)) {
      forall i | 0 <= i < |values| ensures Decodes(f, Struct(fields), values[i]) {
        forall k | 0 <= k < |fields| ensures Decodes(f, fields[k], FieldOf(values[i], k)) {
          assert AllDecode(f, fields[k], Column(values, k));
          assert Column(values, k)[i] == FieldOf(values[i], k);
        }
      }
    }
  }

  // ---- The builders --------------------------------------------------------------------------------------

  /** `build_array`: succeeds exactly when every present value at every depth decodes and the element
      totals fit `i32`, and then holds slot by slot what each value decodes to on its own. */
  method BuildArray<L>(f: Decoder<L>, ty: ColumnType, values: seq<Option<Value>>) returns (r: Option<Array<L>>)
    ensures r.Some? <==> Buildable(f, ty, values)
    ensures r.Some? ==> Holds(f, ty, values, r.value)
    decreases ty, 1
  {
    match ty
    case Scalar(kind) => r := BuildScalars(f, kind, values);
    case List(element) => r := BuildList(f, element, values);
    case Struct(fields) => r := BuildStruct(f, fields, values);
  }

  /** `build_with` and `build_primitive`. */
  method BuildScalars<L>(f: Decoder<L>, kind: ScalarKind, values: seq<Option<Value>>) returns (r: Option<Array<L>>)
    ensures r.Some? <==> Buildable(f, Scalar(kind), values)
    ensures r.Some? ==> Holds(f, Scalar(kind), values, r.value)
  {
    var slots: seq<Option<L>> := [];
    var i := 0;
    while i < |values|
      invariant 0 <= i <= |values| == |slots| + |values| - i
      invariant forall k :: 0 <= k < i ==> Decodes(f, Scalar(kind), values[k])
      invariant forall k :: 0 <= k < i ==> Flat(slots).Slot(k) == Decoded(f, Scalar(kind), values[k])
    {
      if !Present(values[i]) {
        slots := slots + [None];
      } else {
        var leaf := f(kind, values[i].value);
        if leaf.None? {
          assert !Decodes(f, Scalar(kind), values[i]);
          return None;
        }
        slots := slots + [leaf];
      }
      i := i + 1;
    }
    return Some(Flat(slots));
  }

  /** `build_list`. */
  method BuildList<L>(f: Decoder<L>, element: ColumnType, values: seq<Option<Value>>) returns (r: Option<Array<L>>)
    ensures r.Some? <==> Buildable(f, List(element), values)
    ensures r.Some? ==> Holds(f, List(element), values, r.value)
    decreases element, 2
  {
    hide Decodes, OffsetsFit, HasFields, Decoded, Children, Holds, AllDecode;
    ListBuildable(f, element, values);
    var ok, children, offsets, validity := ScanLists(values);
    if !ok {
      return None;
    }
    var child := BuildArray(f, element, children);
    if child.None? {
      return None;
    }
    var a := Lists(offsets, child.value, validity);
    ListHolds(f, element, values, a);
    return Some(a);
  }

  /** The loop of `build_list`; `ok` is false on a present value that is no list, or when the running
      element total leaves `i32`. */
  method ScanLists(values: seq<Option<Value>>)
    returns (ok: bool, children: seq<Option<Value>>, offsets: seq<nat>, validity: seq<bool>)
    ensures ok <==> ListsOnly(values) && |Children(values)| <= I32_MAX
    ensures ok ==> children == Children(values) && OffsetsOf(values, offsets) && ValidityOf(values, validity)
  {
    hide Children, ElementsOf;
    ok, children, offsets, validity := false, [], [0], [];
    var i := 0;
    NoChildren();
    assert values[..0] == [];
    while i < |values|
      invariant 0 <= i <= |values| && ListsOnly(values[..i])
      invariant children == Children(values[..i]) && |children| <= I32_MAX
      invariant |offsets| == i + 1 && forall k :: 0 <= k <= i ==> offsets[k] == |Children(values[..k])|
      invariant ValidityOf(values[..i], validity)
    {
      var value := values[i];
      ChildrenStep(values, i);
      if !Present(value) {
        EmptyElements(value);
        validity := validity + [false];
      } else if value.value.Items? {
        children := children + ElementsOf(value);
        validity := validity + [true];
      } else {
        return;
      }
      if |children| > I32_MAX {
        ChildrenPrefix(values, i + 1, |values|);
        assert values[..|values|] == values;
        return;
      }
      offsets := offsets + [|children|];
      i := i + 1;
    }
    assert values[..i] == values;
    ok := true;
  }

  predicate OffsetsOf(values: seq<Option<Value>>, offsets: seq<nat>) {
    |offsets| == |values| + 1 && forall k :: 0 <= k <= |values| ==> offsets[k] == |Children(values[..k])|
  }

  predicate ValidityOf(values: seq<Option<Value>>, validity: seq<bool>) {
    |validity| == |values| && forall k :: 0 <= k < |values| ==> validity[k] == Present(values[k])
  }

  lemma {:induction false} EmptyElements(v: Option<Value>)
    requires !Present(v)
    ensures ElementsOf(v) == []
  {
  }

  lemma {:induction false} ListBuildable<L>(f: Decoder<L>, element: ColumnType, values: seq<Option<Value>>)
    ensures Buildable(f, List(element), values) <==>
            ListsOnly(values) && |Children(values)| <= I32_MAX && Buildable(f, element, Children(values))
  {
    hide Decodes, Children, ListsOnly;
    ListsDecode(f, element, values);
  }

  /** Offsets, child and validity together hold the lists. */
  lemma {:induction false} ListHolds<L>(f: Decoder<L>, element: ColumnType, values: seq<Option<Value>>, a: Array<L>)
    requires ListsOnly(values) && AllDecode(f, element, Children(values)) && |Children(values)| <= I32_MAX
    requires a.Lists? && Holds(f, element, Children(values), a.child)
    requires OffsetsOf(values, a.offsets) && ValidityOf(values, a.validity)
    ensures AllDecode(f, List(element), values) && Holds(f, List(element), values, a)
  {
    hide Children, Decodes, Decoded;
    ListsDecode(f, element, values);
    assert values[..0] == [] && values[..|values|] == values;
    NoChildren();
    forall i, j | 0 <= i <= j <= |values| ensures a.offsets[i] <= a.offsets[j] {
      ChildrenPrefix(values, i, j);
    }
    assert a.Valid();
    forall i | 0 <= i < |values| ensures a.Slot(i) == Decoded(f, List(element), values[i]) {
      SlotOfList(f, element, values, a, i);
    }
  }

  lemma {:induction false} NoChildren()
    ensures Children([]) == []
  {
  }

  lemma {:induction false} SlotOfList<L>(f: Decoder<L>, element: ColumnType, values: seq<Option<Value>>, a: Array<L>, i: nat)
    requires a.Lists? && a.Valid() && |a.validity| == |values| && i < |values|
    requires AllDecode(f, element, Children(values)) && Holds(f, element, Children(values), a.child)
    requires Decodes(f, List(element), values[i])
    requires a.offsets[i] == |Children(values[..i])| && a.offsets[i + 1] == |Children(values[..i + 1])|
    requires a.validity[i] == Present(values[i])
    ensures a.Slot(i) == Decoded(f, List(element), values[i])
  {
    hide Children;
    if Present(values[i]) {
      ElementsAt(values, i);
      var lo, items := a.offsets[i], values[i].value.items;
      forall j | 0 <= j < |items| ensures a.child.Slot(lo + j) == Decoded(f, element, Some(items[j])) {
        assert Children(values)[lo + j] == Children(values)[lo..a.offsets[i + 1]][j] == ElementsOf(values[i])[j];
      }
      var read, decoded := a.Slot(i).cells, Decoded(f, List(element), values[i]).cells;
      assert |read| == |decoded| && forall j :: 0 <= j < |read| ==> read[j] == decoded[j];
    }
  }

  /** `build_struct`. */
  method BuildStruct<L>(f: Decoder<L>, fields: seq<ColumnType>, values: seq<Option<Value>>) returns (r: Option<Array<L>>)
    ensures r.Some? <==> Buildable(f, Struct(fields), values)
    ensures r.Some? ==> Holds(f, Struct(fields), values, r.value)
    decreases fields, 2
  {
    hide Decodes, Decoded, OffsetsFit, HasFields;
    StructBuildable(f, fields, values);
    var columns := seq(|fields|, k requires 0 <= k < |fields| => []);
    var validity: seq<bool> := [];
    var i := 0;
    while i < |values|
      invariant 0 <= i <= |values| && |columns| == |fields|
      invariant ListsOnly(values[..i])
      invariant forall k :: 0 <= k < |fields| ==> columns[k] == Column(values[..i], k)
      invariant |validity| == i && forall k :: 0 <= k < i ==> validity[k] == Present(values[k])
    {
      var value := values[i];
      if Present(value) && !value.value.Items? {
        return None;
      }
      columns := PushFields(columns, value);
      forall k | 0 <= k < |fields| ensures columns[k] == Column(values[..i + 1], k) {
        assert Column(values[..i + 1], k) == Column(values[..i], k) + [FieldOf(value, k)];
      }
      validity := validity + [Present(value)];
      i := i + 1;
    }
    assert values[..i] == values;
    var children: seq<Array<L>> := [];
    var k := 0;
    while k < |fields|
      invariant 0 <= k <= |fields| && |children| == k
      invariant forall m :: 0 <= m < k ==> Buildable(f, fields[m], Column(values, m)) && Holds(f, fields[m], Column(values, m), children[m])
    {
      var child := BuildArray(f, fields[k], columns[k]);
      if child.None? {
        return None;
      }
      children := children + [child.value];
      k := k + 1;
    }
    if children == [] {
      return None;
    }
    var a := Structs(children, validity);
    StructHolds(f, fields, values, a);
    return Some(a);
  }

  /** One value's fields pushed onto the field columns, nulls for a null value. */
  method PushFields(columns: seq<seq<Option<Value>>>, value: Option<Value>) returns (r: seq<seq<Option<Value>>>)
    ensures |r| == |columns| && forall k :: 0 <= k < |columns| ==> r[k] == columns[k] + [FieldOf(value, k)]
  {
    r := columns;
    var k := 0;
    while k < |columns|
      invariant 0 <= k <= |columns| == |r|
      invariant forall m :: 0 <= m < k ==> r[m] == columns[m] + [FieldOf(value, m)]
      invariant forall m :: k <= m < |columns| ==> r[m] == columns[m]
    {
      r := r[k := r[k] + [FieldOf(value, k)]];
      k := k + 1;
    }
  }

  lemma {:induction false} StructBuildable<L>(f: Decoder<L>, fields: seq<ColumnType>, values: seq<Option<Value>>)
    ensures Buildable(f, Struct(fields), values) <==>
            && ListsOnly(values) && fields != []
            && forall k :: 0 <= k < |fields| ==> Buildable(f, fields[k], Column(values, k))
  {
    hide Decodes, Column, ListsOnly, AllDecode;
    StructsDecode(f, fields, values);
  }

  lemma {:induction false} StructHolds<L>(f: Decoder<L>, fields: seq<ColumnType>, values: seq<Option<Value>>, a: Array<L>)
    requires fields != [] && AllDecode(f, Struct(fields), values)
    requires forall k :: 0 <= k < |fields| ==> AllDecode(f, fields[k], Column(values, k))
    requires a.Structs? && |a.children| == |fields| && |a.validity| == |values|
    requires forall k :: 0 <= k < |fields| ==> Holds(f, fields[k], Column(values, k), a.children[k])
    requires forall i :: 0 <= i < |values| ==> a.validity[i] == Present(values[i])
    ensures Holds(f, Struct(fields), values, a)
  {
    hide Decodes, Decoded;
    forall k | 0 <= k < |fields| ensures a.children[k].Valid() && a.children[k].Length() == |a.validity| {
      assert Holds(f, fields[k], Column(values, k), a.children[k]);
    }
    assert a.Valid();
    forall i | 0 <= i < |values| ensures a.Slot(i) == Decoded(f, Struct(fields), values[i]) {
      assert Decodes(f, Struct(fields), values[i]);
      SlotOfStruct(f, fields, values, a, i);
    }
  }

  lemma {:induction false} SlotOfStruct<L>(f: Decoder<L>, fields: seq<ColumnType>, values: seq<Option<Value>>, a: Array<L>, i: nat)
    requires i < |values| && Decodes(f, Struct(fields), values[i])
    requires a.Structs? && a.Valid() && |a.children| == |fields| && |a.validity| == |values|
    requires forall k :: 0 <= k < |fields| ==> AllDecode(f, fields[k], Column(values, k))
    requires forall k :: 0 <= k < |fields| ==> Holds(f, fields[k], Column(values, k), a.children[k])
    requires a.validity[i] == Present(values[i])
    ensures a.Slot(i) == Decoded(f, Struct(fields), values[i])
  {
    if Present(values[i]) {
      var items := values[i].value.items;
      forall k | 0 <= k < |fields| ensures a.children[k].Slot(i) == Decoded(f, fields[k], Get(items, k)) {
        assert Holds(f, fields[k], Column(values, k), a.children[k]);
        assert Column(values, k)[i] == Get(items, k);
      }
    }
  }

  // ---- Batches --------------------------------------------------------------------------------------------

  /** Column `c` of the rows; a row that is too short has no value there. */
  function RowColumn(rows: seq<seq<Value>>, c: nat): seq<Option<Value>> {
    seq(|rows|, r requires 0 <= r < |rows| => Get(rows[r], c))
  }

  /** `build_batch`; Arrow refuses a batch without columns. */
  method BuildBatch<L>(f: Decoder<L>, schema: seq<ColumnType>, rows: seq<seq<Value>>) returns (r: Option<seq<Array<L>>>)
    ensures r.Some? <==> schema != [] && forall c :: 0 <= c < |schema| ==> Buildable(f, schema[c], RowColumn(rows, c))
    ensures r.Some? ==> |r.value| == |schema|
    ensures r.Some? ==> forall c, i :: 0 <= c < |schema| && 0 <= i < |rows| ==>
              && r.value[c].Valid() && r.value[c].Length() == |rows|
              && (c < |rows[i]| ==> Decodes(f, schema[c], Some(rows[i][c])) && r.value[c].Slot(i) == Decoded(f, schema[c], Some(rows[i][c])))
              && (c >= |rows[i]| ==> r.value[c].Slot(i) == NullCell)
  {
    hide Decodes, Decoded, OffsetsFit, HasFields;
    var arrays: seq<Array<L>> := [];
    var c := 0;
    while c < |schema|
      invariant 0 <= c <= |schema| && |arrays| == c
      invariant forall k :: 0 <= k < c ==> Buildable(f, schema[k], RowColumn(rows, k)) && Holds(f, schema[k], RowColumn(rows, k), arrays[k])
    {
      var scratch := RowColumn(rows, c);
      var column := BuildArray(f, schema[c], scratch);
      if column.None? {
        return None;
      }
      arrays := arrays + [column.value];
      c := c + 1;
    }
    if arrays == [] {
      return None;
    }
    forall k, i | 0 <= k < |schema| && 0 <= i < |rows|
      ensures arrays[k].Valid() && arrays[k].Length() == |rows|
      ensures k < |rows[i]| ==> Decodes(f, schema[k], Some(rows[i][k])) && arrays[k].Slot(i) == Decoded(f, schema[k], Some(rows[i][k]))
      ensures k >= |rows[i]| ==> arrays[k].Slot(i) == NullCell
    {
      NullCells(f, schema[k], Null);
      assert Holds(f, schema[k], RowColumn(rows, k), arrays[k]) && RowColumn(rows, k)[i] == Get(rows[i], k);
    }
    return Some(arrays);
  }
}
