/** Assembling the schema, table, column and constraint hierarchy from the INFORMATION_SCHEMA batches:
    grouping each batch once by hash key, against filtering and rescanning the batches for every
    element. */
module Objects {
  import opened Wrappers
  import opened Digits
  import opened Classification
  import opened LikeMatching

  // ---- Rows, and what is built from them -----------------------------------------------------------------

  datatype TableRow = TableRow(schema: string, name: string, tableType: string)

  datatype ColumnRow = ColumnRow(schema: string, table: string, name: string, ordinal: int, nullable: string, typeName: string)

  datatype ConstraintRow = ConstraintRow(schema: string, table: string, name: string, constraintType: string)

  datatype KeyColumnRow = KeyColumnRow(constraintSchema: string, constraintName: string, tableSchema: string,
                                       table: string, column: string, ordinal: string, position: Option<string>)

  datatype ReferentialRow = ReferentialRow(schema: string, name: string, uniqueSchema: string, uniqueName: string)

  /** The fetched batches; a batch that the depth does not need is absent. */
  datatype Batches = Batches(schemata: seq<string>, tables: Option<seq<TableRow>>, columns: Option<seq<ColumnRow>>,
                             constraints: Option<seq<ConstraintRow>>, keyColumns: Option<seq<KeyColumnRow>>,
                             referential: Option<seq<ReferentialRow>>)

  datatype Filters = Filters(schema: Option<string>, table: Option<string>, column: Option<string>, tableTypes: Option<seq<string>>)

  datatype Column = Column(name: string, ordinal: int, nullable: bool, typeName: string)

  datatype Usage = Usage(schema: string, table: string, column: string)

  datatype Constraint = Constraint(name: Option<string>, constraintType: string, columns: seq<string>, usages: seq<Usage>)

  datatype Table = Table(name: string, tableType: string, columns: seq<Column>, constraints: seq<Constraint>)

  datatype DbSchema = DbSchema(name: string, tables: seq<Table>)

  type Name2 = (string, string)

  function Rows<T>(batch: Option<seq<T>>): seq<T> {
    if batch.Some? then batch.value else []
  }

  // ---- Scanning a batch ----------------------------------------------------------------------------------

  /** One pass over `xs`, keeping what `pick` makes of each element, in order. */
  function Select<T, U>(xs: seq<T>, pick: T -> Option<U>): seq<U> {
    if xs == [] then []
    else Select(xs[..|xs| - 1], pick) + Picked(pick(xs[|xs| - 1]))
  }

  function Picked<U>(x: Option<U>): seq<U> {
    if x.Some? then [x.value] else []
  }

  lemma {:induction false} SelectStep<T, U>(xs: seq<T>, pick: T -> Option<U>, i: nat)
    requires i < |xs|
    ensures Select(xs[..i + 1], pick) == Select(xs[..i], pick) + Picked(pick(xs[i]))
  {
    assert xs[..i + 1][..i] == xs[..i];
  }

  lemma {:induction false} SelectNone<T, U>(pick: T -> Option<U>)
    ensures Select([], pick) == []
  {
  }

  lemma {:induction false} SelectAppend<T, U>(xs: seq<T>, x: T, pick: T -> Option<U>)
    ensures Select(xs + [x], pick) == Select(xs, pick) + Picked(pick(x))
  {
    assert (xs + [x])[..|xs|] == xs;
  }

  /** What is kept is what was picked. */
  lemma {:induction false} SelectMember<T, U>(xs: seq<T>, pick: T -> Option<U>, y: U)
    ensures y in Select(xs, pick) <==> exists i :: 0 <= i < |xs| && pick(xs[i]) == Some(y)
  {
    if xs != [] {
      var n := |xs| - 1;
      SelectMember(xs[..n], pick, y);
      if y in Select(xs[..n], pick) {
        var i :| 0 <= i < n && pick(xs[..n][i]) == Some(y);
        assert pick(xs[i]) == Some(y);
      }
      if i :| 0 <= i < |xs| && pick(xs[i]) == Some(y) {
        assert i < n ==> pick(xs[..n][i]) == Some(y);
      }
    }
  }

  // ---- Grouping a batch ----------------------------------------------------------------------------------

  function HasKey<K(==), T>(key: T -> K, k: K): T -> Option<T> {
    (x: T) => if key(x) == k then Some(x) else None
  }

  /** The rows with this key, in batch order. */
  function Group<K(==), T>(rows: seq<T>, key: T -> K, k: K): seq<T> {
    Select(rows, HasKey(key, k))
  }

  function Lookup<K, T>(m: map<K, seq<T>>, k: K): seq<T> {
    if k in m then m[k] else []
  }

  /** The map answers every key with the rows of that key. */
  ghost predicate Indexes<K(!new), T>(m: map<K, seq<T>>, rows: seq<T>, key: T -> K) {
    forall k :: Lookup(m, k) == Group(rows, key, k)
  }

  /** The `group_*` functions: one pass, each row pushed onto the group of its key. */
  method GroupBy<K(==, !new), T>(rows: seq<T>, key: T -> K) returns (m: map<K, seq<T>>)
    ensures Indexes(m, rows, key)
  {
    hide Select;
    m := map[];
    var i := 0;
    forall k ensures Lookup(m, k) == Group(rows[..0], key, k) {
      assert rows[..0] == [];
      SelectNone(HasKey(key, k));
    }
    while i < |rows|
      invariant 0 <= i <= |rows| && Indexes(m, rows[..i], key)
    {
      ghost var before := m;
      var own := key(rows[i]);
      m := m[own := Lookup(m, own) + [rows[i]]];
      forall k ensures Lookup(m, k) == Group(rows[..i + 1], key, k) {
        SelectStep(rows, HasKey(key, k), i);
        assert Lookup(before, k) == Group(rows[..i], key, k);
      }
      i := i + 1;
    }
    assert rows[..i] == rows;
  }

  /** Scanning one group is scanning the batch for its key. */
  lemma {:induction false} SelectGroup<K, T, U>(rows: seq<T>, key: T -> K, k: K, inGroup: T -> Option<U>, inBatch: T -> Option<U>)
    requires forall x :: inBatch(x) == if key(x) == k then inGroup(x) else None
    ensures Select(Group(rows, key, k), inGroup) == Select(rows, inBatch)
  {
    if rows != [] {
      var n := |rows| - 1;
      SelectGroup(rows[..n], key, k, inGroup, inBatch);
      if key(rows[n]) == k {
        SelectAppend(Group(rows[..n], key, k), rows[n], inGroup);
      } else {
        assert Group(rows, key, k) == Group(rows[..n], key, k) + [] == Group(rows[..n], key, k);
        assert Select(rows, inBatch) == Select(rows[..n], inBatch) + [] == Select(rows[..n], inBatch);
      }
    }
  }

  /** The first row of a foreign key. */
  function FirstReferential(rows: seq<ReferentialRow>, k: Name2): Option<Name2> {
    if rows == [] then None
    else if (rows[0].schema, rows[0].name) == k then Some((rows[0].uniqueSchema, rows[0].uniqueName))
    else FirstReferential(rows[1..], k)
  }

  function Find<K, V>(m: map<K, V>, k: K): Option<V> {
    if k in m then Some(m[k]) else None
  }

  /** `group_referential`: keeps the first row per key. */
  method GroupReferential(rows: seq<ReferentialRow>) returns (m: map<Name2, Name2>)
    ensures forall k :: Find(m, k) == FirstReferential(rows, k)
  {
    m := map[];
    var i := 0;
    while i < |rows|
      invariant 0 <= i <= |rows|
      invariant forall k :: FirstReferential(rows, k) == if k in m then Some(m[k]) else FirstReferential(rows[i..], k)
    {
      var k := (rows[i].schema, rows[i].name);
      assert rows[i..][1..] == rows[i + 1..];
      if k !in m {
        m := m[k := (rows[i].uniqueSchema, rows[i].uniqueName)];
      }
      i := i + 1;
    }
  }

  // ---- Foreign keys ----------------------------------------------------------------------------------------

  const I64_LIMIT: int := 0x8000_0000_0000_0000

  /** `str::parse::<i64>`. */
  function ParseI64(s: string): Option<int> {
    var signed := s != [] && (s[0] == '-' || s[0] == '+');
    var digits := if signed then s[1..] else s;
    if digits == [] || !AllDigits(digits) then None
    else
      var value: int := if s[0] == '-' then -(Value(digits) as int) else Value(digits);
      if -I64_LIMIT <= value < I64_LIMIT then Some(value) else None
  }

  /** A foreign-key column: its ordinal, and the ordinal of the parent column it points at. */
  datatype Link = Link(ordinal: int, position: int)

  function LinkOf(k: KeyColumnRow): Option<Link> {
    if ParseI64(k.ordinal).Some? && k.position.Some? && ParseI64(k.position.value).Some?
    then Some(Link(ParseI64(k.ordinal).value, ParseI64(k.position.value).value)) else None
  }

  function UsageOf(k: KeyColumnRow): Usage {
    Usage(k.tableSchema, k.table, k.column)
  }

  /** The parent column at an ordinal; the last row wins. */
  function ParentAt(parents: seq<KeyColumnRow>, ordinal: int): Option<Usage> {
    if parents == [] then None
    else
      var last := parents[|parents| - 1];
      if ParseI64(last.ordinal) == Some(ordinal) then Some(UsageOf(last)) else ParentAt(parents[..|parents| - 1], ordinal)
  }

  /** The parent column at an ordinal is that of the last row with that ordinal. */
  lemma {:induction false} ParentMeans(parents: seq<KeyColumnRow>, ordinal: int)
    ensures ParentAt(parents, ordinal).None? <==> forall i :: 0 <= i < |parents| ==> ParseI64(parents[i].ordinal) != Some(ordinal)
    ensures ParentAt(parents, ordinal).Some? ==>
              exists i :: 0 <= i < |parents| && ParseI64(parents[i].ordinal) == Some(ordinal)
                && ParentAt(parents, ordinal) == Some(Usage(parents[i].tableSchema, parents[i].table, parents[i].column))
                && forall j :: i < j < |parents| ==> ParseI64(parents[j].ordinal) != Some(ordinal)
  {
    hide ParseI64;
    if parents != [] {
      var n := |parents| - 1;
      ParentMeans(parents[..n], ordinal);
      if ParseI64(parents[n].ordinal) != Some(ordinal) && ParentAt(parents[..n], ordinal).Some? {
        var most := parents[..n];
        var i :| 0 <= i < |most| && ParseI64(most[i].ordinal) == Some(ordinal)
          && ParentAt(most, ordinal) == Some(Usage(most[i].tableSchema, most[i].table, most[i].column))
          && forall j :: i < j < |most| ==> ParseI64(most[j].ordinal) != Some(ordinal);
        assert parents[i] == most[i];
        forall j | i < j < |parents| ensures ParseI64(parents[j].ordinal) != Some(ordinal) {
          assert j < n ==> parents[j] == most[j];
        }
      }
    }
  }

  /** Ordinals are read as the numbers their digits denote, with an optional sign. */
  lemma {:induction false} ParseI64Means(digits: string, value: int)
    requires digits != [] && AllDigits(digits) && value == Value(digits)
    ensures ParseI64(digits) == (if value < I64_LIMIT then Some(value) else None)
    ensures ParseI64("+" + digits) == (if value < I64_LIMIT then Some(value) else None)
    ensures ParseI64("-" + digits) == (if value <= I64_LIMIT then Some(-value) else None)
  {
    hide Value;
    assert ("-" + digits)[1..] == digits && ("+" + digits)[1..] == digits;
    assert IsDigit(digits[0]);
  }

  /** Stable insertion: behind every link that is not greater. */
  function Insert(links: seq<Link>, x: Link): seq<Link> {
    if links == [] || links[|links| - 1].ordinal <= x.ordinal then links + [x]
    else Insert(links[..|links| - 1], x) + [links[|links| - 1]]
  }

  /** The stable sort by ordinal. */
  function Sorted(links: seq<Link>): seq<Link> {
    if links == [] then [] else Insert(Sorted(links[..|links| - 1]), links[|links| - 1])
  }

  predicate InOrder(links: seq<Link>) {
    forall i, j :: 0 <= i < j < |links| ==> links[i].ordinal <= links[j].ordinal
  }

  function WithOrdinal(n: int): Link -> Option<Link> {
    (x: Link) => if x.ordinal == n then Some(x) else None
  }

  lemma {:induction false} InsertOrders(links: seq<Link>, x: Link)
    requires InOrder(links)
    ensures InOrder(Insert(links, x))
  {
    if links != [] && links[|links| - 1].ordinal > x.ordinal {
      var k := |links| - 1;
      InsertOrders(links[..k], x);
      AllAtMost(links[..k], x, links[k].ordinal);
    }
  }

  lemma {:induction false} InsertKeeps(links: seq<Link>, x: Link)
    ensures multiset(Insert(links, x)) == multiset(links) + multiset{x}
  {
    if links != [] && links[|links| - 1].ordinal > x.ordinal {
      var k := |links| - 1;
      InsertKeeps(links[..k], x);
      assert Insert(links, x) == Insert(links[..k], x) + [links[k]];
      assert multiset(links) == multiset(links[..k]) + multiset{links[k]} by { assert links == links[..k] + [links[k]]; }
    }
  }

  lemma {:induction false} InsertIsStable(links: seq<Link>, x: Link, n: int)
    ensures Select(Insert(links, x), WithOrdinal(n)) == Select(links, WithOrdinal(n)) + Picked(WithOrdinal(n)(x))
  {
    hide Select;
    var pick := WithOrdinal(n);
    if links != [] && links[|links| - 1].ordinal > x.ordinal {
      var k := |links| - 1;
      var most, last := links[..k], links[k];
      InsertIsStable(most, x, n);
      SelectAppend(Insert(most, x), last, pick);
      SelectAppend(most, last, pick);
      assert links == most + [last];
      assert Picked(pick(x)) == [] || Picked(pick(last)) == [];
    } else {
      SelectAppend(links, x, pick);
    }
  }

  lemma {:induction false} AllAtMost(links: seq<Link>, x: Link, n: int)
    requires (forall i :: 0 <= i < |links| ==> links[i].ordinal <= n) && x.ordinal <= n
    ensures forall i :: 0 <= i < |Insert(links, x)| ==> Insert(links, x)[i].ordinal <= n
  {
    if links != [] && links[|links| - 1].ordinal > x.ordinal {
      AllAtMost(links[..|links| - 1], x, n);
    }
  }

  lemma {:induction false} NoLinks()
    ensures InOrder([])
  {
  }

  /** Sorting orders the links, keeps all of them, and keeps equal ordinals in their order. */
  lemma {:induction false} SortedIsStableSort(links: seq<Link>, n: int)
    ensures InOrder(Sorted(links)) && multiset(Sorted(links)) == multiset(links)
    ensures Select(Sorted(links), WithOrdinal(n)) == Select(links, WithOrdinal(n))
  {
    hide Insert, InOrder, Select;
    if links == [] {
      assert InOrder([]) by { NoLinks(); }
    } else {
      var k := |links| - 1;
      var most, last := links[..k], links[k];
      SortedIsStableSort(most, n);
      InsertOrders(Sorted(most), last);
      InsertKeeps(Sorted(most), last);
      InsertIsStable(Sorted(most), last, n);
      assert links == most + [last];
      SelectAppend(most, last, WithOrdinal(n));
    }
  }

  function LinkOfRow(): KeyColumnRow -> Option<Link> {
    (k: KeyColumnRow) => LinkOf(k)
  }

  function Resolve(parents: seq<KeyColumnRow>): Link -> Option<Usage> {
    (x: Link) => ParentAt(parents, x.position)
  }

  /** The parent columns of a foreign key, given its own key columns and those it refers to. */
  function UsagesOf(own: seq<KeyColumnRow>, parents: seq<KeyColumnRow>): seq<Usage> {
    Select(Sorted(Select(own, LinkOfRow())), Resolve(parents))
  }

  /** The index of the parent columns by ordinal. */
  method IndexParents(parents: seq<KeyColumnRow>) returns (m: map<int, Usage>)
    ensures forall n :: Find(m, n) == ParentAt(parents, n)
  {
    hide ParseI64;
    m := map[];
    var i := 0;
    while i < |parents|
      invariant 0 <= i <= |parents|
      invariant forall n :: Find(m, n) == ParentAt(parents[..i], n)
    {
      ghost var before := m;
      var ordinal := ParseI64(parents[i].ordinal);
      if ordinal.Some? {
        m := m[ordinal.value := UsageOf(parents[i])];
      }
      assert parents[..i + 1][..i] == parents[..i];
      forall n ensures Find(m, n) == ParentAt(parents[..i + 1], n) {
        assert Find(before, n) == ParentAt(parents[..i], n);
      }
      i := i + 1;
    }
    assert parents[..i] == parents;
  }

  function KeyOf(): KeyColumnRow -> Name2 {
    (k: KeyColumnRow) => (k.constraintSchema, k.constraintName)
  }

  /** The naive form: scan the batches for the foreign key and for what it refers to. */
  function NaiveUsages(keyColumns: seq<KeyColumnRow>, referential: seq<ReferentialRow>, fk: Name2): seq<Usage> {
    var unique := FirstReferential(referential, fk);
    if unique.None? then []
    else UsagesOf(Group(keyColumns, KeyOf(), fk), Group(keyColumns, KeyOf(), unique.value))
  }

  /** `foreign_key_usages`. */
  method ForeignKeyUsages(keyColumns: map<Name2, seq<KeyColumnRow>>, referential: map<Name2, Name2>, fk: Name2)
    returns (usages: seq<Usage>)
    ensures usages == if fk in referential then UsagesOf(Lookup(keyColumns, fk), Lookup(keyColumns, referential[fk])) else []
  {
    hide Select, Sorted, ParentAt;
    if fk !in referential {
      return [];
    }
    var parents := Lookup(keyColumns, referential[fk]);
    var referenced := IndexParents(parents);
    var own := Lookup(keyColumns, fk);
    var links: seq<Link> := [];
    var i := 0;
    SelectNone(LinkOfRow());
    assert own[..0] == [];
    while i < |own|
      invariant 0 <= i <= |own| && links == Select(own[..i], LinkOfRow())
    {
      SelectStep(own, LinkOfRow(), i);
      links := links + Picked(LinkOf(own[i]));
      i := i + 1;
    }
    assert own[..i] == own;
    links := Sorted(links);
    usages := [];
    i := 0;
    SelectNone(Resolve(parents));
    assert links[..0] == [];
    while i < |links|
      invariant 0 <= i <= |links| && usages == Select(links[..i], Resolve(parents))
    {
      SelectStep(links, Resolve(parents), i);
      assert Find(referenced, links[i].position) == ParentAt(parents, links[i].position);
      usages := usages + Picked(Find(referenced, links[i].position));
      i := i + 1;
    }
    assert links[..i] == links;
  }

  // ---- Usages line up with key columns -----------------------------------------------------------------------

  lemma {:induction false} SelectAll<T, U>(xs: seq<T>, pick: T -> Option<U>)
    requires forall i :: 0 <= i < |xs| ==> pick(xs[i]).Some?
    ensures |Select(xs, pick)| == |xs|
    ensures forall i :: 0 <= i < |xs| ==> Select(xs, pick)[i] == pick(xs[i]).value
  {
    if xs != [] {
      SelectAll(xs[..|xs| - 1], pick);
    }
  }

  lemma {:induction false} SortedOfOrdered(links: seq<Link>)
    requires InOrder(links)
    ensures Sorted(links) == links
  {
    if links != [] {
      var k := |links| - 1;
      SortedOfOrdered(links[..k]);
      assert links == links[..k] + [links[k]];
    }
  }

  /** Every key column has an ordinal and a position, and its position is the ordinal of a parent column. */
  predicate Resolves(own: seq<KeyColumnRow>, parents: seq<KeyColumnRow>) {
    forall i :: 0 <= i < |own| ==> LinkOf(own[i]).Some? && ParentAt(parents, LinkOf(own[i]).value.position).Some?
  }

  /** The parent column that a key column points at. */
  function Target(own: seq<KeyColumnRow>, parents: seq<KeyColumnRow>, i: nat): Usage
    requires Resolves(own, parents) && i < |own|
  {
    ParentAt(parents, LinkOf(own[i]).value.position).value
  }

  function Links(own: seq<KeyColumnRow>): seq<Link> {
    Select(own, LinkOfRow())
  }

  lemma {:induction false} LinksOf(own: seq<KeyColumnRow>, parents: seq<KeyColumnRow>)
    requires Resolves(own, parents)
    ensures |Links(own)| == |own|
    ensures forall i :: 0 <= i < |own| ==> Links(own)[i] == LinkOf(own[i]).value
  {
    hide Select, LinkOf, ParentAt;
    SelectAll(own, LinkOfRow());
  }

  /** A foreign key that resolves has one usage per key column: usage `i` is what the key column with the
      `i`-th ordinal points at. */
  lemma {:induction false} UsagesInKeyOrder(own: seq<KeyColumnRow>, parents: seq<KeyColumnRow>)
    requires Resolves(own, parents)
    ensures |UsagesOf(own, parents)| == |own| == |Sorted(Links(own))|
    ensures forall i :: 0 <= i < |own| ==> Some(UsagesOf(own, parents)[i]) == ParentAt(parents, Sorted(Links(own))[i].position)
    ensures InOrder(Sorted(Links(own))) && multiset(Sorted(Links(own))) == multiset(Links(own))
  {
    hide Select, Sorted, LinkOf, ParentAt, Links, InOrder;
    LinksOf(own, parents);
    var links := Links(own);
    var sorted := Sorted(links);
    SortedIsStableSort(links, 0);
    assert |sorted| == |multiset(sorted)| == |multiset(links)| == |links|;
    forall i | 0 <= i < |sorted| ensures Resolve(parents)(sorted[i]).Some? {
      var j := Source(links, sorted, i);
    }
    SelectAll(sorted, Resolve(parents));
    assert Links(own) == Select(own, LinkOfRow()) by { LinksIsSelect(own); }
  }

  lemma {:induction false} LinksIsSelect(own: seq<KeyColumnRow>)
    ensures Links(own) == Select(own, LinkOfRow())
  {
  }

  /** Where a sorted link comes from. */
  lemma {:induction false} Source(links: seq<Link>, sorted: seq<Link>, i: nat) returns (j: nat)
    requires multiset(sorted) == multiset(links) && i < |sorted|
    ensures j < |links| && links[j] == sorted[i]
  {
    assert sorted[i] in multiset(sorted);
    assert sorted[i] in links;
    j :| 0 <= j < |links| && links[j] == sorted[i];
  }

  /** Usages line up with the reported key columns, which come in batch order. */
  predicate Aligned(own: seq<KeyColumnRow>, parents: seq<KeyColumnRow>)
    requires Resolves(own, parents)
  {
    && |UsagesOf(own, parents)| == |own|
    && forall i :: 0 <= i < |own| ==> UsagesOf(own, parents)[i] == Target(own, parents, i)
  }

  /** No two key columns point at the same parent column. */
  predicate DifferentTargets(own: seq<KeyColumnRow>, parents: seq<KeyColumnRow>)
    requires Resolves(own, parents)
  {
    forall i, j :: 0 <= i < j < |own| ==> Target(own, parents, i) != Target(own, parents, j)
  }

  /** Usages of a foreign key that resolves line up with the reported columns exactly when the key column with
      the `i`-th ordinal points where the `i`-th reported one does. Ordinal order in the batch, which the
      query's ORDER BY asks for, always suffices; it is needed too unless parent columns repeat. */
  lemma {:induction false} AlignedExactlyInOrder(own: seq<KeyColumnRow>, parents: seq<KeyColumnRow>)
    requires Resolves(own, parents)
    ensures |Sorted(Links(own))| == |own|
    ensures Aligned(own, parents) <==>
            forall i :: 0 <= i < |own| ==> ParentAt(parents, Sorted(Links(own))[i].position) == Some(Target(own, parents, i))
    ensures InOrder(Links(own)) ==> Aligned(own, parents)
    ensures Aligned(own, parents) && DifferentTargets(own, parents) ==> InOrder(Links(own))
  {
    hide Sorted, LinkOf, ParentAt, Links, InOrder, UsagesOf;
    LinksOf(own, parents);
    UsagesInKeyOrder(own, parents);
    var links, sorted := Links(own), Sorted(Links(own));
    if InOrder(links) {
      SortedOfOrdered(links);
    }
    if Aligned(own, parents) && DifferentTargets(own, parents) {
      forall i | 0 <= i < |own| ensures sorted[i] == links[i] {
        var j := Source(links, sorted, i);
        assert Target(own, parents, j) == UsagesOf(own, parents)[i] == Target(own, parents, i);
      }
      assert sorted == links;
    }
  }

  /** Key columns out of ordinal order are reported against the wrong parent columns. */
  lemma {:induction false} OutOfOrder() returns (own: seq<KeyColumnRow>, parents: seq<KeyColumnRow>)
    ensures Resolves(own, parents) && !Aligned(own, parents)
  {
    hide Select, Sorted, Value;
    own := [KeyColumnRow("", "fk", "", "child", "b", "2", Some("2")), KeyColumnRow("", "fk", "", "child", "a", "1", Some("1"))];
    parents := [KeyColumnRow("", "pk", "", "parent", "x", "1", None), KeyColumnRow("", "pk", "", "parent", "y", "2", None)];
    OneDigit('1');
    OneDigit('2');
    var x, y := UsageOf(parents[0]), UsageOf(parents[1]);
    assert ParentAt(parents[..1], 1) == Some(x) && parents[..1] == [parents[0]];
    assert ParentAt(parents, 1) == Some(x) && ParentAt(parents, 2) == Some(y);
    assert x.column == "x" && y.column == "y";
    LinksOf(own, parents);
    assert Links(own)[0].ordinal > Links(own)[1].ordinal;
    AlignedExactlyInOrder(own, parents);
  }

  /** With a repeated parent column usages can line up out of order. */
  lemma {:induction false} RepeatedParent() returns (own: seq<KeyColumnRow>, parents: seq<KeyColumnRow>)
    ensures Resolves(own, parents) && Aligned(own, parents) && !InOrder(Links(own))
  {
    hide Select, Sorted, Value, UsagesOf;
    own := [KeyColumnRow("", "fk", "", "child", "b", "2", Some("1")), KeyColumnRow("", "fk", "", "child", "a", "1", Some("1"))];
    parents := [KeyColumnRow("", "pk", "", "parent", "x", "1", None)];
    OneDigit('1');
    OneDigit('2');
    assert ParentAt(parents, 1) == Some(UsageOf(parents[0]));
    LinksOf(own, parents);
    assert Links(own)[0].ordinal > Links(own)[1].ordinal;
    UsagesInKeyOrder(own, parents);
    forall i | 0 <= i < |own| ensures UsagesOf(own, parents)[i] == Target(own, parents, i) {
      var j := Source(Links(own), Sorted(Links(own)), i);
    }
  }

  lemma {:induction false} OneDigit(c: char)
    requires IsDigit(c)
    ensures ParseI64([c]) == Some(DigitValue(c))
  {
    hide Value;
    EmptyValue();
    ValueOfAppend([], c);
    assert [] + [c] == [c];
  }

  // ---- The hierarchy -----------------------------------------------------------------------------------------

  ghost predicate Keeps(filter: Option<string>, name: string) {
    filter.Some? ==> Matches(filter.value, name)
  }

  predicate KeepsType(types: Option<seq<string>>, tableType: string) {
    types.Some? ==> tableType in types.value
  }

  /** `as i32`. */
  function Truncate(x: int): int {
    (x + 0x8000_0000) % 0x1_0000_0000 - 0x8000_0000
  }

  function ColumnOf(r: ColumnRow): Column {
    Column(r.name, Truncate(r.ordinal), SameName(r.nullable, "YES"), r.typeName)
  }

  function ColumnKey(): ColumnRow -> Name2 {
    (r: ColumnRow) => (r.schema, r.table)
  }

  function ConstraintKey(): ConstraintRow -> Name2 {
    (r: ConstraintRow) => (r.schema, r.table)
  }

  function TableKey(): TableRow -> string {
    (r: TableRow) => r.schema
  }

  ghost function KeptColumn(filter: Option<string>): ColumnRow -> Option<Column> {
    (r: ColumnRow) => if Keeps(filter, r.name) then Some(ColumnOf(r)) else None
  }

  ghost function ColumnIn(table: Name2, filter: Option<string>): ColumnRow -> Option<Column> {
    (r: ColumnRow) => if (r.schema, r.table) == table && Keeps(filter, r.name) then Some(ColumnOf(r)) else None
  }

  function ColumnName(): KeyColumnRow -> Option<string> {
    (k: KeyColumnRow) => Some(k.column)
  }

  function ColumnNameIn(key: Name2): KeyColumnRow -> Option<string> {
    (k: KeyColumnRow) => if (k.constraintSchema, k.constraintName) == key then Some(k.column) else None
  }

  /** One constraint, by scanning the key-column and referential batches. */
  function NaiveConstraint(b: Batches, schema: string, r: ConstraintRow): Constraint {
    Constraint(Some(r.name), r.constraintType, Select(Rows(b.keyColumns), ColumnNameIn((schema, r.name))),
               if r.constraintType == "FOREIGN KEY"
               then NaiveUsages(Rows(b.keyColumns), Rows(b.referential), (schema, r.name)) else [])
  }

  function AnyConstraint(b: Batches, schema: string): ConstraintRow -> Option<Constraint> {
    (r: ConstraintRow) => Some(NaiveConstraint(b, schema, r))
  }

  function ConstraintIn(b: Batches, table: Name2): ConstraintRow -> Option<Constraint> {
    (r: ConstraintRow) => if (r.schema, r.table) == table then Some(NaiveConstraint(b, table.0, r)) else None
  }

  /** One table, by scanning the column and constraint batches. */
  ghost function NaiveTable(b: Batches, f: Filters, schema: string, r: TableRow): Option<Table> {
    if Keeps(f.table, r.name) && KeepsType(f.tableTypes, r.tableType) then
      Some(Table(r.name, r.tableType, Select(Rows(b.columns), ColumnIn((schema, r.name), f.column)),
                 Select(Rows(b.constraints), ConstraintIn(b, (schema, r.name)))))
    else None
  }

  ghost function KeptTable(b: Batches, f: Filters, schema: string): TableRow -> Option<Table> {
    (r: TableRow) => NaiveTable(b, f, schema, r)
  }

  ghost function TableIn(b: Batches, f: Filters, schema: string): TableRow -> Option<Table> {
    (r: TableRow) => if r.schema == schema then NaiveTable(b, f, schema, r) else None
  }

  /** One schema, by scanning the table batch. */
  ghost function NaiveSchema(b: Batches, f: Filters): string -> Option<DbSchema> {
    (name: string) =>
      if Keeps(f.schema, name) then Some(DbSchema(name, Select(Rows(b.tables), TableIn(b, f, name)))) else None
  }

  /** The nested filter-and-rescan loops. */
  ghost function NaiveObjects(b: Batches, f: Filters): seq<DbSchema> {
    Select(b.schemata, NaiveSchema(b, f))
  }

  // ---- What the hierarchy holds ----------------------------------------------------------------------------

  /** The schemas of the batch that match the schema filter. */
  lemma {:induction false} ListedSchemas(b: Batches, f: Filters, name: string)
    ensures (exists d :: d in NaiveObjects(b, f) && d.name == name) <==>
            name in b.schemata && (f.schema.Some? ==> Matches(f.schema.value, name))
  {
    hide Select, Matches;
    if d :| d in NaiveObjects(b, f) && d.name == name {
      SelectMember(b.schemata, NaiveSchema(b, f), d);
    }
    if name in b.schemata && (f.schema.Some? ==> Matches(f.schema.value, name)) {
      var d := DbSchema(name, Select(Rows(b.tables), TableIn(b, f, name)));
      var i :| 0 <= i < |b.schemata| && b.schemata[i] == name;
      assert NaiveSchema(b, f)(b.schemata[i]) == Some(d);
      SelectMember(b.schemata, NaiveSchema(b, f), d);
    }
  }

  lemma {:induction false} SchemaTables(b: Batches, f: Filters, d: DbSchema)
    requires d in NaiveObjects(b, f)
    ensures d.tables == Select(Rows(b.tables), TableIn(b, f, d.name))
  {
    hide Select, Matches;
    SelectMember(b.schemata, NaiveSchema(b, f), d);
  }

  /** The tables of the batch in this schema that match the name filter and have a listed type. */
  lemma {:induction false} ListedTables(b: Batches, f: Filters, d: DbSchema, name: string, tableType: string)
    requires d in NaiveObjects(b, f)
    ensures (exists t :: t in d.tables && t.name == name && t.tableType == tableType) <==>
            && TableRow(d.name, name, tableType) in Rows(b.tables)
            && (f.table.Some? ==> Matches(f.table.value, name)) && (f.tableTypes.Some? ==> tableType in f.tableTypes.value)
  {
    hide Select, Matches;
    SchemaTables(b, f, d);
    var pick := TableIn(b, f, d.name);
    if t :| t in d.tables && t.name == name && t.tableType == tableType {
      SelectMember(Rows(b.tables), pick, t);
      var i :| 0 <= i < |Rows(b.tables)| && pick(Rows(b.tables)[i]) == Some(t);
      assert Rows(b.tables)[i] == TableRow(d.name, name, tableType);
    }
    var r := TableRow(d.name, name, tableType);
    if r in Rows(b.tables) && pick(r).Some? {
      var i :| 0 <= i < |Rows(b.tables)| && Rows(b.tables)[i] == r;
      SelectMember(Rows(b.tables), pick, pick(r).value);
      assert pick(Rows(b.tables)[i]) == Some(pick(r).value);
    }
  }

  lemma {:induction false} TableContents(b: Batches, f: Filters, d: DbSchema, t: Table)
    requires d in NaiveObjects(b, f) && t in d.tables
    ensures t.columns == Select(Rows(b.columns), ColumnIn((d.name, t.name), f.column))
    ensures t.constraints == Select(Rows(b.constraints), ConstraintIn(b, (d.name, t.name)))
  {
    hide Select, Matches;
    SchemaTables(b, f, d);
    SelectMember(Rows(b.tables), TableIn(b, f, d.name), t);
  }

  /** The columns of the batch in this table that match the column filter, nullable exactly where the row says YES. */
  lemma {:induction false} ListedColumns(b: Batches, f: Filters, d: DbSchema, t: Table, c: Column)
    requires d in NaiveObjects(b, f) && t in d.tables
    ensures c in t.columns <==>
            exists i :: 0 <= i < |Rows(b.columns)| && var r := Rows(b.columns)[i];
              && r.schema == d.name && r.table == t.name && (f.column.Some? ==> Matches(f.column.value, r.name))
              && c.name == r.name && c.typeName == r.typeName && (c.nullable <==> SameName(r.nullable, "YES"))
              && -0x8000_0000 <= c.ordinal < 0x8000_0000 && (c.ordinal - r.ordinal) % 0x1_0000_0000 == 0
  {
    hide Select, Matches, SameName, Truncate;
    TableContents(b, f, d, t);
    var pick, rows := ColumnIn((d.name, t.name), f.column), Rows(b.columns);
    SelectMember(rows, pick, c);
    forall i | 0 <= i < |rows|
      ensures pick(rows[i]) == Some(c) <==>
              var r := rows[i];
              && r.schema == d.name && r.table == t.name && (f.column.Some? ==> Matches(f.column.value, r.name))
              && c.name == r.name && c.typeName == r.typeName && (c.nullable <==> SameName(r.nullable, "YES"))
              && -0x8000_0000 <= c.ordinal < 0x8000_0000 && (c.ordinal - r.ordinal) % 0x1_0000_0000 == 0
    {
      TruncateMeans(rows[i].ordinal, c.ordinal);
    }
  }

  lemma {:induction false} TruncateMeans(x: int, y: int)
    ensures y == Truncate(x) <==> -0x8000_0000 <= y < 0x8000_0000 && (y - x) % 0x1_0000_0000 == 0
  {
  }

  /** The constraints of the batch in this table. Only foreign keys have usages. */
  lemma {:induction false} ListedConstraints(b: Batches, f: Filters, d: DbSchema, t: Table, name: string, constraintType: string)
    requires d in NaiveObjects(b, f) && t in d.tables
    ensures ConstraintRow(d.name, t.name, name, constraintType) in Rows(b.constraints) <==>
            exists c :: c in t.constraints && c.name == Some(name) && c.constraintType == constraintType
    ensures forall c :: c in t.constraints && c.constraintType != "FOREIGN KEY" ==> c.usages == []
  {
    hide Select, Matches, NaiveUsages;
    TableContents(b, f, d, t);
    var pick, rows := ConstraintIn(b, (d.name, t.name)), Rows(b.constraints);
    forall c | c in t.constraints ensures c.constraintType != "FOREIGN KEY" ==> c.usages == [] {
      SelectMember(rows, pick, c);
    }
    var r := ConstraintRow(d.name, t.name, name, constraintType);
    if r in rows {
      var i :| 0 <= i < |rows| && rows[i] == r;
      SelectMember(rows, pick, pick(r).value);
      assert pick(rows[i]) == Some(pick(r).value);
    }
    if c :| c in t.constraints && c.name == Some(name) && c.constraintType == constraintType {
      SelectMember(rows, pick, c);
      var i :| 0 <= i < |rows| && pick(rows[i]) == Some(c);
      assert rows[i] == r;
    }
  }

  // ---- The hash-grouped assembly -----------------------------------------------------------------------------

  method Matching(filter: Option<string>, name: string) returns (kept: bool)
    ensures kept <==> Keeps(filter, name)
  {
    kept := true;
    if filter.Some? {
      var steps;
      kept, steps := LikeMatcher(filter.value).Run(name);
    }
  }

  /** `collect_columns`. */
  method CollectColumns(byTable: map<Name2, seq<ColumnRow>>, table: Name2, filter: Option<string>) returns (columns: seq<Column>)
    ensures columns == Select(Lookup(byTable, table), KeptColumn(filter))
  {
    hide Select, Matches, ColumnOf;
    var rows := Lookup(byTable, table);
    columns := [];
    var i := 0;
    assert rows[..0] == [];
    SelectNone(KeptColumn(filter));
    while i < |rows|
      invariant 0 <= i <= |rows| && columns == Select(rows[..i], KeptColumn(filter))
    {
      SelectStep(rows, KeptColumn(filter), i);
      var kept := Matching(filter, rows[i].name);
      i := i + 1;
      if !kept {
        continue;
      }
      columns := columns + [ColumnOf(rows[i - 1])];
    }
    assert rows[..i] == rows;
  }

  /** The lookup maps of one fetch. */
  datatype Index = Index(tables: map<string, seq<TableRow>>, columns: map<Name2, seq<ColumnRow>>,
                         constraints: map<Name2, seq<ConstraintRow>>, keyColumns: map<Name2, seq<KeyColumnRow>>,
                         referential: map<Name2, Name2>)
  {
    ghost predicate Of(b: Batches) {
      && Indexes(tables, Rows(b.tables), TableKey())
      && Indexes(columns, Rows(b.columns), ColumnKey())
      && Indexes(constraints, Rows(b.constraints), ConstraintKey())
      && Indexes(keyColumns, Rows(b.keyColumns), KeyOf())
      && forall k :: Find(referential, k) == FirstReferential(Rows(b.referential), k)
    }
  }

  method BuildIndex(b: Batches) returns (x: Index)
    ensures x.Of(b)
  {
    hide FirstReferential, Find;
    var tables := GroupBy(Rows(b.tables), TableKey());
    var columns := GroupBy(Rows(b.columns), ColumnKey());
    var constraints := GroupBy(Rows(b.constraints), ConstraintKey());
    var keyColumns := GroupBy(Rows(b.keyColumns), KeyOf());
    var referential := GroupReferential(Rows(b.referential));
    x := Index(tables, columns, constraints, keyColumns, referential);
  }

  /** One constraint from the lookup maps. */
  method CollectConstraint(x: Index, ghost b: Batches, schema: string, r: ConstraintRow) returns (c: Constraint)
    requires x.Of(b)
    ensures c == NaiveConstraint(b, schema, r)
  {
    hide Select, FirstReferential, UsagesOf;
    var key := (schema, r.name);
    var rows := Lookup(x.keyColumns, key);
    var columns: seq<string> := [];
    var i := 0;
    assert rows[..0] == [];
    SelectNone(ColumnName());
    while i < |rows|
      invariant 0 <= i <= |rows| && columns == Select(rows[..i], ColumnName())
    {
      SelectStep(rows, ColumnName(), i);
      columns := columns + [rows[i].column];
      i := i + 1;
    }
    assert rows[..i] == rows;
    SelectGroup(Rows(b.keyColumns), KeyOf(), key, ColumnName(), ColumnNameIn(key));
    var usages := [];
    if r.constraintType == "FOREIGN KEY" {
      usages := ForeignKeyUsages(x.keyColumns, x.referential, key);
      assert Find(x.referential, key) == FirstReferential(Rows(b.referential), key);
    }
    c := Constraint(Some(r.name), r.constraintType, columns, usages);
  }

  /** `collect_constraints`. */
  method CollectConstraints(x: Index, ghost b: Batches, table: Name2) returns (out: seq<Constraint>)
    requires x.Of(b)
    ensures out == Select(Rows(b.constraints), ConstraintIn(b, table))
  {
    hide Select, NaiveConstraint;
    ghost var pick := AnyConstraint(b, table.0);
    var rows := Lookup(x.constraints, table);
    out := [];
    var i := 0;
    assert rows[..0] == [];
    SelectNone(pick);
    while i < |rows|
      invariant 0 <= i <= |rows| && out == Select(rows[..i], pick)
    {
      SelectStep(rows, pick, i);
      var c := CollectConstraint(x, b, table.0, rows[i]);
      out := out + [c];
      i := i + 1;
    }
    assert rows[..i] == rows;
    SelectGroup(Rows(b.constraints), ConstraintKey(), table, pick, ConstraintIn(b, table));
  }

  method CollectTables(x: Index, ghost b: Batches, f: Filters, schema: string) returns (tables: seq<Table>)
    requires x.Of(b)
    ensures tables == Select(Rows(b.tables), TableIn(b, f, schema))
  {
    hide Select, Matches;
    ghost var pick := KeptTable(b, f, schema);
    var rows := Lookup(x.tables, schema);
    tables := [];
    var i := 0;
    assert rows[..0] == [];
    SelectNone(pick);
    while i < |rows|
      invariant 0 <= i <= |rows| && tables == Select(rows[..i], pick)
    {
      SelectStep(rows, pick, i);
      var r := rows[i];
      i := i + 1;
      var kept := Matching(f.table, r.name);
      if !kept {
        continue;
      }
      if !KeepsType(f.tableTypes, r.tableType) {
        continue;
      }
      var columns := CollectColumns(x.columns, (schema, r.name), f.column);
      SelectGroup(Rows(b.columns), ColumnKey(), (schema, r.name), KeptColumn(f.column), ColumnIn((schema, r.name), f.column));
      var constraints := CollectConstraints(x, b, (schema, r.name));
      tables := tables + [Table(r.name, r.tableType, columns, constraints)];
    }
    assert rows[..i] == rows;
    SelectGroup(Rows(b.tables), TableKey(), schema, pick, TableIn(b, f, schema));
  }

  /** `assemble_objects`: the grouped assembly is the nested filter-and-rescan, order included. */
  method AssembleObjects(b: Batches, f: Filters) returns (result: seq<DbSchema>)
    ensures result == NaiveObjects(b, f)
  {
    hide Select, Matches;
    var x := BuildIndex(b);
    ghost var pick := NaiveSchema(b, f);
    result := [];
    var i := 0;
    assert b.schemata[..0] == [];
    SelectNone(pick);
    while i < |b.schemata|
      invariant 0 <= i <= |b.schemata| && result == Select(b.schemata[..i], pick)
    {
      SelectStep(b.schemata, pick, i);
      var name := b.schemata[i];
      i := i + 1;
      var kept := Matching(f.schema, name);
      if !kept {
        continue;
      }
      var tables := CollectTables(x, b, f, name);
      result := result + [DbSchema(name, tables)];
    }
    assert b.schemata[..i] == b.schemata;
  }
}
