/** Writes regrouped by class, as `group_batch` regroups node rows by label and edge rows by
    type, and the law that regrouping keeps the meaning of the writes. */
module Regrouping {
  import opened Properties

  /** One write: set `props` on the item `key` of class `cls`. */
  datatype Write<C, K> = Write(cls: C, key: K, props: Props)

  datatype Row<K> = Row(key: K, props: Props)

  /** One entry of an insertion-ordered dict from a class to its rows. */
  datatype Group<C, K> = Group(cls: C, rows: seq<Row<K>>)

  // ---- what a list of writes means -------------------------------------------------------

  /** What happens to one item: nothing, or the merge of some properties. */
  datatype Effect = Untouched | Sets(props: Props)

  /** Last writer wins, property by property. */
  function Then(first: Effect, second: Effect): Effect {
    if second.Untouched? then first
    else if first.Untouched? then second
    else Sets(first.props + second.props)
  }

  /** The effect of a list of writes on the item `k`, whatever class it is written under. */
  function EffectOn<C, K(==)>(ws: seq<Write<C, K>>, k: K): Effect {
    if ws == [] then Untouched
    else
      var last := ws[|ws| - 1];
      Then(EffectOn(ws[..|ws| - 1], k), if last.key == k then Sets(last.props) else Untouched)
  }

  /** The effect on `k` of the writes of class `c` alone. */
  function EffectUnder<C(==), K(==)>(ws: seq<Write<C, K>>, c: C, k: K): Effect {
    if ws == [] then Untouched
    else
      var last := ws[|ws| - 1];
      Then(EffectUnder(ws[..|ws| - 1], c, k),
           if last.cls == c && last.key == k then Sets(last.props) else Untouched)
  }

  /** A key is written under one class only. */
  ghost predicate OneClass<C, K>(ws: seq<Write<C, K>>) {
    forall i, j :: 0 <= i < |ws| && 0 <= j < |ws| && ws[i].key == ws[j].key ==> ws[i].cls == ws[j].cls
  }

  lemma {:induction false} ThenAssociates(x: Effect, y: Effect, z: Effect)
    ensures Then(Then(x, y), z) == Then(x, Then(y, z))
  {
    if x.Sets? && y.Sets? && z.Sets? {
      assert x.props + y.props + z.props == x.props + (y.props + z.props);
    }
  }

  lemma {:induction false} EffectOnConcat<C, K>(a: seq<Write<C, K>>, b: seq<Write<C, K>>, k: K)
    ensures EffectOn(a + b, k) == Then(EffectOn(a, k), EffectOn(b, k))
    decreases |b|
  {
    if b == [] {
      assert a + b == a;
    } else {
      var n := |b| - 1;
      assert (a + b)[..|a + b| - 1] == a + b[..n];
      EffectOnConcat(a, b[..n], k);
      ThenAssociates(EffectOn(a, k), EffectOn(b[..n], k), if b[n].key == k then Sets(b[n].props) else Untouched);
    }
  }

  lemma {:induction false} EffectUnderConcat<C, K>(a: seq<Write<C, K>>, b: seq<Write<C, K>>, c: C, k: K)
    ensures EffectUnder(a + b, c, k) == Then(EffectUnder(a, c, k), EffectUnder(b, c, k))
    decreases |b|
  {
    if b == [] {
      assert a + b == a;
    } else {
      var n := |b| - 1;
      assert (a + b)[..|a + b| - 1] == a + b[..n];
      EffectUnderConcat(a, b[..n], c, k);
      ThenAssociates(EffectUnder(a, c, k), EffectUnder(b[..n], c, k),
                     if b[n].cls == c && b[n].key == k then Sets(b[n].props) else Untouched);
    }
  }

  /** An item is touched under a class exactly when some write names both. */
  lemma {:induction false} TouchedUnder<C, K>(ws: seq<Write<C, K>>, c: C, k: K)
    ensures EffectUnder(ws, c, k).Sets? <==> exists i :: 0 <= i < |ws| && ws[i].cls == c && ws[i].key == k
    decreases |ws|
  {
    if ws != [] {
      var n := |ws| - 1;
      TouchedUnder(ws[..n], c, k);
      if i :| 0 <= i < |ws| && ws[i].cls == c && ws[i].key == k {
        assert i < n ==> ws[..n][i] == ws[i];
      }
    }
  }

  lemma {:induction false} TouchedOn<C, K>(ws: seq<Write<C, K>>, k: K)
    ensures EffectOn(ws, k).Sets? <==> exists i :: 0 <= i < |ws| && ws[i].key == k
    decreases |ws|
  {
    if ws != [] {
      var n := |ws| - 1;
      TouchedOn(ws[..n], k);
      if i :| 0 <= i < |ws| && ws[i].key == k {
        assert i < n ==> ws[..n][i] == ws[i];
      }
    }
  }

  /** When every write of `k` has class `c`, only that class matters to it. */
  lemma {:induction false} SoleClass<C, K>(ws: seq<Write<C, K>>, c: C, k: K)
    requires forall i :: 0 <= i < |ws| && ws[i].key == k ==> ws[i].cls == c
    ensures EffectOn(ws, k) == EffectUnder(ws, c, k)
    decreases |ws|
  {
    if ws != [] {
      SoleClass(ws[..|ws| - 1], c, k);
    }
  }

  function Keys<C, K(==)>(ws: seq<Write<C, K>>): set<K> {
    if ws == [] then {} else Keys(ws[..|ws| - 1]) + {ws[|ws| - 1].key}
  }

  function Classes<C(==), K>(ws: seq<Write<C, K>>): set<C> {
    if ws == [] then {} else Classes(ws[..|ws| - 1]) + {ws[|ws| - 1].cls}
  }

  /** The keys of a list of writes are the items it touches. */
  lemma {:induction false} KeysAreTouched<C, K>(ws: seq<Write<C, K>>, k: K)
    ensures k in Keys(ws) <==> EffectOn(ws, k).Sets?
    decreases |ws|
  {
    if ws != [] {
      KeysAreTouched(ws[..|ws| - 1], k);
    }
  }

  // ---- the grouped form ------------------------------------------------------------------

  function Tagged<C, K>(c: C, rows: seq<Row<K>>): seq<Write<C, K>> {
    if rows == [] then []
    else
      var last := rows[|rows| - 1];
      Tagged(c, rows[..|rows| - 1]) + [Write(c, last.key, last.props)]
  }

  /** The writes of a grouped dict in the order it is iterated. */
  function Flat<C, K>(groups: seq<Group<C, K>>): seq<Write<C, K>> {
    if groups == [] then []
    else Flat(groups[..|groups| - 1]) + Tagged(groups[|groups| - 1].cls, groups[|groups| - 1].rows)
  }

  function GroupAt<C(==), K>(groups: seq<Group<C, K>>, c: C): (i: nat)
    ensures i <= |groups|
    ensures i < |groups| ==> groups[i].cls == c
    ensures forall j :: 0 <= j < i ==> groups[j].cls != c
  {
    if groups == [] then 0
    else if groups[0].cls == c then 0
    else 1 + GroupAt(groups[1..], c)
  }

  function RowAt<K(==)>(rows: seq<Row<K>>, k: K): (i: nat)
    ensures i <= |rows|
    ensures i < |rows| ==> rows[i].key == k
    ensures forall j :: 0 <= j < i ==> rows[j].key != k
  {
    if rows == [] then 0
    else if rows[0].key == k then 0
    else 1 + RowAt(rows[1..], k)
  }

  function RowsOf<C(==), K>(groups: seq<Group<C, K>>, c: C): seq<Row<K>> {
    var i := GroupAt(groups, c);
    if i < |groups| then groups[i].rows else []
  }

  /** `dict.setdefault(cls, [])` followed by an update of the list. */
  function SetRows<C(==), K>(groups: seq<Group<C, K>>, c: C, rows: seq<Row<K>>): seq<Group<C, K>> {
    var i := GroupAt(groups, c);
    if i < |groups| then groups[i := Group(c, rows)] else groups + [Group(c, rows)]
  }

  /** Node rows: a second row for the same id updates the first one's properties. */
  function Upsert<K(==)>(rows: seq<Row<K>>, row: Row<K>): seq<Row<K>> {
    var i := RowAt(rows, row.key);
    if i < |rows| then rows[i := Row(row.key, rows[i].props + row.props)] else rows + [row]
  }

  /** Rows after one more write; `dedup` tells node rows from edge rows. */
  function AddRow<K(==)>(rows: seq<Row<K>>, row: Row<K>, dedup: bool): seq<Row<K>> {
    if dedup then Upsert(rows, row) else rows + [row]
  }

  function AddWrite<C(==), K(==)>(groups: seq<Group<C, K>>, w: Write<C, K>, dedup: bool): seq<Group<C, K>> {
    SetRows(groups, w.cls, AddRow(RowsOf(groups, w.cls), Row(w.key, w.props), dedup))
  }

  function Grouped<C(==), K(==)>(ws: seq<Write<C, K>>, dedup: bool): seq<Group<C, K>> {
    if ws == [] then [] else AddWrite(Grouped(ws[..|ws| - 1], dedup), ws[|ws| - 1], dedup)
  }

  // ---- regrouping keeps the meaning ------------------------------------------------------

  function RowsEffect<K(==)>(rows: seq<Row<K>>, k: K): Effect {
    if rows == [] then Untouched
    else
      var last := rows[|rows| - 1];
      Then(RowsEffect(rows[..|rows| - 1], k), if last.key == k then Sets(last.props) else Untouched)
  }

  ghost predicate DistinctClasses<C, K>(groups: seq<Group<C, K>>) {
    forall i, j :: 0 <= i < j < |groups| ==> groups[i].cls != groups[j].cls
  }

  ghost predicate DistinctKeys<K>(rows: seq<Row<K>>) {
    forall i, j :: 0 <= i < j < |rows| ==> rows[i].key != rows[j].key
  }

  lemma {:induction false} AbsentEffect<K>(rows: seq<Row<K>>, k: K)
    requires forall i :: 0 <= i < |rows| ==> rows[i].key != k
    ensures RowsEffect(rows, k) == Untouched
    decreases |rows|
  {
    if rows != [] {
      AbsentEffect(rows[..|rows| - 1], k);
    }
  }

  /** The one row of a key may absorb a later write of that key. */
  lemma {:induction false} AbsorbEffect<K>(rows: seq<Row<K>>, i: nat, p: Props, k: K)
    requires i < |rows| && DistinctKeys(rows)
    ensures RowsEffect(rows[i := Row(rows[i].key, rows[i].props + p)], k)
         == Then(RowsEffect(rows, k), if rows[i].key == k then Sets(p) else Untouched)
    decreases |rows|
  {
    var n := |rows| - 1;
    var after := rows[i := Row(rows[i].key, rows[i].props + p)];
    if i < n {
      assert after[..n] == rows[..n][i := Row(rows[i].key, rows[i].props + p)];
      AbsorbEffect(rows[..n], i, p, k);
    } else {
      assert after[..n] == rows[..n];
      if rows[i].key == k {
        AbsentEffect(rows[..n], k);
      }
    }
  }

  lemma {:induction false} AddRowEffect<K>(rows: seq<Row<K>>, row: Row<K>, dedup: bool, k: K)
    requires dedup ==> DistinctKeys(rows)
    ensures dedup ==> DistinctKeys(AddRow(rows, row, dedup))
    ensures RowsEffect(AddRow(rows, row, dedup), k)
         == Then(RowsEffect(rows, k), if row.key == k then Sets(row.props) else Untouched)
  {
    var i := RowAt(rows, row.key);
    if dedup && i < |rows| {
      AbsorbEffect(rows, i, row.props, k);
    } else {
      assert (rows + [row])[..|rows|] == rows;
    }
  }

  lemma {:induction false} SetRowsDistinct<C, K>(groups: seq<Group<C, K>>, c: C, rows: seq<Row<K>>)
    requires DistinctClasses(groups)
    ensures DistinctClasses(SetRows(groups, c, rows))
  {
  }

  lemma {:induction false} RowsOfSet<C, K>(groups: seq<Group<C, K>>, c: C, rows: seq<Row<K>>, d: C)
    requires DistinctClasses(groups)
    ensures RowsOf(SetRows(groups, c, rows), d) == if c == d then rows else RowsOf(groups, d)
  {
    var i, after := GroupAt(groups, c), SetRows(groups, c, rows);
    var j := GroupAt(groups, d);
    SetRowsDistinct(groups, c, rows);
    if c == d {
      assert after[i] == Group(c, rows);
    } else if j < |groups| {
      assert after[j] == groups[j];
    } else {
      assert forall m :: 0 <= m < |after| ==> after[m].cls != d;
    }
  }

  lemma {:induction false} GroupedEffect<C, K>(ws: seq<Write<C, K>>, dedup: bool, c: C, k: K)
    ensures DistinctClasses(Grouped(ws, dedup))
    ensures dedup ==> DistinctKeys(RowsOf(Grouped(ws, dedup), c))
    ensures RowsEffect(RowsOf(Grouped(ws, dedup), c), k) == EffectUnder(ws, c, k)
    decreases |ws|
  {
    if ws != [] {
      var init, w := ws[..|ws| - 1], ws[|ws| - 1];
      GroupedEffect(init, dedup, c, k);
      GroupedEffect(init, dedup, w.cls, k);
      var groups := Grouped(init, dedup);
      var rows := RowsOf(groups, w.cls);
      AddRowEffect(rows, Row(w.key, w.props), dedup, k);
      SetRowsDistinct(groups, w.cls, AddRow(rows, Row(w.key, w.props), dedup));
      RowsOfSet(groups, w.cls, AddRow(rows, Row(w.key, w.props), dedup), c);
    }
  }

  lemma {:induction false} TaggedEffect<C, K>(d: C, rows: seq<Row<K>>, c: C, k: K)
    ensures EffectUnder(Tagged(d, rows), c, k) == if c == d then RowsEffect(rows, k) else Untouched
    decreases |rows|
  {
    if rows != [] {
      var n := |rows| - 1;
      TaggedEffect(d, rows[..n], c, k);
      assert Tagged(d, rows)[..|Tagged(d, rows)| - 1] == Tagged(d, rows[..n]);
    }
  }

  lemma {:induction false} FlatEffect<C, K>(groups: seq<Group<C, K>>, c: C, k: K)
    requires DistinctClasses(groups)
    ensures EffectUnder(Flat(groups), c, k) == RowsEffect(RowsOf(groups, c), k)
    decreases |groups|
  {
    if groups != [] {
      var n := |groups| - 1;
      var init, g := groups[..n], groups[n];
      FlatEffect(init, c, k);
      TaggedEffect(g.cls, g.rows, c, k);
      EffectUnderConcat(Flat(init), Tagged(g.cls, g.rows), c, k);
      RowsOfLast(groups, c);
    }
  }

  lemma {:induction false} RowsOfLast<C, K>(groups: seq<Group<C, K>>, c: C)
    requires groups != [] && DistinctClasses(groups)
    ensures var init, g := groups[..|groups| - 1], groups[|groups| - 1];
            && RowsOf(groups, c) == (if g.cls == c then g.rows else RowsOf(init, c))
            && (g.cls == c ==> RowsOf(init, c) == [])
  {
    var n := |groups| - 1;
    var i, j := GroupAt(groups, c), GroupAt(groups[..n], c);
    assert j < n ==> groups[j].cls == c;
    assert i < n ==> groups[..n][i].cls == c;
  }

  /** Regrouping keeps, for every class and key, what the writes of that class do to the key. */
  lemma {:induction false} RegroupingKeepsClasses<C, K>(ws: seq<Write<C, K>>, dedup: bool, c: C, k: K)
    ensures EffectUnder(Flat(Grouped(ws, dedup)), c, k) == EffectUnder(ws, c, k)
  {
    GroupedEffect(ws, dedup, c, k);
    FlatEffect(Grouped(ws, dedup), c, k);
  }

  /** When no key is written under two classes, regrouping keeps what happens to every key. */
  lemma {:induction false} RegroupingKeepsEffects<C, K>(ws: seq<Write<C, K>>, dedup: bool, k: K)
    requires OneClass(ws)
    ensures EffectOn(Flat(Grouped(ws, dedup)), k) == EffectOn(ws, k)
  {
    var flat := Flat(Grouped(ws, dedup));
    TouchedOn(ws, k);
    TouchedOn(flat, k);
    forall i | 0 <= i < |flat| && flat[i].key == k
      ensures exists j :: 0 <= j < |ws| && ws[j].cls == flat[i].cls && ws[j].key == k
    {
      RegroupingKeepsClasses(ws, dedup, flat[i].cls, k);
      TouchedUnder(flat, flat[i].cls, k);
      TouchedUnder(ws, flat[i].cls, k);
    }
    if j :| 0 <= j < |ws| && ws[j].key == k {
      SoleClass(ws, ws[j].cls, k);
      SoleClass(flat, ws[j].cls, k);
      RegroupingKeepsClasses(ws, dedup, ws[j].cls, k);
    }
  }
}
