/**
 The fixed pointer arrays of a slot (`sessions[64]`, `objects[1024]`) as sequences of cells,
 the scans the code runs over them, and the proof that a table whose live handles are distinct
 is a finite map from handles to items.
 */
module Tables {

  datatype Cell<+T> = Free | Used(handle: nat, item: T)

  type Table<+T> = seq<Cell<T>>

  /** The table holds item `x` under handle `h`. */
  ghost predicate Holds<T>(t: Table<T>, h: nat, x: T) {
    exists i :: 0 <= i < |t| && t[i] == Used(h, x)
  }

  ghost predicate Live<T>(t: Table<T>, h: nat) {
    exists i :: 0 <= i < |t| && t[i].Used? && t[i].handle == h
  }

  ghost predicate Distinct<T>(t: Table<T>) {
    forall i, j :: 0 <= i < j < |t| && t[i].Used? && t[j].Used? ==> t[i].handle != t[j].handle
  }

  ghost predicate AllFree<T>(t: Table<T>) {
    forall i :: 0 <= i < |t| ==> t[i] == Free
  }

  function Count<T>(t: Table<T>): (n: nat)
    ensures n <= |t|
  {
    if |t| == 0 then 0 else Count(t[..|t| - 1]) + if t[|t| - 1].Used? then 1 else 0
  }

  /** The lowest free cell at or above `from`, or `|t|`. */
  function FreeFrom<T>(t: Table<T>, from: nat): (r: nat)
    requires from <= |t|
    ensures from <= r <= |t|
    ensures r < |t| ==> t[r].Free?
    ensures forall k :: from <= k < r ==> t[k].Used?
    decreases |t| - from
  {
    if from == |t| || t[from].Free? then from else FreeFrom(t, from + 1)
  }

  /** The first cell used under handle `h`, or `|t|`. */
  function IndexFrom<T>(t: Table<T>, h: nat, from: nat): (r: nat)
    requires from <= |t|
    ensures from <= r <= |t|
    ensures r < |t| ==> t[r].Used? && t[r].handle == h
    ensures forall k :: from <= k < r ==> !(t[k].Used? && t[k].handle == h)
    decreases |t| - from
  {
    if from == |t| || (t[from].Used? && t[from].handle == h) then from else IndexFrom(t, h, from + 1)
  }

  function IndexOf<T>(t: Table<T>, h: nat): (r: nat)
    ensures r <= |t|
    ensures r < |t| ==> t[r].Used? && t[r].handle == h
    ensures forall k :: 0 <= k < r ==> !(t[k].Used? && t[k].handle == h)
  {
    IndexFrom(t, h, 0)
  }

  function SetItem<T>(t: Table<T>, i: nat, x: T): (r: Table<T>)
    requires i < |t| && t[i].Used?
    ensures |r| == |t|
  {
    t[i := Used(t[i].handle, x)]
  }

  /** The live handles in table order. */
  function Handles<T>(t: Table<T>): (hs: seq<nat>)
    ensures |hs| == Count(t)
  {
    if |t| == 0 then []
    else Handles(t[..|t| - 1]) + if t[|t| - 1].Used? then [t[|t| - 1].handle] else []
  }

  /** The finite map a table stands for; a later cell wins, which only matters without `Distinct`. */
  function AsMap<T>(t: Table<T>): map<nat, T> {
    if |t| == 0 then map[]
    else
      var m := AsMap(t[..|t| - 1]);
      if t[|t| - 1].Used? then m[t[|t| - 1].handle := t[|t| - 1].item] else m
  }

  // ----- counting -----

  lemma {:induction false} CountExtremes<T>(t: Table<T>)
    ensures Count(t) == |t| <==> forall k :: 0 <= k < |t| ==> t[k].Used?
    ensures Count(t) == 0 <==> AllFree(t)
  {
    if |t| != 0 {
      var front := t[..|t| - 1];
      CountExtremes(front);
      assert forall k :: 0 <= k < |front| ==> front[k] == t[k];
    }
  }

  lemma {:induction false} CountUpdate<T>(t: Table<T>, i: nat, c: Cell<T>)
    requires i < |t|
    ensures Count(t[i := c]) == Count(t) - (if t[i].Used? then 1 else 0) + (if c.Used? then 1 else 0)
  {
    var n := |t| - 1;
    var u := t[i := c];
    if i == n {
      assert u[..n] == t[..n];
    } else {
      CountUpdate(t[..n], i, c);
      assert u[..n] == t[..n][i := c];
    }
  }

  /** Pigeonhole: below capacity the scan for a free cell always finds one. */
  lemma FreeCellExists<T>(t: Table<T>)
    ensures Count(t) < |t| <==> FreeFrom(t, 0) < |t|
  {
    CountExtremes(t);
  }

  /** The second scan finds a free cell exactly when at least two cells are free. */
  lemma TwoFreeCells<T>(t: Table<T>, a: nat)
    requires a == FreeFrom(t, 0) < |t|
    ensures Count(t) + 2 <= |t| <==> FreeFrom(t, a + 1) < |t|
  {
    var b := FreeFrom(t, a + 1);
    var rest := t[..a] + t[a + 1..];
    CountWithout(t, a);
    CountExtremes(rest);
    if b < |t| {
      assert rest[b - 1] == t[b];
    }
  }

  lemma {:induction false} CountWithout<T>(t: Table<T>, i: nat)
    requires i < |t|
    ensures Count(t[..i] + t[i + 1..]) == Count(t) - if t[i].Used? then 1 else 0
  {
    var n := |t| - 1;
    if i == n {
      assert t[..i] + t[i + 1..] == t[..n];
    } else {
      CountWithout(t[..n], i);
      var rest := t[..i] + t[i + 1..];
      assert rest[..n - 1] == t[..n][..i] + t[..n][i + 1..];
      assert rest[n - 1] == t[n];
    }
  }

  // ----- tables as finite maps -----

  lemma {:induction false} AsMapIsTable<T>(t: Table<T>)
    requires Distinct(t)
    ensures forall h :: h in AsMap(t) <==> Live(t, h)
    ensures forall i :: 0 <= i < |t| && t[i].Used? ==> t[i].handle in AsMap(t) && AsMap(t)[t[i].handle] == t[i].item
    ensures |AsMap(t)| == Count(t)
  {
    if |t| != 0 {
      var n := |t| - 1;
      var front := t[..n];
      AsMapIsTable(front);
      forall h ensures h in AsMap(t) <==> Live(t, h) {
        if h in AsMap(t) {
          if t[n].Used? && h == t[n].handle {
          } else {
            var i :| 0 <= i < |front| && front[i].Used? && front[i].handle == h;
            assert t[i] == front[i];
          }
        }
        if Live(t, h) {
          var i :| 0 <= i < |t| && t[i].Used? && t[i].handle == h;
          if i < n {
            assert front[i] == t[i];
          }
        }
      }
      if t[n].Used? {
        assert t[n].handle !in AsMap(front);
      }
      forall i | 0 <= i < |t| && t[i].Used?
        ensures t[i].handle in AsMap(t) && AsMap(t)[t[i].handle] == t[i].item
      {
        if i < n {
          assert front[i] == t[i];
        }
      }
    }
  }

  /** The linear search of the code is lookup in the map. */
  lemma LookupIsMap<T>(t: Table<T>, h: nat)
    requires Distinct(t)
    ensures IndexOf(t, h) < |t| <==> h in AsMap(t)
    ensures h in AsMap(t) ==> t[IndexOf(t, h)] == Used(h, AsMap(t)[h])
    ensures forall x :: Holds(t, h, x) <==> h in AsMap(t) && AsMap(t)[h] == x
  {
    AsMapIsTable(t);
    if IndexOf(t, h) == |t| {
      assert !Live(t, h);
    }
    forall x ensures Holds(t, h, x) <==> h in AsMap(t) && AsMap(t)[h] == x {
      if h in AsMap(t) && AsMap(t)[h] == x {
        assert t[IndexOf(t, h)] == Used(h, x);
      }
    }
  }

  /** A cell is only ever found at its own place. */
  lemma IndexOfCell<T>(t: Table<T>, i: nat)
    requires Distinct(t) && i < |t| && t[i].Used?
    ensures IndexOf(t, t[i].handle) == i
  {
  }

  lemma InsertIsMap<T>(t: Table<T>, i: nat, h: nat, x: T)
    requires Distinct(t) && i < |t| && t[i].Free? && !Live(t, h)
    ensures Distinct(t[i := Used(h, x)])
    ensures AsMap(t[i := Used(h, x)]) == AsMap(t)[h := x]
  {
    var u := t[i := Used(h, x)];
    AsMapIsTable(t);
    AsMapIsTable(u);
    forall g ensures g in AsMap(u) <==> g in AsMap(t)[h := x] {
      if g in AsMap(t) {
        var k :| 0 <= k < |t| && t[k].Used? && t[k].handle == g;
        assert u[k] == t[k];
      }
      assert u[i].handle == h;
    }
    forall g | g in AsMap(u) ensures AsMap(u)[g] == AsMap(t)[h := x][g] {
      var k :| 0 <= k < |u| && u[k].Used? && u[k].handle == g;
      assert AsMap(u)[g] == u[k].item;
    }
  }

  lemma RemoveIsMap<T>(t: Table<T>, i: nat)
    requires Distinct(t) && i < |t| && t[i].Used?
    ensures Distinct(t[i := Free])
    ensures AsMap(t[i := Free]) == AsMap(t) - {t[i].handle}
  {
    var u := t[i := Free];
    AsMapIsTable(t);
    AsMapIsTable(u);
    forall g ensures g in AsMap(u) <==> g in AsMap(t) - {t[i].handle} {
      if g in AsMap(t) && g != t[i].handle {
        var k :| 0 <= k < |t| && t[k].Used? && t[k].handle == g;
        assert u[k] == t[k];
      }
    }
    forall g | g in AsMap(u) ensures AsMap(u)[g] == AsMap(t)[g] {
      var k :| 0 <= k < |u| && u[k].Used? && u[k].handle == g;
      assert u[k] == t[k];
    }
  }

  lemma UpdateIsMap<T>(t: Table<T>, i: nat, x: T)
    requires Distinct(t) && i < |t| && t[i].Used?
    ensures Distinct(SetItem(t, i, x))
    ensures AsMap(SetItem(t, i, x)) == AsMap(t)[t[i].handle := x]
  {
    var u := SetItem(t, i, x);
    var m := AsMap(t);
    AsMapIsTable(t);
    forall g ensures Live(u, g) <==> Live(t, g) {
      SameHandlesLive(t, u, g);
      SameHandlesLive(u, t, g);
    }
    assert forall k :: 0 <= k < |u| && u[k].Used? && k != i ==> u[k] == t[k] && t[k].handle != t[i].handle;
    AsMapUnique(u, m[t[i].handle := x]);
  }

  lemma SameHandlesLive<T>(t: Table<T>, u: Table<T>, h: nat)
    requires |t| == |u|
    requires forall k :: 0 <= k < |t| && t[k].Used? ==> u[k].Used? && u[k].handle == t[k].handle
    ensures Live(t, h) ==> Live(u, h)
  {
    if Live(t, h) {
      var k :| 0 <= k < |t| && t[k].Used? && t[k].handle == h;
      assert u[k].Used? && u[k].handle == h;
    }
  }

  /** Any map with the table's handles and items is the table's map. */
  lemma AsMapUnique<T>(t: Table<T>, m: map<nat, T>)
    requires Distinct(t)
    requires forall h :: h in m <==> Live(t, h)
    requires forall i :: 0 <= i < |t| && t[i].Used? ==> t[i].handle in m && m[t[i].handle] == t[i].item
    ensures AsMap(t) == m
  {
    AsMapIsTable(t);
    forall h | h in m ensures AsMap(t)[h] == m[h] {
      var i :| 0 <= i < |t| && t[i].Used? && t[i].handle == h;
    }
  }

  /** A used cell's place in the list of handles is the number of used cells before it. */
  lemma {:induction false} HandlesInTableOrder<T>(t: Table<T>, i: nat)
    requires i < |t| && t[i].Used?
    ensures Count(t[..i]) < |Handles(t)| && Handles(t)[Count(t[..i])] == t[i].handle
  {
    var n := |t| - 1;
    if i < n {
      HandlesInTableOrder(t[..n], i);
      assert t[..n][..i] == t[..i];
    }
  }

  /** `Handles` lists exactly the live handles, without repetition, in table order. */
  lemma {:induction false} HandlesAreLive<T>(t: Table<T>)
    ensures forall h :: h in Handles(t) <==> Live(t, h)
    ensures Distinct(t) ==> forall i, j :: 0 <= i < j < |Handles(t)| ==> Handles(t)[i] != Handles(t)[j]
  {
    if |t| != 0 {
      var n := |t| - 1;
      var front := t[..n];
      HandlesAreLive(front);
      forall h ensures h in Handles(t) <==> Live(t, h) {
        if h in Handles(front) {
          var i :| 0 <= i < |front| && front[i].Used? && front[i].handle == h;
          assert t[i] == front[i];
        }
        if Live(t, h) {
          var i :| 0 <= i < |t| && t[i].Used? && t[i].handle == h;
          if i < n {
            assert front[i] == t[i];
          }
        }
      }
      if Distinct(t) && t[n].Used? {
        assert t[n].handle !in Handles(front);
      }
    }
  }
}
