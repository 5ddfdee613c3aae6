/** How much of everything there is: totals over the whole table. */
module Counting {
  import opened Items
  import opened Options
  import opened Containers

  /** The attributes that stay when an item is set to its own kind again. */
  function Lasting(attrs: Attrs): map<Attr, AttrValue> {
    if attrs.None? then map[] else attrs.value - {DecayState, Duration, CorpseOwner}
  }

  /** What a unit is, wherever it sits: its row, its lasting attributes, and for what does
      not stack the number it carries. */
  datatype Sort = Sort(kind: ItemType, lasting: map<Attr, AttrValue>, each: nat)

  function SortOf(e: Entry): Sort {
    Sort(e.kind, Lasting(e.attrs), if e.kind.stackable then 1 else e.count)
  }

  /** A measure says what one unit of a sort is worth; a stack counts once for each unit. */
  type Measure = Sort -> nat

  function UnitCount(e: Entry): nat {
    if e.kind.stackable then e.count else 1
  }

  function Units(e: Entry, f: Measure): nat {
    Times(UnitCount(e), f(SortOf(e)))
  }

  /** Setting a stack to its own kind and another count keeps its sort. */
  lemma RetypeKeepsSort(e: Entry, n: nat)
    requires e.kind.stackable && !e.kind.fluid
    ensures SortOf(SetSubType(SetID(e, e.kind), n)) == SortOf(e)
  {
  }

  /** `n` units of value `v`, by repeated addition to keep the arithmetic linear. */
  function Times(n: nat, v: nat): nat {
    if n == 0 then 0 else v + Times(n - 1, v)
  }

  lemma {:induction false} TimesSum(a: nat, b: nat, v: nat)
    ensures Times(a + b, v) == Times(a, v) + Times(b, v)
  {
    if a != 0 { TimesSum(a - 1, b, v); }
  }

  lemma {:induction false} TimesIsProduct(n: nat, v: nat)
    ensures Times(n, v) == n * v
  {
    if n != 0 { TimesIsProduct(n - 1, v); }
  }

  ghost function Pick(s: set<Id>): Id
    requires s != {}
    ensures Pick(s) in s
  {
    var x :| x in s;
    x
  }

  ghost function UnitsAt(x: Id, t: Table, f: Measure): nat {
    if x in t then Units(t[x], f) else 0
  }

  ghost function Over(s: set<Id>, t: Table, f: Measure): nat {
    if s == {} then 0 else UnitsAt(Pick(s), t, f) + Over(s - {Pick(s)}, t, f)
  }

  ghost function Total(t: Table, f: Measure): nat {
    Over(t.Keys, t, f)
  }

  /** The total does not depend on the order of adding up. */
  lemma {:induction false} OverSplit(s: set<Id>, x: Id, t: Table, f: Measure)
    requires x in s
    ensures Over(s, t, f) == UnitsAt(x, t, f) + Over(s - {x}, t, f)
  {
    var y := Pick(s);
    if y != x {
      OverSplit(s - {y}, x, t, f);
      OverSplit(s - {x}, y, t, f);
      assert (s - {y}) - {x} == (s - {x}) - {y};
    }
  }

  lemma {:induction false} OverSame(s: set<Id>, t: Table, t': Table, f: Measure)
    requires forall x :: x in s ==> UnitsAt(x, t, f) == UnitsAt(x, t', f)
    ensures Over(s, t, f) == Over(s, t', f)
  {
    if s != {} {
      OverSame(s - {Pick(s)}, t, t', f);
    }
  }

  lemma {:induction false} OverApart(a: set<Id>, b: set<Id>, t: Table, f: Measure)
    requires a !! b
    ensures Over(a + b, t, f) == Over(a, t, f) + Over(b, t, f)
  {
    if a == {} {
      assert a + b == b;
    } else {
      var x := Pick(a);
      OverSplit(a + b, x, t, f);
      assert a + b - {x} == (a - {x}) + b;
      OverApart(a - {x}, b, t, f);
    }
  }

  lemma {:induction false} TotalParts(a: set<Id>, t: Table, f: Measure)
    requires a <= t.Keys
    ensures Total(t, f) == Over(a, t, f) + Over(t.Keys - a, t, f)
  {
    assert a + (t.Keys - a) == t.Keys;
    OverApart(a, t.Keys - a, t, f);
  }

  lemma TotalUpdate(t: Table, x: Id, e: Entry, f: Measure)
    requires x in t
    ensures Total(t[x := e], f) == Total(t, f) - Units(t[x], f) + Units(e, f)
  {
    OverSplit(t.Keys, x, t, f);
    OverSplit(t.Keys, x, t[x := e], f);
    assert t[x := e].Keys == t.Keys;
    OverSame(t.Keys - {x}, t, t[x := e], f);
  }

  lemma TotalInsert(t: Table, x: Id, e: Entry, f: Measure)
    requires x !in t
    ensures Total(t[x := e], f) == Total(t, f) + Units(e, f)
  {
    OverSplit(t.Keys + {x}, x, t[x := e], f);
    assert t[x := e].Keys == t.Keys + {x} && t.Keys + {x} - {x} == t.Keys;
    OverSame(t.Keys, t, t[x := e], f);
  }

  lemma TotalRemove(t: Table, x: Id, f: Measure)
    requires x in t
    ensures Total(t - {x}, f) == Total(t, f) - Units(t[x], f)
  {
    OverSplit(t.Keys, x, t, f);
    assert (t - {x}).Keys == t.Keys - {x};
    OverSame(t.Keys - {x}, t, t - {x}, f);
  }

  /** Links carry no units. */
  lemma TotalRelink(t: Table, a: Id, p: Option<Id>, b: Id, list: seq<Id>, f: Measure)
    requires a in t && b in t
    ensures var t1 := t[a := t[a].(parent := p)];
      Total(t1[b := t1[b].(itemlist := list)], f) == Total(t, f)
  {
    var t1 := t[a := t[a].(parent := p)];
    TotalUpdate(t, a, t[a].(parent := p), f);
    TotalUpdate(t1, b, t1[b].(itemlist := list), f);
  }
}
