/**
 * The assembler (proteas/proteas.py): an ordered list of
 * (insertion index, unit) entries, a counter that hands out the next
 * insertion index, and a separator. `compile` sorts a copy of the list by
 * (order, with no order after every explicit one; insertion index), keeps
 * the enabled units, renders them, drops empty renders and joins the rest.
 */
module Assembler {
  import opened Wrappers
  import opened Text
  import opened Unit

  datatype Entry = Entry(index: nat, unit: PromptTemplateUnit)

  /** The units an entry list refers to (the objects their `enabled` flags live in). */
  function UnitSet(es: seq<Entry>): set<PromptTemplateUnit> {
    set e | e in es :: e.unit
  }

  // -------------------------------------------------------------------
  // The sort key: (order, or +infinity when unset; insertion index).

  /** Strict comparison of two entries by sort key. */
  predicate KeyLess(a: Entry, b: Entry) {
    match (a.unit.order, b.unit.order)
    case (Some(x), Some(y)) => x < y || (x == y && a.index < b.index)
    case (Some(_), None) => true
    case (None, Some(_)) => false
    case (None, None) => a.index < b.index
  }

  predicate SortedByKey(es: seq<Entry>) {
    forall i, j :: 0 <= i < j < |es| ==> KeyLess(es[i], es[j])
  }

  predicate DistinctIndices(es: seq<Entry>) {
    forall i, j :: 0 <= i < j < |es| ==> es[i].index != es[j].index
  }

  predicate IncreasingIndices(es: seq<Entry>) {
    forall i, j :: 0 <= i < j < |es| ==> es[i].index < es[j].index
  }

  /** The key order is a strict total order on entries with distinct insertion indices. */
  lemma KeyOrder(a: Entry, b: Entry, c: Entry)
    ensures !KeyLess(a, a)
    ensures !(KeyLess(a, b) && KeyLess(b, a))
    ensures KeyLess(a, b) && KeyLess(b, c) ==> KeyLess(a, c)
    ensures a.index != b.index ==> KeyLess(a, b) || KeyLess(b, a)
  {
  }

  /** Insert one entry into a sorted list (one step of sorting). */
  function Insert(e: Entry, s: seq<Entry>): (r: seq<Entry>)
    ensures multiset(r) == multiset(s) + multiset{e}
    ensures |r| == |s| + 1
    decreases |s|
  {
    if s == [] then [e]
    else if KeyLess(s[0], e) then
      assert s == [s[0]] + s[1..];
      [s[0]] + Insert(e, s[1..])
    else [e] + s
  }

  /** Python's `sorted` on the key; the result is a permutation of the input. */
  function SortEntries(es: seq<Entry>): (r: seq<Entry>)
    ensures multiset(r) == multiset(es)
    ensures |r| == |es|
    decreases |es|
  {
    if es == [] then []
    else
      assert es == [es[0]] + es[1..];
      Insert(es[0], SortEntries(es[1..]))
  }

  /** A head below every element of a sorted list extends it to a sorted list. */
  lemma ConsSorted(h: Entry, rest: seq<Entry>)
    requires SortedByKey(rest)
    requires forall x :: x in rest ==> KeyLess(h, x)
    ensures SortedByKey([h] + rest)
  {
    var r := [h] + rest;
    forall i, j | 0 <= i < j < |r| ensures KeyLess(r[i], r[j]) {
      assert r[j] == rest[j - 1];
      if i > 0 {
        assert r[i] == rest[i - 1];
      }
    }
  }

  /** The head of a sorted list is below everything after it. */
  lemma HeadBelowTail(s: seq<Entry>)
    requires SortedByKey(s) && s != []
    ensures forall x :: x in s[1..] ==> KeyLess(s[0], x)
  {
    forall x | x in s[1..] ensures KeyLess(s[0], x) {
      var k :| 0 <= k < |s[1..]| && s[1..][k] == x;
      assert s[k + 1] == x;
    }
  }

  /** Everything in `Insert(e, s)` is `e` or comes from `s`. */
  lemma InsertMembers(e: Entry, s: seq<Entry>)
    ensures forall x :: x in Insert(e, s) ==> x == e || x in s
  {
    var r := Insert(e, s);
    forall x | x in r ensures x == e || x in s {
      assert x in multiset(r);
    }
  }

  lemma {:induction false} InsertSorted(e: Entry, s: seq<Entry>)
    requires SortedByKey(s)
    requires forall x :: x in s ==> x.index != e.index
    ensures SortedByKey(Insert(e, s))
    decreases |s|
  {
    if s != [] {
      HeadBelowTail(s);
      assert s == [s[0]] + s[1..];
      if KeyLess(s[0], e) {
        var tail := s[1..];
        SortedTail(s);
        InsertSorted(e, tail);
        InsertMembers(e, tail);
        ConsSorted(s[0], Insert(e, tail));
      } else {
        KeyOrder(e, s[0], s[0]);
        forall x | x in s ensures KeyLess(e, x) {
          if x != s[0] {
            KeyOrder(e, s[0], x);
          }
        }
        ConsSorted(e, s);
      }
    }
  }

  /** The sorted copy is strictly sorted by key when the insertion indices are distinct. */
  lemma {:induction false} SortEntriesSorted(es: seq<Entry>)
    requires DistinctIndices(es)
    ensures SortedByKey(SortEntries(es))
    decreases |es|
  {
    if es != [] {
      var tail := es[1..];
      assert DistinctIndices(tail) by {
        forall i, j | 0 <= i < j < |tail| ensures tail[i].index != tail[j].index {
          assert tail[i] == es[i + 1] && tail[j] == es[j + 1];
        }
      }
      SortEntriesSorted(tail);
      forall x | x in SortEntries(tail) ensures x.index != es[0].index {
        assert x in multiset(SortEntries(tail));
        assert x in multiset(tail);
        var k :| 0 <= k < |tail| && tail[k] == x;
        assert es[k + 1] == x;
      }
      InsertSorted(es[0], SortEntries(tail));
    }
  }

  lemma SortedTail(a: seq<Entry>)
    requires SortedByKey(a) && a != []
    ensures SortedByKey(a[1..])
  {
    forall x, y | 0 <= x < y < |a[1..]| ensures KeyLess(a[1..][x], a[1..][y]) {
      assert a[1..][x] == a[x + 1] && a[1..][y] == a[y + 1];
    }
  }

  /** Two key-sorted arrangements of the same entries start with the same entry. */
  lemma SortedSameHead(a: seq<Entry>, b: seq<Entry>)
    requires SortedByKey(a) && SortedByKey(b)
    requires multiset(a) == multiset(b) && a != []
    ensures b != [] && a[0] == b[0]
  {
    assert |b| == |multiset(b)| == |a|;
    assert a[0] in multiset(b) && b[0] in multiset(a);
    var j :| 0 <= j < |b| && b[j] == a[0];
    var i :| 0 <= i < |a| && a[i] == b[0];
    if a[0] != b[0] {
      assert KeyLess(a[0], a[i]) && KeyLess(b[0], b[j]);
      KeyOrder(a[0], b[0], b[0]);
      assert false;
    }
  }

  /** Two key-sorted arrangements of the same entries are the same list. */
  lemma {:induction false} SortedUnique(a: seq<Entry>, b: seq<Entry>)
    requires SortedByKey(a) && SortedByKey(b)
    requires multiset(a) == multiset(b)
    ensures a == b
    decreases |a|
  {
    if a == [] {
      assert |b| == |multiset(b)| == 0;
    } else {
      SortedSameHead(a, b);
      assert a == [a[0]] + a[1..] && b == [b[0]] + b[1..];
      assert multiset(a[1..]) == multiset(a) - multiset{a[0]};
      assert multiset(b[1..]) == multiset(b) - multiset{b[0]};
      SortedTail(a);
      SortedTail(b);
      SortedUnique(a[1..], b[1..]);
    }
  }

  /**
   * The ordering law of `compile`: entries with an explicit order come first,
   * ascending; entries without come after all of them; equal orders, and no
   * order among no order, go by insertion index.
   */
  lemma OrderingLaw(es: seq<Entry>, i: nat, j: nat)
    requires DistinctIndices(es)
    requires i < j < |es|
    ensures var r := SortEntries(es);
      && (r[j].unit.order.Some? ==> r[i].unit.order.Some? && r[i].unit.order.value <= r[j].unit.order.value)
      && (r[i].unit.order == r[j].unit.order ==> r[i].index < r[j].index)
  {
    SortEntriesSorted(es);
  }

  // -------------------------------------------------------------------
  // Rendering and filtering of entry lists.

  /** The non-empty renders of the enabled units, in list order. */
  function Renders(es: seq<Entry>, substitutions: map<string, string>): (r: seq<string>)
    reads UnitSet(es)
    ensures forall i :: 0 <= i < |r| ==> r[i] != ""
    ensures |r| <= |es|
    decreases |es|
  {
    if es == [] then []
    else
      var front := es[..|es| - 1];
      var last := es[|es| - 1];
      var done := Renders(front, substitutions);
      if last.unit.enabled && last.unit.Render(substitutions) != "" then done + [last.unit.Render(substitutions)]
      else done
  }

  /** The kept renders come only from enabled units, and every enabled unit's non-empty render is kept. */
  lemma {:induction false} RendersMembers(es: seq<Entry>, substitutions: map<string, string>)
    ensures forall s :: s in Renders(es, substitutions) ==>
      exists e :: e in es && e.unit.enabled && e.unit.Render(substitutions) == s
    ensures forall e :: e in es && e.unit.enabled && e.unit.Render(substitutions) != "" ==>
      e.unit.Render(substitutions) in Renders(es, substitutions)
    decreases |es|
  {
    if es != [] {
      var front, last := es[..|es| - 1], es[|es| - 1];
      RendersMembers(front, substitutions);
      assert es == front + [last];
      forall e | e in es ensures e == last || e in front {
      }
    }
  }

  /** Rendering keeps list order: the renders of a concatenation are the concatenated renders. */
  lemma {:induction false} RendersAppend(a: seq<Entry>, b: seq<Entry>, substitutions: map<string, string>)
    ensures Renders(a + b, substitutions) == Renders(a, substitutions) + Renders(b, substitutions)
    decreases |b|
  {
    if b == [] {
      assert a + b == a;
    } else {
      var front, last := b[..|b| - 1], b[|b| - 1];
      assert b == front + [last];
      assert a + b == (a + front) + [last];
      RendersSnoc(a + front, last, substitutions);
      RendersSnoc(front, last, substitutions);
      RendersAppend(a, front, substitutions);
    }
  }

  /** One more entry adds its render at the end when it is enabled and non-empty. */
  lemma RendersSnoc(es: seq<Entry>, e: Entry, substitutions: map<string, string>)
    ensures Renders(es + [e], substitutions) ==
      Renders(es, substitutions) + (if e.unit.enabled && e.unit.Render(substitutions) != "" then [e.unit.Render(substitutions)] else [])
  {
    assert (es + [e])[..|es|] == es;
  }

  /** `[unit for _, unit in entries if unit.enabled]`. */
  function EnabledOf(es: seq<Entry>): (us: seq<PromptTemplateUnit>)
    reads UnitSet(es)
    ensures |us| <= |es|
    ensures forall u :: u in us ==> u.enabled && exists e :: e in es && e.unit == u
    ensures forall e :: e in es && e.unit.enabled ==> e.unit in us
    decreases |es|
  {
    if es == [] then []
    else
      assert es == [es[0]] + es[1..];
      var rest := EnabledOf(es[1..]);
      if es[0].unit.enabled then [es[0].unit] + rest else rest
  }

  /** One entry contributes its unit exactly when that unit is enabled. */
  lemma EnabledOfOne(e: Entry)
    ensures EnabledOf([e]) == if e.unit.enabled then [e.unit] else []
  {
    assert [e][1..] == [];
  }

  /** Filtering the enabled units distributes over concatenation, so insertion order and repetitions are kept. */
  lemma {:induction false} EnabledOfAppend(a: seq<Entry>, b: seq<Entry>)
    ensures EnabledOf(a + b) == EnabledOf(a) + EnabledOf(b)
    decreases |a|
  {
    if a == [] {
      assert a + b == b;
    } else {
      assert (a + b)[0] == a[0] && (a + b)[1..] == a[1..] + b;
      EnabledOfAppend(a[1..], b);
    }
  }

  /** Every unit enabled exactly when the filter keeps them all, so `enabled/total` is `n/n`. */
  lemma {:induction false} EnabledOfAll(es: seq<Entry>)
    ensures EnabledOf(es) == UnitsOf(es) <==> forall i :: 0 <= i < |es| ==> es[i].unit.enabled
    decreases |es|
  {
    if es != [] {
      EnabledOfAll(es[1..]);
      var rest := EnabledOf(es[1..]);
      if !es[0].unit.enabled {
        assert |rest| <= |es[1..]| < |UnitsOf(es)|;
      } else {
        assert UnitsOf(es) == [es[0].unit] + UnitsOf(es[1..]);
        if forall i :: 1 <= i < |es| ==> es[i].unit.enabled {
          forall i | 0 <= i < |es[1..]| ensures es[1..][i].unit.enabled {
            assert es[1..][i] == es[i + 1];
          }
        } else {
          var j :| 1 <= j < |es| && !es[j].unit.enabled;
          assert es[1..][j - 1] == es[j];
        }
      }
    }
  }

  /** `[unit for _, unit in entries]`. */
  function UnitsOf(es: seq<Entry>): (us: seq<PromptTemplateUnit>)
    ensures |us| == |es|
    ensures forall i :: 0 <= i < |es| ==> us[i] == es[i].unit
    decreases |es|
  {
    if es == [] then [] else [es[0].unit] + UnitsOf(es[1..])
  }

  /** The first position whose unit has the given name, in insertion order. */
  function FirstNamed(es: seq<Entry>, name: string): (k: Option<nat>)
    ensures k.None? <==> forall i :: 0 <= i < |es| ==> es[i].unit.name != name
    ensures k.Some? ==> k.value < |es| && es[k.value].unit.name == name
    ensures k.Some? ==> forall j :: 0 <= j < k.value ==> es[j].unit.name != name
    decreases |es|
  {
    if es == [] then None
    else if es[0].unit.name == name then Some(0)
    else
      match FirstNamed(es[1..], name)
      case None => None
      case Some(k) => Some(k + 1)
  }

  /** `[(i, u) for i, u in entries if u.name != name]`. */
  function WithoutName(es: seq<Entry>, name: string): (r: seq<Entry>)
    ensures |r| <= |es|
    ensures forall e :: e in r ==> e in es && e.unit.name != name
    ensures forall e :: e in es && e.unit.name != name ==> e in r
    decreases |es|
  {
    if es == [] then []
    else
      assert es == [es[0]] + es[1..];
      var rest := WithoutName(es[1..], name);
      if es[0].unit.name != name then [es[0]] + rest else rest
  }

  /** Removal keeps the survivors in their order: filtering distributes over concatenation. */
  lemma {:induction false} WithoutNameAppend(a: seq<Entry>, b: seq<Entry>, name: string)
    ensures WithoutName(a + b, name) == WithoutName(a, name) + WithoutName(b, name)
    decreases |a|
  {
    if a == [] {
      assert a + b == b;
    } else {
      assert (a + b)[0] == a[0] && (a + b)[1..] == a[1..] + b;
      WithoutNameAppend(a[1..], b, name);
    }
  }

  /** The tail of a list with increasing indices has increasing indices, all above the head's. */
  lemma IncreasingTail(es: seq<Entry>)
    requires IncreasingIndices(es) && es != []
    ensures IncreasingIndices(es[1..])
    ensures forall x :: x in es[1..] ==> es[0].index < x.index
  {
    var tail := es[1..];
    forall i, j | 0 <= i < j < |tail| ensures tail[i].index < tail[j].index {
      assert tail[i] == es[i + 1] && tail[j] == es[j + 1];
    }
    forall x | x in tail ensures es[0].index < x.index {
      var k :| 0 <= k < |tail| && tail[k] == x;
      assert es[k + 1] == x;
    }
  }

  /** A head below every index of an increasing list extends it to an increasing list. */
  lemma ConsIncreasing(h: Entry, rest: seq<Entry>)
    requires IncreasingIndices(rest)
    requires forall x :: x in rest ==> h.index < x.index
    ensures IncreasingIndices([h] + rest)
  {
    var r := [h] + rest;
    forall i, j | 0 <= i < j < |r| ensures r[i].index < r[j].index {
      assert r[j] == rest[j - 1];
      if i > 0 {
        assert r[i] == rest[i - 1];
      }
    }
  }

  /** Removal keeps the insertion indices strictly increasing. */
  lemma {:induction false} WithoutNameIncreasing(es: seq<Entry>, name: string)
    requires IncreasingIndices(es)
    ensures IncreasingIndices(WithoutName(es, name))
    decreases |es|
  {
    if es != [] {
      IncreasingTail(es);
      WithoutNameIncreasing(es[1..], name);
      if es[0].unit.name != name {
        ConsIncreasing(es[0], WithoutName(es[1..], name));
      }
    }
  }

  /** Entries numbered from `start`, one per unit, in the units' order. */
  function Numbered(start: nat, us: seq<PromptTemplateUnit>): (es: seq<Entry>)
    ensures |es| == |us|
    ensures forall i :: 0 <= i < |us| ==> es[i] == Entry(start + i, us[i])
  {
    seq(|us|, i requires 0 <= i < |us| => Entry(start + i, us[i]))
  }

  // -------------------------------------------------------------------
  // What `compile` produces, stated without the sorting algorithm.

  /** The compiled text of a list of entries. */
  function Compiled(es: seq<Entry>, substitutions: map<string, string>, separator: string): string
    reads UnitSet(es)
  {
    UnitSetOfPermutation(es, SortEntries(es));
    Join(separator, Renders(SortEntries(es), substitutions))
  }

  lemma UnitSetOfPermutation(a: seq<Entry>, b: seq<Entry>)
    requires multiset(a) == multiset(b)
    ensures UnitSet(a) == UnitSet(b)
  {
    forall u | u in UnitSet(a) ensures u in UnitSet(b) {
      var e :| e in a && e.unit == u;
      assert e in multiset(b);
    }
    forall u | u in UnitSet(b) ensures u in UnitSet(a) {
      var e :| e in b && e.unit == u;
      assert e in multiset(a);
    }
  }

  /** Arranging the entries in any key-sorted order and rendering gives the compiled text. */
  lemma CompiledFromAnySortedArrangement(es: seq<Entry>, arranged: seq<Entry>,
                                         substitutions: map<string, string>, separator: string)
    requires DistinctIndices(es)
    requires SortedByKey(arranged) && multiset(arranged) == multiset(es)
    ensures Compiled(es, substitutions, separator) == Join(separator, Renders(arranged, substitutions))
  {
    SortEntriesSorted(es);
    SortedUnique(SortEntries(es), arranged);
  }

  /** The compiled text is empty exactly when no enabled unit renders to anything. */
  lemma CompiledEmptyIff(es: seq<Entry>, substitutions: map<string, string>, separator: string)
    ensures Compiled(es, substitutions, separator) == ""
        <==> forall e :: e in es && e.unit.enabled ==> e.unit.Render(substitutions) == ""
  {
    var sorted := SortEntries(es);
    var rs := Renders(sorted, substitutions);
    RendersMembers(sorted, substitutions);
    JoinEmptyIff(separator, rs);
    forall e | e in es ensures e in sorted {
      assert e in multiset(es);
    }
    forall e | e in sorted ensures e in es {
      assert e in multiset(sorted);
    }
    if rs != [] {
      assert rs[0] in rs;
    }
  }

  /** Every enabled unit's non-empty render appears in the compiled text. */
  lemma CompiledShowsEachRender(es: seq<Entry>, e: Entry, substitutions: map<string, string>, separator: string)
    requires e in es && e.unit.enabled && e.unit.Render(substitutions) != ""
    ensures Contains(Compiled(es, substitutions, separator), e.unit.Render(substitutions))
  {
    var sorted := SortEntries(es);
    assert e in multiset(es);
    assert e in sorted;
    var rs := Renders(sorted, substitutions);
    RendersMembers(sorted, substitutions);
    var k :| 0 <= k < |rs| && rs[k] == e.unit.Render(substitutions);
    JoinContainsParts(separator, rs, k);
  }

  // -------------------------------------------------------------------

  class Proteas {
    var entries: seq<Entry>
    var counter: nat
    const separator: string

    /** Insertion indices are strictly increasing and all below the counter. */
    ghost predicate Valid()
      reads this
    {
      IncreasingIndices(entries) && forall i :: 0 <= i < |entries| ==> entries[i].index < counter
    }

    constructor (separator: string := "\n\n")
      ensures Valid()
      ensures entries == [] && counter == 0 && this.separator == separator
    {
      entries := [];
      counter := 0;
      this.separator := separator;
    }

    /** `add(unit)`: append (counter, unit) and advance the counter. */
    method Add(unit: PromptTemplateUnit) returns (r: Proteas)
      requires Valid()
      modifies this
      ensures Valid() && r == this
      ensures entries == old(entries) + [Entry(old(counter), unit)]
      ensures counter == old(counter) + 1
    {
      entries := entries + [Entry(counter, unit)];
      counter := counter + 1;
      r := this;
    }

    /** `add_many(units)`: the same as adding the units one by one, in order. */
    method AddMany(units: seq<PromptTemplateUnit>) returns (r: Proteas)
      requires Valid()
      modifies this
      ensures Valid() && r == this
      ensures entries == old(entries) + Numbered(old(counter), units)
      ensures counter == old(counter) + |units|
    {
      var i := 0;
      while i < |units|
        invariant 0 <= i <= |units|
        invariant Valid()
        invariant entries == old(entries) + Numbered(old(counter), units[..i])
        invariant counter == old(counter) + i
      {
        var _ := Add(units[i]);
        assert Numbered(old(counter), units[..i + 1])
            == Numbered(old(counter), units[..i]) + [Entry(old(counter) + i, units[i])];
        i := i + 1;
      }
      assert units[..i] == units;
      r := this;
    }

    /** `compile(**kwargs)`: sort a copy, keep enabled units, drop empty renders, join. */
    method Compile(substitutions: map<string, string>) returns (s: string)
      ensures s == Compiled(entries, substitutions, separator)
    {
      var sorted := SortEntries(entries);
      var rendered: seq<string> := [];
      var i := 0;
      while i < |sorted|
        invariant 0 <= i <= |sorted|
        invariant rendered == Renders(sorted[..i], substitutions)
      {
        var unit := sorted[i].unit;
        assert sorted[..i + 1] == sorted[..i] + [sorted[i]];
        RendersSnoc(sorted[..i], sorted[i], substitutions);
        if unit.enabled {
          var content := unit.Render(substitutions);
          if content != "" {
            rendered := rendered + [content];
          }
        }
        i := i + 1;
      }
      assert sorted[..i] == sorted;
      s := Join(separator, rendered);
    }

    /** `get_unit(name)`: the first unit with that name in insertion order, or None. */
    method GetUnit(name: string) returns (u: Option<PromptTemplateUnit>)
      ensures FirstNamed(entries, name).None? ==> u.None?
      ensures FirstNamed(entries, name).Some? ==> u == Some(entries[FirstNamed(entries, name).value].unit)
    {
      var i := 0;
      while i < |entries|
        invariant 0 <= i <= |entries|
        invariant forall j :: 0 <= j < i ==> entries[j].unit.name != name
      {
        if entries[i].unit.name == name {
          return Some(entries[i].unit);
        }
        i := i + 1;
      }
      return None;
    }

    /** `remove(name)`: drop every entry with that name; the counter stays. */
    method Remove(name: string) returns (r: Proteas)
      requires Valid()
      modifies this
      ensures Valid() && r == this
      ensures entries == WithoutName(old(entries), name)
      ensures counter == old(counter)
    {
      WithoutNameIncreasing(entries, name);
      entries := WithoutName(entries, name);
      r := this;
    }

    /** `clear()`: no entries, and the counter starts again at 0. */
    method Clear() returns (r: Proteas)
      modifies this
      ensures Valid() && r == this
      ensures entries == [] && counter == 0
    {
      entries := [];
      counter := 0;
      r := this;
    }

    /** `enable(name)`: enable the first unit with that name; nothing else changes. */
    method Enable(name: string) returns (r: Proteas)
      modifies UnitSet(entries)
      ensures r == this
      ensures FirstNamed(entries, name).Some? ==> entries[FirstNamed(entries, name).value].unit.enabled
      ensures forall u :: u in UnitSet(entries) && !IsFirstNamed(u, name) ==> u.enabled == old(u.enabled)
    {
      var found := GetUnit(name);
      if found.Some? {
        assert entries[FirstNamed(entries, name).value] in entries;
        var _ := found.value.Enable();
      }
      r := this;
    }

    /** `disable(name)`: disable the first unit with that name; nothing else changes. */
    method Disable(name: string) returns (r: Proteas)
      modifies UnitSet(entries)
      ensures r == this
      ensures FirstNamed(entries, name).Some? ==> !entries[FirstNamed(entries, name).value].unit.enabled
      ensures forall u :: u in UnitSet(entries) && !IsFirstNamed(u, name) ==> u.enabled == old(u.enabled)
    {
      var found := GetUnit(name);
      if found.Some? {
        assert entries[FirstNamed(entries, name).value] in entries;
        var _ := found.value.Disable();
      }
      r := this;
    }

    /** Whether u is the unit `get_unit(name)` finds. */
    predicate IsFirstNamed(u: PromptTemplateUnit, name: string)
      reads this
    {
      FirstNamed(entries, name).Some? && entries[FirstNamed(entries, name).value].unit == u
    }

    /** `units`: all units, in insertion order. */
    function Units(): (us: seq<PromptTemplateUnit>)
      reads this
      ensures |us| == |entries|
      ensures forall i :: 0 <= i < |entries| ==> us[i] == entries[i].unit
    {
      UnitsOf(entries)
    }

    /** `enabled_units`: the enabled units, in insertion order. */
    function EnabledUnits(): (us: seq<PromptTemplateUnit>)
      reads this, UnitSet(entries)
      ensures |us| <= |entries|
      ensures forall u :: u in us ==> u.enabled && u in Units()
      ensures forall i :: 0 <= i < |entries| && entries[i].unit.enabled ==> entries[i].unit in us
    {
      EnabledOf(entries)
    }

    /** `len(p)`: the number of entries held. */
    function Len(): (n: nat)
      reads this
      ensures n == |Units()|
    {
      |entries|
    }

    /** `__str__`: `Proteas(<enabled>/<total> units enabled)`. */
    function Str(): string
      reads this, UnitSet(entries)
    {
      "Proteas(" + NatToString(|EnabledUnits()|) + "/" + NatToString(Len()) + " units enabled)"
    }
  }

  /** The summary reports enabled units over all units, and the first never exceeds the second. */
  lemma StrReportsCounts(p: Proteas)
    ensures Contains(p.Str(), NatToString(|p.EnabledUnits()|) + "/" + NatToString(p.Len()))
    ensures |p.EnabledUnits()| <= p.Len()
  {
    var counts := NatToString(|p.EnabledUnits()|) + "/" + NatToString(p.Len());
    assert p.Str() == "Proteas(" + counts + " units enabled)";
    ContainsMiddle("Proteas(", counts, " units enabled)");
  }

  /** A valid assembler's entries have distinct insertion indices, so its sort is strict. */
  lemma ValidDistinct(p: Proteas)
    requires p.Valid()
    ensures DistinctIndices(p.entries)
    ensures SortedByKey(SortEntries(p.entries))
  {
    SortEntriesSorted(p.entries);
  }
}
