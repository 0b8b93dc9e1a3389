/**
 * The option matrix of the builder: four axes (configurations,
 * architectures, linkage types, compiler versions), each a QMap from an
 * option id to an enabled flag, and the numeric options with their ranges.
 *
 * A QMap keeps its keys in ascending order and iterates in that order, so
 * an axis is modelled as a sequence of entries whose ids strictly increase;
 * ToMap gives the map it stands for.
 */
module OptionMatrix {
  import opened Numbers

  // Option ids. The enum that declares them (qtbuilder.h) is not part of
  // this model: the values below are stand-ins, distinct from each other.
  const Debug: int := 1
  const Release: int := 2
  const X86: int := 3
  const X64: int := 4
  const Shared: int := 5
  const Static: int := 6
  const MSVC2010: int := 7
  const MSVC2012: int := 8
  const MSVC2013: int := 9
  const MSVC2015: int := 10
  const RamDisk: int := 11
  const Cores: int := 12

  datatype Entry = Entry(id: int, on: bool)

  /** One axis: QMap<int, bool>, entries in ascending key order. */
  type Modes = seq<Entry>

  predicate Ordered(m: Modes) {
    forall i, j :: 0 <= i < j < |m| ==> m[i].id < m[j].id
  }

  predicate Increasing(ids: seq<int>) {
    forall i, j :: 0 <= i < j < |ids| ==> ids[i] < ids[j]
  }

  /** The map an axis stands for. */
  function ToMap(m: Modes): map<int, bool>
    decreases |m|
  {
    if m == [] then map[] else ToMap(m[..|m| - 1])[m[|m| - 1].id := m[|m| - 1].on]
  }

  /** Appending an entry updates the map at its id. */
  lemma ToMapAppend(m: Modes, e: Entry)
    ensures ToMap(m + [e]) == ToMap(m)[e.id := e.on]
  {
    var r := m + [e];
    assert r[..|r| - 1] == m;
  }

  lemma UpdatesCommute(a: map<int, bool>, k1: int, v1: bool, k2: int, v2: bool)
    requires k1 != k2
    ensures a[k1 := v1][k2 := v2] == a[k2 := v2][k1 := v1]
  {
  }

  /** Every key of the map is the id of some entry, so it lies below any bound on the ids. */
  lemma {:induction false} KeysBelow(m: Modes, bound: int)
    requires forall i :: 0 <= i < |m| ==> m[i].id < bound
    ensures forall k :: k in ToMap(m) ==> k < bound
    decreases |m|
  {
    if m != [] {
      KeysBelow(m[..|m| - 1], bound);
    }
  }

  /** In an ordered axis the ids before the last one are below it. */
  lemma InitBelowLast(init: Modes, last: Entry)
    requires Ordered(init + [last])
    ensures Ordered(init)
    ensures forall k :: k in ToMap(init) ==> k < last.id
  {
    var m := init + [last];
    forall i | 0 <= i < |init| ensures init[i].id < last.id {
      assert m[i] == init[i] && m[|init|] == last;
    }
    forall i, j | 0 <= i < j < |init| ensures init[i].id < init[j].id {
      assert m[i] == init[i] && m[j] == init[j];
    }
    KeysBelow(init, last.id);
  }

  /** In an ordered axis every entry is what the map holds for its id. */
  lemma {:induction false} ToMapAt(m: Modes, i: int)
    requires Ordered(m) && 0 <= i < |m|
    ensures m[i].id in ToMap(m) && ToMap(m)[m[i].id] == m[i].on
    decreases |m|
  {
    var init, last := m[..|m| - 1], m[|m| - 1];
    assert m == init + [last];
    if i < |m| - 1 {
      InitBelowLast(init, last);
      ToMapAt(init, i);
    }
  }

  /** Appending an entry whose id is above every key keeps an axis ordered. */
  lemma AppendAbove(m: Modes, e: Entry)
    requires Ordered(m)
    requires forall k :: k in ToMap(m) ==> k < e.id
    ensures Ordered(m + [e])
    ensures ToMap(m + [e]) == ToMap(m)[e.id := e.on]
  {
    ToMapAppend(m, e);
    forall i | 0 <= i < |m| ensures m[i].id < e.id {
      ToMapAt(m, i);
    }
  }

  /** QMap::insert: overwrite the flag of `id`, or add the entry in key order. */
  function Insert(m: Modes, id: int, on: bool): (r: Modes)
    requires Ordered(m)
    ensures Ordered(r)
    ensures ToMap(r) == ToMap(m)[id := on]
    decreases |m|
  {
    if m == [] then
      ToMapAppend([], Entry(id, on));
      [Entry(id, on)]
    else
      var init, last := m[..|m| - 1], m[|m| - 1];
      assert m == init + [last];
      InitBelowLast(init, last);
      if last.id < id then
        ToMapAppend(init, last);
        AppendAbove(m, Entry(id, on));
        m + [Entry(id, on)]
      else if last.id == id then
        ToMapAppend(init, last);
        AppendAbove(init, Entry(id, on));
        init + [Entry(id, on)]
      else
        var rest := Insert(init, id, on);
        InsertBelow(init, rest, id, on, last);
        rest + [last]
  }

  /** The step of Insert that puts back an entry whose id is above the inserted one. */
  lemma InsertBelow(init: Modes, rest: Modes, id: int, on: bool, last: Entry)
    requires id < last.id
    requires Ordered(init) && forall k :: k in ToMap(init) ==> k < last.id
    requires Ordered(rest)
    requires ToMap(rest) == ToMap(init)[id := on]
    ensures Ordered(rest + [last])
    ensures ToMap(rest + [last]) == ToMap(init + [last])[id := on]
  {
    AppendAbove(rest, last);
    ToMapAppend(init, last);
    UpdatesCommute(ToMap(init), id, on, last.id, last.on);
  }

  /** QMap::keys(true): the ids whose flag is set, in key order. */
  function EnabledIds(m: Modes): (ids: seq<int>)
    decreases |m|
  {
    if m == [] then []
    else EnabledIds(m[..|m| - 1]) + (if m[|m| - 1].on then [m[|m| - 1].id] else [])
  }

  lemma IncreasingAppend(ids: seq<int>, x: int)
    requires Increasing(ids)
    requires forall i :: 0 <= i < |ids| ==> ids[i] < x
    ensures Increasing(ids + [x])
  {
  }

  /** keys(true) lists exactly the enabled keys, each once, ascending. */
  lemma {:induction false} EnabledIdsExact(m: Modes)
    requires Ordered(m)
    ensures forall k :: k in EnabledIds(m) <==> k in ToMap(m) && ToMap(m)[k]
    ensures Increasing(EnabledIds(m))
    decreases |m|
  {
    if m != [] {
      var init, last := m[..|m| - 1], m[|m| - 1];
      assert m == init + [last];
      InitBelowLast(init, last);
      EnabledIdsExact(init);
      if last.on {
        var ids := EnabledIds(init);
        forall i | 0 <= i < |ids| ensures ids[i] < last.id {
          assert ids[i] in ids;
        }
        IncreasingAppend(ids, last.id);
      }
    }
  }

  /** An axis passes the start check when keys(true) is not empty. */
  predicate AnyEnabled(m: Modes) {
    EnabledIds(m) != []
  }

  lemma AnyEnabledIff(m: Modes)
    requires Ordered(m)
    ensures AnyEnabled(m) <==> exists k :: k in ToMap(m) && ToMap(m)[k]
  {
    EnabledIdsExact(m);
    if AnyEnabled(m) {
      var k := EnabledIds(m)[0];
      assert k in ToMap(m) && ToMap(m)[k];
    }
  }

  /** The entry update in QtBuilder::setup: the flag of key `option` becomes `option` read as a bool. */
  function Assign(e: Entry, option: int): Entry {
    if e.id == option then Entry(e.id, option != 0) else e
  }

  /** An axis after QtBuilder::setup(option) has walked it. */
  function Overwrite(m: Modes, option: int): (r: Modes)
    ensures |r| == |m|
    decreases |m|
  {
    if m == [] then [] else Overwrite(m[..|m| - 1], option) + [Assign(m[|m| - 1], option)]
  }

  /** Overwriting one entry more extends the overwritten prefix by that entry's update. */
  lemma OverwriteSnoc(m: Modes, i: int, option: int)
    requires 0 <= i < |m|
    ensures Overwrite(m[..i + 1], option) == Overwrite(m[..i], option) + [Assign(m[i], option)]
  {
    assert m[..i + 1][..i] == m[..i];
  }

  /** The map after setup(option): only key `option`, if present, changes, and it becomes option != 0. */
  function Toggled(m: map<int, bool>, option: int): map<int, bool> {
    if option in m then m[option := option != 0] else m
  }

  lemma {:induction false} OverwriteEffect(m: Modes, option: int)
    requires Ordered(m)
    ensures Ordered(Overwrite(m, option))
    ensures ToMap(Overwrite(m, option)) == Toggled(ToMap(m), option)
    decreases |m|
  {
    if m != [] {
      var init, last := m[..|m| - 1], m[|m| - 1];
      assert m == init + [last];
      InitBelowLast(init, last);
      OverwriteEffect(init, option);
      OverwriteStep(init, last, option);
    }
  }

  /** The inductive step of OverwriteEffect: one more entry, above all earlier keys. */
  lemma OverwriteStep(init: Modes, last: Entry, option: int)
    requires forall k :: k in ToMap(init) ==> k < last.id
    requires Ordered(Overwrite(init, option))
    requires ToMap(Overwrite(init, option)) == Toggled(ToMap(init), option)
    ensures Ordered(Overwrite(init + [last], option))
    ensures ToMap(Overwrite(init + [last], option)) == Toggled(ToMap(init + [last]), option)
  {
    var m := init + [last];
    assert m[..|m| - 1] == init;
    var a := ToMap(init);
    var rest := Overwrite(init, option);
    var e := Assign(last, option);
    assert Overwrite(m, option) == rest + [e];
    ToggledKeys(a, option);
    AppendAbove(rest, e);
    ToMapAppend(init, last);
    ToggledAbove(a, option, last);
  }

  lemma ToggledKeys(a: map<int, bool>, option: int)
    ensures Toggled(a, option).Keys == a.Keys
  {
  }

  /** Toggling before or after adding a new key gives the same map. */
  lemma ToggledAbove(a: map<int, bool>, option: int, last: Entry)
    requires last.id !in a
    ensures Toggled(a, option)[last.id := Assign(last, option).on] == Toggled(a[last.id := last.on], option)
  {
    if option != last.id && option in a {
      UpdatesCommute(a, option, option != 0, last.id, last.on);
    }
  }

  /** OverwriteEffect for every axis of the matrix. */
  lemma OverwriteEachEffect(before: seq<Modes>, after: seq<Modes>, option: int)
    requires AllOrdered(before) && |after| == |before|
    requires forall j :: 0 <= j < |before| ==> after[j] == Overwrite(before[j], option)
    ensures AllOrdered(after)
    ensures forall j :: 0 <= j < |before| ==> ToMap(after[j]) == Toggled(ToMap(before[j]), option)
  {
    forall j | 0 <= j < |before|
      ensures Ordered(after[j])
      ensures ToMap(after[j]) == Toggled(ToMap(before[j]), option)
    {
      OverwriteEffect(before[j], option);
    }
  }

  /**
   * How far QtBuilder::setup has got: the first i axes are overwritten, the
   * rest untouched, and `saved` holds the ids collected from the first i.
   */
  ghost predicate SetupProgress(before: seq<Modes>, after: seq<Modes>, saved: seq<string>, i: int, option: int) {
    && 0 <= i <= |after| == |before|
    && (forall j :: 0 <= j < i ==> after[j] == Overwrite(before[j], option))
    && (forall j :: i <= j < |before| ==> after[j] == before[j])
    && saved == SavedList(after[..i])
  }

  /** One turn of the outer loop of QtBuilder::setup keeps SetupProgress. */
  lemma SetupProgressStep(before: seq<Modes>, after: seq<Modes>, saved: seq<string>, i: int, option: int, m: Modes, part: seq<string>)
    requires SetupProgress(before, after, saved, i, option) && i < |before|
    requires m == Overwrite(before[i], option) && part == Persisted(m)
    ensures SetupProgress(before, after[i := m], saved + part, i + 1, option)
  {
    SavedListAppend(after[..i], m);
    assert after[..i] + [m] == after[i := m][..i + 1];
  }

  /** The decimal strings of a list of ids, in the same order. */
  function Names(ids: seq<int>): (r: seq<string>)
    ensures |r| == |ids|
    decreases |ids|
  {
    if ids == [] then [] else Names(ids[..|ids| - 1]) + [Number(ids[|ids| - 1])]
  }

  lemma {:induction false} NamesMember(ids: seq<int>, k: int)
    ensures Number(k) in Names(ids) <==> k in ids
    decreases |ids|
  {
    if ids != [] {
      var init := ids[..|ids| - 1];
      NamesMember(init, k);
      assert ids == init + [ids[|ids| - 1]];
      if Number(k) == Number(ids[|ids| - 1]) {
        NumberInjective(k, ids[|ids| - 1]);
      }
    }
  }

  /** What QtBuilder::setup appends for one axis: the enabled ids as decimal strings, in key order. */
  function Persisted(m: Modes): seq<string> {
    Names(EnabledIds(m))
  }

  lemma PersistedExact(m: Modes, k: int)
    requires Ordered(m)
    ensures Number(k) in Persisted(m) <==> k in ToMap(m) && ToMap(m)[k]
  {
    EnabledIdsExact(m);
    NamesMember(EnabledIds(m), k);
  }

  /** Walking one more entry adds its decimal id when its flag is set. */
  lemma PersistedAppend(m: Modes, e: Entry)
    ensures Persisted(m + [e]) == Persisted(m) + (if e.on then [Number(e.id)] else [])
  {
    var r := m + [e];
    assert r[..|r| - 1] == m;
    assert EnabledIds(r) == EnabledIds(m) + (if e.on then [e.id] else []);
    if e.on {
      var ids := EnabledIds(m);
      var x := ids + [e.id];
      assert x[..|x| - 1] == ids;
      assert Names(x) == Names(ids) + [Number(e.id)];
    } else {
      assert EnabledIds(r) == EnabledIds(m);
    }
  }

  /** The whole persisted list: the axes' lists one after another, in axis order. */
  function SavedList(axes: seq<Modes>): seq<string>
    decreases |axes|
  {
    if axes == [] then [] else SavedList(axes[..|axes| - 1]) + Persisted(axes[|axes| - 1])
  }

  lemma SavedListAppend(axes: seq<Modes>, m: Modes)
    ensures SavedList(axes + [m]) == SavedList(axes) + Persisted(m)
  {
    var r := axes + [m];
    assert r[..|r| - 1] == axes;
  }

  predicate AllOrdered(axes: seq<Modes>) {
    forall j :: 0 <= j < |axes| ==> Ordered(axes[j])
  }

  /** Some axis has key k with its flag set. */
  ghost predicate EnabledSomewhere(axes: seq<Modes>, k: int) {
    exists j :: 0 <= j < |axes| && k in ToMap(axes[j]) && ToMap(axes[j])[k]
  }

  lemma EnabledSomewhereAppend(axes: seq<Modes>, m: Modes, k: int)
    ensures EnabledSomewhere(axes + [m], k) <==> EnabledSomewhere(axes, k) || (k in ToMap(m) && ToMap(m)[k])
  {
    var r := axes + [m];
    if EnabledSomewhere(r, k) {
      var j :| 0 <= j < |r| && k in ToMap(r[j]) && ToMap(r[j])[k];
      if j < |axes| {
        assert r[j] == axes[j];
      }
    }
    if EnabledSomewhere(axes, k) {
      var j :| 0 <= j < |axes| && k in ToMap(axes[j]) && ToMap(axes[j])[k];
      assert r[j] == axes[j];
    }
    if k in ToMap(m) && ToMap(m)[k] {
      assert r[|axes|] == m;
    }
  }

  /** An id is in the saved list exactly when some axis has it enabled. */
  lemma {:induction false} SavedListExact(axes: seq<Modes>, k: int)
    requires AllOrdered(axes)
    ensures Number(k) in SavedList(axes) <==> EnabledSomewhere(axes, k)
    decreases |axes|
  {
    if axes != [] {
      var init, last := axes[..|axes| - 1], axes[|axes| - 1];
      assert axes == init + [last];
      SavedListExact(init, k);
      PersistedExact(last, k);
      SavedListAppend(init, last);
      EnabledSomewhereAppend(init, last, k);
    }
  }

  /** QtBuildSettings::set: the flag restored for `opt` from the persisted list, or its default. */
  function Restored(settings: seq<string>, opt: int, def: bool): bool {
    Number(opt) in settings || def
  }

  /**
   * Restoring from a list of rendered ids: option `opt` comes back enabled
   * exactly when its id is in the list or its default is true.
   */
  lemma RestoredFromIds(ids: seq<int>, opt: int, def: bool)
    ensures Restored(Names(ids), opt, def) <==> opt in ids || def
  {
    NamesMember(ids, opt);
  }

  /**
   * Saving the matrix and restoring it gives every option its saved flag,
   * or true when its default is true.
   */
  lemma RestoreAfterSave(axes: seq<Modes>, j: int, opt: int, def: bool)
    requires AllOrdered(axes)
    requires 0 <= j < |axes| && opt in ToMap(axes[j])
    requires forall i :: 0 <= i < |axes| && i != j ==> opt !in ToMap(axes[i])
    ensures Restored(SavedList(axes), opt, def) == (ToMap(axes[j])[opt] || def)
  {
    SavedListExact(axes, opt);
    if EnabledSomewhere(axes, opt) {
      var i :| 0 <= i < |axes| && opt in ToMap(axes[i]) && ToMap(axes[i])[opt];
    }
  }

  /** A closed range of a numeric option (Range(lo, hi)). */
  datatype Range = Range(lo: int, hi: int) {
    predicate Contains(v: int) {
      lo <= v <= hi
    }
  }

  /** The default job count, qMax(cores - 1, 1): within Range(1, cores) exactly when cores >= 1. */
  function DefaultCores(cores: int): (n: int)
    ensures n >= 1
    ensures Range(1, cores).Contains(n) <==> cores >= 1
    ensures cores >= 2 ==> n == cores - 1
    ensures cores <= 2 ==> n == 1
  {
    if cores - 1 > 1 then cores - 1 else 1
  }

  const DefaultRamDisk: int := 4
  const RamDiskRange: Range := Range(3, 10)

  lemma DefaultRamDiskInRange()
    ensures RamDiskRange.Contains(DefaultRamDisk)
  {
  }
}
