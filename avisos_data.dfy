/**
 * The data side of the widget script (avisos-meteo.js): `groupByType`, which
 * partitions the warnings by type while normalising each record and tracking
 * each group's highest level, and `buildLevelSummaries`, which keeps the first
 * item of each level and ranks them by descending severity.
 *
 * Both functions fill a plain object in place inside `forEach`; here they are
 * methods with loops, proved against the reference functions `Grouped` and
 * `LevelSummaries`, whose properties are proved as lemmas.
 */
module AvisosData {
  import opened Records
  import opened Text
  import opened Collect
  import opened Sorting
  import opened AvisosLevels

  /** A record as `groupByType` stores it: type and level defaulted, level lower-cased, text defaulted. */
  datatype Item = Item(kind: string, level: string, start: Option<string>, end: Option<string>, text: string)

  /** One entry of the map built by `groupByType`. */
  datatype Group = Group(kind: string, items: seq<Item>, maxLevel: string)

  /** `w.type || "Aviso"`: the key a record is grouped under. */
  function TypeOf(w: Warning): string {
    OrDefault(w.kind, "Aviso")
  }

  /** The object pushed onto `map[type].items` for `w`. */
  function Normalize(w: Warning): Item {
    Item(TypeOf(w), NormLevel(w), w.start, w.end, OrDefault(w.text, ""))
  }

  function NormalizeAll(ws: seq<Warning>): seq<Item>
  {
    seq(|ws|, i requires 0 <= i < |ws| => Normalize(ws[i]))
  }

  function GroupKind(g: Group): string {
    g.kind
  }

  function LevelKey(it: Item): string {
    it.level
  }

  /** The group of type `k`: its records in input order, and their highest level. */
  function GroupOf(k: string, ws: seq<Warning>): Group {
    var items := NormalizeAll(Bucket(ws, TypeOf, k));
    Group(k, items, MaxLevelOf(Keys(items, LevelKey)))
  }

  function GroupsFor(ws: seq<Warning>, ks: seq<string>): seq<Group>
  {
    seq(|ks|, j requires 0 <= j < |ks| => GroupOf(ks[j], ws))
  }

  /** `groupByType(ws)` as a value: one group per distinct type, in order of first encounter. */
  function Grouped(ws: seq<Warning>): seq<Group> {
    GroupsFor(ws, Distinct(Keys(ws, TypeOf)))
  }

  /** One step of the loop: push the item and raise `maxLevel` if the item's level is strictly higher. */
  function Push(g: Group, it: Item): Group {
    Group(g.kind, g.items + [it], Raise(g.maxLevel, it.level))
  }

  lemma MaxLevelOfAppend(ls: seq<string>, l: string)
    ensures MaxLevelOf(ls + [l]) == Raise(MaxLevelOf(ls), l)
  {
    assert (ls + [l])[..|ls|] == ls;
  }

  lemma GroupOfAppend(k: string, ws: seq<Warning>, w: Warning)
    ensures GroupOf(k, ws + [w]) ==
      if TypeOf(w) == k then Push(GroupOf(k, ws), Normalize(w)) else GroupOf(k, ws)
  {
    BucketAppend(ws, w, TypeOf, k);
    if TypeOf(w) == k {
      var b := Bucket(ws, TypeOf, k);
      var items := NormalizeAll(b);
      NormalizeAllAppend(b, w);
      KeysAppend(items, Normalize(w), LevelKey);
      MaxLevelOfAppend(Keys(items, LevelKey), Normalize(w).level);
      calc {
        GroupOf(k, ws + [w]);
        Group(k, items + [Normalize(w)], MaxLevelOf(Keys(items + [Normalize(w)], LevelKey)));
        Group(k, items + [Normalize(w)], Raise(MaxLevelOf(Keys(items, LevelKey)), Normalize(w).level));
        Push(GroupOf(k, ws), Normalize(w));
      }
    }
  }

  lemma NormalizeAllAppend(ws: seq<Warning>, w: Warning)
    ensures NormalizeAll(ws + [w]) == NormalizeAll(ws) + [Normalize(w)]
  {
  }

  /** The groups carry the distinct types, in order of first encounter. */
  lemma GroupedKinds(ws: seq<Warning>)
    ensures Keys(Grouped(ws), GroupKind) == Distinct(Keys(ws, TypeOf))
  {
    var ks := Distinct(Keys(ws, TypeOf));
    var gs := Grouped(ws);
    assert |gs| == |ks|;
    forall j | 0 <= j < |ks| ensures Keys(gs, GroupKind)[j] == ks[j] {
      assert Keys(gs, GroupKind)[j] == GroupKind(gs[j]);
      assert gs[j] == GroupOf(ks[j], ws);
    }
  }

  /** The groups of the types seen before `w` are kept, and the one of its own type is pushed onto. */
  lemma GroupedAppendAt(ws: seq<Warning>, w: Warning, j: nat)
    requires j < |Distinct(Keys(ws, TypeOf))|
    ensures j < |Grouped(ws + [w])|
    ensures Grouped(ws + [w])[j] ==
      if Grouped(ws)[j].kind == TypeOf(w) then Push(Grouped(ws)[j], Normalize(w)) else Grouped(ws)[j]
  {
    var ds := Distinct(Keys(ws, TypeOf));
    KeysAppend(ws, w, TypeOf);
    DistinctAppend(Keys(ws, TypeOf), TypeOf(w));
    assert Distinct(Keys(ws + [w], TypeOf))[j] == ds[j];
    GroupOfAppend(ds[j], ws, w);
  }

  /** The number of groups grows by one exactly when the type of `w` is new. */
  lemma GroupedAppendLength(ws: seq<Warning>, w: Warning)
    ensures |Grouped(ws + [w])| ==
      |Grouped(ws)| + (if TypeOf(w) in Distinct(Keys(ws, TypeOf)) then 0 else 1)
  {
    KeysAppend(ws, w, TypeOf);
    DistinctAppend(Keys(ws, TypeOf), TypeOf(w));
  }

  /** A record of a type already seen is pushed onto that type's group. */
  lemma GroupedAppendSeen(ws: seq<Warning>, w: Warning, j: nat)
    requires j < |Distinct(Keys(ws, TypeOf))| && Distinct(Keys(ws, TypeOf))[j] == TypeOf(w)
    ensures Grouped(ws + [w]) == Grouped(ws)[j := Push(Grouped(ws)[j], Normalize(w))]
  {
    var ds := Distinct(Keys(ws, TypeOf));
    var gs, gs' := Grouped(ws), Grouped(ws + [w]);
    GroupedAppendLength(ws, w);
    forall j' | 0 <= j' < |gs| && j' != j ensures gs'[j'] == gs[j'] {
      GroupedAppendAt(ws, w, j');
      assert gs[j'].kind == ds[j'] != ds[j];
    }
    GroupedAppendAt(ws, w, j);
    UpdatedAt(gs, gs', j, Push(gs[j], Normalize(w)));
  }

  /** The group opened for a new type holds just the record's item. */
  lemma GroupedAppendOpened(ws: seq<Warning>, w: Warning)
    requires TypeOf(w) !in Distinct(Keys(ws, TypeOf))
    ensures |Distinct(Keys(ws, TypeOf))| < |Grouped(ws + [w])|
    ensures Grouped(ws + [w])[|Distinct(Keys(ws, TypeOf))|] == Push(Group(TypeOf(w), [], "green"), Normalize(w))
  {
    var ds, k := Distinct(Keys(ws, TypeOf)), TypeOf(w);
    KeysAppend(ws, w, TypeOf);
    DistinctAppend(Keys(ws, TypeOf), k);
    assert Distinct(Keys(ws + [w], TypeOf))[|ds|] == k;
    BucketOfAbsentKey(ws, TypeOf, k);
    GroupOfAppend(k, ws, w);
  }

  /** A record of a new type opens a group `{ type, items: [], maxLevel: "green" }` at the end. */
  lemma GroupedAppendNew(ws: seq<Warning>, w: Warning)
    requires TypeOf(w) !in Distinct(Keys(ws, TypeOf))
    ensures Grouped(ws + [w]) == Grouped(ws) + [Push(Group(TypeOf(w), [], "green"), Normalize(w))]
  {
    var gs, gs' := Grouped(ws), Grouped(ws + [w]);
    GroupedAppendLength(ws, w);
    GroupedAppendOpened(ws, w);
    forall j' | 0 <= j' < |gs| ensures gs'[j'] == gs[j'] {
      GroupedAppendAt(ws, w, j');
    }
    ExtendedBy(gs, gs', Push(Group(TypeOf(w), [], "green"), Normalize(w)));
  }

  /** How the map changes when one more record is processed, found with `map[type]`. */
  lemma GroupedAppend(ws: seq<Warning>, w: Warning)
    ensures
      var gs := Grouped(ws);
      var j := IndexOfKey(gs, GroupKind, TypeOf(w));
      Grouped(ws + [w]) ==
        if j < |gs| then gs[j := Push(gs[j], Normalize(w))]
        else gs + [Push(Group(TypeOf(w), [], "green"), Normalize(w))]
  {
    var gs := Grouped(ws);
    GroupedKinds(ws);
    IndexOfKeyFound(gs, GroupKind, TypeOf(w));
    if TypeOf(w) in Distinct(Keys(ws, TypeOf)) {
      GroupedAppendSeen(ws, w, IndexOfKey(gs, GroupKind, TypeOf(w)));
    } else {
      GroupedAppendNew(ws, w);
    }
  }

  /** The body of `warnings.forEach` in `groupByType`: file one record under `map[type]`. */
  method AddRecord(groups: seq<Group>, w: Warning) returns (groups': seq<Group>)
    ensures var j := IndexOfKey(groups, GroupKind, TypeOf(w));
      groups' == if j < |groups| then groups[j := Push(groups[j], Normalize(w))]
        else groups + [Push(Group(TypeOf(w), [], "green"), Normalize(w))]
  {
    var kind := OrDefault(w.kind, "Aviso");
    var level := Lower(OrDefault(w.level, "green"));
    var item := Item(kind, level, w.start, w.end, OrDefault(w.text, ""));
    var j := IndexOfKey(groups, GroupKind, kind);
    groups' := groups;
    if j == |groups| {
      groups' := groups' + [Group(kind, [], "green")];
    }
    var g := groups'[j];
    ghost var g0 := g;
    g := g.(items := g.items + [item]);
    if Priority(level) > Priority(g.maxLevel) {
      g := g.(maxLevel := level);
    }
    assert g == Push(g0, item);
    groups' := groups'[j := g];
  }

  /** `groupByType(warnings)`. */
  method GroupByType(ws: seq<Warning>) returns (groups: seq<Group>)
    ensures groups == Grouped(ws)
  {
    groups := [];
    for i := 0 to |ws|
      invariant groups == Grouped(ws[..i])
    {
      assert ws[..i + 1] == ws[..i] + [ws[i]];
      GroupedAppend(ws[..i], ws[i]);
      groups := AddRecord(groups, ws[i]);
    }
    assert ws[..|ws|] == ws;
  }

  /** Total number of items over `groups`. */
  function ItemCount(groups: seq<Group>): nat {
    if groups == [] then 0
    else ItemCount(groups[..|groups| - 1]) + |groups[|groups| - 1].items|
  }

  lemma {:induction false} GroupsForCount(ws: seq<Warning>, ks: seq<string>)
    ensures ItemCount(GroupsFor(ws, ks)) == SizeSum(ws, TypeOf, ks)
  {
    if ks != [] {
      var q := ks[..|ks| - 1];
      GroupsForCount(ws, q);
      assert GroupsFor(ws, ks)[..|ks| - 1] == GroupsFor(ws, q);
    }
  }

  /** The groups partition the input: their item counts add up to the number of records. */
  lemma GroupedPartition(ws: seq<Warning>)
    ensures ItemCount(Grouped(ws)) == |ws|
  {
    GroupsForCount(ws, Distinct(Keys(ws, TypeOf)));
    BucketsCover(ws, TypeOf);
  }

  /** No two groups share a type, and the groups come in order of each type's first record. */
  lemma GroupsInFirstEncounterOrder(ws: seq<Warning>)
    ensures forall i, j :: 0 <= i < j < |Grouped(ws)| ==> Grouped(ws)[i].kind != Grouped(ws)[j].kind
    ensures forall i, j :: 0 <= i < j < |Grouped(ws)| ==>
      FirstIndex(Keys(ws, TypeOf), Grouped(ws)[i].kind) < FirstIndex(Keys(ws, TypeOf), Grouped(ws)[j].kind)
  {
    DistinctInFirstEncounterOrder(Keys(ws, TypeOf));
  }

  /**
   * Every record, normalised, lands in the group that the lookup `map[type]`
   * finds for its type `w.type || "Aviso"`; that group's items are the
   * records of that type, normalised, in input order.
   */
  lemma RecordLandsInItsGroup(ws: seq<Warning>, i: int)
    requires 0 <= i < |ws|
    ensures
      var gs := Grouped(ws);
      var j := IndexOfKey(gs, GroupKind, TypeOf(ws[i]));
      && j < |gs|
      && gs[j].kind == TypeOf(ws[i])
      && gs[j].items == NormalizeAll(Bucket(ws, TypeOf, TypeOf(ws[i])))
      && Normalize(ws[i]) in gs[j].items
      && forall it :: it in gs[j].items ==> it.kind == gs[j].kind
  {
    var k := TypeOf(ws[i]);
    assert Keys(ws, TypeOf)[i] == k;
    LookupFindsGroupOf(ws, k);
    GroupOfItems(ws, i);
  }

  /** The lookup `map[k]` of a type that occurs finds the group `GroupOf(k, ws)`. */
  lemma LookupFindsGroupOf(ws: seq<Warning>, k: string)
    requires k in Keys(ws, TypeOf)
    ensures IndexOfKey(Grouped(ws), GroupKind, k) < |Grouped(ws)|
    ensures Grouped(ws)[IndexOfKey(Grouped(ws), GroupKind, k)] == GroupOf(k, ws)
  {
    var gs := Grouped(ws);
    var ds := Distinct(Keys(ws, TypeOf));
    GroupedKinds(ws);
    IndexOfKeyFound(gs, GroupKind, k);
    var j := IndexOfKey(gs, GroupKind, k);
    assert gs[j] == GroupOf(ds[j], ws);
  }

  /** The group of a record's type holds that record, normalised, and only items of that type. */
  lemma GroupOfItems(ws: seq<Warning>, i: int)
    requires 0 <= i < |ws|
    ensures Normalize(ws[i]) in GroupOf(TypeOf(ws[i]), ws).items
    ensures forall it :: it in GroupOf(TypeOf(ws[i]), ws).items ==> it.kind == TypeOf(ws[i])
  {
    var k := TypeOf(ws[i]);
    var b := Bucket(ws, TypeOf, k);
    var items := NormalizeAll(b);
    assert ws[i] in b;
    var m :| 0 <= m < |b| && b[m] == ws[i];
    assert items[m] == Normalize(ws[i]);
    forall it | it in items ensures it.kind == k {
      var n :| 0 <= n < |items| && items[n] == it;
      assert items[n] == Normalize(b[n]);
    }
  }

  /**
   * A group's `maxLevel` is one of the four known levels, with priority the
   * highest among its items' levels (green at least), and it is either "green"
   * or the level of one of its items.
   */
  lemma GroupMaxLevel(ws: seq<Warning>, j: int)
    requires 0 <= j < |Grouped(ws)|
    ensures
      var g := Grouped(ws)[j];
      && g.maxLevel in LevelNames
      && Priority(g.maxLevel) == Max(1, MaxPriority(Keys(g.items, LevelKey)))
      && (g.maxLevel == "green" || exists m :: 0 <= m < |g.items| && g.items[m].level == g.maxLevel)
  {
    var g := Grouped(ws)[j];
    MaxLevelOfIsFirstMaximum(Keys(g.items, LevelKey));
  }

  /** `cmp(a, b) = priority(b.level) - priority(a.level)`, read as "`a` may stand before `b`". */
  function SeverityFirst(a: Item, b: Item): bool {
    Priority(b.level) - Priority(a.level) <= 0
  }

  lemma SeverityFirstTotalPreorder()
    ensures TotalPreorder(SeverityFirst)
  {
  }

  /** `buildLevelSummaries(items)` as a value. */
  function LevelSummaries(items: seq<Item>): seq<Item> {
    SortBy(FirstPerKey(items, LevelKey), SeverityFirst)
  }

  /** `buildLevelSummaries(items)`. */
  method BuildLevelSummaries(items: seq<Item>) returns (summaries: seq<Item>)
    ensures summaries == LevelSummaries(items)
  {
    var firsts: seq<Item> := [];
    for i := 0 to |items|
      invariant firsts == FirstPerKey(items[..i], LevelKey)
    {
      var w := items[i];
      assert items[..i + 1] == items[..i] + [w];
      FirstPerKeyStep(items[..i], w, LevelKey);
      if IndexOfKey(firsts, LevelKey, w.level) == |firsts| {
        firsts := firsts + [w];
      }
    }
    assert items[..|items|] == items;
    summaries := SortBy(firsts, SeverityFirst);
  }

  /**
   * Exactly one summary per distinct level of the items, each the first item
   * of its level, ordered by descending priority; summaries of equal priority
   * keep the order in which their levels first appear.
   */
  lemma LevelSummariesSpec(items: seq<Item>)
    ensures var r := LevelSummaries(items);
      && (forall k :: k in Keys(r, LevelKey) <==> k in Keys(items, LevelKey))
      && NoDuplicates(Keys(r, LevelKey))
      && (forall j :: 0 <= j < |r| ==> IsFirstOccurrence(items, LevelKey, r[j]))
      && (forall i, j :: 0 <= i < j < |r| ==> Priority(r[i].level) >= Priority(r[j].level))
      && (forall t :: Ties(r, SeverityFirst, t) == Ties(FirstPerKey(items, LevelKey), SeverityFirst, t))
  {
    var firsts := FirstPerKey(items, LevelKey);
    var r := LevelSummaries(items);
    FirstPerKeySpec(items, LevelKey);
    SeverityFirstTotalPreorder();
    SortBySorted(firsts, SeverityFirst);
    forall t ensures Ties(r, SeverityFirst, t) == Ties(firsts, SeverityFirst, t) {
      SortByStable(firsts, SeverityFirst, t);
    }
    PermutationKeepsDistinctKeys(firsts, r, LevelKey);
    PermutationKeepsKeys(firsts, r, LevelKey);
    forall j | 0 <= j < |r| ensures IsFirstOccurrence(items, LevelKey, r[j]) {
      var m := PositionInPermutation(r, firsts, j);
    }
  }
}
